/**
 * The libsysio name space: base nodes form one tree per file system, path nodes are the
 * aliases of base nodes in each mount, and a mount's root covers a path node of another
 * mount.  Records are named by allocation numbers, so a record is always younger than the
 * record it was created under.
 */
module NameSpace {
  import opened Prelude

  datatype Kind = Directory | Symlink | Other

  datatype Base = Base(name: string, ino: Option<Kind>, parent: Option<nat>, children: seq<nat>, aliases: seq<nat>)

  datatype Pnode = Pnode(ref: nat, parent: nat, base: nat, mount: nat, cover: Option<nat>)

  datatype Mount = Mount(root: nat, covers: nat)

  datatype Ns = Ns(
    bases: map<nat, Base>, pnodes: map<nat, Pnode>, mounts: map<nat, Mount>,
    nextBase: nat, nextPnode: nat, nextMount: nat, root: nat)

  // ---------------------------------------------------------------- well-formedness

  predicate IsRoot(s: Ns, p: nat)
    requires p in s.pnodes
  {
    s.pnodes[p].mount in s.mounts && s.mounts[s.pnodes[p].mount].root == p
  }

  ghost predicate BaseOk(s: Ns, b: nat)
    requires b in s.bases
  {
    var x := s.bases[b];
    && b < s.nextBase && Distinct(x.children) && Distinct(x.aliases)
    && (forall c :: c in x.children ==> c in s.bases && s.bases[c].parent == Some(b))
    && (forall p :: p in x.aliases ==> p in s.pnodes && s.pnodes[p].base == b)
    && (x.parent.Some? ==> x.parent.value in s.bases && x.parent.value < b && b in s.bases[x.parent.value].children)
  }

  /** A node other than a mount's root sits under a node of its own mount, above which its base's parent is. */
  ghost predicate NodeOk(s: Ns, p: nat)
    requires p in s.pnodes
  {
    var x := s.pnodes[p];
    && p < s.nextPnode && x.base in s.bases && p in s.bases[x.base].aliases && x.mount in s.mounts
    && (x.cover.Some? ==> x.ref > 0)
    && (!IsRoot(s, p) ==> x.parent in s.pnodes && x.parent < p && s.pnodes[x.parent].mount == x.mount
                          && s.bases[x.base].parent == Some(s.pnodes[x.parent].base))
  }

  predicate Twins(x: Pnode, y: Pnode) { x.base == y.base && x.mount == y.mount }

  ghost predicate BasesOk(s: Ns) { forall b :: b in s.bases ==> BaseOk(s, b) }

  /** One alias per base and mount. */
  ghost predicate NodesOk(s: Ns) {
    && (forall p :: p in s.pnodes ==> NodeOk(s, p))
    && (forall p, q :: p in s.pnodes && q in s.pnodes && Twins(s.pnodes[p], s.pnodes[q]) ==> p == q)
  }

  ghost predicate RootsOk(s: Ns) {
    forall m :: m in s.mounts ==>
      m < s.nextMount && s.mounts[m].root in s.pnodes && s.pnodes[s.mounts[m].root].mount == m
  }

  ghost predicate TreeOk(s: Ns) { BasesOk(s) && NodesOk(s) && RootsOk(s) }

  // ---------------------------------------------------------------- lists

  /** A list without the members of a set. */
  function Minus(q: seq<nat>, d: set<nat>): (r: seq<nat>)
    ensures forall x :: x in r <==> x in q && x !in d
  {
    if q == [] then [] else if q[0] in d then Minus(q[1..], d) else [q[0]] + Minus(q[1..], d)
  }

  lemma {:induction false} MinusMinus(q: seq<nat>, d: set<nat>, e: set<nat>)
    ensures Minus(Minus(q, d), e) == Minus(q, d + e)
  {
    if q == [] {
    } else {
      MinusMinus(q[1..], d, e);
      if q[0] !in d {
        assert Minus(q, d)[1..] == Minus(q[1..], d);
      }
    }
  }

  lemma {:induction false} MinusNone(q: seq<nat>, d: set<nat>)
    requires forall x :: x in q ==> x !in d
    ensures Minus(q, d) == q
  {
    if q == [] {
    } else {
      assert forall x :: x in q[1..] ==> x in q;
      MinusNone(q[1..], d);
    }
  }

  lemma {:induction false} WithoutIsMinus(q: seq<nat>, x: nat)
    requires Distinct(q)
    ensures Without(q, x) == Minus(q, {x})
  {
    if x !in q {
      MinusNone(q, {x});
    } else if q[0] == x {
      assert Without(q, x) == q[1..];
      MinusNone(q[1..], {x});
    } else {
      WithoutIsMinus(q[1..], x);
      var k := IndexOf(q[1..], x);
      assert IndexOf(q, x) == k + 1;
      assert q[..k + 1] + q[k + 2..] == [q[0]] + (q[1..][..k] + q[1..][k + 1..]);
    }
  }

  // ---------------------------------------------------------------- growth and decay

  /** P_REF and P_RELE. */
  function SetRef(s: Ns, p: nat, ref: nat): Ns
    requires p in s.pnodes
  {
    s.(pnodes := s.pnodes[p := s.pnodes[p].(ref := ref)])
  }

  function PRef(s: Ns, p: nat): Ns
    requires p in s.pnodes
  {
    SetRef(s, p, s.pnodes[p].ref + 1)
  }

  function PRele(s: Ns, p: nat): Ns
    requires p in s.pnodes && s.pnodes[p].ref > 0
  {
    SetRef(s, p, s.pnodes[p].ref - 1)
  }

  function PbNew(s: Ns, name: string, parent: nat): Ns
    requires parent in s.bases
  {
    var par := s.bases[parent];
    s.(bases := s.bases[parent := par.(children := [s.nextBase] + par.children)]
                       [s.nextBase := Base(name, None, Some(parent), [], [])],
       nextBase := s.nextBase + 1)
  }

  /** The new alias carries one reference. */
  function PNewAlias(s: Ns, parent: nat, b: nat, m: nat): Ns
    requires b in s.bases
  {
    s.(bases := s.bases[b := s.bases[b].(aliases := [s.nextPnode] + s.bases[b].aliases)],
       pnodes := s.pnodes[s.nextPnode := Pnode(1, parent, b, m, None)],
       nextPnode := s.nextPnode + 1)
  }

  function PbGone(s: Ns, b: nat): Ns
    requires b in s.bases && (s.bases[b].parent.Some? ==> s.bases[b].parent.value in s.bases)
  {
    var bases :=
      match s.bases[b].parent
      case None => s.bases
      case Some(q) => s.bases[q := s.bases[q].(children := Without(s.bases[q].children, b))];
    s.(bases := bases - {b})
  }

  /** Takes the alias off its base's list. */
  function Unalias(s: Ns, p: nat): Ns
    requires p in s.pnodes && s.pnodes[p].base in s.bases
  {
    var b := s.pnodes[p].base;
    s.(pnodes := s.pnodes - {p}, bases := s.bases[b := s.bases[b].(aliases := Without(s.bases[b].aliases, p))])
  }

  function PGone(s: Ns, p: nat): Ns
    requires p in s.pnodes && s.pnodes[p].base in s.bases
    requires var b := s.bases[s.pnodes[p].base]; b.parent.Some? ==> b.parent.value in s.bases
  {
    var u := Unalias(s, p);
    var b := s.pnodes[p].base;
    if u.bases[b].aliases == [] && u.bases[b].children == [] then PbGone(u, b) else u
  }

  // ---------------------------------------------------------------- what decay keeps

  /** A base node with some of its children and aliases gone. */
  ghost predicate Trimmed(x: Base, y: Base, bs: set<nat>, ps: set<nat>) {
    y == x.(children := Minus(x.children, bs), aliases := Minus(x.aliases, ps))
  }

  /** From `s` to `t` the aliases `ps` and some base nodes went, and nothing else changed. */
  ghost predicate Smaller(s: Ns, t: Ns, ps: set<nat>) {
    && t == s.(bases := t.bases, pnodes := t.pnodes)
    && t.pnodes == s.pnodes - ps && t.bases.Keys <= s.bases.Keys
    && forall b :: b in t.bases ==> Trimmed(s.bases[b], t.bases[b], s.bases.Keys - t.bases.Keys, ps)
  }

  lemma TrimmedTwice(x: Base, y: Base, z: Base, bs: set<nat>, ps: set<nat>, bs': set<nat>, ps': set<nat>)
    requires Trimmed(x, y, bs, ps) && Trimmed(y, z, bs', ps')
    ensures Trimmed(x, z, bs + bs', ps + ps')
  {
    MinusMinus(x.children, bs, bs');
    MinusMinus(x.aliases, ps, ps');
  }

  lemma SmallerTrans(s: Ns, t: Ns, u: Ns, ps: set<nat>, qs: set<nat>)
    requires Smaller(s, t, ps) && Smaller(t, u, qs)
    ensures Smaller(s, u, ps + qs)
  {
    hide Trimmed;
    assert (s.bases.Keys - t.bases.Keys) + (t.bases.Keys - u.bases.Keys) == s.bases.Keys - u.bases.Keys;
    assert u.pnodes == s.pnodes - (ps + qs);
    forall b | b in u.bases ensures Trimmed(s.bases[b], u.bases[b], s.bases.Keys - u.bases.Keys, ps + qs) {
      TrimmedTwice(s.bases[b], t.bases[b], u.bases[b], s.bases.Keys - t.bases.Keys, ps, t.bases.Keys - u.bases.Keys,
        qs);
    }
  }

  lemma SmallerSelf(s: Ns)
    ensures Smaller(s, s, {})
  {
    forall b | b in s.bases ensures Trimmed(s.bases[b], s.bases[b], {}, {}) {
      MinusNone(s.bases[b].children, {});
      MinusNone(s.bases[b].aliases, {});
    }
    assert s.bases.Keys - s.bases.Keys == {};
    assert s.pnodes == s.pnodes - {};
  }

  /** Base `b` is at or under `r` in its file system's tree. */
  ghost predicate BaseUnder(s: Ns, b: nat, r: nat)
    decreases b
  {
    b in s.bases && (b == r || match s.bases[b].parent case None => false case Some(q) => q < b && BaseUnder(s, q, r))
  }

  lemma {:induction false} BaseUnderAge(s: Ns, b: nat, r: nat)
    requires BaseUnder(s, b, r)
    ensures b >= r
    decreases b
  {
    if b == r {
    } else {
      BaseUnderAge(s, s.bases[b].parent.value, r);
    }
  }

  /** All base nodes outside the sub-tree at `r` are still there. */
  ghost predicate Outside(s: Ns, t: Ns, r: nat) {
    forall b :: b in s.bases && !BaseUnder(s, b, r) ==> b in t.bases
  }

  lemma {:induction false} BaseUnderSmaller(s: Ns, t: Ns, ps: set<nat>, b: nat, r: nat)
    requires Smaller(s, t, ps) && BaseUnder(t, b, r)
    ensures BaseUnder(s, b, r)
    decreases b
  {
    if b == r {
    } else {
      BaseUnderSmaller(s, t, ps, t.bases[b].parent.value, r);
    }
  }

  lemma {:induction false} BaseUnderTrans(s: Ns, a: nat, b: nat, c: nat)
    requires BaseUnder(s, a, b) && BaseUnder(s, b, c)
    ensures BaseUnder(s, a, c)
    decreases a
  {
    if a == b {
    } else {
      BaseUnderTrans(s, s.bases[a].parent.value, b, c);
    }
  }

  lemma OutsideTrans(s: Ns, t: Ns, u: Ns, ps: set<nat>, r: nat, q: nat)
    requires Smaller(s, t, ps) && Outside(s, t, r) && Outside(t, u, q) && BaseUnder(s, q, r)
    ensures Outside(s, u, r)
  {
    forall b | b in s.bases && !BaseUnder(s, b, r) ensures b in u.bases {
      if BaseUnder(t, b, q) {
        BaseUnderSmaller(s, t, ps, b, q);
        BaseUnderTrans(s, b, q, r);
      }
    }
  }

  // ---------------------------------------------------------------- freeing keeps the tree

  lemma PbGoneSmaller(s: Ns, b: nat)
    requires TreeOk(s) && b in s.bases && s.bases[b].aliases == [] && s.bases[b].children == []
    ensures Smaller(s, PbGone(s, b), {}) && Outside(s, PbGone(s, b), b)
    ensures PbGone(s, b).bases.Keys == s.bases.Keys - {b}
  {
    var t := PbGone(s, b);
    assert BaseOk(s, b);
    assert t.pnodes == s.pnodes - {};
    assert s.bases.Keys - t.bases.Keys == {b};
    forall c | c in t.bases ensures Trimmed(s.bases[c], t.bases[c], {b}, {}) {
      assert BaseOk(s, c);
      MinusNone(s.bases[c].aliases, {});
      if s.bases[b].parent == Some(c) {
        WithoutIsMinus(s.bases[c].children, b);
      } else {
        MinusNone(s.bases[c].children, {b});
      }
    }
  }

  /** Freed aliases are no one's parent, freed bases hold nothing: then the tree is still well formed. */
  lemma SmallerOk(s: Ns, t: Ns, ps: set<nat>)
    requires TreeOk(s) && Smaller(s, t, ps)
    requires forall p :: p in t.pnodes ==> s.pnodes[p].base in t.bases
    requires forall b :: b in t.bases && s.bases[b].parent.Some? ==> s.bases[b].parent.value in t.bases
    requires forall p :: p in t.pnodes && !IsRoot(s, p) ==> s.pnodes[p].parent in t.pnodes
    ensures BasesOk(t) && NodesOk(t)
    ensures (forall m :: m in s.mounts ==> s.mounts[m].root !in ps) ==> TreeOk(t)
  {
    forall b | b in t.bases ensures BaseOk(t, b) {
      assert BaseOk(s, b);
      TrimmedDistinct(s.bases[b].children, s.bases.Keys - t.bases.Keys);
      TrimmedDistinct(s.bases[b].aliases, ps);
    }
    forall p | p in t.pnodes ensures NodeOk(t, p) {
      assert NodeOk(s, p);
    }
  }

  lemma {:induction false} TrimmedDistinct(q: seq<nat>, d: set<nat>)
    requires Distinct(q)
    ensures Distinct(Minus(q, d))
  {
    if q == [] {
    } else {
      TrimmedDistinct(q[1..], d);
      assert q[0] !in q[1..];
    }
  }

  lemma PbGoneOk(s: Ns, b: nat)
    requires TreeOk(s) && b in s.bases && s.bases[b].aliases == [] && s.bases[b].children == []
    ensures TreeOk(PbGone(s, b))
  {
    hide Smaller, TreeOk, BasesOk, NodesOk;
    PbGoneSmaller(s, b);
    var t := PbGone(s, b);
    assert t.pnodes == s.pnodes && t.mounts == s.mounts && t.bases.Keys == s.bases.Keys - {b};
    hide PbGone;
    forall p | p in t.pnodes ensures s.pnodes[p].base in t.bases { NodeFacts(s, p); }
    forall c | c in t.bases && s.bases[c].parent.Some? ensures s.bases[c].parent.value in t.bases { BaseFacts(s, c); }
    forall p | p in t.pnodes && !IsRoot(s, p) ensures s.pnodes[p].parent in t.pnodes { NodeFacts(s, p); }
    SmallerOk(s, t, {});
  }

  /** No other node of the mount hangs under `p`. */
  ghost predicate Childless(s: Ns, p: nat) {
    forall q :: q in s.pnodes && !IsRoot(s, q) ==> s.pnodes[q].parent != p
  }

  lemma UnaliasSmaller(s: Ns, p: nat)
    requires TreeOk(s) && p in s.pnodes
    ensures s.pnodes[p].base in s.bases && Smaller(s, Unalias(s, p), {p})
  {
    assert NodeOk(s, p);
    var t := Unalias(s, p);
    assert s.bases.Keys - t.bases.Keys == {};
    forall c | c in t.bases ensures Trimmed(s.bases[c], t.bases[c], {}, {p}) {
      assert BaseOk(s, c);
      MinusNone(s.bases[c].children, {});
      if s.pnodes[p].base == c {
        WithoutIsMinus(s.bases[c].aliases, p);
      } else {
        MinusNone(s.bases[c].aliases, {p});
      }
    }
  }

  lemma NodeFacts(s: Ns, p: nat)
    requires TreeOk(s) && p in s.pnodes
    ensures NodeOk(s, p) && BaseOk(s, s.pnodes[p].base)
  {
    hide RootsOk;
    assert NodeOk(s, p);
  }

  lemma BaseFacts(s: Ns, b: nat)
    requires TreeOk(s) && b in s.bases
    ensures BaseOk(s, b)
  {
    hide NodesOk, RootsOk;
  }

  lemma UnaliasOk(s: Ns, p: nat)
    requires TreeOk(s) && p in s.pnodes && Childless(s, p)
    ensures s.pnodes[p].base in s.bases
    ensures BasesOk(Unalias(s, p)) && NodesOk(Unalias(s, p))
    ensures !IsRoot(s, p) ==> TreeOk(Unalias(s, p))
  {
    hide Smaller, TreeOk, BasesOk, NodesOk;
    UnaliasSmaller(s, p);
    var t := Unalias(s, p);
    assert t.pnodes == s.pnodes - {p} && t.bases.Keys == s.bases.Keys && t.mounts == s.mounts;
    hide Unalias;
    forall q | q in t.pnodes ensures s.pnodes[q].base in t.bases { NodeFacts(s, q); }
    forall c | c in t.bases && s.bases[c].parent.Some? ensures s.bases[c].parent.value in t.bases { BaseFacts(s, c); }
    forall q | q in t.pnodes && !IsRoot(s, q) ensures s.pnodes[q].parent in t.pnodes { NodeFacts(s, q); }
    if !IsRoot(s, p) {
      NotMountRoot(s, p);
    }
    SmallerOk(s, t, {p});
  }

  lemma NotMountRoot(s: Ns, p: nat)
    requires TreeOk(s) && p in s.pnodes && !IsRoot(s, p)
    ensures forall m :: m in s.mounts ==> s.mounts[m].root !in {p}
  {
    hide BasesOk, NodesOk;
  }

  /** p_gone on an alias that is not a mount's root. */
  lemma PGoneOk(s: Ns, p: nat)
    requires TreeOk(s) && p in s.pnodes && Childless(s, p) && !IsRoot(s, p)
    ensures s.pnodes[p].base in s.bases
    ensures var b := s.bases[s.pnodes[p].base]; b.parent.Some? ==> b.parent.value in s.bases
    ensures TreeOk(PGone(s, p)) && Smaller(s, PGone(s, p), {p}) && Outside(s, PGone(s, p), s.pnodes[p].base)
  {
    hide TreeOk, Smaller, Trimmed, Childless;
    NodeFacts(s, p);
    var b := s.pnodes[p].base;
    hide NodeOk;
    UnaliasSmaller(s, p);
    UnaliasOk(s, p);
    var u := Unalias(s, p);
    assert Outside(s, u, b);
    hide Outside;
    if u.bases[b].aliases == [] && u.bases[b].children == [] {
      PbGoneOk(u, b);
      PbGoneSmaller(u, b);
      SmallerTrans(s, u, PbGone(u, b), {p}, {});
      assert {p} + {} == {p};
      OutsideTrans(s, u, PbGone(u, b), {p}, b, b);
    }
  }
}
