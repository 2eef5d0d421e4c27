/**
 * Well-formed name spaces: the trees, the cover links between mounts and the entry names; and
 * that taking and dropping references, validating and creating nodes keep them so.
 */
module NameWf {
  import opened Prelude
  import opened NameSpace
  import opened PruneSpec

  /** A cover link joins a node to the root of the mount on it, which shares its parent. */
  ghost predicate CoverOk(s: Ns, p: nat)
    requires p in s.pnodes
  {
    var x := s.pnodes[p];
    && (x.cover.Some? ==> CoverLink(s, p, x.cover.value))
    && (IsRoot(s, p) ==>
          var v := s.mounts[x.mount].covers;
          && v in s.pnodes && s.pnodes[v].cover == Some(p) && x.parent in s.pnodes && x.parent == s.pnodes[v].parent
          && (if p == s.root then v == p && x.parent == p else v < p && x.parent < p))
  }

  ghost predicate CoverLink(s: Ns, p: nat, c: nat) {
    && c in s.pnodes && IsRoot(s, c) && s.mounts[s.pnodes[c].mount].covers == p
    && (if p == s.root then c == p else p < c)
  }

  ghost predicate CoversOk(s: Ns) {
    && s.root in s.pnodes && IsRoot(s, s.root) && s.pnodes[s.root].base in s.bases
    && s.bases[s.pnodes[s.root].base].name == ""
    && forall p :: p in s.pnodes ==> CoverOk(s, p)
  }

  predicate NameOk(n: string) { n != "" && '/' !in n && n != "." && n != ".." }

  predicate Namesakes(x: Base, y: Base) { x.parent.Some? && x.parent == y.parent && x.name == y.name }

  /** Entries have proper names, distinct among siblings. */
  ghost predicate NamesOk(s: Ns) {
    && (forall b :: b in s.bases && s.bases[b].parent.Some? ==> NameOk(s.bases[b].name))
    && (forall b, c :: b in s.bases && c in s.bases && Namesakes(s.bases[b], s.bases[c]) ==> b == c)
  }

  ghost predicate Wf(s: Ns) { TreeOk(s) && CoversOk(s) && NamesOk(s) }

  lemma WfNode(s: Ns, p: nat)
    requires Wf(s) && p in s.pnodes
    ensures NodeOk(s, p) && CoverOk(s, p) && s.pnodes[p].parent in s.pnodes && BaseOk(s, s.pnodes[p].base)
    ensures s.pnodes[p].parent == p <==> p == s.root
    ensures p != s.root ==> s.pnodes[p].parent < p
  {
    NodeFacts(s, p);
    hide TreeOk, NamesOk;
  }

  // ---------------------------------------------------------------- growth

  /** Everything in `s` is still in `t`; only reference counts, inodes and lists may differ. */
  ghost predicate Grows(s: Ns, t: Ns) {
    && t.mounts == s.mounts && t.root == s.root && t.nextMount == s.nextMount
    && s.nextBase <= t.nextBase && s.nextPnode <= t.nextPnode
    && (forall p :: p in s.pnodes ==> p in t.pnodes && t.pnodes[p] == s.pnodes[p].(ref := t.pnodes[p].ref))
    && (forall b :: b in s.bases ==> b in t.bases && BaseGrows(s.bases[b], t.bases[b]))
  }

  ghost predicate BaseGrows(x: Base, y: Base) {
    && y.name == x.name && y.parent == x.parent
    && (forall c :: c in x.children ==> c in y.children) && (forall p :: p in x.aliases ==> p in y.aliases)
  }

  lemma GrowsTrans(s: Ns, t: Ns, u: Ns)
    requires Grows(s, t) && Grows(t, u)
    ensures Grows(s, u)
  {
  }

  function RefOf(s: Ns, p: nat): nat { if p in s.pnodes then s.pnodes[p].ref else 0 }

  function One(o: Option<nat>, p: nat): nat { if o == Some(p) then 1 else 0 }

  /** From `s` to `t` one reference was taken on `plus` and one dropped on `minus`, and no other count changed. */
  ghost predicate Gains(s: Ns, t: Ns, plus: Option<nat>, minus: Option<nat>) {
    forall p :: RefOf(t, p) + One(minus, p) == RefOf(s, p) + One(plus, p)
  }

  /** The holder of a reference to `p` can drop it. */
  predicate Holding(s: Ns, p: nat) {
    p in s.pnodes && s.pnodes[p].ref >= (if s.pnodes[p].cover.Some? then 2 else 1)
  }

  // ---------------------------------------------------------------- growth keeps what was well formed

  lemma GrowsNode(s: Ns, t: Ns, p: nat)
    requires Wf(s) && Grows(s, t) && p in s.pnodes && (s.pnodes[p].cover.Some? ==> t.pnodes[p].ref > 0)
    ensures NodeOk(t, p) && CoverOk(t, p) && IsRoot(t, p) == IsRoot(s, p)
  {
    hide Wf, NodeOk, CoverOk, BaseOk, BaseGrows;
    WfNode(s, p);
    GrowsNodeOk(s, t, p);
    GrowsCoverOk(s, t, p);
  }

  lemma GrowsNodeOk(s: Ns, t: Ns, p: nat)
    requires Grows(s, t) && p in s.pnodes && NodeOk(s, p) && (s.pnodes[p].cover.Some? ==> t.pnodes[p].ref > 0)
    ensures NodeOk(t, p) && IsRoot(t, p) == IsRoot(s, p)
  {
    var x := s.pnodes[p];
    assert t.pnodes[p] == x.(ref := t.pnodes[p].ref);
    assert BaseGrows(s.bases[x.base], t.bases[x.base]);
    if !IsRoot(s, p) {
      assert t.pnodes[x.parent] == s.pnodes[x.parent].(ref := t.pnodes[x.parent].ref);
    }
  }

  lemma GrowsCoverOk(s: Ns, t: Ns, p: nat)
    requires Grows(s, t) && p in s.pnodes && CoverOk(s, p)
    ensures CoverOk(t, p)
  {
    hide BaseGrows;
  }

  lemma GrowsRoots(s: Ns, t: Ns)
    requires TreeOk(s) && Grows(s, t)
    ensures RootsOk(t)
  {
    hide BasesOk, NodesOk;
  }

  lemma GrowsTop(s: Ns, t: Ns)
    requires Wf(s) && Grows(s, t)
    ensures t.root in t.pnodes && IsRoot(t, t.root) && t.pnodes[t.root].base in t.bases &&
      t.bases[t.pnodes[t.root].base].name == ""
  {
    hide TreeOk, NamesOk, CoverOk;
  }

  lemma WfParts(s: Ns)
    requires Wf(s)
    ensures TreeOk(s) && CoversOk(s) && NamesOk(s)
  {
  }

  /** Old base nodes keep distinct names when the new ones have names of their own. */
  lemma GrowsNames(s: Ns, t: Ns)
    requires NamesOk(s) && Grows(s, t)
    requires forall b :: b in t.bases && b !in s.bases && t.bases[b].parent.Some? ==> NameOk(t.bases[b].name)
    requires forall b, c :: b in t.bases && b !in s.bases && c in t.bases && Namesakes(t.bases[b], t.bases[c]) ==>
      b == c
    ensures NamesOk(t)
  {
    forall b, c | b in t.bases && c in t.bases && Namesakes(t.bases[b], t.bases[c]) ensures b == c {
      if b in s.bases && c in s.bases {
        assert BaseGrows(s.bases[b], t.bases[b]) && BaseGrows(s.bases[c], t.bases[c]);
        assert Namesakes(s.bases[b], s.bases[c]);
      } else if b in s.bases {
        assert Namesakes(t.bases[c], t.bases[b]);
      }
    }
    forall b | b in t.bases && t.bases[b].parent.Some? ensures NameOk(t.bases[b].name) {
      if b in s.bases { assert BaseGrows(s.bases[b], t.bases[b]); }
    }
  }

  lemma GrowsOk(s: Ns, t: Ns)
    requires Wf(s) && Grows(s, t) && NamesOk(t)
    requires forall b :: b in t.bases ==> BaseOk(t, b)
    requires forall p :: p in s.pnodes && s.pnodes[p].cover.Some? ==> t.pnodes[p].ref > 0
    requires forall p :: p in t.pnodes && p !in s.pnodes ==> NodeOk(t, p) && CoverOk(t, p)
    requires forall p, q :: p in t.pnodes && q in t.pnodes && p !in s.pnodes && Twins(t.pnodes[p], t.pnodes[q]) ==>
      p == q
    ensures Wf(t)
  {
    hide Wf, TreeOk, NamesOk, BaseOk, NodeOk, CoverOk;
    WfParts(s);
    GrowsRoots(s, t);
    GrowsTop(s, t);
    forall p | p in t.pnodes ensures NodeOk(t, p) && CoverOk(t, p) {
      if p in s.pnodes { GrowsNode(s, t, p); }
    }
    forall p, q | p in t.pnodes && q in t.pnodes && Twins(t.pnodes[p], t.pnodes[q]) ensures p == q {
      if p in s.pnodes && q in s.pnodes {
        OneAlias(s, p, q);
      } else if p in s.pnodes {
        assert Twins(t.pnodes[q], t.pnodes[p]);
      }
    }
    TreeFrom(t);
    CoversFrom(t);
    WfFrom(t);
  }

  lemma TreeFrom(s: Ns)
    requires forall b :: b in s.bases ==> BaseOk(s, b)
    requires forall p :: p in s.pnodes ==> NodeOk(s, p)
    requires forall p, q :: p in s.pnodes && q in s.pnodes && Twins(s.pnodes[p], s.pnodes[q]) ==> p == q
    requires RootsOk(s)
    ensures TreeOk(s)
  {
    hide BaseOk, NodeOk, RootsOk;
  }

  lemma CoversFrom(s: Ns)
    requires s.root in s.pnodes && IsRoot(s, s.root) && s.pnodes[s.root].base in s.bases &&
      s.bases[s.pnodes[s.root].base].name == ""
    requires forall p :: p in s.pnodes ==> CoverOk(s, p)
    ensures CoversOk(s)
  {
    hide CoverOk;
  }

  lemma WfFrom(s: Ns)
    requires TreeOk(s) && CoversOk(s) && NamesOk(s)
    ensures Wf(s)
  {
  }

  lemma AllHeld(s: Ns)
    requires Wf(s)
    ensures forall p :: p in s.pnodes && s.pnodes[p].cover.Some? ==> s.pnodes[p].ref > 0
  {
    forall p | p in s.pnodes && s.pnodes[p].cover.Some? ensures s.pnodes[p].ref > 0 { WfNode(s, p); }
  }

  // ---------------------------------------------------------------- references

  /** Same nodes and links, other counts and inodes. */
  ghost predicate Recounted(s: Ns, t: Ns) {
    && t == s.(pnodes := t.pnodes, bases := t.bases) && t.pnodes.Keys == s.pnodes.Keys && t.bases.Keys == s.bases.Keys
    && (forall p :: p in s.pnodes ==> t.pnodes[p] == s.pnodes[p].(ref := t.pnodes[p].ref))
    && (forall b :: b in s.bases ==> t.bases[b] == s.bases[b].(ino := t.bases[b].ino))
    && (forall p :: p in s.pnodes && s.pnodes[p].cover.Some? ==> t.pnodes[p].ref > 0)
  }

  lemma RecountedBase(s: Ns, t: Ns, b: nat)
    requires TreeOk(s) && Recounted(s, t) && b in t.bases
    ensures BaseOk(t, b)
  {
    BaseFacts(s, b);
    hide TreeOk;
  }

  lemma RecountedOk(s: Ns, t: Ns)
    requires Wf(s) && Recounted(s, t)
    ensures Wf(t) && Grows(s, t)
  {
    hide Wf, TreeOk, BaseOk, NodeOk, CoverOk;
    WfParts(s);
    forall b | b in t.bases ensures BaseOk(t, b) { RecountedBase(s, t, b); }
    assert forall b :: b in s.bases ==> BaseGrows(s.bases[b], t.bases[b]);
    assert Grows(s, t);
    GrowsNames(s, t);
    hide Grows, Recounted;
    GrowsOk(s, t);
  }

  lemma PRefOk(s: Ns, p: nat)
    requires Wf(s) && p in s.pnodes
    ensures var t := PRef(s, p); Wf(t) && Grows(s, t) && Gains(s, t, Some(p), None) && Holding(t, p)
  {
    hide Wf, Grows;
    AllHeld(s);
    RecountedOk(s, PRef(s, p));
  }

  lemma PReleOk(s: Ns, p: nat)
    requires Wf(s) && Holding(s, p)
    ensures var t := PRele(s, p); Wf(t) && Grows(s, t) && Gains(s, t, None, Some(p))
  {
    hide Wf, Grows;
    AllHeld(s);
    RecountedOk(s, PRele(s, p));
  }

  // ---------------------------------------------------------------- inodes and new nodes

  function SetIno(s: Ns, b: nat, ino: Option<Kind>): Ns
    requires b in s.bases
  {
    s.(bases := s.bases[b := s.bases[b].(ino := ino)])
  }

  lemma SetInoOk(s: Ns, b: nat, ino: Option<Kind>)
    requires Wf(s) && b in s.bases
    ensures var t := SetIno(s, b, ino); Wf(t) && Grows(s, t) && t.pnodes == s.pnodes
  {
    hide Wf, Grows;
    AllHeld(s);
    RecountedOk(s, SetIno(s, b, ino));
  }

  lemma NewNumbers(s: Ns)
    requires TreeOk(s)
    ensures s.nextBase !in s.bases && s.nextPnode !in s.pnodes && s.nextMount !in s.mounts
  {
    if s.nextBase in s.bases { BaseFacts(s, s.nextBase); }
    if s.nextPnode in s.pnodes { NodeFacts(s, s.nextPnode); }
    assert s.nextMount !in s.mounts by { hide BasesOk, NodesOk; }
  }

  lemma PbNewBase(s: Ns, name: string, parent: nat, c: nat)
    requires TreeOk(s) && parent in s.bases && c in PbNew(s, name, parent).bases
    ensures BaseOk(PbNew(s, name, parent), c)
  {
    NewNumbers(s);
    BaseFacts(s, parent);
    if c in s.bases { BaseFacts(s, c); }
    hide TreeOk;
    if c == parent {
      assert s.nextBase !in s.bases[parent].children;
    }
  }

  lemma PbNewOk(s: Ns, name: string, parent: nat)
    requires Wf(s) && parent in s.bases && NameOk(name)
    requires forall c :: c in s.bases && s.bases[c].parent == Some(parent) ==> s.bases[c].name != name
    ensures var t := PbNew(s, name, parent); Wf(t) && Grows(s, t) && t.pnodes == s.pnodes
  {
    hide Wf, TreeOk, BaseOk, NodeOk, CoverOk;
    WfParts(s);
    AllHeld(s);
    var t := PbNew(s, name, parent);
    forall b | b in t.bases ensures BaseOk(t, b) { PbNewBase(s, name, parent, b); }
    NewNumbers(s);
    forall b | b in s.bases ensures b in t.bases && BaseGrows(s.bases[b], t.bases[b]) { }
    assert Grows(s, t);
    assert t.bases.Keys == s.bases.Keys + {s.nextBase};
    BaseFacts(s, parent);
    GrowsNames(s, t);
    hide Grows;
    GrowsOk(s, t);
  }

  /** A new alias under `parent`, in its mount, where the base had none with that parent. */
  ghost predicate NoAliasFor(s: Ns, parent: nat, b: nat) {
    && parent in s.pnodes && b in s.bases && s.bases[b].parent == Some(s.pnodes[parent].base)
    && forall p :: p in s.bases[b].aliases && p in s.pnodes ==> s.pnodes[p].parent != parent
  }

  lemma NewAliasBase(s: Ns, parent: nat, b: nat, c: nat)
    requires TreeOk(s) && NoAliasFor(s, parent, b) && c in s.bases
    ensures BaseOk(PNewAlias(s, parent, b, s.pnodes[parent].mount), c)
  {
    hide TreeOk;
    NewNumbers(s);
    BaseFacts(s, c);
    assert parent in s.pnodes && b in s.bases;
    hide NoAliasFor;
    var t := PNewAlias(s, parent, b, s.pnodes[parent].mount);
    assert t.bases[c] == s.bases[c].(aliases := t.bases[c].aliases);
    assert s.nextPnode !in s.bases[c].aliases;
    assert forall d :: d in s.bases ==>
      t.bases[d].parent == s.bases[d].parent && t.bases[d].children == s.bases[d].children;
    assert forall q :: q in s.pnodes ==> t.pnodes[q] == s.pnodes[q];
  }

  lemma NewAliasAlone(s: Ns, parent: nat, b: nat, p: nat)
    requires TreeOk(s) && NoAliasFor(s, parent, b) && p in s.pnodes && s.pnodes[p].mount == s.pnodes[parent].mount
    ensures s.pnodes[p].base != b
  {
    if s.pnodes[p].base == b {
      NodeFacts(s, p);
      KidFound(s, parent, p);
    }
  }

  lemma NewAliasNode(s: Ns, parent: nat, b: nat)
    requires Wf(s) && NoAliasFor(s, parent, b)
    ensures var t := PNewAlias(s, parent, b, s.pnodes[parent].mount);
      s.nextPnode in t.pnodes && NodeOk(t, s.nextPnode) && CoverOk(t, s.nextPnode)
  {
    hide Wf, TreeOk, CoverOk, BaseOk;
    WfParts(s);
    WfNode(s, parent);
    NewNumbers(s);
    var m := s.pnodes[parent].mount;
    MountRoot(s, m);
    hide CoversOk, NamesOk;
    var t := PNewAlias(s, parent, b, m);
    assert t.bases[b].aliases[0] == s.nextPnode;
    assert !IsRoot(t, s.nextPnode);
    PlainCover(t, s.nextPnode);
  }

  lemma MountRoot(s: Ns, m: nat)
    requires TreeOk(s) && m in s.mounts
    ensures m < s.nextMount && s.mounts[m].root in s.pnodes && s.pnodes[s.mounts[m].root].mount == m
  {
    hide BasesOk, NodesOk;
  }

  lemma PlainCover(s: Ns, p: nat)
    requires p in s.pnodes && s.pnodes[p].cover.None? && !IsRoot(s, p)
    ensures CoverOk(s, p)
  {
  }

  lemma NewAliasOk(s: Ns, parent: nat, b: nat)
    requires Wf(s) && NoAliasFor(s, parent, b)
    ensures var t := PNewAlias(s, parent, b, s.pnodes[parent].mount);
      && Wf(t) && Grows(s, t) && Gains(s, t, Some(s.nextPnode), None) && Holding(t, s.nextPnode)
  {
    hide Wf, TreeOk, BaseOk, NodeOk, CoverOk;
    WfParts(s);
    AllHeld(s);
    var t := PNewAlias(s, parent, b, s.pnodes[parent].mount);
    forall c | c in t.bases ensures BaseOk(t, c) { NewAliasBase(s, parent, b, c); }
    NewNumbers(s);
    NewAliasNode(s, parent, b);
    forall p | p in s.pnodes && s.pnodes[p].mount == s.pnodes[parent].mount ensures s.pnodes[p].base != b {
      NewAliasAlone(s, parent, b, p);
    }
    hide NoAliasFor;
    forall c | c in s.bases ensures c in t.bases && BaseGrows(s.bases[c], t.bases[c]) { }
    assert Grows(s, t);
    GrowsNames(s, t);
    hide Grows;
    GrowsOk(s, t);
  }
}
