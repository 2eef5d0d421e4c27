/**
 * What pruning a sub-tree of the name space removes: within one mount, exactly the aliases
 * with no referenced alias at or under them.
 */
module PruneSpec {
  import opened Prelude
  import opened NameSpace

  /** Alias `p` is at or under `q` in their mount's tree. */
  ghost predicate Under(s: Ns, p: nat, q: nat)
    decreases p
  {
    p in s.pnodes && (p == q || (!IsRoot(s, p) && s.pnodes[p].parent < p && Under(s, s.pnodes[p].parent, q)))
  }

  ghost function Refs(s: Ns, q: nat): set<nat> {
    set p | p in s.pnodes && s.pnodes[p].ref > 0 && Under(s, p, q)
  }

  ghost function Dead(s: Ns, q: nat): set<nat> {
    set p | p in s.pnodes && Under(s, p, q) && Refs(s, p) == {}
  }

  /** The aliases pruning at `r` removes: a mount's root itself is never removed. */
  ghost function Doomed(s: Ns, r: nat): set<nat>
    requires r in s.pnodes
  {
    if IsRoot(s, r) then Dead(s, r) - {r} else Dead(s, r)
  }

  /** The count pruning at `r` returns. */
  ghost function Stuck(s: Ns, r: nat): nat
    requires r in s.pnodes
  {
    if IsRoot(s, r) && Refs(s, r) == {} then 1 else |Refs(s, r)|
  }

  ghost predicate Pruned(s: Ns, t: Ns, r: nat, count: nat)
    requires r in s.pnodes
  {
    TreeOk(t) && Smaller(s, t, Doomed(s, r)) && Outside(s, t, s.pnodes[r].base) && count == Stuck(s, r)
  }

  // ---------------------------------------------------------------- what a caller relies on

  /** Only unreferenced aliases of the same mount go. */
  lemma PrunedOnly(s: Ns, t: Ns, r: nat, count: nat, p: nat)
    requires TreeOk(s) && r in s.pnodes && Pruned(s, t, r, count) && p in s.pnodes && p !in t.pnodes
    ensures s.pnodes[p].ref == 0 && s.pnodes[p].mount == s.pnodes[r].mount && Under(s, p, r)
  {
    assert p in Dead(s, r);
    UnderMount(s, p, r);
    assert s.pnodes[p].ref > 0 ==> p in Refs(s, p);
  }

  /** A referenced alias stays, with every ancestor it has in its mount; every survivor is unchanged. */
  lemma PrunedKeeps(s: Ns, t: Ns, r: nat, count: nat, p: nat, q: nat)
    requires TreeOk(s) && r in s.pnodes && Pruned(s, t, r, count)
    requires p in s.pnodes && s.pnodes[p].ref > 0 && Under(s, p, q)
    ensures q in t.pnodes && t.pnodes[q] == s.pnodes[q]
  {
    assert p in Refs(s, q);
    UnderAlive(s, p, q);
  }

  /** Aliases of other mounts stay, on the same lists in the same order. */
  lemma PrunedOthers(s: Ns, t: Ns, r: nat, count: nat, p: nat)
    requires TreeOk(s) && r in s.pnodes && Pruned(s, t, r, count)
    requires p in s.pnodes && s.pnodes[p].mount != s.pnodes[r].mount
    ensures p in t.pnodes && t.pnodes[p] == s.pnodes[p]
    ensures s.pnodes[p].base in t.bases && p in t.bases[s.pnodes[p].base].aliases
  {
    if p in Dead(s, r) {
      UnderMount(s, p, r);
    }
    NodeFacts(t, p);
  }

  /** A freed base node has no alias left and no child left. */
  lemma PrunedBases(s: Ns, t: Ns, r: nat, count: nat, b: nat)
    requires TreeOk(s) && r in s.pnodes && Pruned(s, t, r, count) && b in s.bases && b !in t.bases
    ensures forall p :: p in t.pnodes ==> t.pnodes[p].base != b
    ensures forall c :: c in t.bases ==> t.bases[c].parent != Some(b)
    ensures BaseUnder(s, b, s.pnodes[r].base)
  {
    forall p | p in t.pnodes ensures t.pnodes[p].base != b { NodeFacts(t, p); }
    forall c | c in t.bases ensures t.bases[c].parent != Some(b) { BaseFacts(t, c); }
  }

  /**
   * Unless it started at an unreferenced mount root: the count is that of referenced aliases,
   * zero iff the root went.
   */
  lemma PrunedCount(s: Ns, t: Ns, r: nat, count: nat)
    requires TreeOk(s) && r in s.pnodes && Pruned(s, t, r, count) && !(IsRoot(s, r) && s.pnodes[r].ref == 0)
    ensures count == |Refs(s, r)|
    ensures Refs(s, r) == set p | p in t.pnodes && t.pnodes[p].ref > 0 && Under(s, p, r)
    ensures count == 0 <==> r !in t.pnodes
  {
    hide TreeOk, Smaller, Outside;
    SurvivorsAt(s, t, r, Doomed(s, r));
    RootDead(s, r);
    SmallerNodes(s, t, Doomed(s, r));
    hide Refs, Dead;
    CardZero(Refs(s, r));
  }

  lemma CardZero(a: set<nat>)
    ensures |a| == 0 <==> a == {}
  {
  }

  lemma SmallerNodes(s: Ns, t: Ns, ps: set<nat>)
    requires Smaller(s, t, ps)
    ensures t.pnodes == s.pnodes - ps
  {
  }

  lemma RootDead(s: Ns, r: nat)
    requires r in s.pnodes
    ensures r in Dead(s, r) <==> Refs(s, r) == {}
    ensures s.pnodes[r].ref > 0 ==> r in Refs(s, r)
  {
    assert Under(s, r, r);
  }

  lemma SurvivorsAt(s: Ns, t: Ns, r: nat, ps: set<nat>)
    requires Smaller(s, t, ps) && forall p :: p in ps ==> Refs(s, p) == {}
    ensures Refs(s, r) == set p | p in t.pnodes && t.pnodes[p].ref > 0 && Under(s, p, r)
  {
    forall p | p in Refs(s, r) ensures p !in ps {
      assert Under(s, p, p);
      assert p in Refs(s, p);
    }
  }

  // ---------------------------------------------------------------- ancestry

  lemma {:induction false} UnderAlive(s: Ns, p: nat, q: nat)
    requires Under(s, p, q)
    ensures q in s.pnodes && p >= q
    decreases p
  {
    if p == q {
    } else {
      UnderAlive(s, s.pnodes[p].parent, q);
    }
  }

  lemma {:induction false} UnderMount(s: Ns, p: nat, q: nat)
    requires TreeOk(s) && Under(s, p, q)
    ensures q in s.pnodes && s.pnodes[q].mount == s.pnodes[p].mount
    decreases p
  {
    if p == q {
    } else {
      NodeFacts(s, p);
      UnderMount(s, s.pnodes[p].parent, q);
    }
  }

  lemma {:induction false} UnderTrans(s: Ns, p: nat, q: nat, r: nat)
    requires Under(s, p, q) && Under(s, q, r)
    ensures Under(s, p, r)
    decreases p
  {
    if p == q {
    } else {
      UnderTrans(s, s.pnodes[p].parent, q, r);
    }
  }

  lemma {:induction false} UnderLinear(s: Ns, p: nat, a: nat, b: nat)
    requires Under(s, p, a) && Under(s, p, b)
    ensures Under(s, a, b) || Under(s, b, a)
    decreases p
  {
    if p != a && p != b {
      UnderLinear(s, s.pnodes[p].parent, a, b);
    }
  }

  /** The aliases right under `r`. */
  ghost function Kids(s: Ns, r: nat): set<nat> {
    set q | q in s.pnodes && !IsRoot(s, q) && s.pnodes[q].parent == r
  }

  /** The sub-trees of two kids do not meet. */
  lemma KidsApart(s: Ns, r: nat, a: nat, b: nat, p: nat)
    requires TreeOk(s) && a in Kids(s, r) && b in Kids(s, r) && Under(s, p, a) && Under(s, p, b)
    ensures a == b
  {
    NodeFacts(s, a);
    NodeFacts(s, b);
    hide TreeOk, NodeOk, BaseOk;
    UnderLinear(s, p, a, b);
    if a != b {
      var x, y := if Under(s, a, b) then (a, b).0 else b, if Under(s, a, b) then b else a;
      assert Under(s, s.pnodes[x].parent, y);
      UnderAlive(s, r, y);
      assert false;
    }
  }

  lemma {:induction false} UnderKid(s: Ns, p: nat, r: nat) returns (c: nat)
    requires TreeOk(s) && Under(s, p, r) && p != r
    ensures c in Kids(s, r) && Under(s, p, c)
    decreases p
  {
    if s.pnodes[p].parent == r {
      c := p;
    } else {
      c := UnderKid(s, s.pnodes[p].parent, r);
    }
  }

  lemma KidUnder(s: Ns, c: nat, r: nat, p: nat)
    requires TreeOk(s) && c in Kids(s, r) && Under(s, p, c)
    ensures Under(s, p, r) && p != r
  {
    NodeFacts(s, c);
    UnderAlive(s, p, c);
    assert Under(s, c, r);
    UnderTrans(s, p, c, r);
  }

  lemma {:induction false} UnderBase(s: Ns, p: nat, q: nat)
    requires TreeOk(s) && Under(s, p, q)
    ensures q in s.pnodes && BaseUnder(s, s.pnodes[p].base, s.pnodes[q].base)
    decreases p
  {
    NodeFacts(s, p);
    if p == q {
    } else {
      UnderBase(s, s.pnodes[p].parent, q);
    }
  }

  // ---------------------------------------------------------------- smaller name spaces

  lemma {:induction false} UnderBack(s: Ns, t: Ns, ps: set<nat>, p: nat, q: nat)
    requires Smaller(s, t, ps) && Under(t, p, q)
    ensures Under(s, p, q)
    decreases p
  {
    if p == q {
    } else {
      UnderBack(s, t, ps, t.pnodes[p].parent, q);
    }
  }

  lemma {:induction false} UnderForth(s: Ns, t: Ns, ps: set<nat>, p: nat, q: nat)
    requires Smaller(s, t, ps) && Under(s, p, q) && forall x :: x in ps ==> !Under(s, x, q)
    ensures Under(t, p, q)
    decreases p
  {
    if p == q {
    } else {
      UnderForth(s, t, ps, s.pnodes[p].parent, q);
    }
  }

  /** A sub-tree none of whose aliases went has the same referenced and the same dead aliases. */
  lemma SubtreeSame(s: Ns, t: Ns, ps: set<nat>, c: nat)
    requires Smaller(s, t, ps) && c in s.pnodes && forall x :: x in ps ==> !Under(s, x, c)
    ensures c in t.pnodes && IsRoot(t, c) == IsRoot(s, c)
    ensures Refs(t, c) == Refs(s, c) && Dead(t, c) == Dead(s, c)
  {
    assert Under(s, c, c);
    SameRefs(s, t, ps, c, c);
    forall p | p in Dead(s, c) ensures p in Dead(t, c) {
      UnderForth(s, t, ps, p, c);
      SameRefs(s, t, ps, c, p);
    }
    forall p | p in Dead(t, c) ensures p in Dead(s, c) {
      UnderBack(s, t, ps, p, c);
      SameRefs(s, t, ps, c, p);
    }
  }

  lemma SameRefs(s: Ns, t: Ns, ps: set<nat>, c: nat, p: nat)
    requires Smaller(s, t, ps) && Under(s, p, c) && forall x :: x in ps ==> !Under(s, x, c)
    ensures Refs(t, p) == Refs(s, p)
  {
    forall x | x in ps ensures !Under(s, x, p) {
      if Under(s, x, p) { UnderTrans(s, x, p, c); }
    }
    forall x | x in Refs(s, p) ensures x in Refs(t, p) { UnderForth(s, t, ps, x, p); }
    forall x | x in Refs(t, p) ensures x in Refs(s, p) { UnderBack(s, t, ps, x, p); }
  }

  // ---------------------------------------------------------------- a prune in progress

  ghost predicate UnderAny(s: Ns, p: nat, cs: set<nat>) { exists c :: c in cs && Under(s, p, c) }

  ghost function RefsIn(s: Ns, cs: set<nat>): set<nat> {
    set p | p in s.pnodes && s.pnodes[p].ref > 0 && UnderAny(s, p, cs)
  }

  ghost function DeadIn(s: Ns, cs: set<nat>): set<nat> {
    set p | p in s.pnodes && UnderAny(s, p, cs) && Refs(s, p) == {}
  }

  /** The sub-trees of the kids `cs` of `r` have been dealt with. */
  ghost predicate Mid(s: Ns, t: Ns, r: nat, cs: set<nat>, count: nat)
    requires r in s.pnodes
  {
    && TreeOk(t) && Smaller(s, t, DeadIn(s, cs)) && Outside(s, t, s.pnodes[r].base)
    && cs <= Kids(s, r) && count == |RefsIn(s, cs)|
  }

  lemma MidStart(s: Ns, r: nat)
    requires TreeOk(s) && r in s.pnodes
    ensures Mid(s, s, r, {}, 0)
  {
    SmallerSelf(s);
    assert DeadIn(s, {}) == {};
    assert RefsIn(s, {}) == {};
  }

  lemma KidUntouched(s: Ns, r: nat, cs: set<nat>, c: nat)
    requires TreeOk(s) && cs <= Kids(s, r) && c in Kids(s, r) && c !in cs
    ensures forall x :: x in DeadIn(s, cs) ==> !Under(s, x, c)
    ensures RefsIn(s, cs) !! Refs(s, c)
  {
    forall x | UnderAny(s, x, cs) ensures !Under(s, x, c) {
      if Under(s, x, c) {
        var a :| a in cs && Under(s, x, a);
        KidsApart(s, r, a, c, x);
        assert false;
      }
    }
  }

  lemma OneMore(s: Ns, cs: set<nat>, c: nat)
    ensures RefsIn(s, cs + {c}) == RefsIn(s, cs) + Refs(s, c)
    ensures DeadIn(s, cs + {c}) == DeadIn(s, cs) + Dead(s, c)
  {
    forall p ensures UnderAny(s, p, cs + {c}) <==> UnderAny(s, p, cs) || Under(s, p, c) {
      if UnderAny(s, p, cs) {
        var a :| a in cs && Under(s, p, a);
        assert a in cs + {c};
      }
      if Under(s, p, c) { assert c in cs + {c}; }
    }
  }

  lemma MidKid(s: Ns, t: Ns, u: Ns, r: nat, cs: set<nat>, count: nat, c: nat, n: nat)
    requires TreeOk(s) && r in s.pnodes && Mid(s, t, r, cs, count) && c in Kids(s, r) && c !in cs
    requires c in t.pnodes && Pruned(t, u, c, n)
    ensures Mid(s, u, r, cs + {c}, count + n)
  {
    hide TreeOk, Smaller, Outside, Under;
    KidUntouched(s, r, cs, c);
    SubtreeSame(s, t, DeadIn(s, cs), c);
    OneMore(s, cs, c);
    SmallerTrans(s, t, u, DeadIn(s, cs), Dead(s, c));
    SameNode(s, t, DeadIn(s, cs), c);
    KidBase(s, r, c);
    OutsideTrans(s, t, u, DeadIn(s, cs), s.pnodes[r].base, s.pnodes[c].base);
    assert |RefsIn(s, cs) + Refs(s, c)| == |RefsIn(s, cs)| + |Refs(s, c)|;
  }

  lemma SameNode(s: Ns, t: Ns, ps: set<nat>, c: nat)
    requires Smaller(s, t, ps) && c in t.pnodes
    ensures c in s.pnodes && t.pnodes[c] == s.pnodes[c]
  {
  }

  lemma KidBase(s: Ns, r: nat, c: nat)
    requires TreeOk(s) && r in s.pnodes && c in Kids(s, r)
    ensures BaseUnder(s, s.pnodes[c].base, s.pnodes[r].base)
    ensures s.pnodes[c].base > s.pnodes[r].base && s.bases[s.pnodes[r].base].children != []
  {
    NodeFacts(s, c);
    NodeFacts(s, r);
    assert Under(s, c, r);
    UnderBase(s, c, r);
  }

  /** Base nodes without aliases went as well. */
  lemma MidBase(s: Ns, t: Ns, u: Ns, r: nat, cs: set<nat>, count: nat, b: nat)
    requires TreeOk(s) && r in s.pnodes && Mid(s, t, r, cs, count)
    requires TreeOk(u) && Smaller(t, u, {}) && Outside(t, u, b) && BaseUnder(s, b, s.pnodes[r].base)
    ensures Mid(s, u, r, cs, count)
  {
    hide TreeOk, Smaller, Outside;
    SmallerTrans(s, t, u, DeadIn(s, cs), {});
    assert DeadIn(s, cs) + {} == DeadIn(s, cs);
    OutsideTrans(s, t, u, DeadIn(s, cs), s.pnodes[r].base, b);
  }

  // ---------------------------------------------------------------- the end of a prune

  lemma RefsSplit(s: Ns, r: nat)
    requires TreeOk(s) && r in s.pnodes
    ensures r !in RefsIn(s, Kids(s, r)) && r !in DeadIn(s, Kids(s, r))
    ensures Refs(s, r) == RefsIn(s, Kids(s, r)) + (if s.pnodes[r].ref > 0 then {r} else {})
    ensures Dead(s, r) == DeadIn(s, Kids(s, r)) + (if Refs(s, r) == {} then {r} else {})
  {
    hide TreeOk;
    forall p ensures UnderAny(s, p, Kids(s, r)) <==> Under(s, p, r) && p != r {
      if UnderAny(s, p, Kids(s, r)) {
        var c :| c in Kids(s, r) && Under(s, p, c);
        KidUnder(s, c, r, p);
      }
      if Under(s, p, r) && p != r {
        var c := UnderKid(s, p, r);
      }
    }
    assert Under(s, r, r);
  }

  /** Everything under `r` went: it can go too. */
  lemma MidEmpty(s: Ns, t: Ns, r: nat)
    requires TreeOk(s) && r in s.pnodes && Mid(s, t, r, Kids(s, r), 0)
    ensures r in t.pnodes && t.pnodes[r] == s.pnodes[r] && IsRoot(t, r) == IsRoot(s, r) && Childless(t, r)
  {
    RefsSplit(s, r);
    assert RefsIn(s, Kids(s, r)) == {};
    forall q | q in Kids(s, r) ensures q in DeadIn(s, Kids(s, r)) {
      assert Under(s, q, q);
      assert UnderAny(s, q, Kids(s, r));
      KidRefs(s, r, q);
    }
    assert forall q :: q in t.pnodes && !IsRoot(t, q) ==> q !in Kids(s, r);
  }

  lemma KidRefs(s: Ns, r: nat, q: nat)
    requires q in Kids(s, r)
    ensures Refs(s, q) <= RefsIn(s, Kids(s, r))
  {
    forall x | x in Refs(s, q) ensures x in RefsIn(s, Kids(s, r)) {
      assert UnderAny(s, x, Kids(s, r));
    }
  }

  lemma PrunedRootStays(s: Ns, t: Ns, r: nat, count: nat)
    requires TreeOk(s) && r in s.pnodes && Mid(s, t, r, Kids(s, r), count)
    requires count > 0 || s.pnodes[r].ref > 0 || IsRoot(s, r)
    ensures Pruned(s, t, r, if count > 0 then count + (if s.pnodes[r].ref > 0 then 1 else 0) else 1)
  {
    hide TreeOk, Smaller, Outside, Refs, Dead, RefsIn, DeadIn, Kids;
    RefsSplit(s, r);
    CardZero(RefsIn(s, Kids(s, r)));
    CardZero(Refs(s, r));
    if s.pnodes[r].ref > 0 {
      assert |RefsIn(s, Kids(s, r)) + {r}| == |RefsIn(s, Kids(s, r))| + 1;
    }
    assert Doomed(s, r) == DeadIn(s, Kids(s, r));
  }

  lemma PrunedRootGoes(s: Ns, t: Ns, r: nat)
    requires TreeOk(s) && r in s.pnodes && Mid(s, t, r, Kids(s, r), 0) && s.pnodes[r].ref == 0 && !IsRoot(s, r)
    ensures r in t.pnodes && t.pnodes[r].base in t.bases
    ensures var b := t.bases[t.pnodes[r].base]; b.parent.Some? ==> b.parent.value in t.bases
    ensures Pruned(s, PGone(t, r), r, 0)
  {
    RefsSplit(s, r);
    MidEmpty(s, t, r);
    hide TreeOk, Smaller, Outside;
    PGoneOk(t, r);
    var u := PGone(t, r);
    hide PGone;
    assert RefsIn(s, Kids(s, r)) == {};
    assert Refs(s, r) == {};
    SmallerTrans(s, t, u, DeadIn(s, Kids(s, r)), {r});
    NodeBase(s, r);
    OutsideTrans(s, t, u, DeadIn(s, Kids(s, r)), s.pnodes[r].base, s.pnodes[r].base);
  }

  lemma NodeBase(s: Ns, r: nat)
    requires TreeOk(s) && r in s.pnodes
    ensures BaseUnder(s, s.pnodes[r].base, s.pnodes[r].base)
  {
    NodeFacts(s, r);
  }

  // ---------------------------------------------------------------- leaves and lists

  /** An alias whose base has no child has no alias under it. */
  lemma LeafAlone(s: Ns, c: nat)
    requires TreeOk(s) && c in s.pnodes && s.pnodes[c].base in s.bases && s.bases[s.pnodes[c].base].children == []
    ensures Kids(s, c) == {} && Childless(s, c)
  {
    forall q | q in s.pnodes && !IsRoot(s, q) ensures s.pnodes[q].parent != c {
      NodeFacts(s, q);
      BaseFacts(s, s.pnodes[q].base);
    }
  }

  lemma {:induction false} RootAbove(s: Ns, r: nat)
    requires TreeOk(s) && r in s.pnodes
    ensures s.pnodes[r].mount in s.mounts && Under(s, r, s.mounts[s.pnodes[r].mount].root)
    decreases r
  {
    NodeFacts(s, r);
    if !IsRoot(s, r) {
      RootAbove(s, s.pnodes[r].parent);
    }
  }

  /** An alias, in the mount of `r`, of a child of `r`'s base hangs right under `r`. */
  lemma KidFound(s: Ns, r: nat, c: nat)
    requires TreeOk(s) && r in s.pnodes && c in s.pnodes && s.pnodes[c].mount == s.pnodes[r].mount
    requires s.pnodes[c].base in s.bases && s.bases[s.pnodes[c].base].parent == Some(s.pnodes[r].base)
    ensures c in Kids(s, r)
  {
    NodeFacts(s, c);
    NodeFacts(s, r);
    RootAbove(s, r);
    if IsRoot(s, c) {
      UnderBase(s, r, c);
      BaseUnderAge(s, s.pnodes[r].base, s.pnodes[c].base);
      assert false;
    }
    OneAlias(s, s.pnodes[c].parent, r);
  }

  lemma OneAlias(s: Ns, p: nat, q: nat)
    requires TreeOk(s) && p in s.pnodes && q in s.pnodes && Twins(s.pnodes[p], s.pnodes[q])
    ensures p == q
  {
    hide BasesOk, RootsOk, NodeOk;
  }

  // ---------------------------------------------------------------- steps of the pruning loops

  lemma OutsideSelf(s: Ns, r: nat)
    ensures Outside(s, s, r)
  {
  }

  lemma BaseSelf(s: Ns, r: nat)
    requires r in s.bases
    ensures BaseUnder(s, r, r)
  {
  }

  /** The children of one base node are in separate sub-trees, none of which holds the parent. */
  lemma SiblingsApart(s: Ns, rpb: nat, kids: seq<nat>, i: nat)
    requires TreeOk(s) && rpb in s.bases && kids == s.bases[rpb].children && i < |kids|
    ensures kids[i] in s.bases && rpb < kids[i] < s.nextBase
    ensures BaseUnder(s, kids[i], rpb) && !BaseUnder(s, rpb, kids[i])
    ensures forall k :: 0 <= k < |kids| && k != i ==> !BaseUnder(s, kids[k], kids[i])
  {
    BaseFacts(s, rpb);
    BaseFacts(s, kids[i]);
    if BaseUnder(s, rpb, kids[i]) {
      BaseUnderAge(s, rpb, kids[i]);
    }
    forall k | 0 <= k < |kids| && k != i ensures !BaseUnder(s, kids[k], kids[i]) {
      assert s.bases[kids[k]].parent == Some(rpb);
    }
  }

  /** Freeing within one child's sub-tree leaves the parent and the other children. */
  lemma SmallerStill(s: Ns, t: Ns, u: Ns, ps: set<nat>, pb: nat, kids: seq<nat>, i: nat)
    requires Smaller(s, t, ps) && Outside(t, u, pb)
    requires forall k :: i <= k < |kids| ==> kids[k] in t.bases && !BaseUnder(s, kids[k], pb)
    ensures forall k :: i <= k < |kids| ==> kids[k] in u.bases
    ensures forall b :: b in t.bases && !BaseUnder(s, b, pb) ==> b in u.bases
  {
    forall b | b in t.bases && !BaseUnder(s, b, pb) ensures b in u.bases {
      if BaseUnder(t, b, pb) {
        BaseUnderSmaller(s, t, ps, b, pb);
      }
    }
  }

  lemma SmallerBases(s: Ns, t: Ns, u: Ns)
    requires Smaller(s, t, {}) && Smaller(t, u, {})
    ensures Smaller(s, u, {})
  {
    var none: set<nat> := {};
    SmallerTrans(s, t, u, none, none);
    assert none + none == none;
  }

  lemma PbGoneFacts(s: Ns, b: nat)
    requires TreeOk(s) && b in s.bases && s.bases[b].aliases == [] && s.bases[b].children == []
    ensures s.bases[b].parent.Some? ==> s.bases[b].parent.value in s.bases
    ensures TreeOk(PbGone(s, b)) && Smaller(s, PbGone(s, b), {}) && Outside(s, PbGone(s, b), b)
    ensures PbGone(s, b).bases.Keys == s.bases.Keys - {b}
  {
    PbGoneOk(s, b);
    PbGoneSmaller(s, b);
    BaseFacts(s, b);
  }

  /** Pruning at the alias a child has in mount `m`, if it has one. */
  ghost predicate ChildPruned(s: Ns, t: Ns, pb: nat, m: nat, count: nat)
    requires pb in s.bases
  {
    && TreeOk(t) && Outside(s, t, pb)
    && ((forall p :: p in s.bases[pb].aliases ==> p in s.pnodes && s.pnodes[p].mount != m) ==>
       Smaller(s, t, {}) && count == 0)
    && (forall c :: c in s.bases[pb].aliases && c in s.pnodes && s.pnodes[c].mount == m ==> Pruned(s, t, c, count))
  }

  lemma NoAliases(s: Ns, t: Ns, pb: nat, m: nat)
    requires pb in s.bases && s.bases[pb].aliases == [] && TreeOk(t) && Smaller(s, t, {}) && Outside(s, t, pb)
    ensures ChildPruned(s, t, pb, m, 0)
  {
    hide TreeOk, Smaller, Outside, Pruned;
  }

  /** The first `k` aliases of `pb` have been seen; `hit` is the one of mount `m` among them. */
  ghost predicate ListMid(s: Ns, t: Ns, pb: nat, m: nat, k: nat, hit: Option<nat>, count: nat)
    requires pb in s.bases && k <= |s.bases[pb].aliases|
  {
    var list := s.bases[pb].aliases;
    && (forall j :: 0 <= j < |list| ==> list[j] in s.pnodes && s.pnodes[list[j]].base == pb)
    && t.nextBase == s.nextBase
    && (forall j :: k <= j < |list| ==> list[j] in t.pnodes && t.pnodes[list[j]] == s.pnodes[list[j]])
    && match hit
       case None => t == s && count == 0 && forall j :: 0 <= j < k ==> s.pnodes[list[j]].mount != m
       case Some(c) =>
         && c in list[..k] && c in s.pnodes && s.pnodes[c].mount == m && Pruned(s, t, c, count)
         && forall j :: k <= j < |list| ==> s.pnodes[list[j]].mount != m
  }

  lemma ListStart(s: Ns, pb: nat, m: nat)
    requires TreeOk(s) && pb in s.bases
    ensures ListMid(s, s, pb, m, 0, None, 0)
  {
    BaseFacts(s, pb);
  }

  lemma ListNext(s: Ns, t: Ns, pb: nat, m: nat, k: nat, hit: Option<nat>, count: nat)
    requires TreeOk(s) && pb in s.bases && k < |s.bases[pb].aliases| && ListMid(s, t, pb, m, k, hit, count)
    ensures var pno := s.bases[pb].aliases[k];
      && pno in t.pnodes && t.pnodes[pno].base == pb
      && (t.pnodes[pno].mount != m ==> ListMid(s, t, pb, m, k + 1, hit, count))
      && (t.pnodes[pno].mount == m ==> t == s && hit.None? && count == 0)
  {
    hide TreeOk, Pruned;
    var list := s.bases[pb].aliases;
    assert list[..k + 1] == list[..k] + [list[k]];
  }

  lemma ListHit(s: Ns, t: Ns, pb: nat, m: nat, k: nat, count: nat)
    requires TreeOk(s) && pb in s.bases && k < |s.bases[pb].aliases|
    requires ListMid(s, s, pb, m, k, None, 0)
    requires var pno := s.bases[pb].aliases[k]; pno in s.pnodes && s.pnodes[pno].mount == m && Pruned(s, t, pno, count)
    ensures ListMid(s, t, pb, m, k + 1, Some(s.bases[pb].aliases[k]), count)
  {
    hide TreeOk, Pruned;
    var list := s.bases[pb].aliases;
    RestStays(s, t, pb, list, m, list[k], count);
    ListDistinct(s, pb);
    assert list[..k + 1] == list[..k] + [list[k]];
  }

  lemma ListDistinct(s: Ns, pb: nat)
    requires TreeOk(s) && pb in s.bases
    ensures Distinct(s.bases[pb].aliases)
  {
    BaseFacts(s, pb);
  }

  lemma ListDone(s: Ns, t: Ns, pb: nat, m: nat, hit: Option<nat>, count: nat)
    requires TreeOk(s) && pb in s.bases && ListMid(s, t, pb, m, |s.bases[pb].aliases|, hit, count)
    ensures ChildPruned(s, t, pb, m, count)
  {
    hide TreeOk, Smaller, Outside;
    match hit
    case None => SmallerSelf(s); OutsideSelf(s, pb);
    case Some(k) =>
      forall c | c in s.bases[pb].aliases && c in s.pnodes && s.pnodes[c].mount == m
        ensures c == k
      {
        OneAlias(s, c, k);
      }
  }

  /** The other aliases of the base are of other mounts, so they outlive the one that was pruned. */
  lemma RestStays(s: Ns, t: Ns, pb: nat, list: seq<nat>, m: nat, c: nat, count: nat)
    requires TreeOk(s) && pb in s.bases && list == s.bases[pb].aliases && c in list
    requires c in s.pnodes && s.pnodes[c].mount == m && Pruned(s, t, c, count)
    ensures t.nextBase == s.nextBase && t.mounts == s.mounts
    ensures forall j :: 0 <= j < |list| && list[j] != c ==>
      list[j] in s.pnodes && s.pnodes[list[j]].mount != m && list[j] in t.pnodes &&
        t.pnodes[list[j]] == s.pnodes[list[j]]
  {
    BaseFacts(s, pb);
    forall j | 0 <= j < |list| && list[j] != c
      ensures list[j] in s.pnodes && s.pnodes[list[j]].mount != m && list[j] in t.pnodes &&
        t.pnodes[list[j]] == s.pnodes[list[j]]
    {
      if s.pnodes[list[j]].mount == m {
        OneAlias(s, list[j], c);
      } else {
        PrunedOthers(s, t, c, count, list[j]);
      }
    }
  }

  /** The leaf cases of the alias loop. */
  lemma LeafPruned(s: Ns, c: nat)
    requires TreeOk(s) && c in s.pnodes && s.pnodes[c].base in s.bases && s.bases[s.pnodes[c].base].children == []
    ensures s.pnodes[c].mount in s.mounts && (s.pnodes[c].cover.Some? ==> s.pnodes[c].ref > 0)
    ensures var b := s.bases[s.pnodes[c].base]; b.parent.Some? ==> b.parent.value in s.bases
    ensures s.pnodes[c].ref > 0 || IsRoot(s, c) ==> Pruned(s, s, c, 1)
    ensures s.pnodes[c].ref == 0 && !IsRoot(s, c) ==> Pruned(s, PGone(s, c), c, 0)
  {
    NodeFacts(s, c);
    LeafAlone(s, c);
    MidStart(s, c);
    if s.pnodes[c].ref > 0 || IsRoot(s, c) {
      PrunedRootStays(s, s, c, 0);
    } else {
      PrunedRootGoes(s, s, c);
    }
  }

  // ---------------------------------------------------------------- which kids are done

  ghost function DoneKids(s: Ns, r: nat, kids: seq<nat>, i: nat): set<nat>
    requires i <= |kids|
  {
    set c | c in Kids(s, r) && s.pnodes[c].base in kids[..i]
  }

  lemma PruneEntry(s: Ns, r: nat)
    requires TreeOk(s) && r in s.pnodes
    ensures s.pnodes[r].base in s.bases && s.pnodes[r].base < s.nextBase
    ensures var kids := s.bases[s.pnodes[r].base].children;
      && (forall k :: 0 <= k < |kids| ==> kids[k] in s.bases)
      && Mid(s, s, r, DoneKids(s, r, kids, 0), 0)
  {
    NodeFacts(s, r);
    MidStart(s, r);
    assert DoneKids(s, r, s.bases[s.pnodes[r].base].children, 0) == {};
  }

  lemma AllDone(s: Ns, r: nat, kids: seq<nat>)
    requires TreeOk(s) && r in s.pnodes && s.pnodes[r].base in s.bases && kids == s.bases[s.pnodes[r].base].children
    ensures DoneKids(s, r, kids, |kids|) == Kids(s, r)
  {
    assert kids[..|kids|] == kids;
    forall c | c in Kids(s, r) ensures s.pnodes[c].base in kids {
      NodeFacts(s, c);
      BaseFacts(s, s.pnodes[c].base);
    }
  }

  ghost predicate IsKidAt(s: Ns, r: nat, b: nat, c: nat) { c in Kids(s, r) && s.pnodes[c].base == b }

  lemma MidParts(s: Ns, t: Ns, r: nat, cs: set<nat>, count: nat)
    requires r in s.pnodes && Mid(s, t, r, cs, count)
    ensures TreeOk(t) && t.nextBase == s.nextBase && t.mounts == s.mounts && Smaller(s, t, DeadIn(s, cs))
  {
  }

  lemma MidRoot(s: Ns, t: Ns, r: nat, count: nat)
    requires TreeOk(s) && r in s.pnodes && Mid(s, t, r, Kids(s, r), count)
    ensures r in t.pnodes && t.pnodes[r] == s.pnodes[r] && t.mounts == s.mounts && s.pnodes[r].mount in s.mounts
    ensures s.pnodes[r].cover.Some? ==> s.pnodes[r].ref > 0
  {
    RefsSplit(s, r);
    NodeFacts(s, r);
  }

  /** A kid that is not dealt with yet is still there. */
  lemma KidStill(s: Ns, t: Ns, r: nat, cs: set<nat>, count: nat, c: nat)
    requires TreeOk(s) && r in s.pnodes && Mid(s, t, r, cs, count) && c in Kids(s, r) && c !in cs
    ensures c in t.pnodes && t.pnodes[c] == s.pnodes[c]
    ensures s.pnodes[c].base in t.bases && c in t.bases[s.pnodes[c].base].aliases
  {
    KidUntouched(s, r, cs, c);
    assert Under(s, c, c);
    NodeFacts(t, c);
  }

  lemma DoneNext(s: Ns, r: nat, kids: seq<nat>, i: nat)
    requires i < |kids|
    ensures forall c :: c in DoneKids(s, r, kids, i + 1) <==> c in DoneKids(s, r, kids, i) || IsKidAt(s, r, kids[i], c)
  {
    hide Kids;
    assert kids[..i + 1] == kids[..i] + [kids[i]];
  }

  /** One child more: the alias it has in the mount of `r` is the kid there. */
  lemma ChildDone(s: Ns, t: Ns, u: Ns, r: nat, kids: seq<nat>, i: nat, count: nat, n: nat)
    requires TreeOk(s) && r in s.pnodes && s.pnodes[r].base in s.bases && kids == s.bases[s.pnodes[r].base].children
    requires i < |kids| && kids[i] in t.bases && Mid(s, t, r, DoneKids(s, r, kids, i), count)
    requires ChildPruned(t, u, kids[i], s.pnodes[r].mount, n)
    ensures Mid(s, u, r, DoneKids(s, r, kids, i + 1), count + n) && Outside(t, u, kids[i]) && u.nextBase == t.nextBase
  {
    hide Mid, TreeOk, Smaller, Outside, NodeOk, BaseOk, Kids, DoneKids, Pruned;
    var cs := DoneKids(s, r, kids, i);
    DoneNext(s, r, kids, i);
    if c :| IsKidAt(s, r, kids[i], c) {
      TheKid(s, t, r, kids, i, count, c);
      MidKid(s, t, u, r, cs, count, c, n);
      MidParts(s, u, r, cs + {c}, count + n);
      MidParts(s, t, r, cs, count);
      assert DoneKids(s, r, kids, i + 1) == cs + {c};
    } else {
      NoKid(s, t, r, kids, i, count);
      SiblingsApart(s, s.pnodes[r].base, kids, i);
      MidBase(s, t, u, r, cs, count, kids[i]);
      MidParts(s, u, r, cs, count);
      MidParts(s, t, r, cs, count);
      assert DoneKids(s, r, kids, i + 1) == cs;
    }
  }

  lemma TheKid(s: Ns, t: Ns, r: nat, kids: seq<nat>, i: nat, count: nat, c: nat)
    requires TreeOk(s) && r in s.pnodes && s.pnodes[r].base in s.bases && kids == s.bases[s.pnodes[r].base].children
    requires i < |kids| && kids[i] in t.bases && Mid(s, t, r, DoneKids(s, r, kids, i), count) &&
      IsKidAt(s, r, kids[i], c)
    ensures c in Kids(s, r) && c !in DoneKids(s, r, kids, i) && c in t.bases[kids[i]].aliases
    ensures c in t.pnodes && t.pnodes[c].mount == s.pnodes[r].mount
    ensures forall d :: IsKidAt(s, r, kids[i], d) ==> d == c
  {
    hide Mid, TreeOk, NodeOk, BaseOk;
    KidsDistinct(s, r, kids, i);
    KidMount(s, r, c);
    KidStill(s, t, r, DoneKids(s, r, kids, i), count, c);
    forall d | IsKidAt(s, r, kids[i], d) ensures d == c {
      KidMount(s, r, d);
      OneAlias(s, d, c);
    }
  }

  lemma NoKid(s: Ns, t: Ns, r: nat, kids: seq<nat>, i: nat, count: nat)
    requires TreeOk(s) && r in s.pnodes && s.pnodes[r].base in s.bases && kids == s.bases[s.pnodes[r].base].children
    requires i < |kids| && kids[i] in t.bases && Mid(s, t, r, DoneKids(s, r, kids, i), count)
    requires forall c :: !IsKidAt(s, r, kids[i], c)
    ensures forall p :: p in t.bases[kids[i]].aliases ==> p in t.pnodes && t.pnodes[p].mount != s.pnodes[r].mount
  {
    hide Mid, TreeOk, NodeOk, BaseOk, Kids;
    MidParts(s, t, r, DoneKids(s, r, kids, i), count);
    KidsDistinct(s, r, kids, i);
    forall p | p in t.bases[kids[i]].aliases ensures p in t.pnodes && t.pnodes[p].mount != s.pnodes[r].mount {
      AliasFound(s, t, r, DoneKids(s, r, kids, i), kids[i], p);
      assert !IsKidAt(s, r, kids[i], p);
    }
  }

  lemma KidMount(s: Ns, r: nat, c: nat)
    requires TreeOk(s) && r in s.pnodes && c in Kids(s, r)
    ensures c in s.pnodes && s.pnodes[c].mount == s.pnodes[r].mount
  {
    NodeFacts(s, c);
  }

  lemma KidsDistinct(s: Ns, r: nat, kids: seq<nat>, i: nat)
    requires TreeOk(s) && r in s.pnodes && s.pnodes[r].base in s.bases && kids == s.bases[s.pnodes[r].base].children &&
      i < |kids|
    ensures kids[i] !in kids[..i] && kids[i] in s.bases && s.bases[kids[i]].parent == Some(s.pnodes[r].base)
  {
    BaseFacts(s, s.pnodes[r].base);
  }

  lemma AliasFound(s: Ns, t: Ns, r: nat, cs: set<nat>, b: nat, p: nat)
    requires TreeOk(s) && TreeOk(t) && Smaller(s, t, DeadIn(s, cs)) && r in s.pnodes
    requires b in t.bases && p in t.bases[b].aliases && s.bases[b].parent == Some(s.pnodes[r].base)
    ensures p in t.pnodes && (t.pnodes[p].mount == s.pnodes[r].mount ==> IsKidAt(s, r, b, p))
  {
    BaseFacts(t, b);
    if t.pnodes[p].mount == s.pnodes[r].mount {
      KidFound(s, r, p);
    }
  }

  lemma KeptAliases(t: Ns, u: Ns, b: nat)
    requires Smaller(t, u, {}) && b in u.bases
    ensures b in t.bases && u.bases[b].aliases == t.bases[b].aliases
  {
    MinusNone(t.bases[b].aliases, {});
  }
}
