/**
 * Which base nodes pruning a sub-tree of bases frees: those that no alias is on or under, and
 * that are reached from the top of the sub-tree without passing a node with an alias.
 */
module IdleBases {
  import opened Prelude
  import opened NameSpace
  import opened PruneSpec

  /** No alias on the node or under it. */
  ghost predicate Barren(s: Ns, b: nat) { forall c :: BaseUnder(s, c, b) ==> s.bases[c].aliases == [] }

  /** From `b` up to `r` no node has an alias. */
  ghost predicate BareUnder(s: Ns, b: nat, r: nat)
    decreases b
  {
    && b in s.bases && s.bases[b].aliases == []
    && (b == r || match s.bases[b].parent case None => false case Some(q) => q < b && BareUnder(s, q, r))
  }

  ghost function Idle(s: Ns, r: nat): set<nat> { set b | b in s.bases && BareUnder(s, b, r) && Barren(s, b) }

  /** The idle nodes under the first `i` of some children. */
  ghost function IdleIn(s: Ns, kids: seq<nat>, i: nat): set<nat>
    requires i <= |kids|
  {
    set b | b in s.bases && IdleUnderOne(s, kids, i, b)
  }

  ghost predicate IdleUnderOne(s: Ns, kids: seq<nat>, i: nat, b: nat)
    requires i <= |kids|
  {
    exists k :: 0 <= k < i && b in Idle(s, kids[k])
  }

  // ---------------------------------------------------------------- sub-trees

  lemma {:induction false} BareIsUnder(s: Ns, b: nat, r: nat)
    requires BareUnder(s, b, r)
    ensures BaseUnder(s, b, r)
    decreases b
  {
    if b == r {
    } else {
      BareIsUnder(s, s.bases[b].parent.value, r);
    }
  }

  /** Of two nodes above one node, one is above the other. */
  lemma {:induction false} UnderBoth(s: Ns, c: nat, a: nat, b: nat)
    requires BaseUnder(s, c, a) && BaseUnder(s, c, b)
    ensures BaseUnder(s, a, b) || BaseUnder(s, b, a)
    decreases c
  {
    if c == a || c == b {
    } else {
      UnderBoth(s, s.bases[c].parent.value, a, b);
    }
  }

  lemma {:induction false} BareStep(s: Ns, b: nat, kid: nat, r: nat)
    requires kid in s.bases && s.bases[kid].parent == Some(r) && r < kid && r in s.bases && s.bases[r].aliases == []
    requires BareUnder(s, b, kid)
    ensures BareUnder(s, b, r)
    decreases b
  {
    if b == kid {
    } else {
      BareStep(s, s.bases[b].parent.value, kid, r);
    }
  }

  /** What lies barely under `r`, other than `r`, lies so under one of its children. */
  lemma {:induction false} BareKid(s: Ns, b: nat, r: nat) returns (k: nat)
    requires TreeOk(s) && r in s.bases && BareUnder(s, b, r) && b != r
    ensures k < |s.bases[r].children| && BareUnder(s, b, s.bases[r].children[k])
    decreases b
  {
    var q := s.bases[b].parent.value;
    if q == r {
      BaseFacts(s, b);
      k := IndexIn(s.bases[r].children, b);
    } else {
      k := BareKid(s, q, r);
    }
  }

  lemma IndexIn(list: seq<nat>, x: nat) returns (k: nat)
    requires x in list
    ensures k < |list| && list[k] == x
  {
    k :| 0 <= k < |list| && list[k] == x;
  }

  lemma {:induction false} UnderKidOf(s: Ns, c: nat, r: nat) returns (k: nat)
    requires TreeOk(s) && r in s.bases && BaseUnder(s, c, r) && c != r
    ensures k < |s.bases[r].children| && BaseUnder(s, c, s.bases[r].children[k])
    decreases c
  {
    var q := s.bases[c].parent.value;
    if q == r {
      BaseFacts(s, c);
      k := IndexIn(s.bases[r].children, c);
    } else {
      k := UnderKidOf(s, q, r);
    }
  }

  // ---------------------------------------------------------------- the loop over the children

  /** The idle nodes of a sub-tree are as before when others went. */
  lemma IdleSame(s: Ns, t: Ns, pb: nat)
    requires Smaller(s, t, {}) && pb in t.bases && forall c :: BaseUnder(s, c, pb) ==> c in t.bases
    ensures Idle(t, pb) == Idle(s, pb)
  {
    forall b | b in t.bases ensures t.bases[b].aliases == s.bases[b].aliases {
      assert Trimmed(s.bases[b], t.bases[b], s.bases.Keys - t.bases.Keys, {});
      MinusNone(s.bases[b].aliases, {});
    }
    forall b | b in s.bases && BareUnder(s, b, pb) && Barren(s, b) ensures b in Idle(t, pb) {
      BareForth(s, t, b, pb);
      forall c | BaseUnder(t, c, b) ensures t.bases[c].aliases == [] { BaseUnderSmaller(s, t, {}, c, b); }
    }
    forall b | b in t.bases && BareUnder(t, b, pb) && Barren(t, b) ensures b in Idle(s, pb) {
      BareBack(s, t, b, pb);
      BareIsUnder(s, b, pb);
      forall c | BaseUnder(s, c, b) ensures s.bases[c].aliases == [] {
        BaseUnderTrans(s, c, b, pb);
        UnderStays(s, t, c, b, pb);
      }
    }
  }

  lemma {:induction false} BareForth(s: Ns, t: Ns, b: nat, pb: nat)
    requires Smaller(s, t, {}) && BareUnder(s, b, pb) && (forall c :: BaseUnder(s, c, pb) ==> c in t.bases)
    requires forall c :: c in t.bases ==> t.bases[c].aliases == s.bases[c].aliases
    ensures BareUnder(t, b, pb)
    decreases b
  {
    BareIsUnder(s, b, pb);
    if b == pb {
    } else {
      BareForth(s, t, s.bases[b].parent.value, pb);
    }
  }

  lemma {:induction false} BareBack(s: Ns, t: Ns, b: nat, pb: nat)
    requires Smaller(s, t, {}) && BareUnder(t, b, pb)
    requires forall c :: c in t.bases ==> t.bases[c].aliases == s.bases[c].aliases
    ensures BareUnder(s, b, pb)
    decreases b
  {
    if b == pb {
    } else {
      BareBack(s, t, t.bases[b].parent.value, pb);
    }
  }

  lemma {:induction false} UnderStays(s: Ns, t: Ns, c: nat, b: nat, pb: nat)
    requires Smaller(s, t, {}) && BaseUnder(s, c, b) && BaseUnder(s, b, pb) &&
      (forall d :: BaseUnder(s, d, pb) ==> d in t.bases)
    ensures BaseUnder(t, c, b)
    decreases c
  {
    BaseUnderTrans(s, c, b, pb);
    if c == b {
    } else {
      UnderStays(s, t, s.bases[c].parent.value, b, pb);
    }
  }

  /** Nothing under a child is idle under another child. */
  lemma KidsOwn(s: Ns, rpb: nat, kids: seq<nat>, i: nat, c: nat)
    requires TreeOk(s) && rpb in s.bases && kids == s.bases[rpb].children && i < |kids| && BaseUnder(s, c, kids[i])
    ensures forall k :: 0 <= k < |kids| && k != i ==> c !in Idle(s, kids[k])
  {
    hide TreeOk;
    forall k | 0 <= k < |kids| && k != i ensures c !in Idle(s, kids[k]) {
      if c in Idle(s, kids[k]) {
        BareIsUnder(s, c, kids[k]);
        UnderBoth(s, c, kids[i], kids[k]);
        SiblingsApart(s, rpb, kids, i);
        SiblingsApart(s, rpb, kids, k);
      }
    }
  }

  lemma NoneYet(s: Ns, kids: seq<nat>)
    ensures IdleIn(s, kids, 0) == {}
  {
  }

  /** One more child done. */
  lemma IdleNext(s: Ns, t: Ns, rpb: nat, kids: seq<nat>, i: nat)
    requires TreeOk(s) && rpb in s.bases && kids == s.bases[rpb].children && i < |kids|
    requires Smaller(s, t, {}) && t.bases.Keys == s.bases.Keys - IdleIn(s, kids, i)
    ensures kids[i] in t.bases && Idle(t, kids[i]) == Idle(s, kids[i])
    ensures IdleIn(s, kids, i + 1) == IdleIn(s, kids, i) + Idle(s, kids[i])
  {
    SiblingsApart(s, rpb, kids, i);
    hide TreeOk, Smaller, Idle;
    forall c | BaseUnder(s, c, kids[i]) ensures c in t.bases { KidsOwn(s, rpb, kids, i, c); }
    assert BaseUnder(s, kids[i], kids[i]);
    IdleSame(s, t, kids[i]);
    forall b ensures b in IdleIn(s, kids, i + 1) <==> b in IdleIn(s, kids, i) || b in Idle(s, kids[i]) {
      IdleThere(s, kids[i], b);
      if IdleUnderOne(s, kids, i + 1, b) {
        var k :| 0 <= k < i + 1 && b in Idle(s, kids[k]);
        if k < i { assert IdleUnderOne(s, kids, i, b); }
      }
      if IdleUnderOne(s, kids, i, b) {
        var k :| 0 <= k < i && b in Idle(s, kids[k]);
        assert IdleUnderOne(s, kids, i + 1, b);
      }
    }
  }

  lemma IdleThere(s: Ns, r: nat, b: nat)
    ensures b in Idle(s, r) ==> b in s.bases
  {
  }

  /** A child with an alias has nothing idle, and a bare leaf only itself. */
  lemma IdleEnds(s: Ns, b: nat)
    requires TreeOk(s) && b in s.bases
    ensures s.bases[b].aliases != [] ==> Idle(s, b) == {}
    ensures s.bases[b].aliases == [] && s.bases[b].children == [] ==> Idle(s, b) == {b}
  {
    if s.bases[b].aliases != [] {
      forall c | c in s.bases && BareUnder(s, c, b) ensures false { BareTop(s, c, b); }
    } else if s.bases[b].children == [] {
      assert BareUnder(s, b, b);
      forall c | BaseUnder(s, c, b) && c != b ensures false { var k := UnderKidOf(s, c, b); }
      forall c | c in Idle(s, b) ensures c == b { BareIsUnder(s, c, b); }
    }
  }

  lemma {:induction false} BareTop(s: Ns, c: nat, b: nat)
    requires BareUnder(s, c, b)
    ensures b in s.bases && s.bases[b].aliases == []
    decreases c
  {
    if c == b {
    } else {
      BareTop(s, s.bases[c].parent.value, b);
    }
  }

  // ---------------------------------------------------------------- the top

  /** After the children: the node itself is idle exactly when none of them is left. */
  lemma IdleTop(s: Ns, t: Ns, rpb: nat)
    requires TreeOk(s) && rpb in s.bases && s.bases[rpb].aliases == [] && rpb in t.bases && Smaller(s, t, {})
    requires var kids := s.bases[rpb].children; t.bases.Keys == s.bases.Keys - IdleIn(s, kids, |kids|)
    ensures t.bases[rpb].children == [] ==> t.bases.Keys - {rpb} == s.bases.Keys - Idle(s, rpb)
    ensures t.bases[rpb].children != [] ==> t.bases.Keys == s.bases.Keys - Idle(s, rpb)
  {
    hide TreeOk, Smaller, Idle, IdleIn, Barren;
    IdleSplit(s, rpb);
    var kids := s.bases[rpb].children;
    if t.bases[rpb].children == [] {
      forall k | 0 <= k < |kids| ensures Barren(s, kids[k]) { ClearedKid(s, t, rpb, k); }
      AllBarren(s, rpb);
    } else {
      var k := KeptKid(s, t, rpb);
      NotBarren(s, rpb, k);
    }
  }

  lemma ClearedKid(s: Ns, t: Ns, rpb: nat, k: nat)
    requires TreeOk(s) && rpb in s.bases && rpb in t.bases && Smaller(s, t, {}) && t.bases[rpb].children == []
    requires var kids := s.bases[rpb].children; k < |kids| && t.bases.Keys == s.bases.Keys - IdleIn(s, kids, |kids|)
    ensures Barren(s, s.bases[rpb].children[k])
  {
    var kids := s.bases[rpb].children;
    assert Trimmed(s.bases[rpb], t.bases[rpb], s.bases.Keys - t.bases.Keys, {});
    hide TreeOk, Smaller, IdleIn, Barren;
    BaseFacts(s, rpb);
    assert kids[k] in kids && kids[k] !in t.bases[rpb].children;
    IdleKid(s, rpb, kids, k);
  }

  lemma KeptKid(s: Ns, t: Ns, rpb: nat) returns (k: nat)
    requires TreeOk(s) && rpb in s.bases && rpb in t.bases && Smaller(s, t, {}) && t.bases[rpb].children != []
    requires var kids := s.bases[rpb].children; t.bases.Keys == s.bases.Keys - IdleIn(s, kids, |kids|)
    ensures k < |s.bases[rpb].children| && !Barren(s, s.bases[rpb].children[k])
  {
    var kids := s.bases[rpb].children;
    hide TreeOk, Smaller, IdleIn, Barren;
    var c := t.bases[rpb].children[0];
    assert c in t.bases[rpb].children && c in kids && c in t.bases by { BaseLists(s, t, rpb, c); }
    k := IndexIn(kids, c);
    IdleKid(s, rpb, kids, k);
  }

  lemma BaseLists(s: Ns, t: Ns, rpb: nat, c: nat)
    requires TreeOk(s) && Smaller(s, t, {}) && rpb in t.bases && rpb in s.bases && c in t.bases[rpb].children
    ensures c in s.bases[rpb].children && c in t.bases
  {
    assert Trimmed(s.bases[rpb], t.bases[rpb], s.bases.Keys - t.bases.Keys, {});
    BaseFacts(s, rpb);
  }

  /** A child is freed exactly when it is barren. */
  lemma IdleKid(s: Ns, rpb: nat, kids: seq<nat>, k: nat)
    requires TreeOk(s) && rpb in s.bases && kids == s.bases[rpb].children && k < |kids|
    ensures kids[k] in IdleIn(s, kids, |kids|) <==> Barren(s, kids[k])
  {
    SiblingsApart(s, rpb, kids, k);
    assert BaseUnder(s, kids[k], kids[k]);
    KidsOwn(s, rpb, kids, k, kids[k]);
    if Barren(s, kids[k]) {
      assert BareUnder(s, kids[k], kids[k]);
      assert kids[k] in Idle(s, kids[k]);
      assert IdleUnderOne(s, kids, |kids|, kids[k]);
    }
    if IdleUnderOne(s, kids, |kids|, kids[k]) {
      var j :| 0 <= j < |kids| && kids[k] in Idle(s, kids[j]);
    }
  }

  lemma AllBarren(s: Ns, rpb: nat)
    requires TreeOk(s) && rpb in s.bases && s.bases[rpb].aliases == []
    requires forall k :: 0 <= k < |s.bases[rpb].children| ==> Barren(s, s.bases[rpb].children[k])
    ensures Barren(s, rpb)
  {
    forall c | BaseUnder(s, c, rpb) ensures s.bases[c].aliases == [] {
      if c != rpb {
        var k := UnderKidOf(s, c, rpb);
        assert Barren(s, s.bases[rpb].children[k]);
      }
    }
  }

  lemma NotBarren(s: Ns, rpb: nat, k: nat)
    requires TreeOk(s) && rpb in s.bases && k < |s.bases[rpb].children| && !Barren(s, s.bases[rpb].children[k])
    ensures !Barren(s, rpb)
  {
    var kids := s.bases[rpb].children;
    SiblingsApart(s, rpb, kids, k);
    var c :| BaseUnder(s, c, kids[k]) && s.bases[c].aliases != [];
    BaseUnderTrans(s, c, kids[k], rpb);
  }

  lemma IdleSplit(s: Ns, rpb: nat)
    requires TreeOk(s) && rpb in s.bases && s.bases[rpb].aliases == []
    ensures var kids := s.bases[rpb].children;
      Idle(s, rpb) == IdleIn(s, kids, |kids|) + (if Barren(s, rpb) then {rpb} else {})
  {
    var kids := s.bases[rpb].children;
    hide TreeOk, Barren;
    forall b | b in Idle(s, rpb) && b != rpb ensures b in IdleIn(s, kids, |kids|) {
      var k := BareKid(s, b, rpb);
      assert b in Idle(s, kids[k]);
      assert IdleUnderOne(s, kids, |kids|, b);
    }
    forall b | b in IdleIn(s, kids, |kids|) ensures b in Idle(s, rpb) {
      var k :| 0 <= k < |kids| && b in Idle(s, kids[k]);
      SiblingsApart(s, rpb, kids, k);
      KidParent(s, rpb, k);
      BareStep(s, b, kids[k], rpb);
    }
  }

  lemma KidParent(s: Ns, rpb: nat, k: nat)
    requires TreeOk(s) && rpb in s.bases && k < |s.bases[rpb].children|
    ensures var kid := s.bases[rpb].children[k]; kid in s.bases && s.bases[kid].parent == Some(rpb)
  {
    BaseFacts(s, rpb);
  }

  /** What is not under `pb` is still there. */
  lemma StillThere(s: Ns, t: Ns, u: Ns, pb: nat, b: nat)
    requires Smaller(s, t, {}) && Outside(t, u, pb) && b in t.bases && !BaseUnder(s, b, pb)
    ensures b in u.bases
  {
    if BaseUnder(t, b, pb) { BaseUnderSmaller(s, t, {}, b, pb); }
  }

  // ---------------------------------------------------------------- a pruned sub-tree

  /** From `s` to `u` the idle base nodes under `r` went. */
  ghost predicate Cleared(s: Ns, u: Ns, r: nat) {
    TreeOk(u) && Smaller(s, u, {}) && Outside(s, u, r) && u.bases.Keys == s.bases.Keys - Idle(s, r)
  }

  /** The same with the first `i` children of `r` done. */
  ghost predicate Clearing(s: Ns, u: Ns, r: nat, kids: seq<nat>, i: nat) {
    && TreeOk(s) && r in s.bases && s.bases[r].aliases == [] && kids == s.bases[r].children && i <= |kids|
    && TreeOk(u) && Smaller(s, u, {}) && Outside(s, u, r) && r in u.bases && u.nextBase == s.nextBase
    && u.bases.Keys == s.bases.Keys - IdleIn(s, kids, i)
  }

  lemma ClearingStart(s: Ns, r: nat)
    requires TreeOk(s) && r in s.bases && s.bases[r].aliases == []
    ensures Clearing(s, s, r, s.bases[r].children, 0)
  {
    hide TreeOk, Smaller, Outside, IdleIn;
    SmallerSelf(s);
    OutsideSelf(s, r);
    NoneYet(s, s.bases[r].children);
  }

  lemma ClearingNext(s: Ns, t: Ns, r: nat, kids: seq<nat>, i: nat)
    requires Clearing(s, t, r, kids, i) && i < |kids|
    ensures TreeOk(t) && kids[i] in t.bases && r < kids[i] < t.nextBase
    ensures forall u :: Cleared(t, u, kids[i]) ==> Clearing(s, u, r, kids, i + 1)
  {
    hide TreeOk, Smaller, Outside, IdleIn, Idle, BaseUnder;
    SiblingsApart(s, r, kids, i);
    IdleNext(s, t, r, kids, i);
    forall u | Cleared(t, u, kids[i]) ensures Clearing(s, u, r, kids, i + 1) {
      StillThere(s, t, u, kids[i], r);
      SmallerBases(s, t, u);
      OutsideTrans(s, t, u, {}, r, kids[i]);
      SameNext(t, u);
    }
  }

  lemma SameNext(s: Ns, t: Ns)
    requires Smaller(s, t, {})
    ensures t.nextBase == s.nextBase
  {
  }

  lemma ClearingEnd(s: Ns, t: Ns, r: nat, kids: seq<nat>)
    requires Clearing(s, t, r, kids, |kids|)
    ensures t.bases[r].children != [] ==> Cleared(s, t, r)
    ensures t.bases[r].children == [] ==>
      && t.bases[r].aliases == [] && (t.bases[r].parent.Some? ==> t.bases[r].parent.value in t.bases)
      && Cleared(s, PbGone(t, r), r)
  {
    hide TreeOk, Smaller, Outside, IdleIn, Idle, BaseUnder;
    IdleTop(s, t, r);
    if t.bases[r].children == [] {
      KeptAliases(s, t, r);
      PbGoneFacts(t, r);
      var u := PbGone(t, r);
      SmallerBases(s, t, u);
      BaseSelf(s, r);
      OutsideTrans(s, t, u, {}, r, r);
    }
  }

  lemma TopStays(s: Ns, t: Ns, r: nat, kids: seq<nat>)
    requires Clearing(s, t, r, kids, |kids|)
    ensures r in t.bases
  {
    hide TreeOk, Smaller, Outside, IdleIn;
  }

  /** What one turn does to a child: nothing, everything under it, or the child itself. */
  lemma ClearedEnds(s: Ns, b: nat)
    requires TreeOk(s) && b in s.bases
    ensures s.bases[b].aliases != [] ==> Cleared(s, s, b)
    ensures s.bases[b].aliases == [] && s.bases[b].children == [] ==>
      (s.bases[b].parent.Some? ==> s.bases[b].parent.value in s.bases) && Cleared(s, PbGone(s, b), b)
  {
    hide TreeOk, Smaller, Outside, Idle, BaseUnder;
    IdleEnds(s, b);
    SmallerSelf(s);
    OutsideSelf(s, b);
    if s.bases[b].aliases == [] && s.bases[b].children == [] { PbGoneFacts(s, b); }
  }
}
