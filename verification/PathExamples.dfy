/**
 * A name space in which two uncovered directories are not visible: /a/x is mounted on /a/y,
 * so the entry "x" of /a leads to the mount's root instead of /a/x, and /a/y/z lies under the
 * covered directory.
 */
module PathExamples {
  import opened Prelude
  import opened NameSpace
  import opened NameWf
  import opened PathWalk
  import opened PathPrint
  import opened PathRoundTrip
  import opened PathReach
  import opened PathNamed

  function Shadowing(): Ns {
    Ns(
      map[
        0 := Base("", Some(Directory), None, [1], [0]),
        1 := Base("a", Some(Directory), Some(0), [3, 2], [1]),
        2 := Base("x", Some(Directory), Some(1), [], [4, 2]),
        3 := Base("y", Some(Directory), Some(1), [4], [3]),
        4 := Base("z", Some(Directory), Some(3), [], [5])],
      map[
        0 := Pnode(1, 0, 0, 0, Some(0)),
        1 := Pnode(0, 0, 1, 0, None),
        2 := Pnode(0, 1, 2, 0, None),
        3 := Pnode(1, 1, 3, 0, Some(4)),
        4 := Pnode(1, 1, 2, 1, None),
        5 := Pnode(0, 3, 4, 0, None)],
      map[0 := Mount(0, 0), 1 := Mount(4, 3)],
      5, 6, 2, 0)
  }

  lemma ShadowingBase(b: nat)
    requires b in Shadowing().bases
    ensures BaseOk(Shadowing(), b)
  {
    var s := Shadowing();
    if b == 0 { assert BaseOk(s, 0); }
    else if b == 1 { assert BaseOk(s, 1); }
    else if b == 2 { assert BaseOk(s, 2); }
    else if b == 3 { assert BaseOk(s, 3); }
    else { assert BaseOk(s, 4); }
  }

  lemma ShadowingNode(p: nat)
    requires p in Shadowing().pnodes
    ensures NodeOk(Shadowing(), p)
  {
  }

  lemma ShadowingTwins(p: nat, q: nat)
    requires p in Shadowing().pnodes && q in Shadowing().pnodes && Twins(Shadowing().pnodes[p], Shadowing().pnodes[q])
    ensures p == q
  {
  }

  lemma ShadowingRoots()
    ensures RootsOk(Shadowing())
  {
  }

  lemma ShadowingTree()
    ensures TreeOk(Shadowing())
  {
    hide BaseOk, NodeOk, RootsOk, Twins, Shadowing;
    var s := Shadowing();
    forall b | b in s.bases ensures BaseOk(s, b) { ShadowingBase(b); }
    forall p | p in s.pnodes ensures NodeOk(s, p) { ShadowingNode(p); }
    forall p, q | p in s.pnodes && q in s.pnodes && Twins(s.pnodes[p], s.pnodes[q])
      ensures p == q
    {
      ShadowingTwins(p, q);
    }
    ShadowingRoots();
    TreeFrom(s);
  }

  lemma ShadowingCover(p: nat)
    requires p in Shadowing().pnodes
    ensures CoverOk(Shadowing(), p)
  {
  }

  lemma ShadowingSiblings(b: nat, c: nat)
    requires var s := Shadowing(); b in s.bases && c in s.bases && Namesakes(s.bases[b], s.bases[c])
    ensures b == c
  {
  }

  lemma ShadowingNames()
    ensures NamesOk(Shadowing())
  {
    var s := Shadowing();
    forall b | b in s.bases && s.bases[b].parent.Some? ensures NameOk(s.bases[b].name) { }
    hide Shadowing;
    forall b, c | b in s.bases && c in s.bases && Namesakes(s.bases[b], s.bases[c]) ensures b == c {
      ShadowingSiblings(b, c);
    }
  }

  lemma ShadowingWf()
    ensures Wf(Shadowing())
  {
    hide TreeOk, CoverOk, NamesOk;
    var s := Shadowing();
    ShadowingTree();
    ShadowingNames();
    forall p | p in s.pnodes ensures CoverOk(s, p) { ShadowingCover(p); }
    CoversFrom(s);
  }

  lemma ShadowingChains()
    ensures var s := Shadowing();
      Wf(s) && Chain(s, 2) == [0, 1, 2] && Chain(s, 5) == [0, 1, 3, 5] && Bottom(s, 2) == 2 && Bottom(s, 4) == 3
  {
    ShadowingWf();
    hide Wf;
    var s := Shadowing();
    assert Chain(s, 0) == [0];
    assert Chain(s, 1) == [0, 1];
    assert Chain(s, 3) == [0, 1, 3];
    assert Bottom(s, 3) == 3;
  }

  lemma ShadowingLooks()
    ensures var s := Shadowing();
      Wf(s) && LookTop(s, 0, "a") == Some(1) && LookTop(s, 1, "x") == Some(4) && LookTop(s, 1, "y") == Some(4)
  {
    ShadowingWf();
    hide Wf;
    var s := Shadowing();
    assert FindChild(s, [1], "a") == Some(1);
    assert FindChild(s, [3, 2], "y") == Some(3);
    assert [3, 2][1..] == [2];
    assert FindChild(s, [2], "x") == Some(2);
    assert FindWithParent(s, [1], 0) == Some(1);
    assert FindWithParent(s, [4, 2], 1) == Some(4);
    assert FindWithParent(s, [3], 1) == Some(3);
    assert Top(s, 4) == 4;
    assert Top(s, 1) == 1;
  }

  lemma ShadowingNamesOf()
    ensures var s := Shadowing(); Wf(s) && Names(s, 2) == ["a", "x"]
  {
    ShadowingWf();
    hide Wf;
    var s := Shadowing();
    assert Names(s, 0) == [];
    assert Bottom(s, 1) == 1;
    assert Names(s, 1) == ["a"];
    assert Bottom(s, 2) == 2;
  }

  lemma ShadowingLeads()
    ensures var s := Shadowing(); Wf(s) && LeadsTo(s, 0, ["a", "x"], 4)
  {
    ShadowingLooks();
    hide Wf, LookTop;
    var s := Shadowing();
    assert ["a", "x"][1..] == ["x"] && ["x"][1..] == [];
    assert LeadsTo(s, 4, [], 4);
    assert LeadsTo(s, 1, ["x"], 4);
  }

  lemma ShadowingHidden()
    ensures var s := Shadowing(); Wf(s) && !Visible(s, 2) && !Found(s, 5) && !Visible(s, 5)
  {
    ShadowingChains();
    hide Wf, Chain, Bottom, LookTop;
    var s := Shadowing();
    assert FindWithParent(s, [4, 2], 1) == Some(4);
    assert !FirstOfItsName(s, 2);
    if Found(s, 3) { FoundExposed(s, 3); }
    assert !Visible(s, 3);
  }

  /**
   * Two directories that nothing covers: the path printed for the first leads to the mount's
   * root, that of the second not to it.
   */
  lemma ShadowedDirectories(w: World, fl: Flags)
    requires Steady(w)
    ensures var s := Shadowing();
      && Wf(s) && s.pnodes[2].cover.None? && s.pnodes[5].cover.None?
      && Lands(Walk(w, s, 0, Some(PathOf(s, 2)), s.root, fl, 0), 4, 0)
      && !Returns(Walk(w, s, 0, Some(PathOf(s, 5)), s.root, fl, 0), 5)
  {
    ShadowingChains();
    ShadowingHidden();
    ShadowingNamesOf();
    ShadowingLeads();
    hide Wf, Walk, PathOf, Steady, Chain, Bottom, WalkOk, Lands, Found, Visible, LeadsTo, Names;
    var s := Shadowing();
    ClearWay(w, s, 2, 0, fl, 4);
    PrintedPath(w, s, 5, 0, fl);
  }
}
