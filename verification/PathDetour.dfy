/**
 * A directory whose printed path leads back to it although it is not visible.  /a/x is mounted
 * on /a/y, and then /a/y on /a/w: the directory k of x is printed as /a/y/k, and the entry "y"
 * of /a leads to the second mount, where k is a link to /a/x/k.
 */
module PathDetour {
  import opened Prelude
  import opened NameSpace
  import opened NameWf
  import opened PathWalk
  import opened PathPrint
  import opened PathRoundTrip
  import opened PathReach
  import opened PathNamed

  function Detour(): Ns {
    Ns(
      map[
        0 := Base("", Some(Directory), None, [1], [0]),
        1 := Base("a", Some(Directory), Some(0), [4, 3, 2], [1]),
        2 := Base("x", Some(Directory), Some(1), [5], [4]),
        3 := Base("y", Some(Directory), Some(1), [6], [5, 2]),
        4 := Base("w", Some(Directory), Some(1), [], [3]),
        5 := Base("k", Some(Directory), Some(2), [], [6]),
        6 := Base("k", Some(Symlink), Some(3), [], [7])],
      map[
        0 := Pnode(1, 0, 0, 0, Some(0)),
        1 := Pnode(0, 0, 1, 0, None),
        2 := Pnode(1, 1, 3, 0, Some(4)),
        3 := Pnode(1, 1, 4, 0, Some(5)),
        4 := Pnode(1, 1, 2, 1, None),
        5 := Pnode(1, 1, 3, 2, None),
        6 := Pnode(0, 4, 5, 1, None),
        7 := Pnode(0, 5, 6, 2, None)],
      map[0 := Mount(0, 0), 1 := Mount(4, 2), 2 := Mount(5, 3)],
      7, 8, 3, 0)
  }

  /** Drivers that keep what they know, with the text of the one link. */
  function Drivers(link: string): World {
    World(
      (s: Ns, p: nat) => if Known(s, p) then Valid(s.bases[s.pnodes[p].base].ino.value) else Invalid(-ENOENT, None),
      (s: Ns, p: nat) => Target(link),
      s => true)
  }

  // ---------------------------------------------------------------- well-formedness

  lemma DetourBaseLow(b: nat)
    requires b <= 1
    ensures b in Detour().bases && BaseOk(Detour(), b)
  {
    var s := Detour();
    if b == 0 { assert BaseOk(s, 0); } else { assert BaseOk(s, 1); }
  }

  lemma DetourBaseMiddle(b: nat)
    requires 2 <= b <= 3
    ensures b in Detour().bases && BaseOk(Detour(), b)
  {
    var s := Detour();
    if b == 2 { assert BaseOk(s, 2); } else { assert BaseOk(s, 3); }
  }

  lemma DetourBaseHigh(b: nat)
    requires 4 <= b <= 6
    ensures b in Detour().bases && BaseOk(Detour(), b)
  {
    var s := Detour();
    if b == 4 { assert BaseOk(s, 4); }
    else if b == 5 { assert BaseOk(s, 5); }
    else { assert BaseOk(s, 6); }
  }

  lemma DetourBase(b: nat)
    requires b in Detour().bases
    ensures BaseOk(Detour(), b)
  {
    hide BaseOk;
    if b <= 1 { DetourBaseLow(b); } else if b <= 3 { DetourBaseMiddle(b); } else { DetourBaseHigh(b); }
  }

  lemma DetourNode(p: nat)
    requires p in Detour().pnodes
    ensures NodeOk(Detour(), p) && CoverOk(Detour(), p)
  {
  }

  lemma DetourTwins(p: nat, q: nat)
    requires p in Detour().pnodes && q in Detour().pnodes && Twins(Detour().pnodes[p], Detour().pnodes[q])
    ensures p == q
  {
  }

  lemma DetourRoots()
    ensures RootsOk(Detour())
  {
  }

  lemma DetourNamesake(b: nat, c: nat)
    requires b in Detour().bases && c in Detour().bases && Namesakes(Detour().bases[b], Detour().bases[c])
    ensures b == c
  {
  }

  lemma DetourNameOk(b: nat)
    requires b in Detour().bases && Detour().bases[b].parent.Some?
    ensures NameOk(Detour().bases[b].name)
  {
  }

  lemma DetourNames()
    ensures NamesOk(Detour())
  {
    hide Detour, NameOk, Namesakes;
    var s := Detour();
    forall b | b in s.bases && s.bases[b].parent.Some? ensures NameOk(s.bases[b].name) { DetourNameOk(b); }
    forall b, c | b in s.bases && c in s.bases && Namesakes(s.bases[b], s.bases[c])
      ensures b == c
    {
      DetourNamesake(b, c);
    }
  }

  lemma DetourTop()
    ensures var s := Detour();
      s.root in s.pnodes && IsRoot(s, s.root) && s.pnodes[s.root].base in s.bases &&
        s.bases[s.pnodes[s.root].base].name == ""
  {
  }

  lemma DetourWf()
    ensures Wf(Detour())
  {
    hide BaseOk, NodeOk, CoverOk, RootsOk, NamesOk, Twins, Detour;
    var s := Detour();
    forall b | b in s.bases ensures BaseOk(s, b) { DetourBase(b); }
    forall p | p in s.pnodes ensures NodeOk(s, p) && CoverOk(s, p) { DetourNode(p); }
    forall p, q | p in s.pnodes && q in s.pnodes && Twins(s.pnodes[p], s.pnodes[q])
      ensures p == q
    {
      DetourTwins(p, q);
    }
    DetourRoots();
    DetourNames();
    DetourTop();
    TreeFrom(s);
    CoversFrom(s);
  }

  // ---------------------------------------------------------------- its entries

  lemma DetourChildren()
    ensures var s := Detour();
      && FindChild(s, [1], "a") == Some(1) && FindChild(s, [4, 3, 2], "y") == Some(3)
      && FindChild(s, [4, 3, 2], "x") == Some(2)
      && FindChild(s, [5], "k") == Some(5) && FindChild(s, [6], "k") == Some(6)
  {
    assert [4, 3, 2][1..] == [3, 2] && [3, 2][1..] == [2];
    assert FindChild(Detour(), [3, 2], "x") == FindChild(Detour(), [2], "x");
  }

  lemma DetourLists()
    ensures var s := Detour();
      && FindWithParent(s, [1], 0) == Some(1) && FindWithParent(s, [5, 2], 1) == Some(5)
      && FindWithParent(s, [4], 1) == Some(4)
      && FindWithParent(s, [6], 4) == Some(6) && FindWithParent(s, [7], 5) == Some(7)
  {
  }

  lemma DetourLooks()
    ensures var s := Detour();
      && Wf(s) && LookTop(s, 0, "a") == Some(1) && LookTop(s, 1, "y") == Some(5) && LookTop(s, 1, "x") == Some(4)
      && LookTop(s, 4, "k") == Some(6) && LookTop(s, 5, "k") == Some(7)
  {
    DetourWf();
    DetourChildren();
    DetourLists();
    hide Wf, FindChild, FindWithParent;
    var s := Detour();
    TopSelf(s, 1);
    TopSelf(s, 4);
    TopSelf(s, 5);
    TopSelf(s, 6);
    TopSelf(s, 7);
  }

  lemma DetourNamesOf()
    ensures var s := Detour(); Wf(s) && Names(s, 6) == ["a", "y", "k"] && Chain(s, 6) == [0, 1, 4, 6]
  {
    DetourWf();
    hide Wf;
    var s := Detour();
    assert Bottom(s, 1) == 1 && Bottom(s, 2) == 2 && Bottom(s, 6) == 6;
    assert Bottom(s, 4) == 2;
    assert Names(s, 0) == [] && Chain(s, 0) == [0];
    assert Names(s, 1) == ["a"] && Chain(s, 1) == [0, 1];
    assert Names(s, 4) == ["a", "y"] && Chain(s, 4) == [0, 1, 4];
  }

  lemma DetourFound()
    ensures var s := Detour(); Wf(s) && 6 in s.pnodes && Found(s, 6)
  {
    DetourLooks();
    hide Wf, LookTop;
    var s := Detour();
    assert NameOk("a") && NameOk("x") && NameOk("k");
    assert ByName(s, 1);
    assert ByName(s, 4);
    assert ByName(s, 6);
    hide ByName;
    assert Found(s, 0);
    assert Found(s, 1);
    assert Found(s, 4);
  }

  lemma DetourHidden()
    ensures var s := Detour(); Wf(s) && 6 in s.pnodes && !Visible(s, 6)
  {
    DetourWf();
    DetourChildren();
    DetourLists();
    hide Wf, FindWithParent;
    var s := Detour();
    assert Bottom(s, 2) == 2 && Bottom(s, 3) == 3;
    assert Bottom(s, 4) == 2 && Bottom(s, 5) == 3;
    assert !FirstOfItsName(s, 4);
    hide FirstOfItsName;
    assert !Visible(s, 4);
  }

  lemma DetourLeads()
    ensures var s := Detour(); Wf(s) && LeadsTo(s, 0, ["a", "x", "k"], 6) && LeadsTo(s, 0, ["a", "x"], 4)
  {
    DetourLooks();
    hide Wf, LookTop;
    var s := Detour();
    assert ["a", "x", "k"][1..] == ["x", "k"] && ["x", "k"][1..] == ["k"] && ["k"][1..] == [];
    assert LeadsTo(s, 6, [], 6);
    assert LeadsTo(s, 4, ["k"], 6);
    assert LeadsTo(s, 1, ["x", "k"], 6);
    assert ["a", "x"][1..] == ["x"] && ["x"][1..] == [];
    assert LeadsTo(s, 4, [], 4);
    assert LeadsTo(s, 1, ["x"], 4);
  }

  lemma DriversSteady(link: string)
    ensures Steady(Drivers(link))
  {
  }

  // ---------------------------------------------------------------- the walk

  /** A link at the end of a path, whose text leads to `p`. */
  lemma LinkAtEnd(w: World, t: Ns, l: nat, lpath: string, root: nat, fl: Flags, p: nat)
    requires Wf(t) && Holding(t, l) && root in t.pnodes && !fl.nofollow && t.pnodes[l].base in t.bases &&
      t.pnodes[l].parent in t.pnodes
    requires KindOf(t, l) == Some(Symlink) && w.readlink(t, l) == Target(lpath)
    requires Lands(Walk(w, t, t.pnodes[l].parent, Some(lpath), root, fl, 1), p, 1)
    ensures var r := Steps(w, t, l, "", root, fl, 0); Returns(r, p) && r.deep == 1
  {
    EmptyText();
    hide Wf, Grows, Gains, WalkOk, Walk, Component, Lookup, LookOk;
    var r := Walk(w, t, t.pnodes[l].parent, Some(lpath), root, fl, 1);
    WalkEnds(t, None, 1, r);
    LinkOk(t, l, 0, r);
    HasBase(PRele(r.ns, l), p);
  }

  /** The text of a path, and its first component. */
  lemma TextNext(n: string, more: seq<string>)
    requires NameOk(n)
    ensures Text([n] + more) == "/" + n + Text(more) && Component(Text([n] + more)) == (n, Text(more))
  {
    var ns := [n] + more;
    assert ns[0] == n && ns[1..] == more;
    assert Text(ns) == "/" + n + Text(more);
    hide Component, Text;
    ComponentOf(ns);
  }

  lemma OneName()
    ensures NameOk("k") && Text(["k"]) == "/k" && Component("/k") == ("k", "")
  {
    assert NameOk("k");
    hide Component, Text, NameOk;
    EmptyText();
    TextNext("k", []);
    assert ["k"] + [] == ["k"] && "/" + "k" + "" == "/k";
  }

  lemma ThreeNames(n: string)
    requires NameOk(n)
    ensures Text(["a", n, "k"]) == "/a/" + n + "/k" && Component("/a/" + n + "/k") == ("a", "/" + n + "/k")
    ensures Component("/" + n + "/k") == (n, "/k")
  {
    assert NameOk("a");
    hide Component, Text, NameOk;
    OneName();
    TextNext(n, ["k"]);
    TextNext("a", [n, "k"]);
    assert [n] + ["k"] == [n, "k"] && ["a"] + [n, "k"] == ["a", n, "k"];
    assert "/" + "a" + ("/" + n + "/k") == "/a/" + n + "/k";
  }

  lemma DetourText()
    ensures Text(["a", "x", "k"]) == "/a/x/k" && Text(["a", "y", "k"]) == "/a/y/k"
    ensures Component("/a/y/k") == ("a", "/y/k") && Component("/y/k") == ("y", "/k") && Component("/k") == ("k", "")
  {
    assert NameOk("x") && NameOk("y");
    hide *;
    OneName();
    ThreeNames("x");
    ThreeNames("y");
    assert "/a/" + "x" + "/k" == "/a/x/k" && "/a/" + "y" + "/k" == "/a/y/k" && "/" + "y" + "/k" == "/y/k";
  }

  /** What the walk uses of the name space and the drivers. */
  ghost predicate Facts(s: Ns, w: World, link: string) {
    && Wf(s) && s.root == 0 && (forall p :: 0 <= p <= 7 ==> p in s.pnodes)
    && IsDir(s, 0) && IsDir(s, 1) && IsDir(s, 4) && IsDir(s, 5) && IsDir(s, 6)
    && Known(s, 7) && s.pnodes[7].parent == 5 && KindOf(s, 7) == Some(Symlink)
    && LookTop(s, 0, "a") == Some(1) && LookTop(s, 1, "y") == Some(5) && LookTop(s, 5, "k") == Some(7)
    && Steady(w) && (forall u, p :: w.readlink(u, p) == Target(link))
  }

  lemma DetourFacts(link: string)
    ensures Facts(Detour(), Drivers(link), link)
  {
    hide Wf, LookTop, Steady;
    DetourLooks();
    DriversSteady(link);
  }

  lemma AlikeLink(s: Ns, t: Ns, p: nat)
    requires Alike(s, t) && Known(s, p)
    ensures Known(t, p) && t.pnodes[p].parent == s.pnodes[p].parent && KindOf(t, p) == KindOf(s, p)
  {
  }

  /** Three steps to the link. */
  lemma ToTheLink(s: Ns, w: World, link: string, t: Ns, fl: Flags) returns (u: Ns)
    requires Facts(s, w, link) && Wf(t) && Alike(s, t) && Holding(t, 0) && 0 in t.pnodes
    ensures Wf(u) && Alike(s, u) && Holding(u, 7) && 0 in u.pnodes
    ensures Steps(w, t, 0, "/a/y/k", 0, fl, 0) == Steps(w, u, 7, "", 0, fl, 0)
  {
    hide Facts, Wf, Alike, Steps, WalkOk, LookTop, Steady, Component, Text, IsDir, Known, Holding;
    DetourText();
    StepFacts(s, w, link);
    var t1 := OneStep(s, w, t, 0, 1, "/a/y/k", fl);
    var t2 := OneStep(s, w, t1, 1, 5, "/y/k", fl);
    u := OneStep(s, w, t2, 5, 7, "/k", fl);
  }

  lemma StepFacts(s: Ns, w: World, link: string)
    requires Facts(s, w, link)
    ensures Wf(s) && Steady(w) && 0 in s.pnodes && 1 in s.pnodes && 5 in s.pnodes
    ensures IsDir(s, 0) && IsDir(s, 1) && IsDir(s, 5) && Known(s, 1) && Known(s, 5) && Known(s, 7)
    ensures LookTop(s, 0, "a") == Some(1) && LookTop(s, 1, "y") == Some(5) && LookTop(s, 5, "k") == Some(7)
    ensures NameOk("a") && NameOk("y") && NameOk("k")
  {
    hide Wf, LookTop, Steady;
  }

  lemma OneStep(s: Ns, w: World, t: Ns, a: nat, b: nat, text: string, fl: Flags) returns (u: Ns)
    requires Steady(w) && Wf(s) && Wf(t) && Alike(s, t) && Holding(t, a) && 0 in t.pnodes && a in s.pnodes
    requires IsDir(s, a) && Known(s, b) && NameOk(Component(text).0) && LookTop(s, a, Component(text).0) == Some(b)
    ensures Wf(u) && Alike(s, u) && Holding(u, b) && 0 in u.pnodes
    ensures Steps(w, t, a, text, 0, fl, 0) == Steps(w, u, b, Component(text).1, 0, fl, 0)
  {
    hide Wf, Alike, Steps, WalkOk, LookTop, Steady, Component;
    AlikeDir(s, t, a);
    AlikeLink(s, t, b);
    AlikeLook(s, t, a, Component(text).0);
    u := StepRight(w, t, a, b, text, 0, fl, 0);
    AlikeTrans(s, t, u);
  }

  /** The link, and where its text leads. */
  lemma DetourWalk(s: Ns, w: World, names: seq<string>, p: nat, t: Ns, fl: Flags)
    requires Facts(s, w, Text(names)) && Wf(t) && Alike(s, t) && Holding(t, 0) && 0 in t.pnodes && !fl.nofollow
    requires names != [] && LeadsTo(s, 0, names, p)
    ensures var r := Steps(w, t, 0, "/a/y/k", 0, fl, 0); Returns(r, p) && r.deep == 1
  {
    hide Wf, Alike, Steps, Walk, WalkOk, LookTop, Steady, Component, Text, LeadsTo, Lands, IsDir;
    var u := ToTheLink(s, w, Text(names), t, fl);
    AlikeLink(s, u, 7);
    AlikeNode(s, u, 5);
    LeadsWalk(w, s, u, 5, names, p, fl, 1);
    LinkAtEnd(w, u, 7, Text(names), 0, fl, p);
  }

  lemma DetourKinds()
    ensures var s := Detour(); 6 in s.pnodes && s.root == 0 && IsDir(s, 0) && IsDir(s, 1) && IsDir(s, 4) && IsDir(s, 6)
  {
  }

  lemma DetourDirs()
    ensures var s := Detour(); Wf(s) && 6 in s.pnodes && DirsAbove(s, 6) && PathOf(s, 6) == "/a/y/k"
  {
    hide Wf, Names, Chain, Text, PathOf, IsDir, Detour, Component;
    DetourKinds();
    DetourNamesOf();
    DetourText();
    PathIsText(Detour(), 6);
  }

  lemma WalkOfPrinted(names: seq<string>, p: nat, fl: Flags)
    requires !fl.nofollow && names != [] && Wf(Detour()) && 0 in Detour().pnodes && LeadsTo(Detour(), 0, names, p)
    ensures var r := Walk(Drivers(Text(names)), Detour(), 0, Some("/a/y/k"), 0, fl, 0); Returns(r, p) && r.deep == 1
  {
    hide Wf, Walk, WalkOk, Steps, Steady, Drivers, Detour, Alike, IsDir, LeadsTo, LookTop, Text;
    var s, w := Detour(), Drivers(Text(names));
    DetourFacts(Text(names));
    StartAtRoot(w, s, 0, "/a/y/k", fl, 0);
    DetourWalk(s, w, names, p, PRef(s, 0), fl);
  }

  /**
   * The directory is not visible, and the path printed for it leads to it, by way of a link.
   * With another text in the link it leads elsewhere: the name space does not decide.
   */
  lemma BackByLink(fl: Flags)
    requires !fl.nofollow
    ensures var s := Detour();
      && Wf(s) && 0 in s.pnodes && 6 in s.pnodes && DirsAbove(s, 6) && Found(s, 6) && !Visible(s, 6)
      && Steady(Drivers("/a/x/k")) && Steady(Drivers("/a/x"))
      && Returns(Walk(Drivers("/a/x/k"), s, 0, Some(PathOf(s, 6)), 0, fl, 0), 6)
      && Returns(Walk(Drivers("/a/x"), s, 0, Some(PathOf(s, 6)), 0, fl, 0), 4)
  {
    assert Text(["a", "x"]) == "/a/x" by { ShortText(); }
    DetourFound();
    DetourHidden();
    DetourDirs();
    DetourText();
    DetourLeads();
    DriversSteady("/a/x/k");
    DriversSteady("/a/x");
    assert 0 in Detour().pnodes;
    hide Wf, Found, Visible, Walk, WalkOk, Steady, Drivers, PathOf, Detour, DirsAbove, LeadsTo, Text, Component;
    WalkOfPrinted(["a", "x", "k"], 6, fl);
    WalkOfPrinted(["a", "x"], 4, fl);
  }

  lemma ShortText()
    ensures Text(["a", "x"]) == "/a/x"
  {
    assert ["a", "x"][1..] == ["x"] && ["x"][1..] == [];
    assert Text(["x"]) == "/x";
  }
}
