/**
 * Which paths lead to a directory: some path does exactly when entries lead to it from the
 * root down, and its printed path does, without expanding a link, exactly when it is visible.
 */
module PathNamed {
  import opened Prelude
  import opened NameSpace
  import opened NameWf
  import opened PathWalk
  import opened PathPrint
  import opened PathRoundTrip
  import opened PathReach

  /** The walk succeeds with `p`, however many links it expanded. */
  predicate Returns(r: Walked, p: nat) { r.err == 0 && r.pno == Some(p) }

  // ---------------------------------------------------------------- entries that lead to directories

  /** From `a` the entries `names` lead over directories to `p`. */
  ghost predicate LeadsTo(s: Ns, a: nat, names: seq<string>, p: nat)
    requires Wf(s) && a in s.pnodes
    decreases |names|
  {
    hide Wf, LookTop;
    if names == [] then a == p
    else
      && NameOk(names[0]) && LookTop(s, a, names[0]).Some?
      && var b := LookTop(s, a, names[0]).value;
      b in s.pnodes && IsDir(s, b) && LeadsTo(s, b, names[1..], p)
  }

  lemma {:induction false} LeadsAppend(s: Ns, a: nat, names: seq<string>, b: nat, n: string, p: nat)
    requires Wf(s) && a in s.pnodes && b in s.pnodes && LeadsTo(s, a, names, b)
    requires NameOk(n) && LookTop(s, b, n) == Some(p) && IsDir(s, p)
    ensures LeadsTo(s, a, names + [n], p)
    decreases |names|
  {
    hide Wf, LookTop;
    if names == [] {
      assert ([] + [n])[1..] == [];
      assert LeadsTo(s, p, [], p);
    } else {
      var c := LookTop(s, a, names[0]).value;
      LeadsAppend(s, c, names[1..], b, n, p);
      assert (names + [n])[1..] == names[1..] + [n];
    }
  }

  lemma {:induction false} LeadsGood(s: Ns, a: nat, names: seq<string>, p: nat)
    requires Wf(s) && a in s.pnodes && LeadsTo(s, a, names, p)
    ensures NamesGood(names) && p in s.pnodes
    decreases |names|
  {
    hide Wf, LookTop;
    if names == [] {
    } else {
      LeadsGood(s, LookTop(s, a, names[0]).value, names[1..], p);
      assert forall n :: n in names ==> n == names[0] || n in names[1..];
    }
  }

  /** The loop follows such entries without meeting a link. */
  lemma {:induction false} LeadsLand(w: World, s: Ns, t: Ns, a: nat, names: seq<string>, p: nat, fl: Flags, slicnt: nat)
    requires Steady(w) && Wf(s) && a in s.pnodes && IsDir(s, a) && LeadsTo(s, a, names, p) && slicnt <= MAX_SYMLINK
    requires Wf(t) && Alike(s, t) && Holding(t, a) && s.root in t.pnodes
    ensures Lands(Steps(w, t, a, Text(names), s.root, fl, slicnt), p, slicnt)
    decreases |names|
  {
    hide Wf, Steady, Alike, Steps, Component, Text, LookTop, WalkOk, Lands;
    AlikeDir(s, t, a);
    if names == [] {
      EmptyText();
      LandsHere(w, t, a, "", s.root, fl, slicnt);
    } else {
      LeadsGood(s, a, names, p);
      var b := LookTop(s, a, names[0]).value;
      AlikeDir(s, t, b);
      AlikeLook(s, t, a, names[0]);
      ComponentOf(names);
      var u := StepRight(w, t, a, b, Text(names), s.root, fl, slicnt);
      AlikeTrans(s, t, u);
      LeadsLand(w, s, u, b, names[1..], p, fl, slicnt);
    }
  }

  /** A path from the root over directories, in a name space that differs in counts only. */
  lemma LeadsWalk(w: World, s: Ns, t: Ns, parent: nat, names: seq<string>, p: nat, fl: Flags, slicnt: nat)
    requires Steady(w) && Wf(s) && Wf(t) && Alike(s, t) && parent in t.pnodes && s.root in t.pnodes &&
      slicnt <= MAX_SYMLINK
    requires s.root in s.pnodes && IsDir(s, s.root) && names != [] && LeadsTo(s, s.root, names, p)
    ensures Lands(Walk(w, t, parent, Some(Text(names)), s.root, fl, slicnt), p, slicnt)
  {
    assert Text(names)[0] == PATH_SEPARATOR;
    hide Wf, Steady, Alike, Steps, Component, Text, LookTop, WalkOk, Lands, Walk, LeadsTo;
    assert t.root == s.root by { SameRoot(s, t); }
    AlikeDir(s, t, s.root);
    StartAtRoot(w, t, parent, Text(names), fl, slicnt);
    var u := PRef(t, s.root);
    AlikeTrans(s, t, u);
    LeadsLand(w, s, u, s.root, names, p, fl, slicnt);
  }

  lemma SameRoot(s: Ns, t: Ns)
    requires Alike(s, t)
    ensures t.root == s.root
  {
  }

  // ---------------------------------------------------------------- some path leads there

  lemma {:induction false} FoundLeads(s: Ns, p: nat) returns (names: seq<string>)
    requires Wf(s) && p in s.pnodes && Found(s, p) && DirsAbove(s, p)
    ensures s.root in s.pnodes && LeadsTo(s, s.root, names, p)
    decreases p
  {
    hide Wf, LookTop, Chain, IsDir, LeadsTo;
    RootNode(s);
    WfNode(s, p);
    if p == s.root {
      names := [];
      assert LeadsTo(s, p, [], p) by { LeadsHere(s, p); }
    } else {
      var a := s.pnodes[p].parent;
      DirsUp(s, p);
      var above := FoundLeads(s, a);
      var name :| NameOk(name) && LookTop(s, a, name) == Some(p);
      LeadsAppend(s, s.root, above, a, name, p);
      names := above + [name];
    }
  }

  lemma LeadsHere(s: Ns, p: nat)
    requires Wf(s) && p in s.pnodes
    ensures LeadsTo(s, p, [], p)
  {
  }

  lemma DirsUp(s: Ns, p: nat)
    requires Wf(s) && p in s.pnodes && p != s.root && DirsAbove(s, p)
    ensures s.pnodes[p].parent in s.pnodes && DirsAbove(s, s.pnodes[p].parent) && IsDir(s, p)
  {
    hide Wf, IsDir;
    WfNode(s, p);
    var q := s.pnodes[p].parent;
    assert Chain(s, p) == Chain(s, q) + [p];
    forall a | a in Chain(s, q) ensures IsDir(s, a) { assert a in Chain(s, p); }
    assert p in Chain(s, p);
  }

  /** Whatever the text and its links, a walk from the root returns an old node only if entries lead to it. */
  lemma WalkFinds(w: World, s: Ns, parent: nat, path: Option<string>, fl: Flags, slicnt: nat, p: nat)
    requires Wf(s) && parent in s.pnodes && Found(s, parent) && s.root in s.pnodes && slicnt <= MAX_SYMLINK &&
      p in s.pnodes
    ensures Returns(Walk(w, s, parent, path, s.root, fl, slicnt), p) ==> Found(s, p)
  {
    assert Reached(s, parent);
    hide Wf, Tame, Found, Walk, WalkOk;
    TameSelf(s);
    WalkReaches(w, s, s, parent, path, fl, slicnt);
  }

  /** An absolute path starts at the root wherever the caller is. */
  lemma WalkFindsFromRoot(w: World, s: Ns, parent: nat, text: string, fl: Flags, p: nat)
    requires Wf(s) && parent in s.pnodes && s.root in s.pnodes && text != "" && text[0] == PATH_SEPARATOR &&
      p in s.pnodes
    ensures Returns(Walk(w, s, parent, Some(text), s.root, fl, 0), p) ==> Found(s, p)
  {
    hide Wf, Walk, WalkOk;
    FromRoot(w, s, parent, text, fl);
    RootReached(s);
    WalkFinds(w, s, s.root, Some(text), fl, 0, p);
  }

  lemma FromRoot(w: World, s: Ns, parent: nat, text: string, fl: Flags)
    requires Wf(s) && parent in s.pnodes && s.root in s.pnodes && text != "" && text[0] == PATH_SEPARATOR
    ensures Walk(w, s, parent, Some(text), s.root, fl, 0) == Walk(w, s, s.root, Some(text), s.root, fl, 0)
  {
    hide Wf, Steps, Validate, WalkOk, Grows, Gains, Component;
  }

  ghost predicate Absolute(text: string) { text != "" && text[0] == PATH_SEPARATOR }

  /** Some absolute path leads to a directory exactly when entries lead to it. */
  lemma SomePath(w: World, s: Ns, p: nat, parent: nat, fl: Flags)
    requires Steady(w) && Wf(s) && p in s.pnodes && parent in s.pnodes && DirsAbove(s, p) && s.root in s.pnodes
    ensures Found(s, p) <==> exists text :: Absolute(text) && Returns(Walk(w, s, parent, Some(text), s.root, fl, 0), p)
  {
    hide Wf, Steady, Found, Walk, WalkOk, Alike, DirsAbove, LeadsTo;
    if Found(s, p) {
      if p == s.root {
        RootPath(w, s, parent, fl);
        assert Absolute([PATH_SEPARATOR]);
      } else {
        var names := FoundLeads(s, p);
        RootDir(s, p);
        AlikeSelf(s);
        if names == [] { LeadsNowhere(s, p); }
        LeadsWalk(w, s, s, parent, names, p, fl, 0);
        assert Absolute(Text(names));
      }
    }
    forall text | Absolute(text) && Returns(Walk(w, s, parent, Some(text), s.root, fl, 0), p) ensures Found(s, p) {
      WalkFindsFromRoot(w, s, parent, text, fl, p);
    }
  }

  lemma LeadsNowhere(s: Ns, p: nat)
    requires Wf(s) && s.root in s.pnodes && LeadsTo(s, s.root, [], p)
    ensures p == s.root
  {
  }

  lemma RootDir(s: Ns, p: nat)
    requires Wf(s) && p in s.pnodes && DirsAbove(s, p)
    ensures IsDir(s, s.root)
  {
    hide Wf, Chain, IsDir;
    ChainShape(s, p);
    assert Chain(s, p)[0] in Chain(s, p);
  }

  lemma RootPath(w: World, s: Ns, parent: nat, fl: Flags)
    requires Steady(w) && Wf(s) && parent in s.pnodes && s.root in s.pnodes && DirsAbove(s, s.root)
    ensures Returns(Walk(w, s, parent, Some([PATH_SEPARATOR]), s.root, fl, 0), s.root)
  {
    hide Wf, Steady, Walk, WalkOk, Steps, Alike;
    RootDir(s, s.root);
    StartAtRoot(w, s, parent, [PATH_SEPARATOR], fl, 0);
    var t := PRef(s, s.root);
    AlikeDir(s, t, s.root);
    SlashOnly();
    LandsHere(w, t, s.root, [PATH_SEPARATOR], s.root, fl, 0);
  }

  // ---------------------------------------------------------------- the printed path

  /**
   * The printed path of a directory: it leads there without a link exactly when the directory
   * is visible, and through links at most when entries lead there under other names.  So the
   * walk returns the directory exactly when it is visible, unless it is found and not visible.
   */
  lemma PrintedPath(w: World, s: Ns, p: nat, parent: nat, fl: Flags)
    requires Steady(w) && Wf(s) && p in s.pnodes && parent in s.pnodes && DirsAbove(s, p) && s.root in s.pnodes
    ensures var r := Walk(w, s, parent, Some(PathOf(s, p)), s.root, fl, 0);
      && (Visible(s, p) ==> Returns(r, p))
      && (Returns(r, p) ==> Found(s, p) && (Visible(s, p) || r.deep > 0))
      && ((Found(s, p) ==> Visible(s, p)) ==> (Returns(r, p) <==> Visible(s, p)))
  {
    PrintedAbsolute(s, p);
    hide Wf, Steady, Found, Visible, Walk, WalkOk, PathOf, DirsAbove;
    RoundTrip(w, s, p, parent, fl);
    WalkFindsFromRoot(w, s, parent, PathOf(s, p), fl, p);
  }

  lemma PrintedAbsolute(s: Ns, p: nat)
    requires Wf(s) && p in s.pnodes
    ensures Absolute(PathOf(s, p))
  {
    hide Wf, Names, PathOf;
    PathIsText(s, p);
    ChainShape(s, p);
    if p != s.root {
      assert Names(s, p) != [] by { NamesBelow(s, p); }
    }
  }

  lemma NamesBelow(s: Ns, p: nat)
    requires Wf(s) && p in s.pnodes && p != s.root
    ensures Names(s, p) != []
  {
    hide Wf, Bottom;
  }

  /** When directories lie all along the printed path, the walk returns the last of them. */
  lemma ClearWay(w: World, s: Ns, p: nat, parent: nat, fl: Flags, y: nat)
    requires Steady(w) && Wf(s) && p in s.pnodes && parent in s.pnodes && p != s.root && s.root in s.pnodes
    requires IsDir(s, s.root) && LeadsTo(s, s.root, Names(s, p), y)
    ensures Lands(Walk(w, s, parent, Some(PathOf(s, p)), s.root, fl, 0), y, 0)
  {
    PathIsText(s, p);
    NamesBelow(s, p);
    hide Wf, Steady, Walk, WalkOk, PathOf, Names, LeadsTo, Lands, Text;
    AlikeSelf(s);
    LeadsWalk(w, s, s, parent, Names(s, p), y, fl, 0);
  }

  /** In the mount of the name space's root every node entries lead to is visible. */
  lemma {:induction false} PlainPlaces(s: Ns, p: nat)
    requires Wf(s) && p in s.pnodes && s.root in s.pnodes && s.pnodes[p].mount == s.pnodes[s.root].mount
    ensures Found(s, p) <==> Visible(s, p)
    decreases p
  {
    hide Wf, LookTop, FirstOfItsName;
    RootNode(s);
    WfNode(s, p);
    if p == s.root {
    } else {
      assert !IsRoot(s, p);
      PlainPlaces(s, s.pnodes[p].parent);
      PlainName(s, p);
    }
  }

  lemma PlainName(s: Ns, p: nat)
    requires Wf(s) && p in s.pnodes && p != s.root && !IsRoot(s, p)
    ensures ByName(s, p) <==> s.pnodes[p].cover.None? && FirstOfItsName(s, p)
  {
    hide Wf, LookTop, FirstOfItsName;
    HasBase(s, p);
    LookTopExact(s, p);
    EntryName(s, p);
    assert Bottom(s, p) == p;
    var a := s.pnodes[p].parent;
    forall name | NameOk(name) && LookTop(s, a, name) == Some(p)
      ensures name == s.bases[s.pnodes[p].base].name
    {
      OwnName(s, p, name);
    }
  }

  /** Only its own name leads to a node that is no mount's root. */
  lemma OwnName(s: Ns, p: nat, name: string)
    requires Wf(s) && p in s.pnodes && !IsRoot(s, p) && s.pnodes[p].parent in s.pnodes
    requires LookTop(s, s.pnodes[p].parent, name) == Some(p)
    ensures s.pnodes[p].base in s.bases && s.bases[s.pnodes[p].base].name == name
  {
    hide Wf, Top, FindWithParent, FindChild;
    var a := s.pnodes[p].parent;
    HasBase(s, a);
    var c := FindChild(s, s.bases[s.pnodes[a].base].children, name).value;
    var x := FindWithParent(s, s.bases[c].aliases, a).value;
    TopPlain(s, x);
    ListsThere(s, c);
    AliasOf(s, c, x);
  }

  lemma AliasOf(s: Ns, b: nat, x: nat)
    requires Wf(s) && b in s.bases && x in s.bases[b].aliases
    ensures x in s.pnodes && s.pnodes[x].base == b
  {
    WfParts(s);
    BaseFacts(s, b);
  }

  /** What lies on top of another node is a mount's root. */
  lemma {:induction false} TopPlain(s: Ns, x: nat)
    requires Wf(s) && x in s.pnodes
    ensures Top(s, x) == x || IsRoot(s, Top(s, x))
    decreases s.nextPnode - x
  {
    hide Wf;
    match s.pnodes[x].cover
    case None =>
    case Some(c) =>
      CoverYounger(s, x);
      CoverParent(s, x);
      if c != x { TopPlain(s, c); }
  }
}
