/**
 * Printing a directory's path and walking it again.  The walk returns the same node exactly
 * when every node on the way is uncovered and is the one its parent's entry list yields first.
 */
module PathRoundTrip {
  import opened Prelude
  import opened NameSpace
  import opened NameWf
  import opened PathWalk
  import opened PathPrint

  /** The same name space with other reference counts. */
  ghost predicate Alike(s: Ns, t: Ns) {
    && t == s.(pnodes := t.pnodes) && t.pnodes.Keys == s.pnodes.Keys
    && forall p :: p in s.pnodes ==> t.pnodes[p] == s.pnodes[p].(ref := t.pnodes[p].ref)
  }

  /** Validating a node that has an inode finds that same inode. */
  ghost predicate Steady(w: World) {
    forall s: Ns, p: nat :: Known(s, p) ==> w.check(s, p) == Valid(s.bases[s.pnodes[p].base].ino.value)
  }

  /** The node an entry leads to when it is already in the name space. */
  function LookTop(s: Ns, a: nat, name: string): Option<nat>
    requires Wf(s) && a in s.pnodes
  {
    hide Wf;
    HasBase(s, a);
    match FindChild(s, s.bases[s.pnodes[a].base].children, name)
    case None => None
    case Some(c) =>
      match FindWithParent(s, s.bases[c].aliases, a)
      case None => None
      case Some(x) => Some(Top(s, x))
  }

  // ---------------------------------------------------------------- name spaces that are alike

  lemma AlikeTrans(s: Ns, t: Ns, u: Ns)
    requires Alike(s, t) && Alike(t, u)
    ensures Alike(s, u)
  {
  }

  lemma AlikeNode(s: Ns, t: Ns, p: nat)
    requires Alike(s, t) && p in s.pnodes
    ensures p in t.pnodes && t.pnodes[p] == s.pnodes[p].(ref := t.pnodes[p].ref) && t.bases == s.bases &&
      t.nextPnode == s.nextPnode
  {
  }

  lemma {:induction false} AlikeTop(s: Ns, t: Ns, p: nat)
    requires Wf(s) && Wf(t) && Alike(s, t) && p in s.pnodes
    ensures p in t.pnodes && Top(t, p) == Top(s, p)
    decreases s.nextPnode - p
  {
    hide Wf, Alike;
    AlikeNode(s, t, p);
    match s.pnodes[p].cover
    case None =>
    case Some(c) =>
      CoverYounger(s, p);
      if c != p { AlikeTop(s, t, c); }
  }

  lemma {:induction false} AlikeFind(s: Ns, t: Ns, list: seq<nat>, a: nat)
    requires Alike(s, t)
    ensures FindWithParent(t, list, a) == FindWithParent(s, list, a)
  {
    if list == [] {
    } else {
      AlikeFind(s, t, list[1..], a);
    }
  }

  lemma {:induction false} AlikeChild(s: Ns, t: Ns, list: seq<nat>, name: string)
    requires Alike(s, t)
    ensures FindChild(t, list, name) == FindChild(s, list, name)
  {
    if list == [] {
    } else {
      AlikeChild(s, t, list[1..], name);
    }
  }

  lemma AlikeLook(s: Ns, t: Ns, a: nat, name: string)
    requires Wf(s) && Wf(t) && Alike(s, t) && a in s.pnodes
    ensures a in t.pnodes && LookTop(t, a, name) == LookTop(s, a, name)
  {
    hide Wf, Alike, Top, FindChild, FindWithParent;
    AlikeNode(s, t, a);
    HasBase(s, a);
    AlikeChild(s, t, s.bases[s.pnodes[a].base].children, name);
    match FindChild(s, s.bases[s.pnodes[a].base].children, name)
    case None =>
    case Some(c) =>
      AlikeFind(s, t, s.bases[c].aliases, a);
      match FindWithParent(s, s.bases[c].aliases, a)
      case None =>
      case Some(x) => AlikeTop(s, t, x);
  }

  // ---------------------------------------------------------------- looking up

  lemma {:induction false} HopTop(s: Ns, p: nat)
    requires Wf(s) && Holding(s, p)
    ensures Hop(s, p).1 == Top(s, p) && Alike(s, Hop(s, p).0)
    decreases s.nextPnode - p
  {
    hide Wf, Grows, Gains, Alike;
    match s.pnodes[p].cover
    case None => AlikeSelf(s);
    case Some(c) =>
      if c == p {
        AlikeSelf(s);
      } else {
        CoverYounger(s, p);
        HopOnce(s, p, c);
        var t := PRele(PRef(s, c), p);
        AlikeMoved(s, p, c);
        HopTop(t, c);
        AlikeTop(s, t, c);
        AlikeTrans(s, t, Hop(t, c).0);
      }
  }

  lemma AlikeSelf(s: Ns)
    ensures Alike(s, s)
  {
  }

  lemma AlikeMoved(s: Ns, p: nat, c: nat)
    requires p in s.pnodes && c in s.pnodes && c != p && s.pnodes[p].ref > 0
    ensures Alike(s, PRele(PRef(s, c), p))
  {
  }

  /** An entry that is there, with its inode, is found, and nothing but reference counts change. */
  lemma LookupFound(w: World, t: Ns, a: nat, name: string, y: nat)
    requires Steady(w) && Wf(t) && Known(t, a) && NameOk(name) && LookTop(t, a, name) == Some(y) && Known(t, y)
    ensures var l := Lookup(w, t, a, name); l.err == 0 && l.pno == Some(y) && Alike(t, l.ns)
  {
    hide Wf, Grows, Gains, Hop, Top, LookOk, Alike, FindChild, FindWithParent;
    HasBase(t, a);
    KnownChild(t, a, name);
    var c := FindChild(t, t.bases[t.pnodes[a].base].children, name).value;
    var x := FindWithParent(t, t.bases[c].aliases, a).value;
    PRefOk(t, x);
    var u := PRef(t, x);
    assert Entry(w, t, a, name) == Looked(u, 0, Some(x));
    AlikeRef(t, x);
    AlikeTop(t, u, x);
    HopTop(u, x);
    var h := Hop(u, x);
    AlikeTrans(t, u, h.0);
    AlikeNode(t, h.0, y);
    assert w.check(h.0, y) == Valid(t.bases[t.pnodes[y].base].ino.value);
    assert Validate(w, h.0, y) == (h.0, 0) by { SameIno(h.0, h.0.pnodes[y].base); }
  }

  lemma AlikeRef(s: Ns, p: nat)
    requires p in s.pnodes
    ensures Alike(s, PRef(s, p))
  {
  }

  lemma SameIno(s: Ns, b: nat)
    requires b in s.bases
    ensures SetIno(s, b, s.bases[b].ino) == s
  {
    assert s.bases[b := s.bases[b]] == s.bases;
  }

  /** The node a lookup of an ordinary name returns hangs under the node it started from. */
  lemma LookupParent(w: World, t: Ns, a: nat, name: string)
    requires Wf(t) && a in t.pnodes && NameOk(name)
    ensures var l := Lookup(w, t, a, name);
      && (l.pno.Some? ==> l.pno.value in l.ns.pnodes && l.ns.pnodes[l.pno.value].parent == a)
      && (l.pno.Some? && l.pno.value in t.pnodes ==> LookTop(t, a, name) == l.pno)
  {
    hide Wf, Grows, Gains, Hop, Top, LookOk, Alike, FindChild, FindWithParent, FindAlias, Validate;
    HasBase(t, a);
    if KindOf(t, a).Some? {
      var e := FindAlias(w, t, a, name);
      assert Entry(w, t, a, name) == e;
      if e.err == 0 {
        HopTop(e.ns, e.pno.value);
        var h := Hop(e.ns, e.pno.value);
        AlikeNode(e.ns, h.0, h.1);
        assert Lookup(w, t, a, name).pno == Some(h.1);
        if h.1 in t.pnodes {
          FoundOnly(w, t, a, name);
        }
      }
    }
  }

  /** An alias made by the lookup is a new node, and nothing covers it. */
  lemma FoundOnly(w: World, t: Ns, a: nat, name: string)
    requires Wf(t) && a in t.pnodes && NameOk(name)
    requires var e := FindAlias(w, t, a, name); e.err == 0 && Top(e.ns, e.pno.value) in t.pnodes
    ensures LookTop(t, a, name) == Some(Top(FindAlias(w, t, a, name).ns, FindAlias(w, t, a, name).pno.value))
  {
    hide Wf, Grows, Gains, Alike, FindChild, FindWithParent, GetAlias;
    HasBase(t, a);
    KnownChild(t, a, name);
    match FindChild(t, t.bases[t.pnodes[a].base].children, name)
    case None =>
      PbNewOk(t, name, t.pnodes[a].base);
      var u := PbNew(t, name, t.pnodes[a].base);
      NoSuchAlias(u, t.nextBase, a);
      GotAlias(w, u, a, t.nextBase);
    case Some(c) =>
      GotAlias(w, t, a, c);
  }

  lemma NoSuchAlias(u: Ns, b: nat, a: nat)
    requires b in u.bases && u.bases[b].aliases == []
    ensures FindWithParent(u, u.bases[b].aliases, a) == None
  {
  }

  lemma GotAlias(w: World, t: Ns, a: nat, b: nat)
    requires Wf(t) && a in t.pnodes && b in t.bases && t.bases[b].parent == Some(t.pnodes[a].base)
    ensures var g := GetAlias(w, t, a, b);
      g.err == 0 ==>
        match FindWithParent(t, t.bases[b].aliases, a)
        case Some(x) => Top(g.ns, g.pno.value) == Top(t, x)
        case None => Top(g.ns, g.pno.value) !in t.pnodes
  {
    hide Wf, Grows, Gains, Alike, FindWithParent, NoAliasFor;
    var g := GetAlias(w, t, a, b);
    if g.err == 0 {
      match FindWithParent(t, t.bases[b].aliases, a)
      case Some(x) => AlikeRef(t, x); AlikeTop(t, g.ns, x);
      case None => WfParts(t); NewNumbers(t);
    }
  }

  // ---------------------------------------------------------------- climbing back

  function UpBy(s: Ns, p: nat, k: nat): nat {
    if k == 0 then p else var z := UpBy(s, p, k - 1); if z in s.pnodes then s.pnodes[z].parent else z
  }

  lemma {:induction false} UpGrows(s: Ns, t: Ns, p: nat, k: nat)
    requires Wf(s) && Grows(s, t) && p in s.pnodes
    ensures UpBy(s, p, k) in s.pnodes && UpBy(t, p, k) == UpBy(s, p, k)
  {
    hide Wf, Grows;
    if k == 0 {
    } else {
      UpGrows(s, t, p, k - 1);
      HasBase(s, UpBy(s, p, k - 1));
      GrowsKeeps(s, t, UpBy(s, p, k - 1));
    }
  }

  lemma {:induction false} UpChain(s: Ns, p: nat, k: nat)
    requires Wf(s) && p in s.pnodes && k < |Chain(s, p)|
    ensures UpBy(s, p, k) == Chain(s, p)[|Chain(s, p)| - 1 - k]
  {
    hide Wf;
    ChainShape(s, p);
    if k == 0 {
    } else {
      UpChain(s, p, k - 1);
      ChainParents(s, p, |Chain(s, p)| - k);
    }
  }

  /** A walk over ordinary names that expands no link goes down one level a name. */
  lemma {:induction false} Climb(w: World, t: Ns, b: nat, names: seq<string>, root: nat, fl: Flags, slicnt: nat)
    requires Wf(t) && Holding(t, b) && root in t.pnodes && slicnt <= MAX_SYMLINK && NamesGood(names)
    ensures var r := Steps(w, t, b, Text(names), root, fl, slicnt);
      r.err == 0 && r.deep == slicnt ==> r.pno.Some? && UpBy(r.ns, r.pno.value, |names|) == b
    decreases |names|, 1
  {
    hide Wf, Grows, Gains, WalkOk, Advance, Walk, Component;
    HasBase(t, b);
    if KindOf(t, b) == Some(Symlink) && (Component(Text(names)).0 != "" || !fl.nofollow) {
      LinkDeep(w, t, b, Text(names), root, fl, slicnt);
    } else {
      var r := Advance(w, t, b, Text(names), root, fl, slicnt);
      if r.err == 0 && r.deep == slicnt {
        ClimbFirst(w, t, b, names, root, fl, slicnt);
      }
    }
  }

  lemma LinkDeep(w: World, t: Ns, b: nat, text: string, root: nat, fl: Flags, slicnt: nat)
    requires Wf(t) && Holding(t, b) && root in t.pnodes && slicnt <= MAX_SYMLINK && t.pnodes[b].base in t.bases
    requires KindOf(t, b) == Some(Symlink) && (Component(text).0 != "" || !fl.nofollow)
    ensures var r := Steps(w, t, b, text, root, fl, slicnt); r.err != 0 || r.deep > slicnt
  {
    hide Wf, Grows, Gains, WalkOk, Advance, Walk, Component;
    if slicnt < MAX_SYMLINK {
      match w.readlink(t, b)
      case Unreadable(_) =>
      case Target(lpath) =>
        HasBase(t, b);
        WalkEnds(t, None, slicnt + 1, Walk(w, t, t.pnodes[b].parent, Some(lpath), root, fl, slicnt + 1));
    }
  }

  /** One successful turn of the loop at a proper name. */
  lemma Turn(w: World, t: Ns, b: nat, text: string, root: nat, fl: Flags, slicnt: nat)
    requires Wf(t) && Holding(t, b) && root in t.pnodes && slicnt <= MAX_SYMLINK && Component(text).0 != ""
    requires Advance(w, t, b, text, root, fl, slicnt).err == 0
    ensures var r := Advance(w, t, b, text, root, fl, slicnt);
      var l := Lookup(w, t, b, Component(text).0);
      && l.pno.Some? && Holding(l.ns, b)
      && var u := PRele(l.ns, b);
      && Wf(u) && Holding(u, l.pno.value) && Grows(t, u) && root in u.pnodes
      && (if l.err == 0 then r == Steps(w, u, l.pno.value, Component(text).1, root, fl, slicnt)
          else Component(Component(text).1).0 == "" && r == Walked(u, 0, l.pno, slicnt))
  {
    hide Wf, Grows, Gains, WalkOk, LookOk, Lookup, Steps, Component;
    HasBase(t, b);
    var l := Lookup(w, t, b, Component(text).0);
    LookParts(t, l);
    if l.pno.Some? {
      LookedOk(t, l.ns, b, l.pno.value);
      GrowsKeeps(t, PRele(l.ns, b), root);
    }
  }

  /** What a successful walk without links says about its first lookup, which returned `got`. */
  predicate Climbs(b: nat, names: seq<string>, r: Walked, got: Option<nat>) {
    && r.pno.Some? && UpBy(r.ns, r.pno.value, |names|) == b
    && (names != [] ==> got == Some(UpBy(r.ns, r.pno.value, |names| - 1)))
  }

  predicate NamesGood(names: seq<string>) { forall n :: n in names ==> NameOk(n) }

  /** The first lookup of a walk over `names`. */
  function First(w: World, t: Ns, b: nat, names: seq<string>): Option<nat>
    requires Wf(t) && b in t.pnodes && NamesGood(names)
  {
    hide Wf, Lookup, LookOk;
    if names == [] then None else assert names[0] in names; Lookup(w, t, b, names[0]).pno
  }

  lemma {:induction false} ClimbFirst(w: World, t: Ns, b: nat, names: seq<string>, root: nat, fl: Flags, slicnt: nat)
    requires Wf(t) && Holding(t, b) && root in t.pnodes && slicnt <= MAX_SYMLINK && NamesGood(names)
    requires var r := Advance(w, t, b, Text(names), root, fl, slicnt); r.err == 0 && r.deep == slicnt
    ensures Climbs(b, names, Advance(w, t, b, Text(names), root, fl, slicnt), First(w, t, b, names))
    decreases |names|, 0
  {
    if names == [] {
      hide Wf, Grows, Gains, WalkOk, Lookup, Steps;
      HasBase(t, b);
      EmptyText();
    } else {
      hide Wf, Grows, Gains, WalkOk, LookOk, Lookup, Steps, Component, Text, Advance, Climbs;
      assert names[0] in names;
      ComponentOf(names);
      Turn(w, t, b, Text(names), root, fl, slicnt);
      LookupParent(w, t, b, names[0]);
      ClimbRest(w, t, b, names, root, fl, slicnt, Advance(w, t, b, Text(names), root, fl, slicnt),
        Lookup(w, t, b, names[0]));
    }
  }

  lemma EmptyText()
    ensures Text([]) == "" && Component("") == ("", "")
  {
  }

  lemma {:induction false} ClimbRest(w: World, t: Ns, b: nat, names: seq<string>, root: nat, fl: Flags, slicnt: nat,
      r: Walked, l: Looked)
    requires slicnt <= MAX_SYMLINK && NamesGood(names) && names != [] && r.err == 0 && r.deep == slicnt
    requires l.pno.Some? && Holding(l.ns, b) && l.pno.value in l.ns.pnodes && l.ns.pnodes[l.pno.value].parent == b
    requires var u := PRele(l.ns, b);
      && Wf(u) && Holding(u, l.pno.value) && root in u.pnodes
      && (if l.err == 0 then r == Steps(w, u, l.pno.value, Text(names[1..]), root, fl, slicnt)
          else Component(Text(names[1..])).0 == "" && r == Walked(u, 0, l.pno, slicnt))
    ensures Climbs(b, names, r, l.pno)
    decreases |names| - 1, 2
  {
    hide Wf, Grows, Gains, WalkOk, Steps, Component, Text;
    var y := l.pno.value;
    var u := PRele(l.ns, b);
    if l.err == 0 {
      Climb(w, u, y, names[1..], root, fl, slicnt);
      WalkGrows(u, Some(y), slicnt, r);
      GrowsKeeps(u, r.ns, y);
      UpNext(r.ns, r.pno.value, |names|);
    } else {
      LastName(names);
      UpNext(r.ns, y, 1);
    }
  }

  lemma UpNext(s: Ns, p: nat, k: nat)
    requires k > 0 && UpBy(s, p, k - 1) in s.pnodes
    ensures UpBy(s, p, k) == s.pnodes[UpBy(s, p, k - 1)].parent
  {
  }

  lemma LastName(names: seq<string>)
    requires names != [] && NamesGood(names) && Component(Text(names[1..])).0 == ""
    ensures |names| == 1
  {
    if |names| > 1 {
      assert names[1] in names;
      ComponentOf(names[1..]);
    }
  }

  lemma WalkGrows(s: Ns, held: Option<nat>, slicnt: nat, r: Walked)
    requires WalkOk(s, held, slicnt, r)
    ensures Grows(s, r.ns) && Wf(r.ns) && (r.pno.Some? <==> r.err == 0) && (r.pno.Some? ==> r.pno.value in r.ns.pnodes)
  {
  }

  // ---------------------------------------------------------------- walking a printed path

  ghost predicate RightAt(s: Ns, p: nat, j: nat)
    requires Wf(s) && p in s.pnodes && 0 < j < |Chain(s, p)|
  {
    hide Wf, LookTop;
    ChainShape(s, p);
    LookTop(s, Chain(s, p)[j - 1], Names(s, p)[j - 1]) == Some(Chain(s, p)[j])
  }

  /** Below level `i` each name leads to the next node of the chain. */
  ghost predicate RightFrom(s: Ns, p: nat, i: nat)
    requires Wf(s) && p in s.pnodes
  {
    forall j :: i < j < |Chain(s, p)| ==> RightAt(s, p, j)
  }

  /** Every node of the chain is a directory with its inode. */
  ghost predicate DirsAbove(s: Ns, p: nat)
    requires Wf(s) && p in s.pnodes
  {
    forall a :: a in Chain(s, p) ==> IsDir(s, a)
  }

  predicate IsDir(s: Ns, a: nat) { Known(s, a) && s.bases[s.pnodes[a].base].ino == Some(Directory) }

  lemma AlikeDir(s: Ns, t: Ns, a: nat)
    requires Alike(s, t) && IsDir(s, a)
    ensures IsDir(t, a)
  {
  }

  lemma AlikeGrows(s: Ns, t: Ns)
    requires Alike(s, t)
    ensures Grows(s, t)
  {
  }

  /** From a directory the loop goes straight to the next component. */
  lemma DirSteps(w: World, t: Ns, a: nat, text: string, root: nat, fl: Flags, slicnt: nat)
    requires Wf(t) && Holding(t, a) && root in t.pnodes && slicnt <= MAX_SYMLINK && IsDir(t, a)
    ensures Steps(w, t, a, text, root, fl, slicnt) == Advance(w, t, a, text, root, fl, slicnt)
  {
    hide Wf, WalkOk, Component, Advance, Walk;
    HasBase(t, a);
  }

  predicate Lands(r: Walked, p: nat, slicnt: nat) { r.err == 0 && r.pno == Some(p) && r.deep == slicnt }

  /** The last node: the text is used up. */
  lemma LandsHere(w: World, t: Ns, a: nat, text: string, root: nat, fl: Flags, slicnt: nat)
    requires Wf(t) && Holding(t, a) && root in t.pnodes && slicnt <= MAX_SYMLINK && IsDir(t, a) &&
      Component(text).0 == ""
    ensures Lands(Steps(w, t, a, text, root, fl, slicnt), a, slicnt)
  {
    DirSteps(w, t, a, text, root, fl, slicnt);
    hide Wf, WalkOk, Component, Steps;
    HasBase(t, a);
  }

  /** A right step: the loop is at the next node, in a name space that differs in counts only. */
  lemma StepRight(w: World, t: Ns, a: nat, b: nat, text: string, root: nat, fl: Flags, slicnt: nat) returns (u: Ns)
    requires Steady(w) && Wf(t) && Holding(t, a) && root in t.pnodes && slicnt <= MAX_SYMLINK && IsDir(t, a) &&
      Known(t, b)
    requires NameOk(Component(text).0) && LookTop(t, a, Component(text).0) == Some(b)
    ensures Wf(u) && Alike(t, u) && Holding(u, b) && root in u.pnodes
    ensures Steps(w, t, a, text, root, fl, slicnt) == Steps(w, u, b, Component(text).1, root, fl, slicnt)
  {
    DirSteps(w, t, a, text, root, fl, slicnt);
    LookupFound(w, t, a, Component(text).0, b);
    hide Wf, WalkOk, Component, Steps, Steady, LookTop, Lookup, LookOk, Gains, Grows, Alike;
    HasBase(t, a);
    var l := Lookup(w, t, a, Component(text).0);
    LookParts(t, l);
    LookedOk(t, l.ns, a, b);
    u := PRele(l.ns, a);
    AlikeRele(t, l.ns, a);
    GrowsKeeps(t, u, root);
  }

  lemma AlikeRele(s: Ns, t: Ns, p: nat)
    requires Alike(s, t) && Holding(t, p)
    ensures Alike(s, PRele(t, p))
  {
  }

  /** A wrong step: whatever the walk does then, it does not land on `p` without expanding a link. */
  lemma StepWrong(w: World, t: Ns, a: nat, p: nat, names: seq<string>, root: nat, fl: Flags, slicnt: nat, b: nat)
    requires Wf(t) && Holding(t, a) && root in t.pnodes && slicnt <= MAX_SYMLINK && IsDir(t, a)
    requires NamesGood(names) && names != [] && p in t.pnodes && UpBy(t, p, |names| - 1) == b
    requires LookTop(t, a, names[0]) != Some(b)
    ensures !Lands(Steps(w, t, a, Text(names), root, fl, slicnt), p, slicnt)
  {
    hide Wf, WalkOk, Component, Steps, LookTop, Lookup, LookOk, Gains, Grows, Advance, UpBy, Text;
    DirSteps(w, t, a, Text(names), root, fl, slicnt);
    var r := Advance(w, t, a, Text(names), root, fl, slicnt);
    WalkGrows(t, Some(a), slicnt, r);
    assert names[0] in names;
    if Lands(r, p, slicnt) {
      ClimbFirst(w, t, a, names, root, fl, slicnt);
      UpGrows(t, r.ns, p, |names| - 1);
      LookupParent(w, t, a, names[0]);
    }
  }

  lemma {:induction false} RoundFrom(w: World, s: Ns, p: nat, i: nat, t: Ns, fl: Flags, slicnt: nat)
    requires Steady(w) && Wf(s) && p in s.pnodes && DirsAbove(s, p) && Alike(s, t) && Wf(t) && slicnt <= MAX_SYMLINK
    requires i < |Chain(s, p)| && Holding(t, Chain(s, p)[i]) && i <= |Names(s, p)| && s.root in t.pnodes
    ensures Lands(Steps(w, t, Chain(s, p)[i], Text(Names(s, p)[i..]), s.root, fl, slicnt), p, slicnt) <==>
      RightFrom(s, p, i)
    decreases |Chain(s, p)| - i
  {
    hide Wf, Steady, Alike, Steps, Component, Text, LookTop, Chain, Names, UpBy, WalkOk, Lands;
    ChainShape(s, p);
    var chain, names := Chain(s, p), Names(s, p);
    assert chain[i] in chain;
    AlikeDir(s, t, chain[i]);
    if i == |chain| - 1 {
      assert names[i..] == [];
      EmptyText();
      LandsHere(w, t, p, "", s.root, fl, slicnt);
    } else {
      var rest := names[i..];
      assert names[i] in names && rest[1..] == names[i + 1..] && rest[0] == names[i];
      assert chain[i + 1] in chain;
      AlikeDir(s, t, chain[i + 1]);
      AlikeLook(s, t, chain[i], names[i]);
      if RightAt(s, p, i + 1) {
        ComponentOf(rest);
        var u := StepRight(w, t, chain[i], chain[i + 1], Text(rest), s.root, fl, slicnt);
        AlikeTrans(s, t, u);
        RoundFrom(w, s, p, i + 1, u, fl, slicnt);
      } else {
        UpChain(s, p, |rest| - 1);
        AlikeGrows(s, t);
        UpGrows(s, t, p, |rest| - 1);
        RestGood(names, i);
        StepWrong(w, t, chain[i], p, rest, s.root, fl, slicnt, chain[i + 1]);
      }
    }
  }

  lemma RestGood(names: seq<string>, i: nat)
    requires NamesGood(names) && i <= |names|
    ensures NamesGood(names[i..])
  {
    assert forall n :: n in names[i..] ==> n in names;
  }

  lemma StartAtRoot(w: World, s: Ns, parent: nat, text: string, fl: Flags, slicnt: nat)
    requires Steady(w) && Wf(s) && parent in s.pnodes && IsDir(s, s.root) && slicnt <= MAX_SYMLINK
    requires text != "" && text[0] == PATH_SEPARATOR
    ensures var t := PRef(s, s.root);
      && Wf(t) && Holding(t, s.root) && Alike(s, t) && s.root in t.pnodes
      && Walk(w, s, parent, Some(text), s.root, fl, slicnt) == Steps(w, t, s.root, text, s.root, fl, slicnt)
  {
    assert w.check(s, s.root) == Valid(Directory);
    hide Steady, Wf, Steps, WalkOk, Component, Gains, Grows;
    HasBase(s, s.root);
    SameIno(s, s.pnodes[s.root].base);
    PRefOk(s, s.root);
    AlikeRef(s, s.root);
  }

  lemma RoundTripChain(w: World, s: Ns, p: nat, parent: nat, fl: Flags)
    requires Steady(w) && Wf(s) && p in s.pnodes && parent in s.pnodes && DirsAbove(s, p)
    ensures Lands(Walk(w, s, parent, Some(PathOf(s, p)), s.root, fl, 0), p, 0) <==> RightFrom(s, p, 0)
  {
    hide Steady, Wf, Walk, Steps, Chain, Names, PathOf, Alike, WalkOk, Lands, Component, RightAt;
    ChainShape(s, p);
    PathIsText(s, p);
    assert Chain(s, p)[0] in Chain(s, p);
    StartAtRoot(w, s, parent, PathOf(s, p), fl, 0);
    var t := PRef(s, s.root);
    if p == s.root {
      SlashOnly();
      assert |Chain(s, p)| == 1 by { RootChain(s); }
      LandsHere(w, t, p, [PATH_SEPARATOR], s.root, fl, 0);
    } else {
      assert Names(s, p)[0..] == Names(s, p);
      RoundFrom(w, s, p, 0, t, fl, 0);
    }
  }

  lemma SlashOnly()
    ensures Component([PATH_SEPARATOR]) == ("", "")
  {
    assert [PATH_SEPARATOR][1..] == "";
  }

  lemma RootChain(s: Ns)
    requires Wf(s)
    ensures s.root in s.pnodes && Chain(s, s.root) == [s.root]
  {
    RootNode(s);
    hide Wf;
  }

  // ---------------------------------------------------------------- what the caller can check

  /** Among the aliases of its base, the first with its parent belongs to the same mount stack. */
  predicate FirstOfItsName(s: Ns, p: nat)
    requires Wf(s) && p in s.pnodes
  {
    hide Wf;
    HasBase(s, Bottom(s, p));
    match FindWithParent(s, s.bases[s.pnodes[Bottom(s, p)].base].aliases, s.pnodes[p].parent)
    case None => false
    case Some(x) => Bottom(s, x) == Bottom(s, p)
  }

  /** The node and all above it, short of the root, are uncovered and first of their names. */
  predicate Visible(s: Ns, p: nat)
    requires Wf(s) && p in s.pnodes
    decreases p
  {
    hide Wf;
    WfNode(s, p);
    p == s.root || (s.pnodes[p].cover.None? && FirstOfItsName(s, p) && Visible(s, s.pnodes[p].parent))
  }

  /** An entry leads to a node exactly when the node is uncovered and first of its name. */
  lemma LookTopExact(s: Ns, p: nat)
    requires Wf(s) && p in s.pnodes && p != s.root
    ensures s.pnodes[p].parent in s.pnodes && s.pnodes[Bottom(s, p)].base in s.bases
    ensures LookTop(s, s.pnodes[p].parent, s.bases[s.pnodes[Bottom(s, p)].base].name) == Some(p)
            <==> s.pnodes[p].cover.None? && FirstOfItsName(s, p)
  {
    hide Wf, Bottom, Top, FindChild, FindWithParent;
    HasBase(s, p);
    var u := Bottom(s, p);
    EntryName(s, u);
    var a := s.pnodes[p].parent;
    TheChild(s, a, s.pnodes[u].base);
    AliasListed(s, u);
    var x := FindWithParent(s, s.bases[s.pnodes[u].base].aliases, a).value;
    TopBottom(s, x);
    BottomTop(s, x);
    BottomTop(s, p);
    assert LookTop(s, a, s.bases[s.pnodes[u].base].name) == Some(Top(s, x));
    if s.pnodes[p].cover.Some? { CoverParent(s, p); }
    assert s.pnodes[p].cover.None? ==> Top(s, p) == p by { TopSelf(s, p); }
  }

  lemma TopSelf(s: Ns, p: nat)
    requires Wf(s) && p in s.pnodes
    ensures s.pnodes[p].cover.None? ==> Top(s, p) == p
  {
    hide Wf;
  }

  lemma AliasListed(s: Ns, u: nat)
    requires Wf(s) && u in s.pnodes
    ensures s.pnodes[u].base in s.bases && u in s.bases[s.pnodes[u].base].aliases
  {
    WfNode(s, u);
  }

  lemma TheChild(s: Ns, a: nat, b: nat)
    requires Wf(s) && a in s.pnodes && b in s.bases && s.bases[b].parent == Some(s.pnodes[a].base)
    ensures s.pnodes[a].base in s.bases
    ensures FindChild(s, s.bases[s.pnodes[a].base].children, s.bases[b].name) == Some(b)
  {
    hide FindChild;
    KnownChild(s, a, s.bases[b].name);
    WfParts(s);
    hide Wf, TreeOk, CoversOk;
    var r := FindChild(s, s.bases[s.pnodes[a].base].children, s.bases[b].name);
    if r.Some? {
      assert Namesakes(s.bases[r.value], s.bases[b]);
    }
  }

  lemma {:induction false} VisibleIsRight(s: Ns, p: nat)
    requires Wf(s) && p in s.pnodes
    ensures Visible(s, p) <==> RightFrom(s, p, 0)
    decreases p
  {
    hide Wf, LookTop, FirstOfItsName, RightAt, Bottom;
    WfNode(s, p);
    if p == s.root {
      RootChain(s);
    } else {
      var q := s.pnodes[p].parent;
      VisibleIsRight(s, q);
      LastRight(s, p);
      ChainShape(s, p);
      ChainShape(s, q);
      assert Chain(s, p) == Chain(s, q) + [p];
      forall j | 0 < j < |Chain(s, q)| ensures RightAt(s, p, j) == RightAt(s, q, j) { RightAbove(s, p, j); }
      assert RightFrom(s, p, 0) <==> RightFrom(s, q, 0) && RightAt(s, p, |Chain(s, q)|);
    }
  }

  lemma LastRight(s: Ns, p: nat)
    requires Wf(s) && p in s.pnodes && p != s.root
    ensures s.pnodes[p].parent in s.pnodes && |Chain(s, p)| == |Chain(s, s.pnodes[p].parent)| + 1 > 1
    ensures RightAt(s, p, |Chain(s, p)| - 1) <==> s.pnodes[p].cover.None? && FirstOfItsName(s, p)
  {
    hide Wf, LookTop, FirstOfItsName, Bottom;
    HasBase(s, p);
    ChainShape(s, p);
    ChainShape(s, s.pnodes[p].parent);
    LookTopExact(s, p);
  }

  lemma RightAbove(s: Ns, p: nat, j: nat)
    requires Wf(s) && p in s.pnodes && p != s.root && s.pnodes[p].parent in s.pnodes &&
      0 < j < |Chain(s, s.pnodes[p].parent)|
    ensures j < |Chain(s, p)| && RightAt(s, p, j) == RightAt(s, s.pnodes[p].parent, j)
  {
    hide Wf, LookTop, Bottom;
    ChainShape(s, p);
    ChainShape(s, s.pnodes[p].parent);
  }

  /**
   * Walking the text printed for a directory arrives back at it, without expanding a link,
   * exactly when the directory is visible.
   */
  lemma RoundTrip(w: World, s: Ns, p: nat, parent: nat, fl: Flags)
    requires Steady(w) && Wf(s) && p in s.pnodes && parent in s.pnodes && DirsAbove(s, p)
    ensures Lands(Walk(w, s, parent, Some(PathOf(s, p)), s.root, fl, 0), p, 0) <==> Visible(s, p)
  {
    hide *;
    RoundTripChain(w, s, p, parent, fl);
    VisibleIsRight(s, p);
  }
}
