/**
 * Which nodes a path can lead to at all.  Whatever the text and whatever links it runs into, a
 * walk from the root of the name space meets only nodes that entries lead to, level by level,
 * and nodes it made itself.
 */
module PathReach {
  import opened Prelude
  import opened NameSpace
  import opened NameWf
  import opened PathWalk
  import opened PathPrint
  import opened PathRoundTrip

  /** Some entry of the node's parent leads to it. */
  ghost predicate ByName(s: Ns, p: nat)
    requires Wf(s) && p in s.pnodes
  {
    hide Wf, LookTop;
    HasBase(s, p);
    exists name :: NameOk(name) && LookTop(s, s.pnodes[p].parent, name) == Some(p)
  }

  /** Entries lead to the node, from the root down. */
  ghost predicate Found(s: Ns, p: nat)
    requires Wf(s) && p in s.pnodes
    decreases p
  {
    hide Wf, ByName;
    WfNode(s, p);
    p == s.root || (ByName(s, p) && Found(s, s.pnodes[p].parent))
  }

  /** A node that is new since `s`, or that entries led to in `s`. */
  ghost predicate Reached(s: Ns, p: nat) {
    Wf(s) && (p in s.pnodes ==> Found(s, p))
  }

  /** What a walk from reached nodes of `s` gives back. */
  ghost predicate Stays(s: Ns, r: Walked) {
    Tame(s, r.ns) && (r.pno.Some? ==> Reached(s, r.pno.value))
  }

  // ---------------------------------------------------------------- entries of a name space that grows

  lemma {:induction false} TopGrows(t: Ns, u: Ns, p: nat)
    requires Wf(t) && Wf(u) && Grows(t, u) && p in t.pnodes
    ensures p in u.pnodes && Top(u, p) == Top(t, p)
    decreases t.nextPnode - p
  {
    hide Wf, Grows;
    GrowsKeeps(t, u, p);
    match t.pnodes[p].cover
    case None =>
    case Some(c) =>
      CoverYounger(t, p);
      if c != p { TopGrows(t, u, c); }
  }

  lemma {:induction false} FindGrows(t: Ns, u: Ns, list: seq<nat>, a: nat)
    requires Grows(t, u) && forall x :: x in list ==> x in t.pnodes
    ensures FindWithParent(u, list, a) == FindWithParent(t, list, a)
  {
    if list == [] {
    } else {
      hide Grows;
      assert list[0] in list;
      GrowsKeeps(t, u, list[0]);
      FindGrows(t, u, list[1..], a);
    }
  }

  lemma {:induction false} ChildGrows(t: Ns, u: Ns, list: seq<nat>, name: string)
    requires forall c :: c in list ==> c in t.bases && c in u.bases && u.bases[c].name == t.bases[c].name
    ensures FindChild(u, list, name) == FindChild(t, list, name)
  {
    if list == [] {
    } else {
      ChildGrows(t, u, list[1..], name);
    }
  }

  /** What an entry leads to is as before, or a new node. */
  ghost predicate LookKept(t: Ns, u: Ns, a: nat, name: string)
    requires Wf(t) && Wf(u) && a in t.pnodes && a in u.pnodes
  {
    hide Wf;
    LookTop(u, a, name) == LookTop(t, a, name) ||
    (LookTop(u, a, name).Some? && LookTop(u, a, name).value !in t.pnodes)
  }

  ghost predicate Keeps(t: Ns, u: Ns) {
    && Wf(t) && Wf(u) && Grows(t, u)
    && forall a: nat, name: string :: a in t.pnodes ==> a in u.pnodes && LookKept(t, u, a, name)
  }

  lemma KeepsTrans(t: Ns, u: Ns, v: Ns)
    requires Keeps(t, u) && Keeps(u, v)
    ensures Keeps(t, v)
  {
    hide Wf, Grows, LookTop;
    GrowsTrans(t, u, v);
    forall a: nat, name: string | a in t.pnodes ensures a in v.pnodes && LookKept(t, v, a, name) {
      GrowsKeeps(t, u, a);
      GrowsKeeps(u, v, a);
      assert LookKept(t, u, a, name);
      assert LookKept(u, v, a, name);
      if LookTop(v, a, name).Some? && LookTop(v, a, name).value in t.pnodes {
        GrowsKeeps(t, u, LookTop(v, a, name).value);
      }
    }
  }

  /** Same children and aliases everywhere, in the same order. */
  ghost predicate SameLists(t: Ns, u: Ns) {
    && u.bases.Keys == t.bases.Keys
    && forall b :: b in t.bases ==>
         u.bases[b].name == t.bases[b].name && u.bases[b].children == t.bases[b].children &&
           u.bases[b].aliases == t.bases[b].aliases
  }

  lemma ListsThere(t: Ns, b: nat)
    requires Wf(t) && b in t.bases
    ensures forall c :: c in t.bases[b].children ==> c in t.bases
    ensures forall x :: x in t.bases[b].aliases ==> x in t.pnodes
  {
    WfParts(t);
    BaseFacts(t, b);
  }

  lemma LookSame(t: Ns, u: Ns, a: nat, name: string)
    requires Wf(t) && Wf(u) && Grows(t, u) && SameLists(t, u) && a in t.pnodes
    ensures a in u.pnodes && LookTop(u, a, name) == LookTop(t, a, name)
  {
    hide Wf, Grows, FindChild, FindWithParent, Top;
    GrowsKeeps(t, u, a);
    HasBase(t, a);
    var b := t.pnodes[a].base;
    ListsThere(t, b);
    ChildGrows(t, u, t.bases[b].children, name);
    LookBelow(t, u, FindChild(t, t.bases[b].children, name), a);
  }

  lemma LookBelow(t: Ns, u: Ns, c: Option<nat>, a: nat)
    requires Wf(t) && Wf(u) && Grows(t, u)
    requires c.Some? ==>
      c.value in t.bases && c.value in u.bases && u.bases[c.value].aliases == t.bases[c.value].aliases
    ensures c.Some? ==>
      var f := FindWithParent(t, t.bases[c.value].aliases, a);
      && FindWithParent(u, u.bases[c.value].aliases, a) == f
      && (f.Some? ==> f.value in t.pnodes && f.value in u.pnodes && Top(u, f.value) == Top(t, f.value))
  {
    hide Wf, Grows, FindWithParent, Top;
    if c.Some? {
      ListsThere(t, c.value);
      FindGrows(t, u, t.bases[c.value].aliases, a);
      var f := FindWithParent(t, t.bases[c.value].aliases, a);
      if f.Some? { TopGrows(t, u, f.value); }
    }
  }

  lemma KeepsLists(t: Ns, u: Ns)
    requires Wf(t) && Wf(u) && Grows(t, u) && SameLists(t, u)
    ensures Keeps(t, u)
  {
    hide Wf, Grows, SameLists, LookTop;
    forall a: nat | a in t.pnodes ensures a in u.pnodes { GrowsKeeps(t, u, a); }
    forall a: nat, name: string | a in t.pnodes ensures LookKept(t, u, a, name) { LookSame(t, u, a, name); }
  }

  lemma KeepsAlike(t: Ns, u: Ns)
    requires Wf(t) && Wf(u) && Alike(t, u)
    ensures Keeps(t, u)
  {
    hide Wf;
    AlikeGrows(t, u);
    KeepsLists(t, u);
  }

  lemma KeepsIno(t: Ns, b: nat, ino: Option<Kind>)
    requires Wf(t) && b in t.bases
    ensures Keeps(t, SetIno(t, b, ino))
  {
    hide Wf;
    SetInoOk(t, b, ino);
    KeepsLists(t, SetIno(t, b, ino));
  }

  lemma KeepsSelf(t: Ns)
    requires Wf(t)
    ensures Keeps(t, t)
  {
    hide Wf;
    AlikeSelf(t);
    KeepsAlike(t, t);
  }

  /** A new base node has no alias, so its name still leads nowhere. */
  lemma KeepsBase(t: Ns, name: string, b: nat)
    requires Wf(t) && b in t.bases && NameOk(name)
    requires forall c :: c in t.bases && t.bases[c].parent == Some(b) ==> t.bases[c].name != name
    ensures Keeps(t, PbNew(t, name, b))
  {
    hide Wf, Grows, LookTop;
    PbNewOk(t, name, b);
    var u := PbNew(t, name, b);
    forall a: nat, n: string | a in t.pnodes ensures a in u.pnodes && LookKept(t, u, a, n) {
      GrowsKeeps(t, u, a);
      NewBaseLook(t, name, b, a, n);
    }
  }

  /** The two halves of following an entry. */
  lemma LookVia(t: Ns, a: nat, name: string, c: Option<nat>)
    requires Wf(t) && a in t.pnodes && t.pnodes[a].base in t.bases
    requires c == FindChild(t, t.bases[t.pnodes[a].base].children, name)
    ensures c.None? ==> LookTop(t, a, name) == None
    ensures c.Some? ==>
      var f := FindWithParent(t, t.bases[c.value].aliases, a);
      LookTop(t, a, name) == if f.None? then None else Some(Top(t, f.value))
  {
    hide Wf, FindChild, FindWithParent, Top;
  }

  lemma FrontChild(u: Ns, c: nat, list: seq<nat>, n: string)
    requires c in u.bases
    ensures FindChild(u, [c] + list, n) == if u.bases[c].name == n then Some(c) else FindChild(u, list, n)
  {
    assert ([c] + list)[1..] == list;
  }

  lemma FrontAlias(u: Ns, x: nat, list: seq<nat>, a: nat)
    requires x in u.pnodes
    ensures FindWithParent(u, [x] + list, a) == if u.pnodes[x].parent == a then Some(x) else FindWithParent(u, list, a)
  {
    assert ([x] + list)[1..] == list;
  }

  lemma NewBaseLook(t: Ns, name: string, b: nat, a: nat, n: string)
    requires Wf(t) && b in t.bases && NameOk(name) && a in t.pnodes && Wf(PbNew(t, name, b)) &&
      Grows(t, PbNew(t, name, b))
    requires forall c :: c in t.bases && t.bases[c].parent == Some(b) ==> t.bases[c].name != name
    ensures a in PbNew(t, name, b).pnodes && LookTop(PbNew(t, name, b), a, n) == LookTop(t, a, n)
  {
    hide Wf, Grows, Top, FindWithParent, FindChild, LookTop, TreeOk, CoversOk, NamesOk;
    WfParts(t);
    NewNumbers(t);
    HasBase(t, a);
    KnownChild(t, a, n);
    var u := PbNew(t, name, b);
    var d := t.pnodes[a].base;
    ListsThere(t, d);
    var list := t.bases[d].children;
    assert forall c :: c in t.bases ==>
      c in u.bases && u.bases[c].name == t.bases[c].name && u.bases[c].aliases == t.bases[c].aliases;
    ChildGrows(t, u, list, n);
    var f := FindChild(t, list, n);
    LookBelow(t, u, f, a);
    LookVia(t, a, n, f);
    if d == b {
      FrontChild(u, t.nextBase, list, n);
      assert u.bases[d].children == [t.nextBase] + list;
      if n == name {
        NoSuchAlias(u, t.nextBase, a);
        LookVia(u, a, n, Some(t.nextBase));
      } else {
        LookVia(u, a, n, f);
      }
    } else {
      assert u.bases[d].children == list;
      LookVia(u, a, n, f);
    }
  }

  /** A new alias is found only under its own parent. */
  lemma KeepsAlias(t: Ns, par: nat, b: nat)
    requires Wf(t) && NoAliasFor(t, par, b)
    ensures Keeps(t, PNewAlias(t, par, b, t.pnodes[par].mount))
  {
    hide Wf, Grows, LookTop;
    NewAliasOk(t, par, b);
    var u := PNewAlias(t, par, b, t.pnodes[par].mount);
    forall a: nat, n: string | a in t.pnodes ensures a in u.pnodes && LookKept(t, u, a, n) {
      GrowsKeeps(t, u, a);
      NewAliasLook(t, par, b, a, n);
    }
  }

  lemma NewAliasLook(t: Ns, par: nat, b: nat, a: nat, n: string)
    requires Wf(t) && NoAliasFor(t, par, b) && a in t.pnodes
    requires var u := PNewAlias(t, par, b, t.pnodes[par].mount); Wf(u) && Grows(t, u)
    ensures var u := PNewAlias(t, par, b, t.pnodes[par].mount); a in u.pnodes && LookKept(t, u, a, n)
  {
    assert par in t.pnodes && b in t.bases;
    WfParts(t);
    NewNumbers(t);
    hide Wf, Grows, NoAliasFor, LookKept, TreeOk, CoversOk, NamesOk;
    AliasLook(t, PNewAlias(t, par, b, t.pnodes[par].mount), b, a, n);
  }

  lemma AliasLook(t: Ns, u: Ns, b: nat, a: nat, n: string)
    requires Wf(t) && Wf(u) && Grows(t, u) && a in t.pnodes && b in t.bases
    requires t.nextPnode in u.pnodes && t.nextPnode !in t.pnodes && u.pnodes[t.nextPnode].cover.None?
    requires u.bases == t.bases[b := t.bases[b].(aliases := [t.nextPnode] + t.bases[b].aliases)]
    ensures a in u.pnodes && LookKept(t, u, a, n)
  {
    hide Wf, Grows, Top, FindChild, FindWithParent, LookTop;
    HasBase(t, a);
    GrowsKeeps(t, u, a);
    var d := t.pnodes[a].base;
    ListsThere(t, d);
    ChildGrows(t, u, t.bases[d].children, n);
    var f := FindChild(t, t.bases[d].children, n);
    assert u.bases[d].children == t.bases[d].children;
    LookVia(t, a, n, f);
    LookVia(u, a, n, f);
    if f == Some(b) {
      NewAliasFront(t, u, b, a);
    } else {
      LookBelow(t, u, f, a);
    }
  }

  lemma NewAliasFront(t: Ns, u: Ns, b: nat, a: nat)
    requires Wf(t) && Wf(u) && Grows(t, u) && b in t.bases && b in u.bases
    requires t.nextPnode in u.pnodes && t.nextPnode !in t.pnodes && u.pnodes[t.nextPnode].cover.None?
    requires u.bases[b].aliases == [t.nextPnode] + t.bases[b].aliases
    ensures var f, g := FindWithParent(t, t.bases[b].aliases, a), FindWithParent(u, u.bases[b].aliases, a);
      || (g.Some? && Top(u, g.value) !in t.pnodes)
      || (g == f && (f.Some? ==> Top(u, f.value) == Top(t, f.value)))
  {
    hide Wf, Grows, FindWithParent;
    var list := t.bases[b].aliases;
    ListsThere(t, b);
    FindGrows(t, u, list, a);
    FrontAlias(u, t.nextPnode, list, a);
    TopSelf(u, t.nextPnode);
    hide Top;
    var f := FindWithParent(t, list, a);
    if f.Some? { TopGrows(t, u, f.value); }
  }

  // ---------------------------------------------------------------- what a lookup adds

  /** New nodes hang under `a`. */
  ghost predicate NewUnder(t: Ns, u: Ns, a: nat) {
    forall q :: q in u.pnodes && q !in t.pnodes ==> u.pnodes[q].parent == a
  }

  lemma GetAliasKeeps(w: World, t: Ns, par: nat, b: nat)
    requires Wf(t) && par in t.pnodes && b in t.bases && t.bases[b].parent == Some(t.pnodes[par].base)
    ensures var g := GetAlias(w, t, par, b); Keeps(t, g.ns) && NewUnder(t, g.ns, par)
  {
    hide Wf, Grows, Gains, Keeps, FindWithParent;
    match FindWithParent(t, t.bases[b].aliases, par)
    case Some(x) => PRefOk(t, x); AlikeRef(t, x); KeepsAlike(t, PRef(t, x));
    case None => if w.room(t) { KeepsAlias(t, par, b); } else { KeepsSelf(t); }
  }

  lemma FindAliasKeeps(w: World, t: Ns, par: nat, name: string)
    requires Wf(t) && par in t.pnodes && NameOk(name)
    ensures var g := FindAlias(w, t, par, name); Keeps(t, g.ns) && NewUnder(t, g.ns, par)
  {
    hide Wf, Grows, Gains, Keeps, FindChild, GetAlias;
    KnownChild(t, par, name);
    var b := t.pnodes[par].base;
    match FindChild(t, t.bases[b].children, name)
    case Some(c) => GetAliasKeeps(w, t, par, c);
    case None =>
      if w.room(t) {
        PbNewOk(t, name, b);
        KeepsBase(t, name, b);
        var u := PbNew(t, name, b);
        GetAliasKeeps(w, u, par, t.nextBase);
        KeepsTrans(t, u, GetAlias(w, u, par, t.nextBase).ns);
      } else {
        KeepsSelf(t);
      }
  }

  lemma EntryKeeps(w: World, t: Ns, a: nat, name: string)
    requires Wf(t) && a in t.pnodes && name != "" && PATH_SEPARATOR !in name
    ensures var e := Entry(w, t, a, name); Keeps(t, e.ns) && NewUnder(t, e.ns, a)
  {
    hide Wf, Grows, Gains, Keeps, FindAlias;
    HasBase(t, a);
    if name == "." || name == ".." {
      var x := if name == "." then a else t.pnodes[a].parent;
      PRefOk(t, x);
      AlikeRef(t, x);
      KeepsAlike(t, PRef(t, x));
    } else {
      FindAliasKeeps(w, t, a, name);
    }
  }

  lemma ValidateKeeps(w: World, t: Ns, p: nat)
    requires Wf(t) && p in t.pnodes
    ensures Keeps(t, Validate(w, t, p).0) && Validate(w, t, p).0.pnodes == t.pnodes
  {
    hide Wf, Grows, Keeps;
    HasBase(t, p);
    match w.check(t, p)
    case Valid(k) => KeepsIno(t, t.pnodes[p].base, Some(k));
    case Invalid(_, ino) => KeepsIno(t, t.pnodes[p].base, ino);
  }

  lemma LookupKeeps(w: World, t: Ns, a: nat, name: string)
    requires Wf(t) && a in t.pnodes && name != "" && PATH_SEPARATOR !in name
    ensures var l := Lookup(w, t, a, name); Keeps(t, l.ns) && NewUnder(t, l.ns, a)
    ensures var l := Lookup(w, t, a, name); var e := Entry(w, t, a, name);
      l.pno.Some? ==> e.pno.Some? && e.pno.value in e.ns.pnodes && l.pno.value == Top(e.ns, e.pno.value)
  {
    hide Wf, Grows, Gains, LookOk, Keeps, Entry, Hop, Validate, Alike;
    HasBase(t, a);
    if KindOf(t, a).None? {
      KeepsSelf(t);
    } else {
      var e := Entry(w, t, a, name);
      EntryKeeps(w, t, a, name);
      if e.err == 0 {
        HopTop(e.ns, e.pno.value);
        var h := Hop(e.ns, e.pno.value);
        KeepsAlike(e.ns, h.0);
        ValidateKeeps(w, h.0, h.1);
        KeepsTrans(t, e.ns, h.0);
        KeepsTrans(t, h.0, Validate(w, h.0, h.1).0);
        AlikeUnder(t, e.ns, h.0, a);
      }
    }
  }

  lemma AlikeUnder(t: Ns, u: Ns, v: Ns, a: nat)
    requires NewUnder(t, u, a) && Alike(u, v)
    ensures NewUnder(t, v, a)
  {
  }

  // ---------------------------------------------------------------- the walk stays on reached nodes

  /** A name space that a walk from the root of `s` has grown: new nodes hang under reached ones. */
  ghost predicate Tame(s: Ns, t: Ns) {
    Keeps(s, t) && forall q :: q in t.pnodes && q !in s.pnodes ==> Reached(s, t.pnodes[q].parent)
  }

  lemma TameParts(s: Ns, t: Ns)
    requires Tame(s, t)
    ensures Wf(s) && Wf(t) && Grows(s, t) && s.root in t.pnodes && t.root == s.root
  {
    hide Wf;
    RootNode(s);
    GrowsKeeps(s, t, s.root);
  }

  lemma TameSelf(s: Ns)
    requires Wf(s)
    ensures Tame(s, s)
  {
    hide Wf, Keeps;
    KeepsSelf(s);
  }

  lemma TameStep(s: Ns, t: Ns, u: Ns, a: nat)
    requires Tame(s, t) && Keeps(t, u) && NewUnder(t, u, a) && Reached(s, a)
    ensures Tame(s, u)
  {
    KeepsTrans(s, t, u);
    assert Grows(t, u);
    hide Wf, Keeps, Grows, Found;
    forall q | q in u.pnodes && q !in s.pnodes ensures Reached(s, u.pnodes[q].parent) {
      if q in t.pnodes { GrowsKeeps(t, u, q); }
    }
  }

  /** Counts and inodes do not matter. */
  lemma TameSame(s: Ns, t: Ns, u: Ns)
    requires Tame(s, t) && Keeps(t, u) && u.pnodes.Keys == t.pnodes.Keys
    ensures Tame(s, u)
  {
    hide Wf, LookKept;
    RootNode(s);
    TameStep(s, t, u, s.root);
  }

  lemma TameRele(s: Ns, t: Ns, p: nat)
    requires Tame(s, t) && Holding(t, p)
    ensures Tame(s, PRele(t, p))
  {
    TameParts(s, t);
    hide Wf, Tame, Keeps;
    PReleOk(t, p);
    AlikeSelf(t);
    AlikeRele(t, t, p);
    KeepsAlike(t, PRele(t, p));
    TameSame(s, t, PRele(t, p));
  }

  lemma TameRef(s: Ns, t: Ns, p: nat)
    requires Tame(s, t) && p in t.pnodes
    ensures Tame(s, PRef(t, p))
  {
    TameParts(s, t);
    hide Wf, Tame, Keeps;
    PRefOk(t, p);
    AlikeRef(t, p);
    KeepsAlike(t, PRef(t, p));
    TameSame(s, t, PRef(t, p));
  }

  /** Mounts do not change in a walk, so what is new is not covered. */
  lemma NewUncovered(s: Ns, t: Ns, p: nat)
    requires Wf(s) && Wf(t) && Grows(s, t) && p in t.pnodes && p !in s.pnodes
    ensures t.pnodes[p].cover.None?
  {
    hide Wf, Grows;
    if t.pnodes[p].cover.Some? {
      CoverParent(t, p);
      var c := t.pnodes[p].cover.value;
      var m := t.pnodes[c].mount;
      assert t.mounts == s.mounts by { SameMounts(s, t); }
      WfParts(s);
      MountRoot(s, m);
      WfNode(s, s.mounts[m].root);
    }
  }

  lemma SameMounts(s: Ns, t: Ns)
    requires Grows(s, t)
    ensures t.mounts == s.mounts && t.root == s.root
  {
  }

  /** Nothing is on top of a reached node. */
  lemma ReachedTop(s: Ns, t: Ns, p: nat)
    requires Tame(s, t) && p in t.pnodes && Reached(s, p)
    requires Wf(t)
    ensures Top(t, p) == p
  {
    TameParts(s, t);
    hide Wf, Tame, Grows, LookTop;
    if p in s.pnodes {
      GrowsKeeps(s, t, p);
      assert s.pnodes[p].cover == None || s.pnodes[p].cover == Some(p) by { FoundExposed(s, p); }
    } else {
      NewUncovered(s, t, p);
    }
  }

  lemma FoundExposed(s: Ns, p: nat)
    requires Wf(s) && p in s.pnodes && Found(s, p)
    ensures s.pnodes[p].cover == None || s.pnodes[p].cover == Some(p)
  {
    hide Wf, FindChild, FindWithParent, Top;
    RootNode(s);
    if p != s.root {
      HasBase(s, p);
      var name :| NameOk(name) && LookTop(s, s.pnodes[p].parent, name) == Some(p);
    }
  }

  lemma ReachedParent(s: Ns, t: Ns, p: nat)
    requires Tame(s, t) && p in t.pnodes && Reached(s, p)
    ensures t.pnodes[p].parent in t.pnodes && Reached(s, t.pnodes[p].parent)
  {
    TameParts(s, t);
    hide Wf, Keeps, Grows, ByName;
    HasBase(t, p);
    RootNode(s);
    if p in s.pnodes { GrowsKeeps(s, t, p); }
  }

  lemma LookupReaches(w: World, s: Ns, t: Ns, a: nat, name: string)
    requires Tame(s, t) && a in t.pnodes && Reached(s, a) && name != "" && PATH_SEPARATOR !in name
    requires Wf(t)
    ensures var l := Lookup(w, t, a, name); Tame(s, l.ns) && (l.pno.Some? ==> Reached(s, l.pno.value))
  {
    TameParts(s, t);
    hide Wf, Tame, Keeps, Grows, Found, Lookup, LookOk, Gains, NewUnder;
    LookupKeeps(w, t, a, name);
    var l := Lookup(w, t, a, name);
    TameStep(s, t, l.ns, a);
    if l.pno.Some? {
      if name == "." || name == ".." {
        DotReaches(w, s, t, a, name);
      } else {
        NameReaches(w, s, t, a, name);
      }
    }
  }

  lemma DotEntry(w: World, t: Ns, a: nat, name: string)
    requires Wf(t) && a in t.pnodes && (name == "." || name == "..") && name != "" && PATH_SEPARATOR !in name
    requires t.pnodes[a].parent in t.pnodes
    ensures var x := if name == "." then a else t.pnodes[a].parent;
      Entry(w, t, a, name) == Looked(PRef(t, x), 0, Some(x))
  {
    hide Wf, FindAlias, Grows, Gains;
    HasBase(t, a);
  }

  ghost predicate TopReached(s: Ns, e: Looked) {
    Wf(e.ns) && e.pno.Some? && e.pno.value in e.ns.pnodes ==> Reached(s, Top(e.ns, e.pno.value))
  }

  lemma DotReaches(w: World, s: Ns, t: Ns, a: nat, name: string)
    requires Tame(s, t) && Wf(t) && a in t.pnodes && Reached(s, a) && (name == "." || name == "..")
    requires name != "" && PATH_SEPARATOR !in name
    ensures TopReached(s, Entry(w, t, a, name))
  {
    hide Wf, Tame, Keeps, Grows, Reached, Top, Entry, Gains;
    ReachedParent(s, t, a);
    DotEntry(w, t, a, name);
    var x := if name == "." then a else t.pnodes[a].parent;
    PRefOk(t, x);
    TameRef(s, t, x);
    ReachedTop(s, PRef(t, x), x);
  }

  lemma NameReaches(w: World, s: Ns, t: Ns, a: nat, name: string)
    requires Tame(s, t) && Wf(t) && a in t.pnodes && Reached(s, a) && NameOk(name)
    requires Lookup(w, t, a, name).pno.Some?
    ensures Reached(s, Lookup(w, t, a, name).pno.value)
  {
    TameParts(s, t);
    assert forall x: nat, n: string :: x in s.pnodes ==> x in t.pnodes && LookKept(s, t, x, n);
    hide Wf, Tame, Keeps, Grows, Lookup, LookOk, Gains, LookTop;
    LookupParent(w, t, a, name);
    var l := Lookup(w, t, a, name);
    var q := l.pno.value;
    if q in s.pnodes && q != s.root {
      GrowsKeeps(s, t, q);
      LookParts(t, l);
      GrowsKeeps(t, l.ns, q);
      HasBase(s, q);
      assert a in s.pnodes;
      assert LookKept(s, t, a, name);
    }
  }

  lemma {:induction false} WalkReaches(w: World, s: Ns, t: Ns, parent: nat, path: Option<string>, fl: Flags,
      slicnt: nat)
    requires Tame(s, t) && parent in t.pnodes && Reached(s, parent) && slicnt <= MAX_SYMLINK
    requires Wf(t) && s.root in t.pnodes
    ensures Stays(s, Walk(w, t, parent, path, s.root, fl, slicnt))
    decreases MAX_SYMLINK - slicnt, if path.Some? then |path.value| else 0, 2
  {
    TameParts(s, t);
    hide Wf, Tame, Keeps, Grows, Reached, Gains, WalkOk, Steps, Component, Validate;
    if path.Some? && path.value != "" {
      var start := if path.value[0] == PATH_SEPARATOR then s.root else parent;
      var v := Validate(w, t, start);
      ValidateKeeps(w, t, start);
      TameSame(s, t, v.0);
      if v.1 == 0 {
        PRefOk(v.0, start);
        TameRef(s, v.0, start);
        RootReached(s);
        TameParts(s, PRef(v.0, start));
        StepsReaches(w, s, PRef(v.0, start), start, path.value, fl, slicnt);
      }
    }
  }

  lemma RootReached(s: Ns)
    requires Wf(s)
    ensures Reached(s, s.root)
  {
  }

  lemma {:induction false} StepsReaches(w: World, s: Ns, t: Ns, pno: nat, text: string, fl: Flags, slicnt: nat)
    requires Tame(s, t) && Holding(t, pno) && Reached(s, pno) && slicnt <= MAX_SYMLINK
    requires Wf(t) && s.root in t.pnodes
    ensures Stays(s, Steps(w, t, pno, text, s.root, fl, slicnt))
    decreases MAX_SYMLINK - slicnt, |text|, 1
  {
    TameParts(s, t);
    hide Wf, Tame, Keeps, Grows, Reached, Gains, WalkOk, Walk, Advance, Component, Steps, Stays;
    HasBase(t, pno);
    if KindOf(t, pno) == Some(Symlink) && (Component(text).0 != "" || !fl.nofollow) {
      LinkReaches(w, s, t, pno, text, fl, slicnt);
    } else {
      PlainStep(w, t, pno, text, s.root, fl, slicnt);
      AdvanceReaches(w, s, t, pno, text, fl, slicnt);
    }
  }

  /** The walk of a link's text, and what is left of the path after it. */
  lemma {:induction false} LinkReaches(w: World, s: Ns, t: Ns, pno: nat, text: string, fl: Flags, slicnt: nat)
    requires Tame(s, t) && Holding(t, pno) && Reached(s, pno) && slicnt <= MAX_SYMLINK
    requires Wf(t) && s.root in t.pnodes && t.pnodes[pno].base in t.bases
    requires KindOf(t, pno) == Some(Symlink) && (Component(text).0 != "" || !fl.nofollow)
    ensures Stays(s, Steps(w, t, pno, text, s.root, fl, slicnt))
    decreases MAX_SYMLINK - slicnt, |text|, 0, 2
  {
    hide Wf, Tame, Keeps, Grows, Reached, Gains, WalkOk, Walk, Advance, Component;
    TameRele(s, t, pno);
    if slicnt < MAX_SYMLINK && w.readlink(t, pno).Target? {
      ReachedParent(s, t, pno);
      var lpath := w.readlink(t, pno).text;
      WalkReaches(w, s, t, t.pnodes[pno].parent, Some(lpath), fl, slicnt + 1);
      var r := Walk(w, t, t.pnodes[pno].parent, Some(lpath), s.root, fl, slicnt + 1);
      WalkEnds(t, None, slicnt + 1, r);
      if r.err != 0 {
        LinkFails(t, pno, slicnt, r);
        TameRele(s, r.ns, pno);
      } else {
        LinkOk(t, pno, slicnt, r);
        TameRele(s, r.ns, pno);
        TameParts(s, PRele(r.ns, pno));
        AdvanceReaches(w, s, PRele(r.ns, pno), r.pno.value, text, fl, slicnt);
      }
    }
  }

  lemma {:induction false} AdvanceReaches(w: World, s: Ns, t: Ns, pno: nat, text: string, fl: Flags, slicnt: nat)
    requires Tame(s, t) && Holding(t, pno) && Reached(s, pno) && slicnt <= MAX_SYMLINK
    requires Wf(t) && s.root in t.pnodes
    ensures Stays(s, Advance(w, t, pno, text, s.root, fl, slicnt))
    decreases MAX_SYMLINK - slicnt, |text|, 0, 1
  {
    TameParts(s, t);
    hide Wf, Tame, Keeps, Grows, Reached, Gains, WalkOk, LookOk, Lookup, Steps, Component;
    HasBase(t, pno);
    hide Advance, Stays;
    if Component(text).0 != "" && KindOf(t, pno) == Some(Directory) {
      TurnReaches(w, s, t, pno, text, fl, slicnt);
    } else {
      StopReaches(w, s, t, pno, text, fl, slicnt);
    }
  }

  lemma StopReaches(w: World, s: Ns, t: Ns, pno: nat, text: string, fl: Flags, slicnt: nat)
    requires Tame(s, t) && Holding(t, pno) && Reached(s, pno) && slicnt <= MAX_SYMLINK
    requires Wf(t) && s.root in t.pnodes && t.pnodes[pno].base in t.bases
    requires Component(text).0 == "" || KindOf(t, pno) != Some(Directory)
    ensures Stays(s, Advance(w, t, pno, text, s.root, fl, slicnt))
  {
    hide Wf, Tame, Keeps, Grows, Reached, Gains, WalkOk, LookOk, Lookup, Steps, Component;
    TameRele(s, t, pno);
  }

  /** One component looked up, and the rest of the path. */
  lemma {:induction false} TurnReaches(w: World, s: Ns, t: Ns, pno: nat, text: string, fl: Flags, slicnt: nat)
    requires Tame(s, t) && Holding(t, pno) && Reached(s, pno) && slicnt <= MAX_SYMLINK
    requires Wf(t) && s.root in t.pnodes && t.pnodes[pno].base in t.bases
    requires Component(text).0 != "" && KindOf(t, pno) == Some(Directory)
    ensures Stays(s, Advance(w, t, pno, text, s.root, fl, slicnt))
    decreases MAX_SYMLINK - slicnt, |text|, 0, 0
  {
    hide Wf, Tame, Keeps, Grows, Reached, Gains, WalkOk, LookOk, Lookup, Steps, Component;
    LookupReaches(w, s, t, pno, Component(text).0);
    var l := Lookup(w, t, pno, Component(text).0);
    LookParts(t, l);
    if l.pno.None? {
      NothingFound(t, l.ns, pno, slicnt);
      TameRele(s, l.ns, pno);
    } else {
      LookedOk(t, l.ns, pno, l.pno.value);
      TameRele(s, l.ns, pno);
      var u := PRele(l.ns, pno);
      if l.err == 0 {
        TameParts(s, u);
        StepsReaches(w, s, u, l.pno.value, Component(text).1, fl, slicnt);
      } else {
        TameRele(s, u, l.pno.value);
      }
    }
  }
}
