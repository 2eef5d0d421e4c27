/**
 * The path walk: component by component from a starting directory, hopping over covered
 * nodes and expanding symbolic links by recursion.  The file systems below (validation of a
 * node, reading a link, memory left) are an arbitrary function of the name space.
 */
module PathWalk {
  import opened Prelude
  import opened NameSpace
  import opened NameWf

  const ENOENT := 2
  const ENOMEM := 12
  const EFAULT := 14
  const EBUSY := 16
  const ENOTDIR := 20
  const EINVAL := 22
  const ERANGE := 34
  const ELOOP := 40

  const MAX_SYMLINK: nat := 250
  const PATH_SEPARATOR := '/'

  type Errno = e: int | e != 0 witness 1

  /** What a driver's lookup answers: the node's inode, or an error and what became of the inode. */
  datatype Check = Valid(kind: Kind) | Invalid(err: Errno, ino: Option<Kind>)

  datatype Link = Target(text: string) | Unreadable(err: Errno)

  datatype World = World(check: (Ns, nat) -> Check, readlink: (Ns, nat) -> Link, room: Ns -> bool)

  datatype Flags = Flags(nofollow: bool, negok: bool)

  /** `deep` is the deepest symbolic link count the walk reached. */
  datatype Walked = Walked(ns: Ns, err: int, pno: Option<nat>, deep: nat)

  datatype Looked = Looked(ns: Ns, err: int, pno: Option<nat>)

  // ---------------------------------------------------------------- components

  function SkipSlashes(t: string): (r: string)
    ensures |r| <= |t|
  {
    if t != "" && t[0] == PATH_SEPARATOR then SkipSlashes(t[1..]) else t
  }

  function LeadingName(t: string): (r: string)
    ensures |r| <= |t| && r <= t && PATH_SEPARATOR !in r
    ensures |r| < |t| ==> t[|r|] == PATH_SEPARATOR
  {
    if t == "" || t[0] == PATH_SEPARATOR then "" else [t[0]] + LeadingName(t[1..])
  }

  /** The next component of a path, and the text after it. */
  function Component(t: string): (r: (string, string))
    ensures r.0 != "" ==> |r.1| < |t|
    ensures PATH_SEPARATOR !in r.0 && (r.1 == "" || r.1[0] == PATH_SEPARATOR)
  {
    var u := SkipSlashes(t);
    var n := LeadingName(u);
    (n, u[|n|..])
  }

  // ---------------------------------------------------------------- one component

  function KindOf(s: Ns, p: nat): Option<Kind>
    requires p in s.pnodes && s.pnodes[p].base in s.bases
  {
    s.bases[s.pnodes[p].base].ino
  }

  predicate Known(s: Ns, p: nat) {
    p in s.pnodes && s.pnodes[p].base in s.bases && s.bases[s.pnodes[p].base].ino.Some?
  }

  /** _sysio_p_validate: the driver's answer replaces the inode. */
  function Validate(w: World, s: Ns, p: nat): (r: (Ns, int))
    requires Wf(s) && p in s.pnodes
    ensures Wf(r.0) && Grows(s, r.0) && r.0.pnodes == s.pnodes && s.pnodes[p].base in r.0.bases
    ensures r.1 == 0 ==> Known(r.0, p)
  {
    hide Wf, Grows;
    HasBase(s, p);
    match w.check(s, p)
    case Valid(k) =>
      SetInoOk(s, s.pnodes[p].base, Some(k)); var ok: int := 0; (SetIno(s, s.pnodes[p].base, Some(k)), ok)
    case Invalid(err, ino) => SetInoOk(s, s.pnodes[p].base, ino); (SetIno(s, s.pnodes[p].base, ino), err as int)
  }

  /** The first child of that name. */
  function FindChild(s: Ns, list: seq<nat>, name: string): (r: Option<nat>)
    ensures r.Some? ==> r.value in list && r.value in s.bases && s.bases[r.value].name == name
    ensures r.None? ==> forall c :: c in list && c in s.bases ==> s.bases[c].name != name
  {
    if list == [] then None
    else if list[0] in s.bases && s.bases[list[0]].name == name then Some(list[0])
    else FindChild(s, list[1..], name)
  }

  /** The first alias with that parent. */
  function FindWithParent(s: Ns, list: seq<nat>, parent: nat): (r: Option<nat>)
    ensures r.Some? ==> r.value in list && r.value in s.pnodes && s.pnodes[r.value].parent == parent
    ensures r.None? ==> forall p :: p in list && p in s.pnodes ==> s.pnodes[p].parent != parent
  {
    if list == [] then None
    else if list[0] in s.pnodes && s.pnodes[list[0]].parent == parent then Some(list[0])
    else FindWithParent(s, list[1..], parent)
  }

  lemma KnownChild(s: Ns, parent: nat, name: string)
    requires Wf(s) && parent in s.pnodes
    ensures s.pnodes[parent].base in s.bases
    ensures var r := FindChild(s, s.bases[s.pnodes[parent].base].children, name);
      && (r.Some? ==> s.bases[r.value].parent == Some(s.pnodes[parent].base))
      && (r.None? ==> forall c :: c in s.bases && s.bases[c].parent == Some(s.pnodes[parent].base) ==>
         s.bases[c].name != name)
  {
    WfNode(s, parent);
    WfParts(s);
    hide Wf, CoversOk, NamesOk;
    var b := s.pnodes[parent].base;
    forall c | c in s.bases && s.bases[c].parent == Some(b) ensures c in s.bases[b].children { BaseFacts(s, c); }
  }

  /** An alias for the named child, on the base that was found or created. */
  function GetAlias(w: World, s: Ns, parent: nat, b: nat): (r: Looked)
    requires Wf(s) && parent in s.pnodes && b in s.bases && s.bases[b].parent == Some(s.pnodes[parent].base)
    ensures Wf(r.ns) && Grows(s, r.ns) && Gains(s, r.ns, r.pno, None)
    ensures r.err != 0 <==> r.pno.None?
    ensures r.pno.Some? ==> Holding(r.ns, r.pno.value)
    ensures r.pno.Some? ==> r.ns.pnodes[r.pno.value].base == b && r.ns.pnodes[r.pno.value].parent == parent
    ensures r.err != 0 ==> r.err == -ENOMEM
  {
    hide Wf, Grows, Gains, NamesOk, CoversOk, TreeOk;
    match FindWithParent(s, s.bases[b].aliases, parent)
    case Some(p) => PRefOk(s, p); WfParts(s); BaseFacts(s, b); Looked(PRef(s, p), 0, Some(p))
    case None =>
      if !w.room(s) then GrowsSelf(s); Looked(s, -ENOMEM, None)
      else NewAliasOk(s, parent, b); Looked(PNewAlias(s, parent, b, s.pnodes[parent].mount), 0, Some(s.nextPnode))
  }

  lemma GrowsSelf(s: Ns)
    ensures Grows(s, s) && Gains(s, s, None, None)
  {
  }

  /** _sysio_p_find_alias: finds or creates the alias, and takes a reference to it. */
  function FindAlias(w: World, s: Ns, parent: nat, name: string): (r: Looked)
    requires Wf(s) && parent in s.pnodes && NameOk(name)
    ensures Wf(r.ns) && Grows(s, r.ns) && Gains(s, r.ns, r.pno, None)
    ensures r.err != 0 <==> r.pno.None?
    ensures r.pno.Some? ==> Holding(r.ns, r.pno.value) && r.ns.pnodes[r.pno.value].parent == parent
    ensures r.err != 0 ==> r.err == -ENOMEM
  {
    hide Wf, Grows, Gains;
    KnownChild(s, parent, name);
    var b := s.pnodes[parent].base;
    match FindChild(s, s.bases[b].children, name)
    case Some(c) => GetAlias(w, s, parent, c)
    case None =>
      if !w.room(s) then GrowsSelf(s); Looked(s, -ENOMEM, None)
      else
        PbNewOk(s, name, b);
        var t := PbNew(s, name, b);
        var r := GetAlias(w, t, parent, s.nextBase);
        GrowsTrans(s, t, r.ns);
        GainsSame(s, t, r.ns, r.pno, None);
        r
  }

  lemma GainsSame(s: Ns, t: Ns, u: Ns, plus: Option<nat>, minus: Option<nat>)
    requires t.pnodes == s.pnodes && Gains(t, u, plus, minus)
    ensures Gains(s, u, plus, minus)
  {
    assert forall x :: RefOf(t, x) == RefOf(s, x);
  }

  lemma GrowsKeeps(s: Ns, t: Ns, p: nat)
    requires Grows(s, t) && p in s.pnodes
    ensures p in t.pnodes && t.pnodes[p] == s.pnodes[p].(ref := t.pnodes[p].ref)
  {
  }

  /** From a referenced node to the uncovered node on top of it; the reference moves along. */
  function Hop(s: Ns, p: nat): (r: (Ns, nat))
    requires Wf(s) && Holding(s, p)
    ensures Wf(r.0) && Grows(s, r.0) && Gains(s, r.0, Some(r.1), Some(p)) && Holding(r.0, r.1)
    ensures r.0.pnodes[r.1].cover == None || r.0.pnodes[r.1].cover == Some(r.1)
    decreases s.nextPnode - p
  {
    hide Wf, Grows, Gains;
    match s.pnodes[p].cover
    case None => HopStay(s, p); (s, p)
    case Some(c) =>
      if c == p then HopStay(s, p); (s, p)
      else
        CoverYounger(s, p);
        HopOnce(s, p, c);
        var t := PRele(PRef(s, c), p);
        var r := Hop(t, c);
        GainsTwice(s, t, r.0, p, c, Some(r.1));
        r
  }

  lemma CoverYounger(s: Ns, p: nat)
    requires Wf(s) && p in s.pnodes && s.pnodes[p].cover.Some?
    ensures var c := s.pnodes[p].cover.value; p <= c < s.nextPnode && c in s.pnodes
  {
    WfNode(s, p);
    WfNode(s, s.pnodes[p].cover.value);
  }

  lemma HopStay(s: Ns, p: nat)
    ensures Grows(s, s) && Gains(s, s, Some(p), Some(p))
  {
  }

  lemma HopOnce(s: Ns, p: nat, c: nat)
    requires Wf(s) && Holding(s, p) && c in s.pnodes && c != p
    ensures Holding(PRef(s, c), p)
    ensures var t := PRele(PRef(s, c), p);
      Wf(t) && Grows(s, t) && Gains(s, t, Some(c), Some(p)) && Holding(t, c) && t.nextPnode == s.nextPnode
  {
    hide Wf, Grows;
    PRefOk(s, c);
    var u := PRef(s, c);
    PReleOk(u, p);
    var t := PRele(u, p);
    GrowsTrans(s, u, t);
    forall x ensures RefOf(t, x) + One(Some(p), x) == RefOf(s, x) + One(Some(c), x) {
      assert RefOf(u, x) == RefOf(s, x) + One(Some(c), x);
      assert RefOf(t, x) + One(Some(p), x) == RefOf(u, x);
    }
  }

  /** The node a component names before any cover is followed. */
  function Entry(w: World, s: Ns, parent: nat, name: string): (r: Looked)
    requires Wf(s) && parent in s.pnodes && name != "" && PATH_SEPARATOR !in name
    ensures Wf(r.ns) && Grows(s, r.ns) && Gains(s, r.ns, r.pno, None)
    ensures r.err != 0 <==> r.pno.None?
    ensures r.pno.Some? ==> Holding(r.ns, r.pno.value)
    ensures r.err != 0 ==> r.err == -ENOMEM
  {
    hide Wf, Grows, Gains, NodeOk, CoverOk, BaseOk;
    WfNode(s, parent);
    if name == "." then PRefOk(s, parent); Looked(PRef(s, parent), 0, Some(parent))
    else if name == ".." then PRefOk(s, s.pnodes[parent].parent);
      Looked(PRef(s, s.pnodes[parent].parent), 0, Some(s.pnodes[parent].parent))
    else FindAlias(w, s, parent, name)
  }

  lemma HasBase(s: Ns, p: nat)
    requires Wf(s) && p in s.pnodes
    ensures s.pnodes[p].base in s.bases && s.pnodes[p].parent in s.pnodes
  {
    WfNode(s, p);
  }

  /** What looking a component up promises: any node returned carries a new reference. */
  ghost predicate LookOk(s: Ns, r: Looked) {
    && Wf(r.ns) && Grows(s, r.ns) && Gains(s, r.ns, r.pno, None)
    && (r.pno.Some? ==> Holding(r.ns, r.pno.value))
    && (r.pno.None? ==> r.err == -ENOMEM || r.err == -ENOTDIR)
    && (r.err == 0 ==> r.pno.Some? && Known(r.ns, r.pno.value))
  }

  /** On a validation error the node found is still returned, with its reference. */
  function Lookup(w: World, s: Ns, parent: nat, name: string): (r: Looked)
    requires Wf(s) && parent in s.pnodes && name != "" && PATH_SEPARATOR !in name
    ensures LookOk(s, r)
  {
    hide Wf, Grows, Gains, Hop, Entry, Validate, LookOk;
    HasBase(s, parent);
    if KindOf(s, parent).None? then NoLook(s); Looked(s, -ENOTDIR, None)
    else
      var e := Entry(w, s, parent, name);
      if e.err != 0 then NoEntry(s, e); e
      else
        var h := Hop(e.ns, e.pno.value);
        var v := Validate(w, h.0, h.1);
        LookEnds(s, e.ns, h.0, v.0, e.pno.value, h.1, v.1);
        Looked(v.0, v.1, Some(h.1))
  }

  lemma LookParts(s: Ns, r: Looked)
    requires LookOk(s, r)
    ensures Wf(r.ns) && Grows(s, r.ns) && Gains(s, r.ns, r.pno, None)
    ensures r.pno.Some? ==> Holding(r.ns, r.pno.value)
    ensures r.pno.None? ==> r.err == -ENOMEM || r.err == -ENOTDIR
    ensures r.err == 0 ==> r.pno.Some? && Known(r.ns, r.pno.value)
  {
  }

  lemma NoLook(s: Ns)
    requires Wf(s)
    ensures LookOk(s, Looked(s, -ENOTDIR, None))
  {
    GrowsSelf(s);
    hide Wf, Grows, Gains;
  }

  lemma NoEntry(s: Ns, e: Looked)
    requires Wf(e.ns) && Grows(s, e.ns) && Gains(s, e.ns, e.pno, None) && e.pno.None? && e.err == -ENOMEM
    ensures LookOk(s, e)
  {
    hide Wf, Grows, Gains;
  }

  lemma LookEnds(s: Ns, t: Ns, u: Ns, v: Ns, p: nat, q: nat, err: int)
    requires Wf(v) && Grows(s, t) && Grows(t, u) && Grows(u, v) && v.pnodes == u.pnodes
    requires Gains(s, t, Some(p), None) && Gains(t, u, Some(q), Some(p)) && Holding(u, q) && (err == 0 ==> Known(v, q))
    ensures LookOk(s, Looked(v, err, Some(q)))
  {
    hide Wf, Grows;
    GrowsTrans(s, t, u);
    GrowsTrans(s, u, v);
    forall x ensures RefOf(v, x) == RefOf(s, x) + One(Some(q), x) {
      assert RefOf(v, x) == RefOf(u, x);
      assert RefOf(t, x) == RefOf(s, x) + One(Some(p), x);
    }
  }

  // ---------------------------------------------------------------- the walk

  function Max(a: nat, b: nat): nat { if a < b then b else a }

  /** The walk gives up: the reference to the current node goes. */
  function Fail(s: Ns, pno: nat, err: Errno, deep: nat): Walked
    requires Holding(s, pno)
  {
    Walked(PRele(s, pno), err, None, deep)
  }

  /** What a walk that held `held` at the start and `deep` links down promises. */
  ghost predicate WalkOk(s: Ns, held: Option<nat>, slicnt: nat, r: Walked) {
    && Wf(r.ns) && Grows(s, r.ns) && Gains(s, r.ns, r.pno, held)
    && (r.err != 0 <==> r.pno.None?) && (r.pno.Some? ==> Holding(r.ns, r.pno.value))
    && slicnt <= r.deep <= MAX_SYMLINK
  }

  function Walk(w: World, s: Ns, parent: nat, path: Option<string>, root: nat, fl: Flags, slicnt: nat): (r: Walked)
    requires Wf(s) && parent in s.pnodes && root in s.pnodes && slicnt <= MAX_SYMLINK
    ensures WalkOk(s, None, slicnt, r)
    decreases MAX_SYMLINK - slicnt, if path.Some? then |path.value| else 0, 2
  {
    hide Wf, Grows, Gains, Steps, Component, Validate, WalkOk;
    if path.None? then StartFails(s, s, slicnt); Walked(s, -EFAULT, None, slicnt)
    else if path.value == "" then StartFails(s, s, slicnt); Walked(s, -ENOENT, None, slicnt)
    else
      var start := if path.value[0] == PATH_SEPARATOR then root else parent;
      var v := Validate(w, s, start);
      if v.1 != 0 then StartFails(s, v.0, slicnt); Walked(v.0, v.1, None, slicnt)
      else
        PRefOk(v.0, start);
        GrowsKeeps(s, v.0, root);
        var r := Steps(w, PRef(v.0, start), start, path.value, root, fl, slicnt);
        StartOk(s, v.0, start, slicnt, r);
        r
  }

  /** The loop, at node `pno` with `text` still to go. */
  function Steps(w: World, s: Ns, pno: nat, text: string, root: nat, fl: Flags, slicnt: nat): (r: Walked)
    requires Wf(s) && Holding(s, pno) && root in s.pnodes && slicnt <= MAX_SYMLINK
    ensures WalkOk(s, Some(pno), slicnt, r)
    decreases MAX_SYMLINK - slicnt, |text|, 1
  {
    hide Wf, Grows, Gains, WalkOk, Walk, Advance, Component;
    HasBase(s, pno);
    var next := Component(text).0;
    if KindOf(s, pno) == Some(Symlink) && (next != "" || !fl.nofollow) then
      if slicnt >= MAX_SYMLINK then GivesUp(s, pno, slicnt); Fail(s, pno, -ELOOP, slicnt)
      else
        match w.readlink(s, pno)
        case Unreadable(e) => GivesUp(s, pno, slicnt); Fail(s, pno, e, slicnt)
        case Target(lpath) =>
          var r := Walk(w, s, s.pnodes[pno].parent, Some(lpath), root, fl, slicnt + 1);
          WalkEnds(s, None, slicnt + 1, r);
          if r.err != 0 then LinkFails(s, pno, slicnt, r); Fail(r.ns, pno, r.err, r.deep)
          else
            LinkOk(s, pno, slicnt, r);
            GrowsKeeps(s, PRele(r.ns, pno), root);
            var a := Advance(w, PRele(r.ns, pno), r.pno.value, text, root, fl, slicnt);
            LinkEnds(s, pno, slicnt, r, a);
            a.(deep := Max(r.deep, a.deep))
    else Advance(w, s, pno, text, root, fl, slicnt)
  }

  /** The rest of one turn: stop at the end of the path, or look the next component up. */
  function Advance(w: World, s: Ns, pno: nat, text: string, root: nat, fl: Flags, slicnt: nat): (r: Walked)
    requires Wf(s) && Holding(s, pno) && root in s.pnodes && slicnt <= MAX_SYMLINK
    ensures WalkOk(s, Some(pno), slicnt, r)
    decreases MAX_SYMLINK - slicnt, |text|, 0
  {
    hide Wf, Grows, Gains, WalkOk, LookOk, Lookup, Steps, Component;
    HasBase(s, pno);
    var (this_, after) := Component(text);
    if this_ == "" then Arrived(s, pno, slicnt); Walked(s, 0, Some(pno), slicnt)
    else if KindOf(s, pno).None? then GivesUp(s, pno, slicnt); Fail(s, pno, -ENOENT, slicnt)
    else if KindOf(s, pno) != Some(Directory) then GivesUp(s, pno, slicnt); Fail(s, pno, -ENOTDIR, slicnt)
    else
      var l := Lookup(w, s, pno, this_);
      LookParts(s, l);
      if l.pno.None? then NothingFound(s, l.ns, pno, slicnt); Fail(l.ns, pno, l.err, slicnt)
      else
        LookedOk(s, l.ns, pno, l.pno.value);
        GrowsKeeps(s, PRele(l.ns, pno), root);
        if l.err == 0 then
          var r := Steps(w, PRele(l.ns, pno), l.pno.value, after, root, fl, slicnt);
          TurnEnds(s, l.ns, pno, l.pno.value, slicnt, r);
          r
        else if l.err == -ENOENT && Component(after).0 == "" && fl.negok then
          Negative(s, l.ns, pno, l.pno.value, slicnt);
          Walked(PRele(l.ns, pno), 0, l.pno, slicnt)
        else
          FoundFails(s, l.ns, pno, l.pno.value, slicnt);
          Fail(PRele(l.ns, pno), l.pno.value, l.err, slicnt)
  }

  /** A node that is no link to be followed. */
  lemma PlainStep(w: World, s: Ns, pno: nat, text: string, root: nat, fl: Flags, slicnt: nat)
    requires Wf(s) && Holding(s, pno) && root in s.pnodes && slicnt <= MAX_SYMLINK && s.pnodes[pno].base in s.bases
    requires KindOf(s, pno) != Some(Symlink) || (Component(text).0 == "" && fl.nofollow)
    ensures Steps(w, s, pno, text, root, fl, slicnt) == Advance(w, s, pno, text, root, fl, slicnt)
  {
    hide Wf, Grows, Gains, WalkOk, Advance, Walk, Component;
    HasBase(s, pno);
  }

  // ---------------------------------------------------------------- bookkeeping of the references

  lemma StartFails(s: Ns, v: Ns, slicnt: nat)
    requires Wf(v) && (v == s || Grows(s, v)) && v.pnodes == s.pnodes && slicnt <= MAX_SYMLINK
    ensures forall err: Errno :: WalkOk(s, None, slicnt, Walked(v, err, None, slicnt))
  {
    hide Wf;
    assert forall x :: RefOf(v, x) == RefOf(s, x);
    GrowsSelf(s);
  }

  lemma StartOk(s: Ns, v: Ns, start: nat, slicnt: nat, r: Walked)
    requires Grows(s, v) && v.pnodes == s.pnodes && Wf(v) && start in v.pnodes
    requires WalkOk(PRef(v, start), Some(start), slicnt, r)
    ensures WalkOk(s, None, slicnt, r)
  {
    hide Wf, Grows;
    PRefOk(v, start);
    var t := PRef(v, start);
    GrowsTrans(s, v, t);
    GrowsTrans(s, t, r.ns);
    forall x ensures RefOf(r.ns, x) == RefOf(s, x) + One(r.pno, x) {
      assert RefOf(v, x) == RefOf(s, x);
      assert RefOf(t, x) == RefOf(v, x) + One(Some(start), x);
    }
  }

  lemma WalkEnds(s: Ns, held: Option<nat>, slicnt: nat, r: Walked)
    requires WalkOk(s, held, slicnt, r)
    ensures r.err != 0 <==> r.pno.None?
    ensures slicnt <= r.deep <= MAX_SYMLINK
  {
  }

  lemma Arrived(s: Ns, pno: nat, slicnt: nat)
    requires Wf(s) && Holding(s, pno) && slicnt <= MAX_SYMLINK
    ensures WalkOk(s, Some(pno), slicnt, Walked(s, 0, Some(pno), slicnt))
  {
    HopStay(s, pno);
    hide Wf, Grows, Gains;
  }

  lemma GivesUp(s: Ns, pno: nat, slicnt: nat)
    requires Wf(s) && Holding(s, pno) && slicnt <= MAX_SYMLINK
    ensures forall err: Errno :: WalkOk(s, Some(pno), slicnt, Fail(s, pno, err, slicnt))
  {
    GrowsSelf(s);
    FailOk(s, s, pno, slicnt, slicnt);
  }

  lemma NothingFound(s: Ns, t: Ns, pno: nat, slicnt: nat)
    requires Wf(t) && Grows(s, t) && Gains(s, t, None, None) && Holding(s, pno) && slicnt <= MAX_SYMLINK
    ensures Holding(t, pno)
    ensures forall err: Errno :: WalkOk(s, Some(pno), slicnt, Fail(t, pno, err, slicnt))
  {
    StillHolding(s, t, None, pno);
    FailOk(s, t, pno, slicnt, slicnt);
  }

  lemma Negative(s: Ns, t: Ns, pno: nat, got: nat, slicnt: nat)
    requires Holding(s, pno) && Wf(t) && Grows(s, t) && Gains(s, t, Some(got), None) && Holding(t, got) &&
      Holding(t, pno)
    requires slicnt <= MAX_SYMLINK
    ensures WalkOk(s, Some(pno), slicnt, Walked(PRele(t, pno), 0, Some(got), slicnt))
  {
    LookedOk(s, t, pno, got);
    hide Wf, Grows, Gains;
  }

  lemma StillHolding(s: Ns, t: Ns, plus: Option<nat>, p: nat)
    requires Holding(s, p) && Grows(s, t) && Gains(s, t, plus, None)
    ensures Holding(t, p)
  {
    assert RefOf(t, p) >= RefOf(s, p);
  }

  lemma FailOk(s: Ns, t: Ns, pno: nat, slicnt: nat, deep: nat)
    requires Wf(t) && Grows(s, t) && Gains(s, t, None, None) && Holding(t, pno)
    requires slicnt <= deep <= MAX_SYMLINK
    ensures forall err: Errno :: WalkOk(s, Some(pno), slicnt, Fail(t, pno, err, deep))
  {
    hide Wf, Grows;
    PReleOk(t, pno);
    var u := PRele(t, pno);
    GrowsTrans(s, t, u);
    forall x ensures RefOf(u, x) + One(Some(pno), x) == RefOf(s, x) { assert RefOf(t, x) == RefOf(s, x); }
  }

  lemma LinkFails(s: Ns, pno: nat, slicnt: nat, r: Walked)
    requires Holding(s, pno) && WalkOk(s, None, slicnt + 1, r) && r.err != 0
    ensures Holding(r.ns, pno) && WalkOk(s, Some(pno), slicnt, Fail(r.ns, pno, r.err, r.deep))
  {
    StillHolding(s, r.ns, None, pno);
    FailOk(s, r.ns, pno, slicnt, r.deep);
  }

  lemma LinkOk(s: Ns, pno: nat, slicnt: nat, r: Walked)
    requires Holding(s, pno) && WalkOk(s, None, slicnt + 1, r) && r.err == 0
    ensures Holding(r.ns, pno)
    ensures var t := PRele(r.ns, pno); Wf(t) && Grows(s, t) && Gains(s, t, r.pno, Some(pno)) && Holding(t, r.pno.value)
  {
    LookedOk(s, r.ns, pno, r.pno.value);
  }

  lemma LookedOk(s: Ns, t: Ns, pno: nat, got: nat)
    requires Holding(s, pno) && Wf(t) && Grows(s, t) && Gains(s, t, Some(got), None) && Holding(t, got)
    ensures Holding(t, pno)
    ensures var u := PRele(t, pno); Wf(u) && Grows(s, u) && Gains(s, u, Some(got), Some(pno)) && Holding(u, got)
  {
    hide Wf, Grows;
    StillHolding(s, t, Some(got), pno);
    PReleOk(t, pno);
    var u := PRele(t, pno);
    GrowsTrans(s, t, u);
    GrowsKeeps(s, t, pno);
    assert RefOf(t, pno) == RefOf(s, pno) + One(Some(got), pno);
    forall x ensures RefOf(u, x) + One(Some(pno), x) == RefOf(s, x) + One(Some(got), x) {
      assert RefOf(t, x) == RefOf(s, x) + One(Some(got), x);
    }
  }

  lemma LinkEnds(s: Ns, pno: nat, slicnt: nat, r: Walked, a: Walked)
    requires Holding(s, pno) && WalkOk(s, None, slicnt + 1, r) && r.err == 0 && Holding(r.ns, pno)
    requires WalkOk(PRele(r.ns, pno), r.pno, slicnt, a)
    ensures WalkOk(s, Some(pno), slicnt, a.(deep := Max(r.deep, a.deep)))
  {
    hide Wf, Grows, Gains;
    LinkOk(s, pno, slicnt, r);
    GainsTwice(s, PRele(r.ns, pno), a.ns, pno, r.pno.value, a.pno);
  }

  lemma GainsTwice(s: Ns, t: Ns, u: Ns, p: nat, q: nat, plus: Option<nat>)
    requires Grows(s, t) && Grows(t, u) && Gains(s, t, Some(q), Some(p)) && Gains(t, u, plus, Some(q))
    ensures Grows(s, u) && Gains(s, u, plus, Some(p))
  {
    GrowsTrans(s, t, u);
    hide Grows;
    forall x ensures RefOf(u, x) + One(Some(p), x) == RefOf(s, x) + One(plus, x) {
      assert RefOf(t, x) + One(Some(p), x) == RefOf(s, x) + One(Some(q), x);
    }
  }

  lemma TurnEnds(s: Ns, t: Ns, pno: nat, got: nat, slicnt: nat, r: Walked)
    requires Holding(s, pno) && Wf(t) && Grows(s, t) && Gains(s, t, Some(got), None) && Holding(t, got) &&
      Holding(t, pno)
    requires WalkOk(PRele(t, pno), Some(got), slicnt, r)
    ensures WalkOk(s, Some(pno), slicnt, r)
  {
    hide Wf, Grows, Gains;
    LookedOk(s, t, pno, got);
    GainsTwice(s, PRele(t, pno), r.ns, pno, got, r.pno);
  }

  lemma FoundFails(s: Ns, t: Ns, pno: nat, got: nat, slicnt: nat)
    requires Holding(s, pno) && Wf(t) && Grows(s, t) && Gains(s, t, Some(got), None) && Holding(t, got) &&
      Holding(t, pno)
    requires slicnt <= MAX_SYMLINK
    ensures Holding(PRele(t, pno), got)
    ensures forall err: Errno :: WalkOk(s, Some(pno), slicnt, Fail(PRele(t, pno), got, err, slicnt))
  {
    hide Wf, Grows, Gains;
    LookedOk(s, t, pno, got);
    var u := PRele(t, pno);
    PReleOk(u, got);
    var v := PRele(u, got);
    GainsTwice(s, u, v, pno, got, None);
  }
}
