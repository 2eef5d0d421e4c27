/**
 * The mount that establishes the name space: there is no node to cover, and the new root
 * covers itself.
 */
module MountFirst {
  import opened Prelude
  import opened NameSpace
  import opened PruneSpec
  import opened NameWf
  import opened MountSpec
  import opened MountOutcome
  import opened PathWalk

  /** What the caller has in hand: the nameless base node of a file system's root. */
  ghost predicate FirstAsked(s: Ns, rootpb: nat) { Unrooted(s) && rootpb in s.bases && s.bases[rootpb].name == "" }

  /** A mount record and an alias that is its own parent. */
  function NewGraph(s: Ns, rootpb: nat): Ns
    requires rootpb in s.bases
  {
    PNewAlias(s, s.nextPnode, rootpb, s.nextMount)
      .(mounts := s.mounts[s.nextMount := Mount(s.nextPnode, s.nextPnode)], nextMount := s.nextMount + 1)
  }

  function Established(s: Ns, rootpb: nat): Ns
    requires rootpb in s.bases
  {
    SetCover(NewGraph(s, rootpb), s.nextPnode, s.nextPnode).(root := s.nextPnode)
  }

  ghost predicate FirstAbandoned(s: Ns, rootpb: nat, u: Ns)
    requires rootpb in s.bases
  {
    var r := s.nextPnode;
    var v := SetRef(NewGraph(s, rootpb), r, 0);
    exists t, count: nat :: Pruned(v, t, r, count) && u == t.(mounts := t.mounts - {s.nextMount})
  }

  function FirstCheck(w: World, s: Ns, rootpb: nat): Check
    requires rootpb in s.bases
  {
    w.check(NewGraph(s, rootpb), s.nextPnode)
  }

  /** The exits of _sysio_do_mount without a node to cover; the caller makes the new root the system's. */
  ghost predicate FirstLeaves(w: World, s: Ns, rootpb: nat, err: int, u: Ns)
    requires rootpb in s.bases
  {
    if !w.room(s) then err == -ENOMEM && u == s
    else
      match FirstCheck(w, s, rootpb)
      case Invalid(e, ino) => err == e as int && FirstAbandoned(SetIno(s, rootpb, ino), rootpb, u)
      case Valid(k) =>
        var s1 := SetIno(s, rootpb, Some(k));
        if k == Directory then err == 0 && u == Established(s1, rootpb)
        else err == -ENOTDIR && FirstAbandoned(s1, rootpb, u)
  }

  // ---------------------------------------------------------------- the new graph

  lemma UnrootedIno(s: Ns, b: nat, ino: Option<Kind>)
    requires Unrooted(s) && b in s.bases
    ensures var t := SetIno(s, b, ino);
      Unrooted(t) && t.pnodes == s.pnodes && t.mounts == s.mounts && t.bases.Keys == s.bases.Keys &&
      (forall c :: c in s.bases ==> t.bases[c].name == s.bases[c].name)
  {
    hide TreeOk;
    InoTree(s, b, ino);
    GraphNames(s, SetIno(s, b, ino));
  }

  lemma InoTree(s: Ns, b: nat, ino: Option<Kind>)
    requires TreeOk(s) && s.pnodes == map[] && s.mounts == map[] && b in s.bases
    ensures TreeOk(SetIno(s, b, ino))
  {
    hide TreeOk, BaseOk;
    var t := SetIno(s, b, ino);
    assert Recounted(s, t);
    forall c | c in t.bases ensures BaseOk(t, c) { RecountedBase(s, t, c); }
    TreeFrom(t);
  }

  lemma GraphBase(s: Ns, rootpb: nat, b: nat)
    requires Unrooted(s) && rootpb in s.bases && b in s.bases
    ensures BaseOk(NewGraph(s, rootpb), b)
  {
    BaseFacts(s, b);
    hide TreeOk, NamesOk;
    var t := NewGraph(s, rootpb);
    SomeMember(s.bases[b].aliases);
    assert t.bases[b] == s.bases[b].(aliases := t.bases[b].aliases);
    assert forall c :: c in s.bases ==>
      t.bases[c].parent == s.bases[c].parent && t.bases[c].children == s.bases[c].children;
  }

  lemma SomeMember(q: seq<nat>)
    ensures q == [] || exists p :: p in q
  {
    if q != [] { assert q[0] in q; }
  }

  lemma GraphTree(s: Ns, rootpb: nat)
    requires Unrooted(s) && rootpb in s.bases
    ensures TreeOk(NewGraph(s, rootpb))
  {
    var t := NewGraph(s, rootpb);
    hide BaseOk, TreeOk;
    forall b | b in t.bases ensures BaseOk(t, b) { GraphBase(s, rootpb, b); }
    assert NodeOk(t, s.nextPnode) by { assert t.bases[rootpb].aliases[0] == s.nextPnode; }
    TreeFrom(t);
  }

  lemma GraphNames(s: Ns, t: Ns)
    requires NamesOk(s) && t.bases.Keys <= s.bases.Keys
    requires forall b :: b in t.bases ==> t.bases[b].name == s.bases[b].name && t.bases[b].parent == s.bases[b].parent
    ensures NamesOk(t)
  {
    forall b, c | b in t.bases && c in t.bases && Namesakes(t.bases[b], t.bases[c]) ensures b == c {
      assert Namesakes(s.bases[b], s.bases[c]);
    }
  }

  /** The established name space is well formed: one path node, its own parent and cover, held by its mount. */
  lemma EstablishedWf(s: Ns, rootpb: nat)
    requires FirstAsked(s, rootpb)
    ensures var u := Established(s, rootpb); var r := s.nextPnode;
      && Wf(u) && u.root == r && u.pnodes == map[r := Pnode(1, r, rootpb, s.nextMount, Some(r))]
      && u.mounts == map[s.nextMount := Mount(r, r)]
  {
    hide TreeOk, NamesOk;
    GraphTree(s, rootpb);
    var t, u := NewGraph(s, rootpb), Established(s, rootpb);
    SetCoverTree(t, s.nextPnode, s.nextPnode);
    SameTree(SetCover(t, s.nextPnode, s.nextPnode), u);
    CoversFrom(u);
    GraphNames(s, u);
    hide CoversOk;
    WfFrom(u);
  }

  lemma SameTree(s: Ns, t: Ns)
    requires TreeOk(s) && t == s.(root := t.root)
    ensures TreeOk(t)
  {
    forall b | b in t.bases ensures BaseOk(t, b) { BaseFacts(s, b); }
    forall p | p in t.pnodes ensures NodeOk(t, p) { NodeFacts(s, p); }
  }

  /** The clean-up leaves the new root's alias, unreferenced, and no mount record for it. */
  lemma FirstAbandonedIs(s: Ns, rootpb: nat, u: Ns)
    requires Unrooted(s) && rootpb in s.bases && FirstAbandoned(s, rootpb, u)
    ensures u.pnodes == map[s.nextPnode := Pnode(0, s.nextPnode, rootpb, s.nextMount, None)] && u.mounts == map[]
  {
    var r := s.nextPnode;
    var v := SetRef(NewGraph(s, rootpb), r, 0);
    var t, count: nat :| Pruned(v, t, r, count) && u == t.(mounts := t.mounts - {s.nextMount});
    hide TreeOk, Pruned, FirstAbandoned;
    FirstAbandonedTree(s, rootpb);
    FailedMount(v, t, r, count);
    PrunedFacts(v, t, r, count);
  }

  lemma FirstAbandonedTree(s: Ns, rootpb: nat)
    requires Unrooted(s) && rootpb in s.bases
    ensures var r := s.nextPnode; var v := SetRef(NewGraph(s, rootpb), r, 0);
      && TreeOk(v) && r in v.pnodes && IsRoot(v, r) && Kids(v, r) == {}
      && v.pnodes == map[r := Pnode(0, r, rootpb, s.nextMount, None)] && v.mounts == map[s.nextMount := Mount(r, r)]
  {
    hide TreeOk;
    GraphTree(s, rootpb);
    var t := NewGraph(s, rootpb);
    RelinkedTree(t, SetRef(t, s.nextPnode, 0));
  }

  /**
   * The name space is established exactly when there is memory and the driver finds the new
   * root to be a directory.  A failure for another reason leaves the root's alias behind.
   */
  lemma FirstExact(w: World, s: Ns, rootpb: nat, err: int, u: Ns)
    requires FirstAsked(s, rootpb) && FirstLeaves(w, s, rootpb, err, u)
    ensures err == 0 <==> w.room(s) && FirstCheck(w, s, rootpb) == Valid(Directory)
    ensures Wf(u) <==> err == 0
    ensures Unrooted(u) <==> !w.room(s)
    ensures err == 0 ==> u.pnodes.Keys == {s.nextPnode} && u.root == s.nextPnode && u.pnodes[u.root].ref == 1
  {
    hide Wf, FirstAbandoned, TreeOk, NamesOk, Established, SetIno;
    if !w.room(s) {
      NoNodes(s);
    } else {
      var ino := match FirstCheck(w, s, rootpb) case Invalid(e, i) => i case Valid(k) => Some(k);
      UnrootedIno(s, rootpb, ino);
      var s1 := SetIno(s, rootpb, ino);
      assert s1.nextPnode == s.nextPnode by { InoNumbers(s, rootpb, ino); }
      if err == 0 {
        EstablishedWf(s1, rootpb);
        assert s.nextPnode in u.pnodes;
      } else {
        FirstAbandonedIs(s1, rootpb, u);
        assert s.nextPnode in u.pnodes;
        Dangling(u, s.nextPnode);
      }
    }
  }

  lemma NoNodes(s: Ns)
    requires s.pnodes == map[]
    ensures !Wf(s)
  {
  }

  lemma InoNumbers(s: Ns, b: nat, ino: Option<Kind>)
    requires b in s.bases
    ensures SetIno(s, b, ino).nextPnode == s.nextPnode
  {
  }

  lemma GraphSetIno(s: Ns, rootpb: nat, ino: Option<Kind>)
    requires rootpb in s.bases
    ensures SetIno(NewGraph(s, rootpb), rootpb, ino) == NewGraph(SetIno(s, rootpb, ino), rootpb)
  {
    assert SetIno(NewGraph(s, rootpb), rootpb, ino).bases == NewGraph(SetIno(s, rootpb, ino), rootpb).bases;
  }

  /** A name space just established unmounts cleanly, and what is left can be established again. */
  lemma EstablishedUnmounts(s: Ns, rootpb: nat, out: Outcome, u: Ns)
    requires FirstAsked(s, rootpb)
    ensures var e := Established(s, rootpb);
      && MountThereIs(e, s.nextMount) && UnmountsCleanly(e, s.nextMount)
      && (UnmountLeaves(e, s.nextMount, out, u) ==> out == Done && Unrooted(u))
  {
    hide Wf, Unrooted, Established, UnmountLeaves;
    EstablishedWf(s, rootpb);
    var e := Established(s, rootpb);
    var r := s.nextPnode;
    assert Refs(e, r) == {r} by { assert Under(e, r, r); }
    if UnmountLeaves(e, s.nextMount, out, u) { UnmountExact(e, s.nextMount, out, u); }
  }
}
