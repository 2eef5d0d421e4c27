/**
 * How a mount and an unmount end: which of the source's exits is taken, in terms of what a
 * caller can see beforehand, and what it leaves behind.
 */
module MountOutcome {
  import opened Prelude
  import opened NameSpace
  import opened PruneSpec
  import opened NameWf
  import opened MountSpec
  import opened PathWalk

  // ---------------------------------------------------------------- mounting

  /** What a caller of _sysio_do_mount has in hand: an uncovered node with a reference. */
  ghost predicate MountAsked(s: Ns, rootpb: nat, tocover: nat) {
    && Wf(s) && rootpb in s.bases && tocover in s.pnodes && tocover != s.root
    && s.pnodes[tocover].cover.None? && s.pnodes[tocover].ref > 0
  }

  /** The error exit: the reference to the new root is dropped, its sub-tree pruned, the mount record freed. */
  ghost predicate Abandoned(s: Ns, rootpb: nat, tocover: nat, u: Ns)
    requires rootpb in s.bases && tocover in s.pnodes
  {
    var r := s.nextPnode;
    var v := SetRef(NewMount(s, rootpb, tocover), r, 0);
    exists t, count: nat :: Pruned(v, t, r, count) && u == t.(mounts := t.mounts - {s.nextMount})
  }

  ghost predicate Inside(s: Ns, rootpb: nat, tocover: nat)
    requires tocover in s.pnodes
  {
    BaseUnder(s, rootpb, s.pnodes[tocover].base)
  }

  /** The driver's answer for the new root. */
  function RootCheck(w: World, s: Ns, rootpb: nat, tocover: nat): Check
    requires rootpb in s.bases && tocover in s.pnodes
  {
    w.check(NewMount(s, rootpb, tocover), s.nextPnode)
  }

  /** The exits of _sysio_do_mount. */
  ghost predicate MountLeaves(w: World, s: Ns, rootpb: nat, tocover: nat, err: int, u: Ns)
    requires rootpb in s.bases && tocover in s.pnodes
  {
    if Inside(s, rootpb, tocover) then err == -EBUSY && u == s
    else if !w.room(s) then err == -ENOMEM && u == s
    else
      match RootCheck(w, s, rootpb, tocover)
      case Invalid(e, ino) => err == e as int && Abandoned(SetIno(s, rootpb, ino), rootpb, tocover, u)
      case Valid(k) =>
        var s1 := SetIno(s, rootpb, Some(k));
        if k == Directory then err == 0 && u == SetCover(NewMount(s1, rootpb, tocover), tocover, s.nextPnode)
        else err == -ENOTDIR && Abandoned(s1, rootpb, tocover, u)
  }

  /**
   * A mount succeeds exactly when the new root is not under the node to be covered, there is
   * memory, and the driver finds the new root to be a directory.  It leaves the name space
   * ill formed exactly when it gets as far as the driver and the answer is another one.
   */
  lemma MountExact(w: World, s: Ns, rootpb: nat, tocover: nat, err: int, u: Ns)
    requires MountAsked(s, rootpb, tocover) && MountLeaves(w, s, rootpb, tocover, err, u)
    ensures err == 0 <==>
      !Inside(s, rootpb, tocover) && w.room(s) && RootCheck(w, s, rootpb, tocover) == Valid(Directory)
    ensures Wf(u) <==>
      Inside(s, rootpb, tocover) || !w.room(s) || RootCheck(w, s, rootpb, tocover) == Valid(Directory)
  {
    hide Wf, Abandoned, Inside, SetCover, NewMount;
    if !Inside(s, rootpb, tocover) && w.room(s) {
      match RootCheck(w, s, rootpb, tocover)
      case Invalid(e, ino) =>
        SetInoOk(s, rootpb, ino);
        AbandonedIll(SetIno(s, rootpb, ino), rootpb, tocover, u);
      case Valid(k) =>
        SetInoOk(s, rootpb, Some(k));
        var s1 := SetIno(s, rootpb, Some(k));
        if k == Directory { MountedWf(s1, rootpb, tocover); } else { AbandonedIll(s1, rootpb, tocover, u); }
    }
  }

  /** The clean-up leaves the new root's alias, unreferenced, and no mount record for it. */
  lemma AbandonedIll(s: Ns, rootpb: nat, tocover: nat, u: Ns)
    requires Wf(s) && rootpb in s.bases && tocover in s.pnodes && Abandoned(s, rootpb, tocover, u)
    ensures s.nextPnode in u.pnodes && u.pnodes[s.nextPnode].ref == 0 && u.pnodes[s.nextPnode].mount !in u.mounts
    ensures !Wf(u)
  {
    var r := s.nextPnode;
    var m := NewMount(s, rootpb, tocover);
    var v := SetRef(m, r, 0);
    var t, count: nat :| Pruned(v, t, r, count) && u == t.(mounts := t.mounts - {s.nextMount});
    hide Wf, TreeOk, Pruned, Abandoned;
    AbandonedTree(s, rootpb, tocover);
    FailedMount(v, t, r, count);
    Dangling(u, r);
  }

  lemma AbandonedTree(s: Ns, rootpb: nat, tocover: nat)
    requires Wf(s) && rootpb in s.bases && tocover in s.pnodes
    ensures var r := s.nextPnode; var v := SetRef(NewMount(s, rootpb, tocover), r, 0);
      TreeOk(v) && r in v.pnodes && IsRoot(v, r) && Kids(v, r) == {}
  {
    hide Wf, TreeOk;
    WfParts(s);
    NewMountTree(s, rootpb, tocover);
    NewMountAlone(s, rootpb, tocover);
    var r := s.nextPnode;
    var m := NewMount(s, rootpb, tocover);
    var v := SetRef(m, r, 0);
    assert Relinked(m, v);
    RelinkedTree(m, v);
    RelinkedKids(m, v, r);
  }

  lemma RelinkedKids(s: Ns, t: Ns, r: nat)
    requires Relinked(s, t) && Kids(s, r) == {}
    ensures Kids(t, r) == {}
  {
    forall q | q in t.pnodes && !IsRoot(t, q) ensures t.pnodes[q].parent != r {
      assert q !in Kids(s, r);
    }
  }

  // ---------------------------------------------------------------- unmounting

  /** There is no name space, only base nodes. */
  ghost predicate Unrooted(s: Ns) { TreeOk(s) && NamesOk(s) && s.pnodes == map[] && s.mounts == map[] }

  /** How an unmount ends; on `Aborts` one of the source's assertions fails. */
  datatype Outcome = Busy | Aborts | Done

  /** Only the name space's root covers itself. */
  predicate Exposed(s: Ns, r: nat)
    requires r in s.pnodes
  {
    s.pnodes[r].cover.None? || s.pnodes[r].cover == Some(r)
  }

  ghost predicate MountThereIs(s: Ns, m: nat) { Wf(s) && m in s.mounts && s.mounts[m].root in s.pnodes }

  /** The name space's root is the only path node left. */
  ghost predicate RootAlone(s: Ns, m: nat) {
    MountThereIs(s, m) && s.mounts[m].root == s.root && s.pnodes.Keys == {s.root}
  }

  /** The last step of unmounting the name space's root. */
  function RootUnmounted(s: Ns, m: nat): Ns
    requires RootAlone(s, m)
  {
    hide Wf;
    RootFacts(s);
    var u := s.(pnodes := s.pnodes[s.root := s.pnodes[s.root].(ref := 0, cover := None)]);
    PGone(u, s.root).(mounts := s.mounts - {m})
  }

  lemma RootFacts(s: Ns)
    requires Wf(s)
    ensures s.root in s.pnodes && s.pnodes[s.root].base in s.bases && IsRoot(s, s.root) &&
      s.pnodes[s.root].cover == Some(s.root)
    ensures var b := s.bases[s.pnodes[s.root].base]; b.parent.Some? ==> b.parent.value in s.bases
  {
    TopIsRoot(s);
    WfNode(s, s.root);
    RootIsCover(s, s.root);
  }

  /** The exits of _sysio_do_unmount. */
  ghost predicate UnmountLeaves(s: Ns, m: nat, out: Outcome, u: Ns)
    requires m in s.mounts && s.mounts[m].root in s.pnodes
  {
    var r := s.mounts[m].root;
    if !Exposed(s, r) then out == Busy && u == s
    else exists t, count: nat :: Pruned(s, t, r, count) && UnmountEnds(s, t, m, count, out, u)
  }

  /** What follows the prune. */
  ghost predicate UnmountEnds(s: Ns, t: Ns, m: nat, count: nat, out: Outcome, u: Ns)
    requires m in s.mounts && s.mounts[m].root in s.pnodes
  {
    var r := s.mounts[m].root;
    if count != 1 then out == Busy && u == t
    else if s.pnodes[r].ref != 1 then out == Aborts && u == t
    else if r == s.root then out == Done && RootAlone(t, m) && u == RootUnmounted(t, m)
    else out == Done && Detachable(t, m) && u == Unmounted(t, m)
  }

  /** The mount's own reference to its root is the only one in the mount, and nothing covers the root. */
  ghost predicate UnmountsCleanly(s: Ns, m: nat)
    requires m in s.mounts && s.mounts[m].root in s.pnodes
  {
    var r := s.mounts[m].root;
    Exposed(s, r) && s.pnodes[r].ref == 1 && Refs(s, r) == {r}
  }

  /** The prune counts one, although the root is not held exactly once. */
  ghost predicate UnmountAborts(s: Ns, m: nat)
    requires m in s.mounts && s.mounts[m].root in s.pnodes
  {
    var r := s.mounts[m].root;
    Exposed(s, r) && Stuck(s, r) == 1 && s.pnodes[r].ref != 1
  }

  /**
   * An unmount succeeds exactly when it can do so cleanly, and fails an assertion exactly when
   * the root is held other than once and the prune still counts one.  Otherwise it is busy.
   * Unmounting the name space's root leaves no path node and no mount, ready for another; in
   * every other case without a failed assertion the name space stays well formed.
   */
  lemma UnmountExact(s: Ns, m: nat, out: Outcome, u: Ns)
    requires MountThereIs(s, m) && UnmountLeaves(s, m, out, u)
    ensures out.Done? <==> UnmountsCleanly(s, m)
    ensures out.Aborts? <==> UnmountAborts(s, m)
    ensures !out.Aborts? && !(out.Done? && s.mounts[m].root == s.root) ==> Wf(u)
    ensures out.Done? && s.mounts[m].root == s.root ==> Unrooted(u)
  {
    var r := s.mounts[m].root;
    if Exposed(s, r) {
      var t, count: nat :| Pruned(s, t, r, count) && UnmountEnds(s, t, m, count, out, u);
      hide Wf, Pruned, UnmountEnds, UnmountsCleanly, UnmountAborts;
      UnmountExactAt(s, t, m, count, out, u);
    }
  }

  lemma UnmountExactAt(s: Ns, t: Ns, m: nat, count: nat, out: Outcome, u: Ns)
    requires MountThereIs(s, m) && Exposed(s, s.mounts[m].root)
    requires Pruned(s, t, s.mounts[m].root, count) && UnmountEnds(s, t, m, count, out, u)
    ensures out.Done? <==> UnmountsCleanly(s, m)
    ensures out.Aborts? <==> UnmountAborts(s, m)
    ensures !out.Aborts? && !(out.Done? && s.mounts[m].root == s.root) ==> Wf(u)
    ensures out.Done? && s.mounts[m].root == s.root ==> Unrooted(u)
  {
    hide Wf, Pruned, Refs, Unmounted, Detachable, RootAlone, RootUnmounted, Stuck;
    var r := s.mounts[m].root;
    PrunedStuck(s, t, r, count);
    PrunedWf(s, t, r, count);
    if s.pnodes[r].ref > 0 { OneStuck(s, r); }
    if out.Done? {
      if r == s.root { RootUnmountedEmpty(t, m); } else { UnmountedWf(t, m); }
    }
  }

  lemma PrunedStuck(s: Ns, t: Ns, r: nat, count: nat)
    requires r in s.pnodes && Pruned(s, t, r, count)
    ensures count == Stuck(s, r)
  {
  }

  lemma OneStuck(s: Ns, r: nat)
    requires r in s.pnodes && s.pnodes[r].ref > 0
    ensures Stuck(s, r) == 1 <==> Refs(s, r) == {r}
  {
    RootDead(s, r);
    hide Refs;
    var a := Refs(s, r);
    if |a| == 1 {
      assert |a - {r}| == 0;
      assert a == {r};
    }
  }

  /** When the root is all that is held in its mount, pruning leaves no other path node at all. */
  lemma {:induction false} OnlyRoot(s: Ns, t: Ns, p: nat)
    requires Wf(s) && s.root in s.pnodes && Pruned(s, t, s.root, 1) && Refs(s, s.root) == {s.root} && p in t.pnodes
    ensures p == s.root
    decreases p
  {
    hide Wf, TreeOk, Pruned, Refs;
    var r := s.root;
    PrunedFacts(s, t, r, 1);
    RootFacts(s);
    if p == r {
    } else {
      if IsRoot(s, p) {
        RootIsCover(s, p);
        var v := s.mounts[s.pnodes[p].mount].covers;
        PrunedKeepsJoints(s, t, r, 1, v);
        OnlyRoot(s, t, v);
      } else {
        NodeFacts(t, p);
        OnlyRoot(s, t, s.pnodes[p].parent);
        var q := HeldBelow(s, t, r, p);
      }
    }
  }

  /** A surviving node under the root has a referenced one at or under it. */
  lemma HeldBelow(s: Ns, t: Ns, r: nat, p: nat) returns (q: nat)
    requires r in s.pnodes && IsRoot(s, r) && Pruned(s, t, r, 1)
    requires p in t.pnodes && p in s.pnodes && !IsRoot(s, p) && s.pnodes[p].parent == r && r < p
    ensures q in Refs(s, r) && q != r
  {
    assert Under(s, r, r);
    assert Under(s, p, r);
    assert p !in Dead(s, r);
    hide TreeOk, Pruned, Dead;
    assert Refs(s, p) != {} by { NotDead(s, r, p); }
    q :| q in Refs(s, p);
    UnderTrans(s, q, p, r);
  }

  lemma NotDead(s: Ns, r: nat, p: nat)
    requires p in s.pnodes && Under(s, p, r) && p !in Dead(s, r)
    ensures Refs(s, p) != {}
  {
  }

  lemma RootLeftAlone(s: Ns, t: Ns, m: nat)
    requires MountThereIs(s, m) && s.mounts[m].root == s.root && Pruned(s, t, s.root, 1) && Refs(s, s.root) == {s.root}
    ensures RootAlone(t, m) && t.pnodes[t.root] == s.pnodes[s.root]
  {
    hide Wf, Pruned, Refs;
    RootFacts(s);
    PrunedWf(s, t, s.root, 1);
    PrunedFacts(s, t, s.root, 1);
    PrunedKeepsJoints(s, t, s.root, 1, s.root);
    forall p | p in t.pnodes ensures p == s.root { OnlyRoot(s, t, p); }
    assert t.pnodes.Keys == {s.root};
  }

  lemma RootUnmountedEmpty(s: Ns, m: nat)
    requires RootAlone(s, m)
    ensures Unrooted(RootUnmounted(s, m))
  {
    hide Wf, TreeOk, NamesOk;
    RootFacts(s);
    WfParts(s);
    MountRoot(s, m);
    forall k | k in s.mounts ensures k == m { MountRoot(s, k); assert s.mounts[k].root in s.pnodes.Keys; }
    assert s.mounts.Keys == {m};
    var f := RootUnmounted(s, m);
    assert f.pnodes == s.pnodes - {s.root} == map[] && f.mounts == map[];
    RootUnmountedTree(s, m);
    RootUnmountedNames(s, m);
  }

  lemma RootUnmountedTree(s: Ns, m: nat)
    requires RootAlone(s, m)
    ensures TreeOk(RootUnmounted(s, m))
  {
    hide TreeOk, Wf, BasesOk, NodesOk, RootsOk, BaseOk, NodeOk;
    RootFacts(s);
    WfParts(s);
    MountRoot(s, m);
    var r := s.root;
    var u := s.(pnodes := s.pnodes[r := s.pnodes[r].(ref := 0, cover := None)]);
    RelinkedTree(s, u);
    assert Childless(u, r);
    UnaliasOk(u, r);
    DropMount(u, r, m);
    var a := Unalias(u, r).(mounts := u.mounts - {m});
    var b := u.pnodes[r].base;
    hide Unalias;
    if a.bases[b].aliases == [] && a.bases[b].children == [] { PbGoneOk(a, b); }
  }

  lemma RootUnmountedNames(s: Ns, m: nat)
    requires RootAlone(s, m) && NamesOk(s)
    ensures NamesOk(RootUnmounted(s, m))
  {
    hide Wf;
    RootFacts(s);
    var f := RootUnmounted(s, m);
    forall b, c | b in f.bases && c in f.bases && Namesakes(f.bases[b], f.bases[c]) ensures b == c {
      assert Namesakes(s.bases[b], s.bases[c]);
    }
  }
}
