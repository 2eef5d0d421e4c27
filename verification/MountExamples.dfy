/** A mount that leaves the name space ill formed, and an unmount that fails an assertion. */
module MountExamples {
  import opened Prelude
  import opened NameSpace
  import opened PruneSpec
  import opened NameWf
  import opened MountSpec
  import opened MountOutcome
  import opened PathWalk
  import opened PathExamples

  const EIO := 5

  /** A driver that validates nothing. */
  function Refusing(): World { World((s, p) => Invalid(-EIO, None), (s, p) => Unreadable(-EIO), s => true) }

  /** What an abandoned mount leaves when the new root's base has nothing idle under it. */
  function LeftBehind(s: Ns, rootpb: nat, tocover: nat): Ns
    requires rootpb in s.bases && tocover in s.pnodes
  {
    SetRef(NewMount(s, rootpb, tocover), s.nextPnode, 0).(mounts := s.mounts)
  }

  lemma LeavesIt(s: Ns, rootpb: nat, tocover: nat)
    requires Wf(s) && rootpb in s.bases && tocover in s.pnodes
    ensures Abandoned(s, rootpb, tocover, LeftBehind(s, rootpb, tocover))
  {
    hide Wf, TreeOk, Pruned, Mid;
    AbandonedTree(s, rootpb, tocover);
    var r := s.nextPnode;
    var v := SetRef(NewMount(s, rootpb, tocover), r, 0);
    MidStart(v, r);
    PrunedRootStays(v, v, r, 0);
    assert Pruned(v, v, r, 1);
    WfParts(s);
    NewNumbers(s);
    assert v.mounts - {s.nextMount} == s.mounts;
  }

  lemma NotInside()
    ensures var s := Shadowing();
      && 4 in s.bases && 4 in s.pnodes && 4 != s.root && s.pnodes[4].cover.None? && s.pnodes[4].ref > 0
      && !Inside(s, 4, 4)
  {
    var s := Shadowing();
    assert !BaseUnder(s, 0, 2);
    assert !BaseUnder(s, 1, 2);
    assert !BaseUnder(s, 3, 2);
  }

  lemma Refused(s: Ns, rootpb: nat, tocover: nat, u: Ns)
    requires MountAsked(s, rootpb, tocover) && !Inside(s, rootpb, tocover)
    requires Abandoned(SetIno(s, rootpb, None), rootpb, tocover, u)
    ensures MountLeaves(Refusing(), s, rootpb, tocover, -EIO, u) && !Wf(u)
  {
    hide Wf, Abandoned, Inside, NewMount, SetIno;
    assert RootCheck(Refusing(), s, rootpb, tocover) == Invalid(-EIO, None);
    MountExact(Refusing(), s, rootpb, tocover, -EIO, u);
  }

  /** /a/y/z is to be mounted on /a/y, and the driver does not know it any more. */
  lemma BadMount()
    ensures var s := Shadowing();
      && 4 in s.bases && 4 in s.pnodes && MountAsked(s, 4, 4)
      && var u := LeftBehind(SetIno(s, 4, None), 4, 4);
      && MountLeaves(Refusing(), s, 4, 4, -EIO, u) && !Wf(u)
  {
    var s := Shadowing();
    ShadowingWf();
    NotInside();
    hide Wf, Abandoned, Shadowing, Inside, LeftBehind, MountLeaves, SetIno;
    SetInoOk(s, 4, None);
    var s1 := SetIno(s, 4, None);
    assert s1.pnodes == s.pnodes && 4 in s1.bases by { StillThere(s, 4); }
    LeavesIt(s1, 4, 4);
    Refused(s, 4, 4, LeftBehind(s1, 4, 4));
  }

  lemma StillThere(s: Ns, b: nat)
    requires b in s.bases
    ensures SetIno(s, b, None).pnodes == s.pnodes && b in SetIno(s, b, None).bases
  {
  }

  /** The same name space, with one more reference to the root of the mount on /a/y. */
  function Held(): Ns { PRef(Shadowing(), 4) }

  lemma HeldRefs()
    ensures Refs(Held(), 4) == {4}
  {
    var s := Held();
    assert Under(s, 4, 4);
    assert !Under(s, 0, 4);
    assert !Under(s, 1, 4);
    assert !Under(s, 3, 4);
  }

  lemma HeldFacts()
    ensures var s := Held();
      && 1 in s.mounts && s.mounts[1].root == 4 && 4 in s.pnodes && s.pnodes[4].cover.None? && s.pnodes[4].ref == 2
  {
  }

  lemma HeldWf()
    ensures Wf(Held())
  {
    ShadowingWf();
    hide Wf;
    PRefOk(Shadowing(), 4);
  }

  /** Someone else holds the root of that mount: the unmount is not busy, and fails an assertion. */
  lemma AbortedUnmount(out: Outcome, u: Ns)
    ensures var s := Held();
      && MountThereIs(s, 1) && s.mounts[1].root == 4 && s.pnodes[4].ref == 2 && UnmountAborts(s, 1)
      && (UnmountLeaves(s, 1, out, u) ==> out == Aborts)
  {
    hide Wf, Refs, UnmountLeaves, Held;
    HeldFacts();
    HeldRefs();
    HeldWf();
    var s := Held();
    if UnmountLeaves(s, 1, out, u) { UnmountExact(s, 1, out, u); }
  }
}
