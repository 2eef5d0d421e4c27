/** The name space as libsysio keeps and updates it in place. */
module SysioClass {
  import opened Prelude
  import opened NameSpace
  import opened PruneSpec
  import opened IdleBases
  import opened NameWf
  import opened MountSpec
  import opened MountOutcome
  import opened MountFirst
  import opened PathWalk
  import opened PathPrint

  class Sysio {
    var bases: map<nat, Base>
    var pnodes: map<nat, Pnode>
    var mounts: map<nat, Mount>
    var nextBase: nat
    var nextPnode: nat
    var nextMount: nat
    var root: nat

    function S(): Ns reads this { Ns(bases, pnodes, mounts, nextBase, nextPnode, nextMount, root) }

    // ---------------------------------------------------------------- freeing

    /** _sysio_pb_gone, whose pb_destroy demands that nothing hangs on the node. */
    method DestroyBase(b: nat)
      requires b in bases && bases[b].aliases == [] && bases[b].children == []
      requires bases[b].parent.Some? ==> bases[b].parent.value in bases
      modifies this`bases
      ensures S() == PbGone(old(S()), b)
    {
      var par := bases[b].parent;
      if par.Some? {
        bases := bases[par.value := bases[par.value].(children := Without(bases[par.value].children, b))];
      }
      bases := bases - {b};
    }

    /** _sysio_p_gone, which demands an unreferenced and uncovered alias. */
    method Gone(p: nat)
      requires p in pnodes && pnodes[p].ref == 0 && pnodes[p].cover.None? && pnodes[p].base in bases
      requires var b := bases[pnodes[p].base]; b.parent.Some? ==> b.parent.value in bases
      modifies this`bases, this`pnodes
      ensures S() == PGone(old(S()), p)
    {
      var pb := pnodes[p].base;
      pnodes := pnodes - {p};
      bases := bases[pb := bases[pb].(aliases := Without(bases[pb].aliases, p))];
      if bases[pb].aliases == [] && bases[pb].children == [] {
        DestroyBase(pb);
      }
    }

    /** _sysio_prune: frees the idle base nodes of a sub-tree. */
    method PruneBases(rpb: nat)
      requires TreeOk(S()) && rpb in bases && bases[rpb].aliases == []
      modifies this`bases
      ensures Cleared(old(S()), S(), rpb)
      decreases nextBase - rpb, 0
    {
      hide TreeOk, Smaller, Outside, Idle, IdleIn, Cleared, Clearing;
      ghost var s := S();
      var kids := bases[rpb].children;
      var i := 0;
      ClearingStart(s, rpb);
      while i < |kids|
        invariant 0 <= i <= |kids| && Clearing(s, S(), rpb, kids, i) && nextBase == s.nextBase
      {
        ghost var t := S();
        ClearingNext(s, t, rpb, kids, i);
        PruneBaseChild(kids[i]);
        i := i + 1;
      }
      ClearingEnd(s, S(), rpb, kids);
      assert rpb in bases by { TopStays(s, S(), rpb, kids); }
      if bases[rpb].children == [] {
        DestroyBase(rpb);
      }
    }

    /** One turn of its loop: a child with an alias stays, an interior one is pruned, a leaf goes. */
    method PruneBaseChild(pb: nat)
      requires TreeOk(S()) && pb in bases
      modifies this`bases
      ensures Cleared(old(S()), S(), pb)
      decreases nextBase - pb, 1
    {
      hide TreeOk, Cleared;
      ClearedEnds(S(), pb);
      if bases[pb].aliases != [] {
      } else if bases[pb].children != [] {
        PruneBases(pb);
      } else {
        DestroyBase(pb);
      }
    }

    /**
     * _sysio_p_prune.  Returns the number of aliases on the same mount that could not be pruned.
     */
    method Prune(r: nat) returns (count: nat)
      requires TreeOk(S()) && r in pnodes
      modifies this`bases, this`pnodes
      ensures Pruned(old(S()), S(), r, count)
      decreases nextBase - (if pnodes[r].base in bases then pnodes[r].base else 0), 0
    {
      hide TreeOk, Smaller, Outside, Mid, Pruned, BaseUnder, DoneKids, Kids, DeadIn, ChildPruned;
      ghost var s := S();
      PruneEntry(s, r);
      var base, m := pnodes[r].base, pnodes[r].mount;
      var kids := bases[base].children;
      count := 0;
      var i := 0;
      while i < |kids|
        invariant 0 <= i <= |kids| && nextBase == s.nextBase
        invariant Mid(s, S(), r, DoneKids(s, r, kids, i), count)
        invariant forall k :: i <= k < |kids| ==> kids[k] in bases
      {
        ghost var t := S();
        SiblingsApart(s, base, kids, i);
        MidParts(s, t, r, DoneKids(s, r, kids, i), count);
        var n := PruneChild(kids[i], m);
        ChildDone(s, t, S(), r, kids, i, count, n);
        SmallerStill(s, t, S(), DeadIn(s, DoneKids(s, r, kids, i)), kids[i], kids, i + 1);
        count := count + n;
        i := i + 1;
      }
      AllDone(s, r, kids);
      count := PruneRoot(s, r, count);
    }

    /** The end of a prune: all that is left is the root. */
    method PruneRoot(ghost s: Ns, r: nat, below: nat) returns (count: nat)
      requires TreeOk(s) && r in s.pnodes && Mid(s, S(), r, Kids(s, r), below)
      modifies this`bases, this`pnodes
      ensures Pruned(s, S(), r, count)
    {
      hide TreeOk, Smaller, Outside, Mid, Pruned, Kids, PGone;
      MidRoot(s, S(), r, below);
      if below > 0 {
        PrunedRootStays(s, S(), r, below);
        return below + (if pnodes[r].ref > 0 then 1 else 0);
      }
      if pnodes[r].ref > 0 {
        PrunedRootStays(s, S(), r, below);
        count := 1;
      } else if mounts[pnodes[r].mount].root == r {
        PrunedRootStays(s, S(), r, below);
        count := 1;
      } else {
        PrunedRootGoes(s, S(), r);
        Gone(r);
        count := 0;
      }
    }

    /** One alias of a child: the sub-tree at an interior node, or a leaf. */
    method PruneAlias(pno: nat) returns (count: nat)
      requires TreeOk(S()) && pno in pnodes
      modifies this`bases, this`pnodes
      ensures Pruned(old(S()), S(), pno, count)
      decreases nextBase - (if pnodes[pno].base in bases then pnodes[pno].base else 0), 1
    {
      NodeFacts(S(), pno);
      if bases[pnodes[pno].base].children != [] {
        count := Prune(pno);
        return;
      }
      LeafPruned(S(), pno);
      hide TreeOk, Smaller, Outside, Pruned, PGone;
      if pnodes[pno].ref > 0 {
        return 1;
      }
      assert pnodes[pno].cover.None?;
      if mounts[pnodes[pno].mount].root == pno {
        return 1;
      }
      Gone(pno);
      count := 0;
    }

    /**
     * One turn of the outer loop: a child without aliases, or the loop over its aliases, which
     * passes over those of other mounts.
     */
    method PruneChild(pb: nat, m: nat) returns (count: nat)
      requires TreeOk(S()) && pb in bases
      modifies this`bases, this`pnodes
      ensures ChildPruned(old(S()), S(), pb, m, count)
      decreases nextBase - pb, 2
    {
      hide TreeOk, Smaller, Outside, Pruned, ListMid, ChildPruned;
      ghost var s := S();
      if bases[pb].aliases == [] {
        PruneBases(pb);
        NoAliases(s, S(), pb, m);
        return 0;
      }
      var list := bases[pb].aliases;
      count := 0;
      var k := 0;
      ghost var hit: Option<nat> := None;
      ListStart(s, pb, m);
      while k < |list|
        invariant 0 <= k <= |list| && nextBase == s.nextBase
        invariant ListMid(s, S(), pb, m, k, hit, count)
      {
        ListNext(s, S(), pb, m, k, hit, count);
        var pno := list[k];
        if pnodes[pno].mount == m {
          var n := PruneAlias(pno);
          count := count + n;
          hit := Some(pno);
          ListHit(s, S(), pb, m, k, count);
        }
        k := k + 1;
      }
      ListDone(s, S(), pb, m, hit, count);
    }

    // ---------------------------------------------------------------- references and validation

    method Ref(p: nat)
      requires p in pnodes
      modifies this`pnodes
      ensures S() == PRef(old(S()), p)
    {
      pnodes := pnodes[p := pnodes[p].(ref := pnodes[p].ref + 1)];
    }

    method Rele(p: nat)
      requires p in pnodes && pnodes[p].ref > 0
      modifies this`pnodes
      ensures S() == PRele(old(S()), p)
    {
      pnodes := pnodes[p := pnodes[p].(ref := pnodes[p].ref - 1)];
    }

    /** _sysio_p_validate. */
    method Revalidate(w: World, p: nat) returns (err: int)
      requires Wf(S()) && p in pnodes
      modifies this`bases
      ensures (S(), err) == Validate(w, old(S()), p)
    {
      hide Wf;
      HasBase(S(), p);
      var b := pnodes[p].base;
      match w.check(S(), p) {
        case Valid(k) => err := 0; bases := bases[b := bases[b].(ino := Some(k))];
        case Invalid(e, ino) => err := e; bases := bases[b := bases[b].(ino := ino)];
      }
    }

    // ---------------------------------------------------------------- mounts

    /** Whether `rootpb` is at or under `b` in its file system. */
    method Descends(rootpb: nat, b: nat) returns (yes: bool)
      requires TreeOk(S()) && rootpb in bases
      ensures yes <==> BaseUnder(S(), rootpb, b)
    {
      hide TreeOk;
      var pb := Some(rootpb);
      while pb.Some? && pb.value != b
        invariant pb.Some? ==> pb.value in bases && (BaseUnder(S(), rootpb, b) <==> BaseUnder(S(), pb.value, b))
        invariant pb.None? ==> !BaseUnder(S(), rootpb, b)
        decreases if pb.Some? then pb.value + 1 else 0
      {
        BaseFacts(S(), pb.value);
        pb := bases[pb.value].parent;
      }
      yes := pb.Some?;
    }

    /**
     * _sysio_do_mount, over an uncovered node the caller holds or, with none to cover, to
     * establish the name space.
     */
    method DoMount(w: World, rootpb: nat, tocover: Option<nat>) returns (err: int)
      requires if tocover.Some? then MountAsked(S(), rootpb, tocover.value) else FirstAsked(S(), rootpb)
      modifies this
      ensures tocover.Some? ==> MountLeaves(w, old(S()), rootpb, tocover.value, err, S())
      ensures tocover.None? ==> FirstLeaves(w, old(S()), rootpb, err, S())
      ensures Wf(S()) && err != 0 ==>
        tocover.Some? && (Inside(old(S()), rootpb, tocover.value) || !w.room(old(S())))
      ensures err == 0 ==> Wf(S())
    {
      hide *;
      if tocover.Some? {
        err := MountOver(w, rootpb, tocover.value);
      } else {
        err := MountAlone(w, rootpb);
      }
    }

    /**
     * A mount with no node to cover.  The new root is its own parent and its own cover, and
     * _sysio_mount_root makes it the system's.
     */
    method MountAlone(w: World, rootpb: nat) returns (err: int)
      requires FirstAsked(S(), rootpb)
      modifies this
      ensures FirstLeaves(w, old(S()), rootpb, err, S())
      ensures err == 0 <==> w.room(old(S())) && FirstCheck(w, old(S()), rootpb) == Valid(Directory)
      ensures Wf(S()) <==> err == 0
      ensures Unrooted(S()) <==> !w.room(old(S()))
      ensures err == 0 ==> pnodes.Keys == {root} && pnodes[root].ref == 1
    {
      hide Wf, TreeOk, NamesOk, FirstAbandoned;
      ghost var s := S();
      if !w.room(S()) {
        FirstExact(w, s, rootpb, -ENOMEM, S());
        return -ENOMEM;
      }
      var m, r := nextMount, nextPnode;
      nextMount := nextMount + 1;
      mounts := mounts[m := Mount(r, r)];
      pnodes := pnodes[r := Pnode(1, r, rootpb, m, None)];
      bases := bases[rootpb := bases[rootpb].(aliases := [r] + bases[rootpb].aliases)];
      nextPnode := nextPnode + 1;
      assert S() == NewGraph(s, rootpb);
      var ino: Option<Kind>;
      match w.check(S(), r) {
        case Valid(k) => err := 0; ino := Some(k);
        case Invalid(e, i) => err := e; ino := i;
      }
      bases := bases[rootpb := bases[rootpb].(ino := ino)];
      GraphSetIno(s, rootpb, ino);
      UnrootedIno(s, rootpb, ino);
      ghost var s1 := SetIno(s, rootpb, ino);
      assert S() == NewGraph(s1, rootpb);
      if err == 0 && ino != Some(Directory) {
        err := -ENOTDIR;
      }
      if err == 0 {
        pnodes := pnodes[r := pnodes[r].(cover := Some(r))];
        root := r;
      } else {
        AbandonAlone(s1, rootpb, m, r);
      }
      FirstExact(w, s, rootpb, err, S());
    }

    /** The error exit of a mount with no node to cover. */
    method AbandonAlone(ghost s1: Ns, rootpb: nat, m: nat, r: nat)
      requires Unrooted(s1) && rootpb in s1.bases && m == s1.nextMount && r == s1.nextPnode
      requires S() == NewGraph(s1, rootpb)
      modifies this`pnodes, this`bases, this`mounts
      ensures FirstAbandoned(s1, rootpb, S())
      ensures pnodes == map[r := Pnode(0, r, rootpb, m, None)] && mounts == map[]
    {
      hide Wf, TreeOk, NamesOk, Pruned;
      FirstAbandonedTree(s1, rootpb);
      Rele(r);
      ghost var v := S();
      var count := Prune(r);
      ghost var t := S();
      assert Pruned(v, t, r, count);
      mounts := mounts - {m};
      assert FirstAbandoned(s1, rootpb, S());
      FirstAbandonedIs(s1, rootpb, S());
    }

    /**
     * A mount over an uncovered node.  When the new root does not validate, or is no
     * directory, the clean-up leaves its alias behind without a mount record, and the name
     * space is no longer well formed.
     */
    method MountOver(w: World, rootpb: nat, tocover: nat) returns (err: int)
      requires MountAsked(S(), rootpb, tocover)
      modifies this
      ensures MountLeaves(w, old(S()), rootpb, tocover, err, S())
      ensures err == 0 <==>
        && !Inside(old(S()), rootpb, tocover) && w.room(old(S()))
        && RootCheck(w, old(S()), rootpb, tocover) == Valid(Directory)
      ensures Wf(S()) <==>
        || Inside(old(S()), rootpb, tocover) || !w.room(old(S()))
        || RootCheck(w, old(S()), rootpb, tocover) == Valid(Directory)
    {
      hide Wf, TreeOk, Abandoned;
      ghost var s := S();
      WfParts(s);
      HasBase(s, tocover);
      var inside := Descends(rootpb, pnodes[tocover].base);
      hide BaseUnder;
      if inside {
        MountExact(w, s, rootpb, tocover, -EBUSY, S());
        return -EBUSY;
      }
      if !w.room(S()) {  // no memory for the mount record or for the alias of its root
        MountExact(w, s, rootpb, tocover, -ENOMEM, S());
        return -ENOMEM;
      }
      var m, r := nextMount, nextPnode;
      NewNumbers(s);
      nextMount := nextMount + 1;
      mounts := mounts[m := Mount(r, tocover)];
      pnodes := pnodes[r := Pnode(1, pnodes[tocover].parent, rootpb, m, None)];
      bases := bases[rootpb := bases[rootpb].(aliases := [r] + bases[rootpb].aliases)];
      nextPnode := nextPnode + 1;
      assert S() == NewMount(s, rootpb, tocover);
      var ino: Option<Kind>;
      match w.check(S(), r) {
        case Valid(k) => err := 0; ino := Some(k);
        case Invalid(e, i) => err := e; ino := i;
      }
      bases := bases[rootpb := bases[rootpb].(ino := ino)];
      MountSetIno(s, rootpb, tocover, ino);
      SetInoOk(s, rootpb, ino);
      ghost var s1 := SetIno(s, rootpb, ino);
      assert S() == NewMount(s1, rootpb, tocover);
      if err == 0 && ino != Some(Directory) {
        err := -ENOTDIR;
      }
      if err == 0 {
        assert pnodes[tocover].cover.None?;
        pnodes := pnodes[tocover := pnodes[tocover].(cover := Some(r))];
      } else {
        AbandonMount(s1, rootpb, tocover, m, r);
      }
      MountExact(w, s, rootpb, tocover, err, S());
    }

    /** The error exit of _sysio_do_mount. */
    method AbandonMount(ghost s1: Ns, rootpb: nat, tocover: nat, m: nat, r: nat)
      requires Wf(s1) && rootpb in s1.bases && tocover in s1.pnodes && m == s1.nextMount && r == s1.nextPnode
      requires S() == NewMount(s1, rootpb, tocover)
      modifies this`pnodes, this`bases, this`mounts
      ensures Abandoned(s1, rootpb, tocover, S())
      ensures r in pnodes && pnodes[r].ref == 0 && pnodes[r].mount !in mounts && !Wf(S())
    {
      hide Wf, TreeOk, Pruned;
      AbandonedTree(s1, rootpb, tocover);
      Rele(r);
      ghost var v := S();
      var count := Prune(r);
      ghost var t := S();
      assert Pruned(v, t, r, count);
      mounts := mounts - {m};
      assert Abandoned(s1, rootpb, tocover, S());
      AbandonedIll(s1, rootpb, tocover, S());
    }

    /**
     * _sysio_do_unmount: it succeeds exactly when nothing covers the mount's root and the
     * mount's own reference to it is the only reference in the mount, and fails an assertion
     * exactly when the prune counts one although the root is not held once.
     */
    method DoUnmount(m: nat) returns (out: Outcome)
      requires MountThereIs(S(), m)
      modifies this`pnodes, this`bases, this`mounts
      ensures UnmountLeaves(old(S()), m, out, S())
      ensures out.Done? <==> UnmountsCleanly(old(S()), m)
      ensures out.Aborts? <==> UnmountAborts(old(S()), m)
      ensures !out.Aborts? && !(out.Done? && old(mounts[m].root) == root) ==> Wf(S())
      ensures out.Done? && old(mounts[m].root) == root ==> Unrooted(S())
    {
      hide Wf, TreeOk, Pruned, Refs, Unmounted, Detachable, RootAlone, RootUnmounted, Stuck, UnmountsCleanly,
        UnmountAborts;
      ghost var s := S();
      var r := mounts[m].root;
      UnmountRoot(s, m);
      if pnodes[r].cover.Some? && pnodes[r].cover.value != r {
        UnmountExact(s, m, Busy, s);
        return Busy;
      }
      var v := mounts[m].covers;
      assert pnodes[v].cover == Some(r);
      WfParts(s);
      var count := Prune(r);
      ghost var t := S();
      PrunedFacts(s, t, r, count);
      PrunedKeepsJoints(s, t, r, count, r);
      if count != 1 {
        out := Busy;
      } else if pnodes[r].ref != 1 {
        out := Aborts;
      } else {
        UnmountPrepared(s, t, m);
        Detach(m);
        out := Done;
      }
      assert UnmountEnds(s, t, m, count, out, S());
      UnmountExact(s, m, out, S());
    }

    /** The committed part of _sysio_do_unmount; the name space's root has no reference of its own cover to drop. */
    method Detach(m: nat)
      requires (Detachable(S(), m) || RootAlone(S(), m)) && m in mounts && mounts[m].root in pnodes
      requires pnodes[mounts[m].root].ref == 1
      modifies this`pnodes, this`bases, this`mounts
      ensures old(RootAlone(S(), m)) ==> S() == RootUnmounted(old(S()), m)
      ensures old(Detachable(S(), m)) ==> S() == Unmounted(old(S()), m)
    {
      hide Wf, TreeOk;
      ghost var t := S();
      assert !(Detachable(t, m) && RootAlone(t, m));
      hide Detachable, RootAlone;
      DetachFacts(t, m);
      var r, v := mounts[m].root, mounts[m].covers;
      if pnodes[r].cover != Some(r) {
        pnodes := pnodes[v := pnodes[v].(ref := pnodes[v].ref - 1)];
      }
      pnodes := pnodes[v := pnodes[v].(cover := None)];
      pnodes := pnodes[r := pnodes[r].(ref := pnodes[r].ref - 1)];
      pnodes := pnodes[r := pnodes[r].(cover := None)];
      assert Detachable(t, m) ==> S() == Uncover(t, v, r);
      Gone(r);
      mounts := mounts - {m};
    }

    // ---------------------------------------------------------------- the path walk

    /** _sysio_next_component: the name, and where it ends. */
    static method NextComponent(path: string) returns (name: string, after: string)
      ensures (name, after) == Component(path)
    {
      var i := 0;
      while i < |path| && path[i] == PATH_SEPARATOR
        invariant 0 <= i <= |path| && SkipSlashes(path[i..]) == SkipSlashes(path)
      {
        assert path[i..][1..] == path[i + 1..];
        i := i + 1;
      }
      name, after := TakeComponent(path[i..]);
    }

    static method TakeComponent(t: string) returns (name: string, after: string)
      requires SkipSlashes(t) == t
      ensures (name, after) == Component(t)
    {
      var j := 0;
      while j < |t| && t[j] != PATH_SEPARATOR
        invariant 0 <= j <= |t| && PATH_SEPARATOR !in t[..j]
      {
        j := j + 1;
      }
      name, after := t[..j], t[j..];
      hide LeadingName;
      NameLeads(name, after);
      assert name + after == t;
    }

    method SearchChildren(list: seq<nat>, name: string) returns (r: Option<nat>)
      ensures r == FindChild(S(), list, name)
    {
      var k := 0;
      while k < |list|
        invariant 0 <= k <= |list| && FindChild(S(), list[k..], name) == FindChild(S(), list, name)
      {
        if list[k] in bases && bases[list[k]].name == name {
          return Some(list[k]);
        }
        assert list[k..][1..] == list[k + 1..];
        k := k + 1;
      }
      r := None;
    }

    method SearchAliases(list: seq<nat>, parent: nat) returns (r: Option<nat>)
      ensures r == FindWithParent(S(), list, parent)
    {
      var k := 0;
      while k < |list|
        invariant 0 <= k <= |list| && FindWithParent(S(), list[k..], parent) == FindWithParent(S(), list, parent)
      {
        if list[k] in pnodes && pnodes[list[k]].parent == parent {
          return Some(list[k]);
        }
        assert list[k..][1..] == list[k + 1..];
        k := k + 1;
      }
      r := None;
    }

    /** _sysio_p_find_alias. */
    method GetEntry(w: World, parent: nat, name: string) returns (err: int, pno: Option<nat>)
      requires Wf(S()) && parent in pnodes && NameOk(name)
      modifies this
      ensures Looked(S(), err, pno) == FindAlias(w, old(S()), parent, name)
    {
      hide Wf, Grows, Gains, FindChild, FindWithParent;
      ghost var s := S();
      KnownChild(s, parent, name);
      var found := SearchChildren(bases[pnodes[parent].base].children, name);
      var pb;
      if found.Some? {
        pb := found.value;
      } else {
        if !w.room(S()) {
          return -ENOMEM, None;
        }
        PbNewOk(s, name, pnodes[parent].base);
        var b := pnodes[parent].base;
        pb := nextBase;
        bases := bases[b := bases[b].(children := [pb] + bases[b].children)][pb := Base(name, None, Some(b), [], [])];
        nextBase := nextBase + 1;
      }
      var a := SearchAliases(bases[pb].aliases, parent);
      if a.Some? {
        Ref(a.value);
        return 0, a;
      }
      if !w.room(S()) {
        return -ENOMEM, None;
      }
      pno := Some(nextPnode);
      bases := bases[pb := bases[pb].(aliases := [nextPnode] + bases[pb].aliases)];
      pnodes := pnodes[nextPnode := Pnode(1, parent, pb, pnodes[parent].mount, None)];
      nextPnode := nextPnode + 1;
      err := 0;
    }

    /** The walk's lookup of one component. */
    method LookupEntry(w: World, parent: nat, name: string) returns (err: int, pno: Option<nat>)
      requires Wf(S()) && parent in pnodes && name != "" && PATH_SEPARATOR !in name
      modifies this
      ensures Looked(S(), err, pno) == Lookup(w, old(S()), parent, name)
    {
      hide Wf, Grows, Gains, LookOk, FindAlias, Validate;
      ghost var s := S();
      HasBase(s, parent);
      if bases[pnodes[parent].base].ino.None? {
        return -ENOTDIR, None;
      }
      var p: nat;
      if name == "." || name == ".." {
        p := if name == "." then parent else pnodes[parent].parent;
        Ref(p);
      } else {
        err, pno := GetEntry(w, parent, name);
        if err != 0 {
          return;
        }
        p := pno.value;
      }
      ghost var e := Entry(w, s, parent, name);
      assert S() == e.ns && e.err == 0 && e.pno == Some(p);
      p := HopCovers(p);
      pno := Some(p);
      err := Revalidate(w, p);
    }

    /** While covered, move to the covering node. */
    method HopCovers(start: nat) returns (p: nat)
      requires Wf(S()) && Holding(S(), start)
      modifies this`pnodes
      ensures (S(), p) == Hop(old(S()), start)
    {
      hide Wf, Grows, Gains;
      ghost var s := S();
      p := start;
      while pnodes[p].cover.Some? && pnodes[p].cover.value != p
        invariant Wf(S()) && Holding(S(), p) && Hop(S(), p) == Hop(s, start)
        decreases nextPnode - p
      {
        CoverYounger(S(), p);
        var cover := pnodes[p].cover.value;
        HopOnce(S(), p, cover);
        ghost var t := S();
        Ref(cover);
        Rele(p);
        assert Hop(t, p) == Hop(S(), cover);
        p := cover;
      }
    }

    /** _sysio_path_walk. */
    method WalkPath(w: World, start: nat, path: Option<string>, ndroot: nat, fl: Flags, slicnt: nat)
      returns (err: int, pno: Option<nat>, deep: nat)
      requires Wf(S()) && start in pnodes && ndroot in pnodes && slicnt <= MAX_SYMLINK
      modifies this
      ensures Walked(S(), err, pno, deep) == Walk(w, old(S()), start, path, ndroot, fl, slicnt)
      decreases MAX_SYMLINK - slicnt, 2
    {
      hide Wf, Grows, Gains, WalkOk, Steps, Component, Validate;
      ghost var s := S();
      if path.None? {
        return -EFAULT, None, slicnt;
      }
      if path.value == "" {
        return -ENOENT, None, slicnt;
      }
      var parent := if path.value[0] == PATH_SEPARATOR then ndroot else start;
      err := Revalidate(w, parent);
      if err != 0 {
        return err, None, slicnt;
      }
      GrowsKeeps(s, S(), ndroot);
      PRefOk(S(), parent);
      Ref(parent);
      err, pno, deep := WalkLoop(w, parent, path.value, ndroot, fl, slicnt);
    }

    method WalkLoop(w: World, start: nat, path: string, ndroot: nat, fl: Flags, slicnt: nat)
      returns (err: int, pno: Option<nat>, deep: nat)
      requires Wf(S()) && Holding(S(), start) && ndroot in pnodes && slicnt <= MAX_SYMLINK
      modifies this
      ensures Walked(S(), err, pno, deep) == Steps(w, old(S()), start, path, ndroot, fl, slicnt)
      decreases MAX_SYMLINK - slicnt, 1
    {
      hide Wf, WalkOk, Steps, Advance, Component;
      ghost var goal := Steps(w, S(), start, path, ndroot, fl, slicnt);
      WalkEnds(S(), Some(start), slicnt, goal);
      var nd, text := start, path;
      deep := slicnt;
      while true
        invariant Wf(S()) && Holding(S(), nd) && ndroot in pnodes && deep >= slicnt
        invariant Deepened(Steps(w, S(), nd, text, ndroot, fl, slicnt), deep) == goal
        decreases |text|
      {
        HasBase(S(), nd);
        var next, after := NextComponent(text);
        if bases[pnodes[nd].base].ino == Some(Symlink) && (next != "" || !fl.nofollow) {
          var e, p, d := FollowLink(w, nd, text, ndroot, fl, slicnt);
          deep := Max(deep, d);
          if e != 0 {
            return e, None, deep;
          }
          nd := p;
        } else {
          PlainStep(w, S(), nd, text, ndroot, fl, slicnt);
        }
        ghost var a := Advance(w, S(), nd, text, ndroot, fl, slicnt);
        WalkEnds(S(), Some(nd), slicnt, a);
        var more;
        err, pno, more := NextEntry(w, nd, text, next, after, ndroot, fl, slicnt);
        if !more {
          return;
        }
        nd, text := pno.value, after;
      }
    }

    /** Expands the symbolic link at `nd`; on success its target's node is held in its place. */
    method FollowLink(w: World, nd: nat, ghost text: string, ndroot: nat, fl: Flags, slicnt: nat)
      returns (err: int, p: nat, deep: nat)
      requires Wf(S()) && Holding(S(), nd) && ndroot in pnodes && slicnt <= MAX_SYMLINK && pnodes[nd].base in bases
      requires KindOf(S(), nd) == Some(Symlink) && (Component(text).0 != "" || !fl.nofollow)
      modifies this
      ensures deep >= slicnt
      ensures err != 0 ==> Walked(S(), err, None, deep) == Steps(w, old(S()), nd, text, ndroot, fl, slicnt)
      ensures err == 0 ==>
        && Wf(S()) && Holding(S(), p) && ndroot in pnodes
        && Steps(w, old(S()), nd, text, ndroot, fl, slicnt) ==
           Deepened(Advance(w, S(), p, text, ndroot, fl, slicnt), deep)
      decreases MAX_SYMLINK - slicnt, 0
    {
      hide Wf, Grows, Gains, WalkOk, Advance, Walk, Component;
      ghost var s := S();
      HasBase(s, nd);
      p := nd;
      if slicnt >= MAX_SYMLINK {
        Rele(nd);
        return -ELOOP, nd, slicnt;
      }
      var link := w.readlink(S(), nd);
      if link.Unreadable? {
        Rele(nd);
        return link.err, nd, slicnt;
      }
      var e, got, d := WalkPath(w, pnodes[nd].parent, Some(link.text), ndroot, fl, slicnt + 1);
      ghost var k := Walk(w, s, s.pnodes[nd].parent, Some(link.text), ndroot, fl, slicnt + 1);
      WalkEnds(s, None, slicnt + 1, k);
      if e != 0 {
        LinkFails(s, nd, slicnt, k);
        Rele(nd);
        return e, nd, d;
      }
      LinkOk(s, nd, slicnt, k);
      GrowsKeeps(s, PRele(k.ns, nd), ndroot);
      Rele(nd);
      WalkEnds(S(), got, slicnt, Advance(w, S(), got.value, text, ndroot, fl, slicnt));
      return 0, got.value, d;
    }

    /** The rest of one turn; `more` says whether the loop goes on. */
    method NextEntry(w: World, nd: nat, ghost text: string, next: string, after: string, ndroot: nat, fl: Flags,
        slicnt: nat)
      returns (err: int, pno: Option<nat>, more: bool)
      requires Wf(S()) && Holding(S(), nd) && ndroot in pnodes && slicnt <= MAX_SYMLINK &&
        (next, after) == Component(text)
      modifies this
      ensures !more ==> Walked(S(), err, pno, slicnt) == Advance(w, old(S()), nd, text, ndroot, fl, slicnt)
      ensures more ==>
        && pno.Some? && Wf(S()) && Holding(S(), pno.value) && ndroot in pnodes && next != ""
        && Steps(w, S(), pno.value, after, ndroot, fl, slicnt) == Advance(w, old(S()), nd, text, ndroot, fl, slicnt)
    {
      hide Wf, Grows, Gains, WalkOk, Lookup, LookOk, Steps, Component;
      ghost var t := S();
      HasBase(t, nd);
      if next == "" {
        return 0, Some(nd), false;
      }
      var ino := bases[pnodes[nd].base].ino;
      if ino != Some(Directory) {
        Rele(nd);
        return if ino.None? then -ENOENT else -ENOTDIR, None, false;
      }
      err, pno := LookupEntry(w, nd, next);
      ghost var l := Lookup(w, t, nd, next);
      LookParts(t, l);
      if pno.None? {
        NothingFound(t, l.ns, nd, slicnt);
        Rele(nd);
        return err, None, false;
      }
      LookedOk(t, l.ns, nd, pno.value);
      GrowsKeeps(t, PRele(l.ns, nd), ndroot);
      Rele(nd);
      if err == 0 {
        return 0, pno, true;
      }
      var last, _ := NextComponent(after);
      if err == -ENOENT && last == "" && fl.negok {
        return 0, pno, false;
      }
      Rele(pno.value);
      return err, None, false;
    }

    // ---------------------------------------------------------------- the path printer

    /** The name of a covering node is that of the node it covers. */
    method NamedNode(p: nat) returns (u: nat)
      requires Wf(S()) && p in pnodes
      ensures u == Bottom(S(), p)
    {
      hide Wf;
      u := p;
      while u in pnodes && pnodes[u].mount in mounts && u == mounts[pnodes[u].mount].root && u != pnodes[u].parent
        invariant u in pnodes && Bottom(S(), u) == Bottom(S(), p)
        decreases u
      {
        UpStack(S(), u);
        u := mounts[pnodes[u].mount].covers;
      }
      StackEnd(S(), u);
    }

    /** The first pass of _sysio_p_path: the length of the path. */
    method PathLength(p: nat) returns (len: nat, n: nat)
      requires Wf(S()) && p in pnodes
      ensures len + n == |PathOf(S(), p)| && n > 0
    {
      hide Wf, Bottom;
      len, n := 0, 0;
      var cur, first := p, true;
      while first || cur != pnodes[cur].parent
        invariant cur in pnodes && (first ==> n == 0) && (!first ==> n > 0)
        invariant len + n + |UpTo(S(), cur, first)| == |PathOf(S(), p)|
        decreases cur + (if first then 1 else 0)
      {
        PathUp(S(), cur);
        cur := NamedNode(cur);
        len, n := len + |bases[pnodes[cur].base].name|, n + 1;
        cur, first := pnodes[cur].parent, false;
      }
    }

    /** Adds a component and its separator in front of position `end`. */
    static method WriteName(buf: array<char>, end: nat, name: string, total: nat) returns (cp: nat)
      requires |name| < end <= total < buf.Length
      modifies buf
      ensures cp == end - |name| - 1 && buf[cp..total] == [PATH_SEPARATOR] + name + old(buf[end..total])
      ensures forall k :: total <= k < buf.Length ==> buf[k] == old(buf[k])
    {
      cp := end - |name|;
      forall k | 0 <= k < |name| { buf[cp + k] := name[k]; }
      cp := cp - 1;
      buf[cp] := PATH_SEPARATOR;
      assert buf[cp + 1..end] == name;
      assert buf[end..total] == old(buf[end..total]);
    }

    /** The second pass: the names, last one first, into the end of the buffer. */
    method FillPath(p: nat, buf: array<char>, total: nat, ghost path: string)
      requires Wf(S()) && p in pnodes && path == PathOf(S(), p) && total == |path| < buf.Length
      modifies buf
      ensures buf[..total + 1] == path + [NUL]
      ensures forall k :: total < k < buf.Length ==> buf[k] == old(buf[k])
    {
      hide Wf, Bottom, PathOf;
      buf[total] := NUL;
      var cp, cur, first := total, p, true;
      while first || cur != pnodes[cur].parent
        invariant cur in pnodes && 0 <= cp <= total && cp == |UpTo(S(), cur, first)|
        invariant UpTo(S(), cur, first) <= path && buf[cp..total] == path[cp..] && buf[total] == NUL
        invariant forall k :: total < k < buf.Length ==> buf[k] == old(buf[k])
        decreases cur + (if first then 1 else 0)
      {
        PathUp(S(), cur);
        ghost var before := buf[cp..total];
        ghost var up := PathOf(S(), cur);
        cur := NamedNode(cur);
        var name := bases[pnodes[cur].base].name;
        cp := WriteName(buf, cp, name, total);
        cur, first := pnodes[cur].parent, false;
        FilledOne(buf[cp..total], before, path, up, UpTo(S(), cur, first), name);
      }
      assert buf[0..total] == path[0..];
      assert buf[..total + 1] == buf[0..total] + [NUL];
    }

    /** _sysio_p_path: into the caller's buffer, or into a new one that it fills exactly. */
    method PPath(p: nat, buf: array?<char>, room: bool) returns (err: int, out: array?<char>)
      requires Wf(S()) && p in pnodes
      modifies if buf == null then {} else {buf}
      ensures buf != null && buf.Length == 0 ==> err == -EINVAL
      ensures buf != null && buf.Length > 0 ==> err == if buf.Length > |PathOf(old(S()), p)| then 0 else -ERANGE
      ensures buf == null ==> err == if room then 0 else -ENOMEM
      ensures buf != null ==> out == buf
      ensures err == 0 ==>
        out != null && |PathOf(old(S()), p)| < out.Length &&
          out[..|PathOf(old(S()), p)| + 1] == PathOf(old(S()), p) + [NUL]
      ensures err == 0 && buf == null ==> fresh(out) && out[..] == PathOf(old(S()), p) + [NUL]
      ensures buf != null && err != 0 ==> buf[..] == old(buf[..])
      ensures buf != null && err == 0 ==> forall k :: |PathOf(old(S()), p)| < k < buf.Length ==> buf[k] == old(buf[k])
    {
      hide Wf, PathOf;
      out := buf;
      if buf != null && buf.Length == 0 {
        return -EINVAL, buf;
      }
      var len, n := PathLength(p);
      var size := if buf == null then len + n + 1 else buf.Length;
      if len >= size || n >= size - len {
        return -ERANGE, buf;
      }
      if buf == null {
        if !room {
          return -ENOMEM, null;
        }
        out := new char[size];
      }
      FillPath(p, out, len + n, PathOf(S(), p));
      err := 0;
    }
  }

  const NUL := 0 as char

  lemma UpStack(s: Ns, u: nat)
    requires Wf(s) && u in s.pnodes && IsRoot(s, u) && u != s.pnodes[u].parent
    ensures var v := s.mounts[s.pnodes[u].mount].covers; v in s.pnodes && v < u && Bottom(s, v) == Bottom(s, u)
  {
    WfNode(s, u);
    hide Wf;
  }

  lemma StackEnd(s: Ns, u: nat)
    requires Wf(s) && u in s.pnodes && (IsRoot(s, u) ==> u == s.pnodes[u].parent)
    ensures Bottom(s, u) == u
  {
    hide Wf;
  }

  /** The part of the path still to be written when the printer is at `cur`. */
  function UpTo(s: Ns, cur: nat, first: bool): string
    requires Wf(s) && cur in s.pnodes
  {
    if first || cur != s.pnodes[cur].parent then PathOf(s, cur) else ""
  }

  lemma PathUp(s: Ns, cur: nat)
    requires Wf(s) && cur in s.pnodes
    ensures var u := Bottom(s, cur);
      && s.pnodes[u].base in s.bases && s.pnodes[u].parent in s.pnodes
      && (s.pnodes[u].parent < cur || (s.pnodes[u].parent == cur && s.pnodes[cur].parent == cur))
      && PathOf(s, cur) == UpTo(s, s.pnodes[u].parent, false) + [PATH_SEPARATOR] + s.bases[s.pnodes[u].base].name
  {
    hide Wf, Bottom;
    WfNode(s, Bottom(s, cur));
    WfNode(s, cur);
    WfNode(s, s.pnodes[cur].parent);
  }

  lemma FilledOne(now: string, before: string, path: string, up: string, rest: string, name: string)
    requires up == rest + [PATH_SEPARATOR] + name && up <= path && before == path[|up|..]
    requires now == [PATH_SEPARATOR] + name + before
    ensures rest <= path && now == path[|rest|..]
  {
    assert path == up + before;
    assert path == rest + now;
  }

  /** The result of a walk some of whose links went `d` deep. */
  function Deepened(r: Walked, d: nat): Walked { r.(deep := Max(r.deep, d)) }

  lemma UnmountRoot(s: Ns, m: nat)
    requires MountThereIs(s, m)
    ensures var r, v := s.mounts[m].root, s.mounts[m].covers;
      IsRoot(s, r) && s.pnodes[r].mount == m && v in s.pnodes && s.pnodes[v].cover == Some(r)
  {
    hide Wf;
    WfParts(s);
    MountRoot(s, m);
    WfNode(s, s.mounts[m].root);
  }

  lemma UnmountPrepared(s: Ns, t: Ns, m: nat)
    requires MountThereIs(s, m) && Exposed(s, s.mounts[m].root) && s.pnodes[s.mounts[m].root].ref == 1
    requires Pruned(s, t, s.mounts[m].root, 1)
    ensures if s.mounts[m].root == s.root then RootAlone(t, m) else Detachable(t, m)
    ensures m in t.mounts && t.mounts[m] == s.mounts[m] && t.mounts[m].root in t.pnodes
  {
    hide Wf, Pruned, Detachable, RootAlone, Refs, Stuck;
    var r := s.mounts[m].root;
    PrunedStuck(s, t, r, 1);
    OneStuck(s, r);
    PrunedFacts(s, t, r, 1);
    UnmountRoot(s, m);
    PrunedKeepsJoints(s, t, r, 1, r);
    if r == s.root {
      RootLeftAlone(s, t, m);
    } else {
      OnlyRootSelf(s, r);
      UnmountReady(s, t, m);
    }
  }

  lemma OnlyRootSelf(s: Ns, r: nat)
    requires Wf(s) && r in s.pnodes && r != s.root && Exposed(s, r)
    ensures s.pnodes[r].cover.None?
  {
    if s.pnodes[r].cover.Some? { CoverParent(s, r); }
  }

  lemma DetachFacts(s: Ns, m: nat)
    requires Detachable(s, m) || RootAlone(s, m)
    ensures m in s.mounts
    ensures var r, v := s.mounts[m].root, s.mounts[m].covers;
      && r in s.pnodes && v in s.pnodes && s.pnodes[v].cover == Some(r) && s.pnodes[v].ref > 0
      && s.pnodes[r].base in s.bases
      && (s.bases[s.pnodes[r].base].parent.Some? ==> s.bases[s.pnodes[r].base].parent.value in s.bases)
      && (Detachable(s, m) ==> v != r && s.pnodes[r].cover.None?)
      && (RootAlone(s, m) ==> r == v == s.root && s.pnodes[r].cover == Some(r))
  {
    hide Wf;
    if RootAlone(s, m) {
      RootFacts(s);
      WfNode(s, s.root);
      WfParts(s);
      MountRoot(s, m);
    } else {
      DetachableFacts(s, m);
    }
  }
}
