/** Mounting and unmounting: what they do to the name space, and that it stays well formed. */
module MountSpec {
  import opened Prelude
  import opened NameSpace
  import opened PruneSpec
  import opened NameWf

  // ---------------------------------------------------------------- cover links of a shrunken name space

  /** Nodes and mounts went, some covers were taken off; what is left hangs together. */
  ghost predicate Shrunk(s: Ns, t: Ns) {
    && t.root == s.root && t.root in t.pnodes
    && (forall m :: m in t.mounts ==> m in s.mounts && t.mounts[m] == s.mounts[m])
    && (forall p :: p in t.pnodes ==>
       p in s.pnodes && KeptNode(s.pnodes[p], t.pnodes[p]) && t.pnodes[p].mount in t.mounts)
    && (forall p :: p in t.pnodes && t.pnodes[p].cover.Some? ==> t.pnodes[p].cover.value in t.pnodes)
    && (forall p :: p in t.pnodes && IsRoot(t, p) ==> CoverStands(t, t.mounts[t.pnodes[p].mount].covers, p))
    && (forall b :: b in t.bases ==>
       b in s.bases && t.bases[b].name == s.bases[b].name && t.bases[b].parent == s.bases[b].parent)
  }

  predicate KeptNode(x: Pnode, y: Pnode) {
    y.parent == x.parent && y.base == x.base && y.mount == x.mount && (y.cover == x.cover || y.cover.None?)
  }

  predicate CoverStands(t: Ns, v: nat, p: nat) { v in t.pnodes && t.pnodes[v].cover == Some(p) }

  lemma {:induction false} ParentStays(s: Ns, t: Ns, p: nat)
    requires Wf(s) && TreeOk(t) && Shrunk(s, t) && p in t.pnodes
    ensures t.pnodes[p].parent in t.pnodes
    decreases p
  {
    hide Wf, TreeOk;
    WfNode(s, p);
    NodeFacts(t, p);
    assert KeptNode(s.pnodes[p], t.pnodes[p]);
    if IsRoot(t, p) && p != s.root {
      var v := t.mounts[t.pnodes[p].mount].covers;
      assert CoverStands(t, v, p);
      assert KeptNode(s.pnodes[v], t.pnodes[v]);
      ParentStays(s, t, v);
    }
  }

  lemma ShrunkCover(s: Ns, t: Ns, p: nat)
    requires Wf(s) && TreeOk(t) && Shrunk(s, t) && p in t.pnodes
    ensures CoverOk(t, p)
  {
    hide Wf, TreeOk, NodeOk, BaseOk;
    WfNode(s, p);
    ParentStays(s, t, p);
    assert KeptNode(s.pnodes[p], t.pnodes[p]);
    if t.pnodes[p].cover.Some? {
      var c := t.pnodes[p].cover.value;
      assert KeptNode(s.pnodes[c], t.pnodes[c]);
    }
    if IsRoot(t, p) {
      var v := t.mounts[t.pnodes[p].mount].covers;
      assert CoverStands(t, v, p);
      assert KeptNode(s.pnodes[v], t.pnodes[v]);
    }
  }

  lemma ShrunkOk(s: Ns, t: Ns)
    requires Wf(s) && TreeOk(t) && Shrunk(s, t)
    ensures Wf(t)
  {
    hide Wf, TreeOk, CoverOk, NodeOk, BaseOk;
    WfParts(s);
    forall p | p in t.pnodes ensures CoverOk(t, p) { ShrunkCover(s, t, p); }
    NodeFacts(t, t.root);
    NodeFacts(s, t.root);
    assert KeptNode(s.pnodes[t.root], t.pnodes[t.root]);
    assert NodeOk(t, t.root) ==> t.pnodes[t.root].base in t.bases by { BaseThere(t, t.root); }
    CoversFrom(t);
    ShrunkNames(s, t);
    WfFrom(t);
  }

  lemma BaseThere(s: Ns, p: nat)
    requires TreeOk(s) && p in s.pnodes
    ensures s.pnodes[p].base in s.bases
  {
    NodeFacts(s, p);
  }

  lemma ShrunkNames(s: Ns, t: Ns)
    requires NamesOk(s) && Shrunk(s, t)
    ensures NamesOk(t)
  {
    forall b, c | b in t.bases && c in t.bases && Namesakes(t.bases[b], t.bases[c]) ensures b == c {
      assert Namesakes(s.bases[b], s.bases[c]);
    }
  }

  // ---------------------------------------------------------------- pruning keeps the cover links

  /** Mount roots and covered nodes are never pruned. */
  lemma PrunedKeepsJoints(s: Ns, t: Ns, r: nat, count: nat, p: nat)
    requires Wf(s) && r in s.pnodes && Pruned(s, t, r, count) && p in s.pnodes
    requires IsRoot(s, p) || s.pnodes[p].cover.Some?
    ensures p in t.pnodes && t.pnodes[p] == s.pnodes[p]
  {
    WfParts(s);
    WfNode(s, p);
    hide Wf, TreeOk, CoversOk, NamesOk;
    if s.pnodes[p].cover.Some? {
      assert Under(s, p, p);
      PrunedKeeps(s, t, r, count, p, p);
    } else if p in Dead(s, r) {
      assert p == r;
    }
  }

  lemma PrunedShrunk(s: Ns, t: Ns, r: nat, count: nat)
    requires Wf(s) && r in s.pnodes && Pruned(s, t, r, count)
    ensures Shrunk(s, t)
  {
    hide Wf, TreeOk, Pruned;
    PrunedFacts(s, t, r, count);
    TopIsRoot(s);
    PrunedKeepsJoints(s, t, r, count, s.root);
    forall p | p in t.pnodes
      ensures t.pnodes[p].mount in t.mounts && KeptNode(s.pnodes[p], t.pnodes[p])
    {
      MountThere(s, p);
    }
    forall p | p in t.pnodes && t.pnodes[p].cover.Some? ensures t.pnodes[p].cover.value in t.pnodes {
      CoverIsRoot(s, p);
      PrunedKeepsJoints(s, t, r, count, s.pnodes[p].cover.value);
    }
    forall p | p in t.pnodes && IsRoot(t, p) ensures CoverStands(t, t.mounts[t.pnodes[p].mount].covers, p) {
      RootIsCover(s, p);
      PrunedKeepsJoints(s, t, r, count, s.mounts[s.pnodes[p].mount].covers);
    }
  }

  lemma PrunedFacts(s: Ns, t: Ns, r: nat, count: nat)
    requires r in s.pnodes && Pruned(s, t, r, count)
    ensures t.root == s.root && t.mounts == s.mounts && TreeOk(t)
    ensures forall p :: p in t.pnodes ==> p in s.pnodes && t.pnodes[p] == s.pnodes[p]
    ensures forall b :: b in t.bases ==>
      b in s.bases && t.bases[b].name == s.bases[b].name && t.bases[b].parent == s.bases[b].parent
  {
  }

  lemma TopIsRoot(s: Ns)
    requires Wf(s)
    ensures s.root in s.pnodes && IsRoot(s, s.root)
  {
    hide TreeOk, NamesOk, CoverOk;
  }

  lemma MountThere(s: Ns, p: nat)
    requires Wf(s) && p in s.pnodes
    ensures s.pnodes[p].mount in s.mounts
  {
    WfNode(s, p);
  }

  lemma CoverIsRoot(s: Ns, p: nat)
    requires Wf(s) && p in s.pnodes && s.pnodes[p].cover.Some?
    ensures s.pnodes[p].ref > 0
    ensures var c := s.pnodes[p].cover.value; c in s.pnodes && IsRoot(s, c) && s.mounts[s.pnodes[c].mount].covers == p
  {
    WfNode(s, p);
  }

  lemma RootIsCover(s: Ns, p: nat)
    requires Wf(s) && p in s.pnodes && IsRoot(s, p)
    ensures var v := s.mounts[s.pnodes[p].mount].covers; v in s.pnodes && s.pnodes[v].cover == Some(p)
    ensures p != s.root ==> s.mounts[s.pnodes[p].mount].covers < p
  {
    WfNode(s, p);
  }

  /** A pruned name space is well formed. */
  lemma PrunedWf(s: Ns, t: Ns, r: nat, count: nat)
    requires Wf(s) && r in s.pnodes && Pruned(s, t, r, count)
    ensures Wf(t)
  {
    PrunedShrunk(s, t, r, count);
    PrunedFacts(s, t, r, count);
    hide *;
    ShrunkOk(s, t);
  }

  // ---------------------------------------------------------------- mounting

  /** A mount record for `rootpb`, with an alias for its root beside the node to be covered. */
  function NewMount(s: Ns, rootpb: nat, tocover: nat): Ns
    requires rootpb in s.bases && tocover in s.pnodes
  {
    PNewAlias(s, s.pnodes[tocover].parent, rootpb, s.nextMount)
      .(mounts := s.mounts[s.nextMount := Mount(s.nextPnode, tocover)], nextMount := s.nextMount + 1)
  }

  function SetCover(s: Ns, p: nat, c: nat): Ns
    requires p in s.pnodes
  {
    s.(pnodes := s.pnodes[p := s.pnodes[p].(cover := Some(c))])
  }

  lemma MountBase(s: Ns, rootpb: nat, tocover: nat, b: nat)
    requires TreeOk(s) && rootpb in s.bases && tocover in s.pnodes && b in s.bases
    ensures BaseOk(NewMount(s, rootpb, tocover), b)
  {
    hide TreeOk;
    NewNumbers(s);
    BaseFacts(s, b);
    var t := NewMount(s, rootpb, tocover);
    assert t.bases[b] == s.bases[b].(aliases := t.bases[b].aliases);
    assert s.nextPnode !in s.bases[b].aliases;
    assert forall d :: d in s.bases ==>
      t.bases[d].parent == s.bases[d].parent && t.bases[d].children == s.bases[d].children;
    assert forall q :: q in s.pnodes ==> t.pnodes[q] == s.pnodes[q];
  }

  lemma MountNode(s: Ns, rootpb: nat, tocover: nat, p: nat)
    requires TreeOk(s) && rootpb in s.bases && tocover in s.pnodes && p in NewMount(s, rootpb, tocover).pnodes
    ensures NodeOk(NewMount(s, rootpb, tocover), p)
    ensures p in s.pnodes ==> IsRoot(NewMount(s, rootpb, tocover), p) == IsRoot(s, p)
  {
    hide TreeOk;
    NewNumbers(s);
    var t := NewMount(s, rootpb, tocover);
    if p in s.pnodes {
      NodeFacts(s, p);
      assert t.pnodes[p] == s.pnodes[p];
    } else {
      assert t.bases[rootpb].aliases[0] == p;
    }
  }

  lemma NewMountTree(s: Ns, rootpb: nat, tocover: nat)
    requires TreeOk(s) && rootpb in s.bases && tocover in s.pnodes
    ensures TreeOk(NewMount(s, rootpb, tocover))
  {
    hide TreeOk, BaseOk, NodeOk;
    var t := NewMount(s, rootpb, tocover);
    NewNumbers(s);
    forall b | b in t.bases ensures BaseOk(t, b) { MountBase(s, rootpb, tocover, b); }
    forall p | p in t.pnodes ensures NodeOk(t, p) { MountNode(s, rootpb, tocover, p); }
    forall p, q | p in t.pnodes && q in t.pnodes && Twins(t.pnodes[p], t.pnodes[q]) ensures p == q {
      if p in s.pnodes { KnownMount(s, p); }
      if q in s.pnodes { KnownMount(s, q); }
      if p in s.pnodes && q in s.pnodes { OneAlias(s, p, q); }
    }
    forall m | m in t.mounts
      ensures m < t.nextMount && t.mounts[m].root in t.pnodes && t.pnodes[t.mounts[m].root].mount == m
    {
      if m in s.mounts { MountRoot(s, m); }
    }
    TreeFrom(t);
  }

  lemma KnownMount(s: Ns, p: nat)
    requires TreeOk(s) && p in s.pnodes
    ensures s.pnodes[p].mount in s.mounts
  {
    NodeFacts(s, p);
  }

  /** The alias of the new mount's root is alone in its mount. */
  lemma NewMountAlone(s: Ns, rootpb: nat, tocover: nat)
    requires TreeOk(s) && rootpb in s.bases && tocover in s.pnodes
    ensures Kids(NewMount(s, rootpb, tocover), s.nextPnode) == {}
  {
    hide TreeOk;
    NewNumbers(s);
    var t := NewMount(s, rootpb, tocover);
    forall q | q in t.pnodes && !IsRoot(t, q) ensures t.pnodes[q].parent != s.nextPnode {
      if q in s.pnodes {
        MountNode(s, rootpb, tocover, q);
        NodeFacts(s, q);
      }
    }
  }

  lemma MountCover(s: Ns, rootpb: nat, tocover: nat, p: nat)
    requires Wf(s) && rootpb in s.bases && tocover in s.pnodes && tocover != s.root
    requires s.pnodes[tocover].cover.None? && s.pnodes[tocover].ref > 0
    requires p in SetCover(NewMount(s, rootpb, tocover), tocover, s.nextPnode).pnodes
    ensures CoverOk(SetCover(NewMount(s, rootpb, tocover), tocover, s.nextPnode), p)
  {
    hide Wf, TreeOk, NodeOk, BaseOk;
    WfParts(s);
    hide CoversOk, NamesOk;
    NewNumbers(s);
    Ages(s, tocover);
    WfNode(s, tocover);
    var t := SetCover(NewMount(s, rootpb, tocover), tocover, s.nextPnode);
    if p in s.pnodes {
      WfNode(s, p);
      KnownMount(s, p);
    }
  }

  lemma Ages(s: Ns, p: nat)
    requires Wf(s) && p in s.pnodes
    ensures p < s.nextPnode && s.root < s.nextPnode && s.pnodes[p].parent in s.pnodes &&
      s.pnodes[p].parent < s.nextPnode
  {
    WfNode(s, p);
    TopIsRoot(s);
    WfNode(s, s.root);
    WfNode(s, s.pnodes[p].parent);
  }

  lemma SetCoverTree(s: Ns, p: nat, c: nat)
    requires TreeOk(s) && p in s.pnodes && s.pnodes[p].ref > 0
    ensures TreeOk(SetCover(s, p, c))
  {
    hide TreeOk;
    RelinkedTree(s, SetCover(s, p, c));
  }

  /** Same nodes with other counts and covers. */
  ghost predicate Relinked(s: Ns, t: Ns) {
    && t == s.(pnodes := t.pnodes) && t.pnodes.Keys == s.pnodes.Keys
    && (forall p :: p in s.pnodes ==> t.pnodes[p] == s.pnodes[p].(ref := t.pnodes[p].ref, cover := t.pnodes[p].cover))
    && (forall p :: p in s.pnodes ==> t.pnodes[p] == s.pnodes[p] || t.pnodes[p].cover.None? || t.pnodes[p].ref > 0)
  }

  lemma RelinkedTree(s: Ns, t: Ns)
    requires TreeOk(s) && Relinked(s, t)
    ensures TreeOk(t)
  {
    hide TreeOk, BaseOk, NodeOk;
    forall b | b in t.bases ensures BaseOk(t, b) { RelinkedBase(s, t, b); }
    forall p | p in t.pnodes ensures NodeOk(t, p) { RelinkedNode(s, t, p); }
    forall p, q | p in t.pnodes && q in t.pnodes && Twins(t.pnodes[p], t.pnodes[q])
      ensures p == q
    {
      OneAlias(s, p, q);
    }
    forall m | m in t.mounts
      ensures m < t.nextMount && t.mounts[m].root in t.pnodes && t.pnodes[t.mounts[m].root].mount == m
    {
      MountRoot(s, m);
    }
    TreeFrom(t);
  }

  lemma RelinkedBase(s: Ns, t: Ns, b: nat)
    requires TreeOk(s) && Relinked(s, t) && b in t.bases
    ensures BaseOk(t, b)
  {
    hide TreeOk;
    BaseFacts(s, b);
  }

  lemma RelinkedNode(s: Ns, t: Ns, p: nat)
    requires TreeOk(s) && Relinked(s, t) && p in t.pnodes
    ensures NodeOk(t, p)
  {
    hide TreeOk;
    NodeFacts(s, p);
    assert t.pnodes[p] == s.pnodes[p].(ref := t.pnodes[p].ref, cover := t.pnodes[p].cover);
  }

  /** A mount on an uncovered, referenced node keeps the name space well formed. */
  lemma MountedWf(s: Ns, rootpb: nat, tocover: nat)
    requires Wf(s) && rootpb in s.bases && tocover in s.pnodes && tocover != s.root
    requires s.pnodes[tocover].cover.None? && s.pnodes[tocover].ref > 0
    ensures Wf(SetCover(NewMount(s, rootpb, tocover), tocover, s.nextPnode))
  {
    hide Wf, TreeOk, CoverOk, NamesOk;
    WfParts(s);
    NewMountTree(s, rootpb, tocover);
    NewNumbers(s);
    var t := NewMount(s, rootpb, tocover);
    SetCoverTree(t, tocover, s.nextPnode);
    var u := SetCover(t, tocover, s.nextPnode);
    forall p | p in u.pnodes ensures CoverOk(u, p) { MountCover(s, rootpb, tocover, p); }
    Ages(s, tocover);
    KnownMount(s, s.root);
    CoversFrom(u);
    MountNames(s, rootpb, tocover);
    WfFrom(u);
  }

  lemma MountNames(s: Ns, rootpb: nat, tocover: nat)
    requires NamesOk(s) && rootpb in s.bases && tocover in s.pnodes
    ensures NamesOk(SetCover(NewMount(s, rootpb, tocover), tocover, s.nextPnode))
  {
    var u := SetCover(NewMount(s, rootpb, tocover), tocover, s.nextPnode);
    forall b, c | b in u.bases && c in u.bases && Namesakes(u.bases[b], u.bases[c]) ensures b == c {
      assert Namesakes(s.bases[b], s.bases[c]);
    }
  }

  /** Validating the new root and making its mount can be told in either order. */
  lemma MountSetIno(s: Ns, rootpb: nat, tocover: nat, ino: Option<Kind>)
    requires rootpb in s.bases && tocover in s.pnodes
    ensures SetIno(NewMount(s, rootpb, tocover), rootpb, ino) == NewMount(SetIno(s, rootpb, ino), rootpb, tocover)
  {
    assert SetIno(NewMount(s, rootpb, tocover), rootpb, ino).bases ==
      NewMount(SetIno(s, rootpb, ino), rootpb, tocover).bases;
  }

  // ---------------------------------------------------------------- unmounting

  /** The covered node loses its cover and the mount's reference; the root its last reference. */
  function Uncover(s: Ns, v: nat, r: nat): Ns
    requires v in s.pnodes && r in s.pnodes && s.pnodes[v].ref > 0
  {
    s.(pnodes := s.pnodes[v := s.pnodes[v].(ref := s.pnodes[v].ref - 1, cover := None)]
                         [r := s.pnodes[r].(ref := 0, cover := None)])
  }

  /** Only the root of mount `m` is left in it, uncovered and held by the mount alone. */
  ghost predicate Detachable(s: Ns, m: nat) {
    && Wf(s) && m in s.mounts && s.mounts[m].root != s.root && s.mounts[m].root in s.pnodes
    && s.pnodes[s.mounts[m].root].cover.None?
    && (forall p :: p in s.pnodes && s.pnodes[p].mount == m ==> p == s.mounts[m].root)
  }

  lemma DetachableFacts(s: Ns, m: nat)
    requires Detachable(s, m)
    ensures m in s.mounts
    ensures var r := s.mounts[m].root; var v := s.mounts[m].covers;
      && r in s.pnodes && IsRoot(s, r) && s.pnodes[r].mount == m && v in s.pnodes && s.pnodes[v].cover == Some(r)
      && v < r && s.pnodes[v].ref > 0 && s.pnodes[v].mount != m
      && s.pnodes[r].base in s.bases
      && (s.bases[s.pnodes[r].base].parent.Some? ==> s.bases[s.pnodes[r].base].parent.value in s.bases)
      && TreeOk(s)
  {
    hide Wf;
    WfParts(s);
    MountRoot(s, m);
    WfNode(s, s.mounts[m].root);
    WfNode(s, s.mounts[m].covers);
  }

  /** The last step of an unmount. */
  function Unmounted(s: Ns, m: nat): Ns
    requires Detachable(s, m)
  {
    hide Wf;
    DetachableFacts(s, m);
    PGone(Uncover(s, s.mounts[m].covers, s.mounts[m].root), s.mounts[m].root).(mounts := s.mounts - {m})
  }

  lemma UncoverTree(s: Ns, m: nat)
    requires Detachable(s, m)
    ensures var r, v := s.mounts[m].root, s.mounts[m].covers;
      && r in s.pnodes && v in s.pnodes && s.pnodes[v].ref > 0
      && var u := Uncover(s, v, r);
      && TreeOk(u) && Childless(u, r) && IsRoot(u, r) && u.pnodes[r].mount == m && u.pnodes[r].base in u.bases
      && (forall p :: p in u.pnodes && u.pnodes[p].mount == m ==> p == r)
      && u.bases == s.bases && u.pnodes[r].base == s.pnodes[r].base
  {
    hide TreeOk, Wf;
    DetachableFacts(s, m);
    var r, v := s.mounts[m].root, s.mounts[m].covers;
    var u := Uncover(s, v, r);
    RelinkedTree(s, u);
    hide Relinked;
    forall q | q in u.pnodes && !IsRoot(u, q) ensures u.pnodes[q].parent != r {
      NodeFacts(u, q);
    }
  }

  lemma UnmountedTree(s: Ns, m: nat)
    requires Detachable(s, m)
    ensures TreeOk(Unmounted(s, m))
  {
    hide Detachable, TreeOk, Wf, BasesOk, NodesOk, RootsOk, Childless, BaseOk, NodeOk;
    DetachableFacts(s, m);
    UncoverTree(s, m);
    var r, v := s.mounts[m].root, s.mounts[m].covers;
    var u := Uncover(s, v, r);
    assert u.mounts == s.mounts;
    UnaliasOk(u, r);
    DropMount(u, r, m);
    var a := Unalias(u, r).(mounts := u.mounts - {m});
    var b := u.pnodes[r].base;
    hide Uncover, Unalias;
    if a.bases[b].aliases == [] && a.bases[b].children == [] {
      PbGoneOk(a, b);
      assert Unmounted(s, m) == PbGone(a, b);
    } else {
      assert Unmounted(s, m) == a;
    }
  }

  lemma DropMount(u: Ns, r: nat, m: nat)
    requires TreeOk(u) && r in u.pnodes && u.pnodes[r].mount == m && IsRoot(u, r) && u.pnodes[r].base in u.bases
    requires forall p :: p in u.pnodes && u.pnodes[p].mount == m ==> p == r
    requires BasesOk(Unalias(u, r)) && NodesOk(Unalias(u, r))
    ensures TreeOk(Unalias(u, r).(mounts := u.mounts - {m}))
  {
    hide TreeOk, BaseOk;
    var a := Unalias(u, r);
    var t := a.(mounts := u.mounts - {m});
    forall b | b in t.bases ensures BaseOk(t, b) { assert BaseOk(a, b); SameBaseOk(a, t, b); }
    forall p | p in t.pnodes ensures NodeOk(t, p) { assert NodeOk(a, p); }
    forall k | k in t.mounts
      ensures k < t.nextMount && t.mounts[k].root in t.pnodes && t.pnodes[t.mounts[k].root].mount == k
    {
      MountRoot(u, k);
    }
    hide NodeOk;
    TreeFrom(t);
  }

  lemma SameBaseOk(a: Ns, t: Ns, b: nat)
    requires b in a.bases && BaseOk(a, b) && t == a.(mounts := t.mounts)
    ensures BaseOk(t, b)
  {
  }

  /** What an unmount leaves: the mount and its root are gone, the covered node is uncovered. */
  lemma UnmountedIs(s: Ns, m: nat)
    requires Detachable(s, m)
    ensures UnmountedAs(s, m)
  {
    hide Detachable, TreeOk, Wf;
    DetachableFacts(s, m);
    var r, v := s.mounts[m].root, s.mounts[m].covers;
    var f := Unmounted(s, m);
    assert f.pnodes == (s.pnodes - {r})[v := s.pnodes[v].(ref := s.pnodes[v].ref - 1, cover := None)];
  }

  ghost predicate UnmountedAs(s: Ns, m: nat)
    requires Detachable(s, m)
  {
    DetachableFacts(s, m);
    var r, v := s.mounts[m].root, s.mounts[m].covers;
    var f := Unmounted(s, m);
    && f.pnodes == (s.pnodes - {r})[v := s.pnodes[v].(ref := s.pnodes[v].ref - 1, cover := None)]
    && f.mounts == s.mounts - {m} && f.root == s.root && f.bases.Keys <= s.bases.Keys
    && (forall b :: b in f.bases ==> f.bases[b].name == s.bases[b].name && f.bases[b].parent == s.bases[b].parent)
  }

  lemma UnmountedWf(s: Ns, m: nat)
    requires Detachable(s, m)
    ensures Wf(Unmounted(s, m))
  {
    DetachableFacts(s, m);
    UnmountedTree(s, m);
    UnmountedIs(s, m);
    UnmountedShrunk(s, m);
    hide TreeOk, Shrunk, Unmounted, Wf;
    ShrunkOk(s, Unmounted(s, m));
  }

  lemma UnmountedShrunk(s: Ns, m: nat)
    requires Detachable(s, m) && UnmountedAs(s, m)
    ensures Shrunk(s, Unmounted(s, m))
  {
    hide TreeOk, Wf, Unmounted;
    DetachableFacts(s, m);
    var r, v, f := s.mounts[m].root, s.mounts[m].covers, Unmounted(s, m);
    TopIsRoot(s);
    forall p | p in f.pnodes
      ensures f.pnodes[p].mount in f.mounts && KeptNode(s.pnodes[p], f.pnodes[p])
    {
      MountThere(s, p);
    }
    forall p | p in f.pnodes && f.pnodes[p].cover.Some? ensures f.pnodes[p].cover.value in f.pnodes {
      CoverIsRoot(s, p);
    }
    forall p | p in f.pnodes && IsRoot(f, p) ensures CoverStands(f, f.mounts[f.pnodes[p].mount].covers, p) {
      RootIsCover(s, p);
    }
  }


  /** A prune that counts one, the root with one reference, leaves nothing else in the mount. */
  lemma UnmountReady(s: Ns, t: Ns, m: nat)
    requires Wf(s) && m in s.mounts && s.mounts[m].root in s.pnodes && s.mounts[m].root != s.root
    requires var r := s.mounts[m].root; s.pnodes[r].cover.None? && s.pnodes[r].ref > 0 && Pruned(s, t, r, 1)
    ensures Refs(s, s.mounts[m].root) == {s.mounts[m].root} && Detachable(t, m)
    ensures t.pnodes[s.mounts[m].root] == s.pnodes[s.mounts[m].root]
  {
    hide Wf, TreeOk, Pruned;
    var r := s.mounts[m].root;
    WfParts(s);
    MountRoot(s, m);
    PrunedWf(s, t, r, 1);
    PrunedFacts(s, t, r, 1);
    PrunedKeepsJoints(s, t, r, 1, r);
    OnlyRoot(s, t, r);
    forall p | p in t.pnodes && t.pnodes[p].mount == m ensures p == r {
      RootAbove(s, p);
      LeftAlone(s, t, r, p);
    }
  }

  lemma OnlyRoot(s: Ns, t: Ns, r: nat)
    requires r in s.pnodes && s.pnodes[r].ref > 0 && Pruned(s, t, r, 1)
    ensures Refs(s, r) == {r}
  {
    assert r in Refs(s, r);
    assert |Refs(s, r)| == 1;
    assert |Refs(s, r) - {r}| == 0;
  }

  lemma LeftAlone(s: Ns, t: Ns, r: nat, p: nat)
    requires r in s.pnodes && Pruned(s, t, r, 1) && Refs(s, r) == {r} && p in t.pnodes && Under(s, p, r)
    ensures p == r
  {
    hide TreeOk, Smaller, Outside, Under, Refs, Dead;
    if p != r {
      NotDead(s, t, r, p);
      var x := RefBelow(s, p, r);
      UnderAlive(s, r, p);
      UnderAlive(s, p, r);
    }
  }

  lemma NotDead(s: Ns, t: Ns, r: nat, p: nat)
    requires r in s.pnodes && Pruned(s, t, r, 1) && p in t.pnodes && p != r && Under(s, p, r)
    ensures p in s.pnodes && Refs(s, p) != {}
  {
    hide TreeOk, Outside, Under, Refs;
    SmallerNodes(s, t, Doomed(s, r));
    hide Smaller;
    assert p !in Doomed(s, r);
  }

  lemma RefBelow(s: Ns, p: nat, r: nat) returns (x: nat)
    requires Refs(s, p) != {} && Under(s, p, r)
    ensures x in Refs(s, r) && Under(s, x, p)
  {
    x :| x in Refs(s, p);
    UnderTrans(s, x, p, r);
  }

  /** The prune at the end of a failed mount removes no alias: the new root itself is a mount's root. */
  lemma FailedMount(s: Ns, t: Ns, r: nat, count: nat)
    requires TreeOk(s) && r in s.pnodes && IsRoot(s, r) && Kids(s, r) == {} && Pruned(s, t, r, count)
    ensures t.pnodes == s.pnodes
  {
    hide TreeOk, Outside, Under, Refs, Kids, Smaller, Dead;
    RefsSplit(s, r);
    assert DeadIn(s, {}) == {};
    hide DeadIn;
    assert Doomed(s, r) == {};
    SmallerNodes(s, t, {});
  }

  /** An alias whose mount record is gone. */
  lemma Dangling(s: Ns, r: nat)
    requires r in s.pnodes && s.pnodes[r].mount !in s.mounts
    ensures !Wf(s)
  {
    if Wf(s) { MountThere(s, r); }
  }
}
