/**
 * Two runs that end in an aborted rehash with an item out of place.  The table has one bucket
 * of two heads at one bit and two at two bits; the item with key 2 belongs to the first head
 * of bucket 0 at one bit and to the second at two.
 */
module HashExamples {
  import opened Prelude
  import opened HashTable
  import opened HashOps
  import opened HashRehash
  import opened HashSystem
  import opened HashSafety
  import opened HashTheorems
  import opened HashAbort

  function Modulo(k: Key, m: nat): nat { k % (m + 1) }

  function Small(): Config { Config(Modulo, 1, 2, 1, 300, 400, true, true, true, false, false) }

  function Item(): Node { Node(0, 2) }

  function Empty(): Head { Head([], None, 0) }

  /** Bucket 0 with the item on its first head. */
  function First(): Bucket { Bucket(0, 1, [Head([Item()], None, 0), Empty()]) }

  /** Bucket 0 with the item on its second head. */
  function Second(): Bucket { Bucket(0, 1, [Empty(), Head([Item()], None, 0)]) }

  function Bare(i: nat): Bucket { Bucket(i, 0, [Empty(), Empty()]) }

  /** The item on the first head of bucket 0. */
  function Chains(): map<nat, Bucket> { map[0 := First(), 1 := Bare(1)] }

  /** A table of one bit with `count` items, on its way to two bits or not. */
  function OneBit(store: map<nat, Bucket>, next: nat, count: nat, rehash: Option<seq<nat>>, target: nat, exiting: bool)
    : Table
  {
    Table(Small(), store, next, [0], rehash, 1, target, count, 0, false, exiting, 0)
  }

  /** A table of two bits that has grown once, on its way back to one or not. */
  function TwoBits(b: Bucket, rehash: Option<seq<nat>>, target: nat, exiting: bool): Table {
    Table(Small(), map[0 := b, 1 := Bare(1)], 2, [0, 1], rehash, 2, target, 1, 0, false, exiting, 1)
  }

  function Working(t: Table, w: Worker): Sys { Sys(t, w, false, false, false, map[]) }

  /** Growing from one bit, no bucket done yet, and the table is being destroyed. */
  function Growing(): Sys { Working(OneBit(Chains(), 2, 1, Some([0, 1]), 2, true), Moving(0, 1, 2)) }

  /** Shrinking from two bits, bucket 0 done, and the table is being destroyed. */
  function Shrinking(): Sys { Working(TwoBits(First(), Some([0]), 1, true), Moving(1, 2, 1)) }

  lemma Powers()
    ensures Pow2(0) == 1 && Pow2(1) == 2 && Pow2(2) == 4
    ensures ConfigOk(Small()) && NumBuckets(Small(), 1) == 1 && NumBuckets(Small(), 2) == 2 && NumHeads(Small()) == 2
  {
  }

  lemma Places()
    ensures Small().bktBits == 1
    ensures PosBucket(Small(), 1, 2) == 0 && PosOffset(Small(), 1, 2) == 0
    ensures PosBucket(Small(), 2, 2) == 0 && PosOffset(Small(), 2, 2) == 1
  {
    Powers();
  }

  // ---------------------------------------------------------------- the aborts

  /** A rehash between one and two bits, up or down, with the item on the first head and the destruction begun. */
  ghost predicate Halfway(s: Sys) {
    && !s.destroyed && s.w.Moving? && s.w.i < |s.t.buckets| && s.t.exiting && s.t.cfg == Small()
    && s.t.store == Chains() && Full(s.t) == [0, 1]
    && if Grows(s) then s.t.rehashBits == 2 else s.t.curBits == 2
  }

  /** The item is on the first head of bucket 0, in a table of two bits, where it does not belong. */
  ghost predicate OutOfPlace(u: Table) {
    Arrays(u) && u.curBits == 2 && Holds(u, 0, 0, Item()) && !InPlace(u, u.curBits, 0, 0, Item())
  }

  lemma Held(t: Table)
    requires t.store == Chains() && Full(t) == [0, 1] && t.cfg == Small() && Arrays(t)
    ensures Holds(t, 0, 0, Item())
  {
    Powers();
    hide Arrays;
  }

  lemma Misplaced(s: Sys)
    requires Inv(s) && Halfway(s)
    ensures Aborting(s) && Asserted(s, EvMove) && OutOfPlace(MoveStep(s).t)
  {
    hide Chains, Inv, Arrays, Holds, PosBucket, PosOffset, RehashBucket, Shape, Located, Processed, Small;
    AbortParts(s);
    AbortLeaves(s, 0, 0, Item());
    Held(s.t);
    Places();
  }

  // ---------------------------------------------------------------- runs that get there

  /** The step leads from the one state to the other. */
  ghost predicate Leads(s: Sys, e: Event, s': Sys) {
    Inv(s) ==> Enabled(s, e) && Asserted(s, e) && Step(s, e) == s'
  }

  ghost predicate Path(ss: seq<Sys>, es: seq<Event>) {
    |ss| == |es| + 1 && forall k :: 0 <= k < |es| ==> Leads(ss[k], es[k], ss[k + 1])
  }

  lemma PathJoin(ss: seq<Sys>, es: seq<Event>, ts: seq<Sys>, ds: seq<Event>)
    requires Path(ss, es) && Path([ss[|es|]] + ts, ds)
    ensures Path(ss + ts, es + ds)
  {
    hide Leads;
    var us := [ss[|es|]] + ts;
    forall k | 0 <= k < |es + ds| ensures Leads((ss + ts)[k], (es + ds)[k], (ss + ts)[k + 1]) {
      if k >= |es| { assert Leads(us[k - |es|], ds[k - |es|], us[k - |es| + 1]); }
    }
  }

  lemma {:induction false} PathInv(c: Config, ss: seq<Sys>, es: seq<Event>, k: nat)
    requires ConfigOk(c) && Path(ss, es) && k < |ss| && ss[0] == InitialSys(c)
    ensures Inv(ss[k])
  {
    hide Inv, Enabled, Asserted, Step, InitialSys;
    if k == 0 {
      InitialInv(c);
    } else {
      PathInv(c, ss, es, k - 1);
      assert Leads(ss[k - 1], es[k - 1], ss[k]);
      StepKeeps(ss[k - 1], es[k - 1]);
    }
  }

  lemma PathRun(c: Config, ss: seq<Sys>, es: seq<Event>)
    requires ConfigOk(c) && Path(ss, es) && ss[0] == InitialSys(c)
    ensures Run(c, ss, es)
  {
    hide Inv, Enabled, Asserted, Step, InitialSys;
    forall k | 0 <= k < |es| ensures Next(ss[k], es[k], ss[k + 1]) {
      PathInv(c, ss, es, k);
      assert Leads(ss[k], es[k], ss[k + 1]);
    }
  }

  function Before(): Table { OneBit(map[0 := Bare(0)], 1, 0, None, 0, false) }

  function Loaded(target: nat): Table { OneBit(map[0 := First()], 1, 1, None, target, false) }

  function Starts(): seq<Sys> {
    [Working(Before(), Idle),
     Working(Loaded(0), Idle),
     Working(Loaded(2), Idle).(scheduled := true),
     Working(Loaded(2), Popped),
     Working(Loaded(2), Sized(1, 2)),
     Working(OneBit(Chains(), 2, 1, None, 2, false), Alloced(Some([0, 1]), 1, 2)),
     Working(OneBit(Chains(), 2, 1, Some([0, 1]), 2, false), Moving(0, 1, 2))]
  }

  function StartEvents(): seq<Event> { [EvAdd(Item()), EvRequest, EvPop, EvReadSizes, EvAlloc(true), EvInstall] }

  function Returns(): seq<Sys> {
    [Working(OneBit(map[0 := Second(), 1 := Bare(1)], 2, 1, Some([0, 1]), 2, false), Moving(1, 1, 2)),
     Working(TwoBits(Second(), None, 0, false), Freeing(Some([0]), 2, 1)),
     Working(TwoBits(Second(), None, 0, false), Idle),
     Working(TwoBits(Second(), None, 1, false), Idle).(scheduled := true),
     Working(TwoBits(Second(), None, 1, false), Popped),
     Working(TwoBits(Second(), None, 1, false), Sized(2, 1)),
     Working(TwoBits(Second(), None, 1, false), Alloced(Some([0]), 2, 1)),
     Working(TwoBits(Second(), Some([0]), 1, false), Moving(0, 2, 1)),
     Working(TwoBits(First(), Some([0]), 1, false), Moving(1, 2, 1))]
  }

  function ReturnEvents(): seq<Event> {
    [EvMove, EvMove, EvFree, EvRequest, EvPop, EvReadSizes, EvAlloc(true), EvInstall, EvMove]
  }

  lemma BareHeads()
    ensures EmptyHeads(Small()) == [Empty(), Empty()]
  {
    Powers();
  }

  lemma BareStore()
    ensures NewStore(map[], Small(), 0, 0, 1) == map[0 := Bare(0)] && NewNames([], 0, 1) == [0]
  {
    BareHeads();
    hide EmptyHeads;
    assert FreshBucket(Small(), 0, 0, 0) == Bare(0);
    assert [] + seq(1, k => 0 + k) == [0];
  }

  lemma Initially()
    ensures InitialSys(Small()) == Starts()[0]
  {
    Powers();
    BareStore();
    hide NewStore, NewNames, Pow2, NumBuckets;
  }

  /** What every state of the two runs has in common before the table is destroyed. */
  ghost predicate Quiet(s: Sys) {
    && !s.destroyed && !s.exited && s.iters == map[]
    && s.t.cfg == Small() && !s.t.exiting && !IsIterating(s.t)
  }

  lemma PopLeads(s: Sys)
    requires Quiet(s) && s.scheduled && s.w.Idle?
    ensures Leads(s, EvPop, s.(scheduled := false, w := Popped))
  {
    hide Inv, Shape;
    if Inv(s) { Parts(s); }
  }

  lemma SizesLead(s: Sys)
    requires Quiet(s) && s.w.Popped? && 1 <= s.t.curBits && 1 <= s.t.rehashBits
    ensures Leads(s, EvReadSizes, s.(w := Sized(Pow2(s.t.curBits - 1), Pow2(s.t.rehashBits - 1))))
  {
    hide Inv, Shape;
    if Inv(s) { Parts(s); }
  }

  lemma DestroyLeads(s: Sys)
    requires Quiet(s)
    ensures Leads(s, EvDestroy, s.(t := s.t.(exiting := true)))
  {
    hide Inv, Shape;
    if Inv(s) { Parts(s); }
  }

  lemma RequestLeads(s: Sys, bits: nat)
    requires Quiet(s) && TargetBits(s.t) == bits > 0
    ensures Leads(s, EvRequest, s.(t := s.t.(rehashBits := bits), scheduled := true))
  {
    hide Inv, Shape, TargetBits;
    if Inv(s) { Parts(s); }
  }

  lemma AllocLeads(s: Sys, u: Table, bkts: seq<nat>)
    requires Quiet(s) && s.w.Sized? && s.w.oldSize == |s.t.buckets|
    requires Realloc(s.t, s.w.oldSize, s.w.newSize) == (u, bkts)
    ensures Leads(s, EvAlloc(true), s.(t := u, w := Alloced(Some(bkts), s.w.oldSize, s.w.newSize)))
  {
    hide Inv, Shape, Realloc;
    if Inv(s) { Parts(s); }
  }

  lemma InstallLeads(s: Sys)
    requires Quiet(s) && s.w.Alloced? && s.w.bkts.Some? && s.w.bkts.value != s.t.buckets
    requires s.t.rehashBuckets.None? && !(s.t.cfg.minTheta <= Theta(s.t) <= s.t.cfg.maxTheta)
    ensures Leads(s, EvInstall,
      s.(t := s.t.(rehashBuckets := s.w.bkts), w := Moving(0, s.w.oldSize, s.w.newSize)))
  {
    hide Inv, Shape, Theta;
    if Inv(s) { Parts(s); }
  }

  lemma AddLeads(s: Sys, n: Node, u: Table)
    requires Quiet(s) && (Shape(s.t) ==> n !in Items(s.t) && Add(s.t, n) == u)
    ensures Leads(s, EvAdd(n), s.(t := u))
  {
    hide Inv, Shape, Add;
    if Inv(s) { Parts(s); }
  }

  lemma Load()
    ensures Leads(Starts()[0], EvAdd(Item()), Starts()[1])
  {
    hide Leads, Shape, Add, Items;
    var t := Before();
    if Shape(t) {
      NoItems(t);
      LoadAdds(t);
    }
    hide Before;
    AddLeads(Working(t, Idle), Item(), Loaded(0));
  }

  lemma NoItems(t: Table)
    requires Shape(t) && t.cfg.counter && t.count == 0
    ensures Items(t) == multiset{}
  {
    hide Arrays, Items;
  }

  /** An addition in front of a chain, for a table that keeps neither tails nor depths. */
  lemma AddAt(t: Table, n: Node, bd: Bd)
    requires Shape(t) && n !in Items(t) && t.cfg == Small() && BdGet(t, n.key) == bd
    ensures bd.bkt in t.store && bd.off < |t.store[bd.bkt].heads|
    ensures var h := t.store[bd.bkt].heads[bd.off];
      Add(t, n) == SetHead(t, bd, h.(chain := [n] + h.chain), 1).(count := t.count + 1)
  {
    hide Arrays, BdGet;
    DualBdLive(t, n.key);
  }

  lemma LoadAdds(t: Table)
    requires Shape(t) && Items(t) == multiset{} && t == Before()
    ensures Add(t, Item()) == Loaded(0)
  {
    hide Shape, Items, Add, SetHead;
    LoadPlace(t);
    AddAt(t, Item(), Bd(0, 0));
    LoadSets();
  }

  lemma LoadPlace(t: Table)
    requires Shape(t) && t.cfg == Small() && t.buckets == [0] && t.rehashBuckets.None? && t.curBits == 1
    ensures Arrays(t) && BdGet(t, 2) == Bd(0, 0)
  {
    Places();
    ShapeArrays(t);
    hide Arrays, Shape, PosBucket, PosOffset;
  }

  lemma LoadSets()
    ensures SetHead(Before(), Bd(0, 0), Empty().(chain := [Item()] + []), 1).(count := 1) == Loaded(0)
  {
    assert [Item()] + [] == [Item()];
    assert [Empty(), Empty()][0 := Head([Item()], None, 0)] == [Head([Item()], None, 0), Empty()];
    assert map[0 := Bare(0)][0 := First()] == map[0 := First()];
  }

  lemma Loads(t: Table)
    requires t.count == 1 && 1 <= t.curBits <= 2
    ensures Theta(t) == if t.curBits == 1 then 512 else 256
  {
    assert Pow2(5) == 32 && Pow2(10) == 2 * (2 * (2 * (2 * (2 * Pow2(5)))));
    Powers();
    hide Pow2;
  }

  lemma Requests()
    ensures TargetBits(Loaded(0)) == 2 && TargetBits(TwoBits(Second(), None, 0, false)) == 1
  {
    Loads(Loaded(0));
    Loads(TwoBits(Second(), None, 0, false));
    hide Theta;
  }

  lemma GrowAllocs()
    ensures Realloc(Loaded(2), 1, 2) == (OneBit(Chains(), 2, 1, None, 2, false), [0, 1])
  {
    BareHeads();
    hide EmptyHeads;
    assert FreshBucket(Small(), 1, 1, 1) == Bare(1);
    assert [0] + seq(1, k => 1 + k) == [0, 1];
    assert NewStore(map[0 := First()], Small(), 1, 1, 1) == Chains();
  }

  lemma ShrinkAllocs()
    ensures var t := TwoBits(Second(), None, 1, false); Realloc(t, 2, 1) == (t, [0])
  {
    var t := TwoBits(Second(), None, 1, false);
    assert [0, 1][..1] == [0];
    assert NewStore(t.store, Small(), 2, 2, 0) == t.store;
  }

  lemma MoveLeads(s: Sys, u: Table)
    requires Quiet(s) && s.w.Moving? && s.t.rehashBuckets.Some? && s.w.i < |s.t.buckets|
    requires Shape(s.t) ==> RehashBucket(s.t, s.w.i) == u
    ensures Leads(s, EvMove, s.(t := u, w := s.w.(i := s.w.i + 1)))
  {
    hide Inv, Shape, RehashBucket;
    if Inv(s) { Parts(s); }
  }

  lemma FinishLeads(s: Sys)
    requires Quiet(s) && s.w.Moving? && s.t.rehashBuckets.Some? && s.w.i == |s.t.buckets|
    ensures Leads(s, EvMove, Out(s, Swap(s.t), false, Some(s.t.buckets), s.w.newSize, s.w.oldSize))
  {
    hide Inv, Shape, RehashBucket;
    if Inv(s) { Parts(s); }
  }

  lemma FreeLeads(s: Sys)
    requires Quiet(s) && s.w.Freeing? && Freed(s.w.bkts, s.w.lo, s.w.hi) == {}
    ensures Leads(s, EvFree, s.(w := Idle))
  {
    hide Inv, Shape, Freed;
    NothingFreed(s.t.store, Freed(s.w.bkts, s.w.lo, s.w.hi));
    if Inv(s) { Parts(s); }
  }

  lemma NothingFreed(m: map<nat, Bucket>, gone: set<nat>)
    requires gone == {}
    ensures m - gone == m
  {
  }

  // ---------------------------------------------------------------- the two moves

  /** The only node of one head moved to an empty head of the same bucket. */
  lemma MoveAt(t: Table, b: nat, o: nat, p: nat, n: Node)
    requires Shape(t) && t.cfg == Small() && Live(t, Bd(b, o)) && Live(t, Bd(b, p)) && o != p
    requires ChainAt(t, Bd(b, o)) == [n] && ChainAt(t, Bd(b, p)) == []
    ensures var k := t.store[b];
      BdMove(t, Bd(b, o), Bd(b, p), n) ==
        t.(store := t.store[b := k.(heads := k.heads[o := k.heads[o].(chain := [])][p := k.heads[p].(chain := [n])])])
  {
    hide Arrays;
    UnlinkThenLink(t, Bd(b, o), Bd(b, p), n);
    hide Shape, Live;
    var k := t.store[b];
    assert HnodeDel(t.cfg, k.heads[o], n) == k.heads[o].(chain := []);
    var u := Unlink(t, Bd(b, o), n);
    assert [n] + [] == [n];
    assert HnodeAdd(t.cfg, k.heads[p], n) == k.heads[p].(chain := [n]);
  }

  /** A table of the runs in the middle of a rehash, with the item where `b` has it. */
  ghost predicate Mid(t: Table, b: Bucket, bits: nat) {
    && Rehashing(t, 0) && t.cfg == Small() && t.buckets[0] == 0 && |t.rehashBuckets.value| > 0
    && t.rehashBuckets.value[0] == 0 && t.rehashBits == bits && 0 in t.store && t.store[0] == b
  }

  lemma MidHeads(t: Table, b: Bucket, bits: nat, o: nat)
    requires Mid(t, b, bits) && (b == First() || b == Second()) && o < 2
    ensures NumHeads(t.cfg) == 2 && t.cfg.bktBits == 1 && |t.rehashBuckets.value| == NumBuckets(t.cfg, t.rehashBits)
    ensures Live(t, Bd(0, o)) && ChainAt(t, Bd(0, o)) == b.heads[o].chain
  {
    Powers();
    WalkedLive(t, 0, o);
  }

  /** A head whose nodes are all at home. */
  lemma HeadStays(t: Table, b: Bucket, bits: nat, o: nat)
    requires Mid(t, b, bits) && (b == First() || b == Second()) && o < 2
    requires b.heads[o].chain == [] ||
      (b.heads[o].chain == [Item()] && 1 <= bits <= 2 && PosBucket(Small(), bits, 2) == 0 &&
       PosOffset(Small(), bits, 2) == o)
    ensures 0 in t.store && t.buckets[0] == 0 && NumHeads(t.cfg) == 2 && o < |t.store[0].heads| &&
      RehashChain(t, 0, o, 0) == t
  {
    MidHeads(t, b, bits, o);
    hide Shape, PosBucket, PosOffset, Live;
    if b.heads[o].chain != [] {
      var dst := WalkStep(t, 0, o, 0);
      assert dst == Bd(0, o);
    }
  }

  /** The move of the only node to the other head. */
  lemma MoveOver(t: Table, b: Bucket, bits: nat, o: nat, u: Table)
    requires Mid(t, b, bits) && o < 2 && b == (if o == 0 then First() else Second())
    requires u == t.(store := t.store[0 := if o == 0 then Second() else First()])
    ensures Live(t, Bd(0, o)) && Live(t, Bd(0, 1 - o)) && ChainAt(t, Bd(0, o)) == [Item()]
    ensures BdMove(t, Bd(0, o), Bd(0, 1 - o), Item()) == u
  {
    MidHeads(t, b, bits, o);
    MidHeads(t, b, bits, 1 - o);
    hide Arrays, Live, BdMove;
    MoveAt(t, 0, o, 1 - o, Item());
    Flipped(b, o);
  }

  /** A head whose only node belongs to the other head. */
  lemma HeadMoves(t: Table, b: Bucket, bits: nat, o: nat, u: Table)
    requires Mid(t, b, bits) && o < 2 && b == (if o == 0 then First() else Second())
    requires 1 <= bits <= 2 && PosBucket(Small(), bits, 2) == 0 && PosOffset(Small(), bits, 2) == 1 - o
    requires u == t.(store := t.store[0 := if o == 0 then Second() else First()])
    ensures Mid(u, u.store[0], bits) && NumHeads(t.cfg) == 2 && o < |t.store[0].heads| && RehashChain(t, 0, o, 0) == u
  {
    hide Arrays, Shape, PosBucket, PosOffset, Live, BdMove, RehashChain, Items;
    MidHeads(t, b, bits, o);
    MoveOver(t, b, bits, o, u);
    var dst := WalkStep(t, 0, o, 0);
    assert dst == Bd(0, 1 - o);
    NoneLeft(u, o);
  }

  lemma Flipped(b: Bucket, o: nat)
    requires o < 2 && b == (if o == 0 then First() else Second())
    ensures b.(heads := b.heads[o := b.heads[o].(chain := [])][1 - o := b.heads[1 - o].(chain := [Item()])]) ==
      if o == 0 then Second() else First()
  {
  }

  lemma NoneLeft(t: Table, o: nat)
    requires Rehashing(t, 0) && o < NumHeads(t.cfg) && t.buckets[0] in t.store && o < |t.store[t.buckets[0]].heads|
    requires ChainAt(t, Bd(t.buckets[0], o)) == []
    ensures RehashChain(t, 0, o, 0) == t
  {
    hide Shape;
  }

  lemma BothHeads(t: Table, u: Table, v: Table)
    requires Rehashing(t, 0) && NumHeads(t.cfg) == 2 && t.buckets[0] in t.store && |t.store[t.buckets[0]].heads| == 2
    requires RehashChain(t, 0, 0, 0) == u && Rehashing(u, 0) && u.cfg == t.cfg
    requires u.buckets[0] in u.store && |u.store[u.buckets[0]].heads| == 2 && RehashChain(u, 0, 1, 0) == v
    requires Rehashing(v, 0) && v.cfg == t.cfg
    ensures RehashBucket(t, 0) == v
  {
    hide Shape, RehashChain;
    assert RehashHeads(v, 0, 2) == v;
    assert RehashHeads(u, 0, 1) == RehashHeads(v, 0, 2);
  }

  /** At two bits the item belongs to the second head, at one bit to the first. */
  lemma MidMoves(t: Table, grows: bool, u: Table)
    requires Mid(t, if grows then First() else Second(), if grows then 2 else 1)
    requires u == t.(store := t.store[0 := if grows then Second() else First()])
    ensures RehashBucket(t, 0) == u
  {
    hide Shape, RehashChain, RehashBucket, PosBucket, PosOffset;
    Places();
    if grows {
      HeadMoves(t, First(), 2, 0, u);
      HeadStays(u, Second(), 2, 1);
      BothHeads(t, u, u);
    } else {
      HeadStays(t, Second(), 1, 0);
      HeadMoves(t, Second(), 1, 1, u);
      BothHeads(t, t, u);
    }
  }

  lemma GrowMoves(t: Table)
    requires Shape(t) && t == OneBit(Chains(), 2, 1, Some([0, 1]), 2, false)
    ensures RehashBucket(t, 0) == OneBit(map[0 := Second(), 1 := Bare(1)], 2, 1, Some([0, 1]), 2, false)
  {
    hide Shape, RehashBucket;
    assert Mid(t, First(), 2);
    var u := t.(store := t.store[0 := Second()]);
    assert Chains()[0 := Second()] == map[0 := Second(), 1 := Bare(1)];
    hide Mid;
    MidMoves(t, true, u);
  }

  lemma ShrinkMoves(t: Table)
    requires Shape(t) && t == TwoBits(Second(), Some([0]), 1, false)
    ensures RehashBucket(t, 0) == TwoBits(First(), Some([0]), 1, false)
  {
    hide Shape, RehashBucket;
    assert Mid(t, Second(), 1);
    var u := t.(store := t.store[0 := First()]);
    assert t.store[0 := First()] == map[0 := First(), 1 := Bare(1)];
    hide Mid;
    MidMoves(t, false, u);
  }

  // ---------------------------------------------------------------- the two runs

  lemma StartLeads(k: nat)
    requires k < 6
    ensures Leads(Starts()[k], StartEvents()[k], Starts()[k + 1])
  {
    hide Leads, Realloc, TargetBits, Theta, Chains, First;
    var s := Starts()[k];
    assert Powers1() by { Powers(); }
    match k
    case 0 => Load();
    case 1 => Requests(); RequestLeads(s, 2);
    case 2 => PopLeads(s);
    case 3 => SizesLead(s);
    case 4 => GrowAllocs(); AllocLeads(s, OneBit(Chains(), 2, 1, None, 2, false), [0, 1]);
    case 5 => Loads(s.t); InstallLeads(s);
  }

  predicate Powers1() { Pow2(0) == 1 && Pow2(1) == 2 }

  lemma ReturnLeads(k: nat)
    requires k < 9
    ensures Leads(if k == 0 then Starts()[6] else Returns()[k - 1], ReturnEvents()[k], Returns()[k])
  {
    hide Leads, Realloc, TargetBits, Theta, Chains, First, Shape, RehashBucket;
    var s := if k == 0 then Starts()[6] else Returns()[k - 1];
    assert Powers1() by { Powers(); }
    match k
    case 0 => if Shape(s.t) { GrowMoves(s.t); } MoveLeads(s, Returns()[0].t);
    case 1 => FinishLeads(s);
    case 2 => FreeLeads(s);
    case 3 => Requests(); RequestLeads(s, 1);
    case 4 => PopLeads(s);
    case 5 => SizesLead(s);
    case 6 => ShrinkAllocs(); AllocLeads(s, s.t, [0]);
    case 7 => Loads(s.t); InstallLeads(s);
    case 8 => if Shape(s.t) { ShrinkMoves(s.t); } MoveLeads(s, Returns()[8].t);
  }

  /** The run that ends with a growing rehash aborted before its first bucket. */
  function GrowRun(end: Sys): seq<Sys> { Starts() + [Growing(), end] }

  function GrowEvents(): seq<Event> { StartEvents() + [EvDestroy, EvMove] }

  /** The run that grows, shrinks again, and is aborted after bucket 0. */
  function ShrinkRun(end: Sys): seq<Sys> { Starts() + Returns() + [Shrinking(), end] }

  function ShrinkEvents(): seq<Event> { StartEvents() + ReturnEvents() + [EvDestroy, EvMove] }

  lemma AbortLeads(s: Sys)
    requires Aborting(s) && Asserted(s, EvMove)
    ensures Leads(s, EvMove, MoveStep(s)) && MoveStep(s).exited
  {
    hide Inv, Shape, RehashBucket;
    Parts(s);
  }

  lemma StartPath()
    ensures Path(Starts(), StartEvents())
  {
    hide Leads;
    forall k | 0 <= k < 6 ensures Leads(Starts()[k], StartEvents()[k], Starts()[k + 1]) { StartLeads(k); }
  }

  lemma ReturnPath()
    ensures Path([Starts()[6]] + Returns(), ReturnEvents())
  {
    hide Leads;
    var ss := [Starts()[6]] + Returns();
    forall k | 0 <= k < 9 ensures Leads(ss[k], ReturnEvents()[k], ss[k + 1]) { ReturnLeads(k); }
  }

  lemma DestroyedPath(ss: seq<Sys>, es: seq<Event>, s: Sys)
    requires Path(ss, es) && ss[0] == InitialSys(Small()) && Quiet(ss[|es|])
    requires s == ss[|es|].(t := ss[|es|].t.(exiting := true))
    ensures Path(ss + [s], es + [EvDestroy]) && Inv(s)
  {
    assert ConfigOk(Small()) by { Powers(); }
    hide Leads, Quiet, Inv, InitialSys;
    DestroyLeads(ss[|es|]);
    PathJoin(ss, es, [s], [EvDestroy]);
    PathInv(Small(), ss + [s], es + [EvDestroy], |es| + 1);
  }

  lemma AbortedRun(ss: seq<Sys>, es: seq<Event>, s: Sys)
    requires Path(ss, es) && ss[0] == InitialSys(Small()) && s == ss[|es|] && Aborting(s) && Asserted(s, EvMove)
    ensures Run(Small(), ss + [MoveStep(s)], es + [EvMove])
  {
    assert ConfigOk(Small()) by { Powers(); }
    hide Inv, Shape, RehashBucket, Pow2, Swap, Out;
    var u := MoveStep(s);
    AbortLeads(s);
    hide Leads, Aborting, Asserted, MoveStep, InitialSys, Run;
    PathJoin(ss, es, [u], [EvMove]);
    PathRun(Small(), ss + [u], es + [EvMove]);
  }

  /** A run up to the destruction, ended by the abort. */
  lemma EndRun(ss: seq<Sys>, es: seq<Event>, s: Sys)
    requires Path(ss, es) && ss[0] == InitialSys(Small()) && Quiet(ss[|es|])
    requires s == ss[|es|].(t := ss[|es|].t.(exiting := true)) && Halfway(s)
    ensures Aborting(s) && Asserted(s, EvMove) && Run(Small(), ss + [s, MoveStep(s)], es + [EvDestroy, EvMove])
    ensures MoveStep(s).exited && OutOfPlace(MoveStep(s).t)
  {
    hide Halfway, Aborting, OutOfPlace, Quiet, Run, Inv, InitialSys, Leads, RehashBucket, Shape;
    DestroyedPath(ss, es, s);
    Misplaced(s);
    AbortLeads(s);
    var u := MoveStep(s);
    hide Path, MoveStep;
    AbortedRun(ss + [s], es + [EvDestroy], s) by { PathEnds(ss + [s], es + [EvDestroy]); }
    assert ss + [s] + [u] == ss + [s, u] && es + [EvDestroy] + [EvMove] == es + [EvDestroy, EvMove];
  }

  lemma PathEnds(ss: seq<Sys>, es: seq<Event>)
    requires Path(ss, es)
    ensures |ss| == |es| + 1
  {
  }

  lemma GrowRuns()
    ensures var s := Growing();
      && Aborting(s) && Asserted(s, EvMove) && Run(Small(), GrowRun(MoveStep(s)), GrowEvents())
      && MoveStep(s).exited && OutOfPlace(MoveStep(s).t)
  {
    hide Aborting, Asserted, MoveStep, OutOfPlace, Path, Run;
    Initially();
    StartPath();
    EndRun(Starts(), StartEvents(), Growing());
  }

  lemma ShrinkRuns()
    ensures var s := Shrinking();
      && Aborting(s) && Asserted(s, EvMove) && Run(Small(), ShrinkRun(MoveStep(s)), ShrinkEvents())
      && MoveStep(s).exited && OutOfPlace(MoveStep(s).t)
  {
    hide Aborting, Asserted, MoveStep, OutOfPlace, Path, Run;
    Initially();
    StartPath();
    ReturnPath();
    PathJoin(Starts(), StartEvents(), Returns(), ReturnEvents());
    EndRun(Starts() + Returns(), StartEvents() + ReturnEvents(), Shrinking());
  }

  /**
   * Two runs from creation whose last step aborts a rehash: a growing one takes the new array, a
   * shrinking one gives it up, and both leave the item out of place.
   */
  lemma AbortsMisplace()
    ensures var s := Growing();
      && Aborting(s) && Asserted(s, EvMove) && Run(Small(), GrowRun(MoveStep(s)), GrowEvents())
      && MoveStep(s).exited && OutOfPlace(MoveStep(s).t)
    ensures var s := Shrinking();
      && Aborting(s) && Asserted(s, EvMove) && Run(Small(), ShrinkRun(MoveStep(s)), ShrinkEvents())
      && MoveStep(s).exited && OutOfPlace(MoveStep(s).t)
  {
    hide *;
    GrowRuns();
    ShrinkRuns();
  }
}
