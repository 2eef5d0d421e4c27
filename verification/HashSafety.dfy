/**
 * Every step of the hash system keeps the invariant, so it holds in every state of every
 * run; and the consequences of that for the table's contents, for freed buckets, for the
 * exits of the rehash worker and for iterations.
 */
module HashSafety {
  import opened Prelude
  import opened HashTable
  import opened HashOps
  import opened HashRefine
  import opened HashRehash
  import opened HashSystem

  // ---------------------------------------------------------------- frames

  /** Only buckets of the live arrays changed, and none came or went. */
  ghost predicate LiveOnly(t: Table, u: Table) {
    && u == t.(store := u.store, count := u.count)
    && u.store.Keys == t.store.Keys
    && (forall id :: id in t.store && id !in IdSet(Full(t)) ==> u.store[id] == t.store[id])
  }

  lemma LiveInSet(t: Table, bd: Bd)
    requires Arrays(t) && Live(t, bd)
    ensures bd.bkt in IdSet(Full(t))
  {
  }

  lemma LiveOnlySet(t: Table, bd: Bd, h: Head, delta: int, c: int)
    requires Arrays(t) && Live(t, bd)
    ensures LiveOnly(t, SetHead(t, bd, h, delta).(count := c))
    ensures LiveOnly(t, SetHead(t, bd, h, delta))
  {
    LiveInSet(t, bd);
    hide Arrays, Live;
  }

  lemma LiveOnlyTrans(t: Table, u: Table, v: Table)
    requires LiveOnly(t, u) && LiveOnly(u, v)
    ensures LiveOnly(t, v)
  {
    assert Full(u) == Full(t);
  }

  lemma LiveOnlyMove(t: Table, src: Bd, dst: Bd, n: Node)
    requires Shape(t) && Live(t, src) && Live(t, dst) && n in ChainAt(t, src)
    ensures LiveOnly(t, BdMove(t, src, dst, n))
  {
    if BdCompare(t, src, dst) != 0 {
      hide Arrays, LiveOnly;
      UnlinkThenLink(t, src, dst, n);
      var u := Unlink(t, src, n);
      LinkOk(u, dst, n);
      LiveOnlySet(t, src, HnodeDel(t.cfg, t.store[src.bkt].heads[src.off], n), -1, 0);
      LiveOnlySet(u, dst, HnodeAdd(t.cfg, u.store[dst.bkt].heads[dst.off], n), 1, 0);
      LiveOnlyTrans(t, u, BdMove(t, src, dst, n));
    } else {
      hide Arrays, Shape;
      LiveOnlyRefl(t);
    }
  }

  /** One turn of the walk: the table and the cursor it leaves. */
  lemma LiveOnlyOn(t: Table, i: nat, o: nat, k: nat) returns (u: Table, k': nat)
    requires Rehashing(t, i) && o < NumHeads(t.cfg)
    requires t.buckets[i] in t.store && o < |t.store[t.buckets[i]].heads| && k < |ChainAt(t, Bd(t.buckets[i], o))|
    ensures Rehashing(u, i) && u == t.(store := u.store) && LiveOnly(t, u)
    ensures u.buckets[i] in u.store && o < |u.store[u.buckets[i]].heads| && k' <= |ChainAt(u, Bd(u.buckets[i], o))|
    ensures |ChainAt(u, Bd(u.buckets[i], o))| - k' < |ChainAt(t, Bd(t.buckets[i], o))| - k
    ensures RehashChain(t, i, o, k) == RehashChain(u, i, o, k')
  {
    hide Arrays, BdMove, BdFromKey, RehashChain, LiveOnly, Items;
    var bd := Bd(t.buckets[i], o);
    var dst := WalkStep(t, i, o, k);
    if BdCompare(t, bd, dst) == 0 {
      u, k' := t, k + 1;
      LiveOnlyRefl(t);
    } else {
      u, k' := BdMove(t, bd, dst, ChainAt(t, bd)[k]), k;
      LiveOnlyMove(t, bd, dst, ChainAt(t, bd)[k]);
    }
  }

  lemma {:induction false} LiveOnlyChain(t: Table, i: nat, o: nat, k: nat)
    requires Rehashing(t, i) && o < NumHeads(t.cfg)
    requires t.buckets[i] in t.store && o < |t.store[t.buckets[i]].heads| && k <= |ChainAt(t, Bd(t.buckets[i], o))|
    ensures LiveOnly(t, RehashChain(t, i, o, k))
    decreases |ChainAt(t, Bd(t.buckets[i], o))| - k
  {
    hide Arrays, Shape, Items, LiveOnly;
    if k < |ChainAt(t, Bd(t.buckets[i], o))| {
      var u, k' := LiveOnlyOn(t, i, o, k);
      LiveOnlyChain(u, i, o, k');
      LiveOnlyTrans(t, u, RehashChain(t, i, o, k));
    } else {
      assert RehashChain(t, i, o, k) == t;
      LiveOnlyRefl(t);
    }
    hide RehashChain;
  }

  lemma LiveOnlyRefl(t: Table)
    ensures LiveOnly(t, t)
  {
  }

  lemma {:induction false} LiveOnlyHeads(t: Table, i: nat, o: nat)
    requires Rehashing(t, i) && o <= NumHeads(t.cfg)
    ensures LiveOnly(t, RehashHeads(t, i, o))
    decreases NumHeads(t.cfg) - o
  {
    hide Arrays, Shape, Items, LiveOnly, RehashChain;
    if o < NumHeads(t.cfg) {
      var u := LiveOnlyHead(t, i, o);
      LiveOnlyHeads(u, i, o + 1);
      LiveOnlyTrans(t, u, RehashHeads(t, i, o));
    } else {
      assert RehashHeads(t, i, o) == t;
      LiveOnlyRefl(t);
    }
    hide RehashHeads;
  }

  lemma LiveOnlyHead(t: Table, i: nat, o: nat) returns (u: Table)
    requires Rehashing(t, i) && o < NumHeads(t.cfg)
    ensures Rehashing(u, i) && u == t.(store := u.store) && LiveOnly(t, u)
    ensures RehashHeads(t, i, o) == RehashHeads(u, i, o + 1)
  {
    WalkedLive(t, i, o);
    hide Arrays, LiveOnly, RehashChain, Items;
    u := RehashChain(t, i, o, 0);
    RehashChainFrame(t, i, o, 0);
    LiveOnlyChain(t, i, o, 0);
  }

  lemma LiveOnlyAdd(t: Table, n: Node)
    requires Shape(t) && n !in Items(t)
    ensures LiveOnly(t, Add(t, n))
  {
    hide Arrays, LiveOnly, DualBdGet, BdGet, MultiFind;
    DualBdLive(t, n.key);
    BdAddOk(t, BdGet(t, n.key), n);
    var bd := BdGet(t, n.key);
    LiveOnlySet(t, bd, HnodeAdd(t.cfg, t.store[bd.bkt].heads[bd.off], n), 1,
                if t.cfg.counter then t.count + 1 else t.count);
  }

  lemma LiveOnlyDel(t: Table, key: Key, only: Option<Node>)
    requires Shape(t) && DelAllowed(t, key, only)
    ensures LiveOnly(t, Del(t, key, only).0)
  {
    hide Arrays, LiveOnly, DualBdGet, MultiFind;
    DualBdLive(t, key);
    var bds := DualBdGet(t, key);
    LiveOnlyRefl(t);
    if |bds| == 1 && only.Some? {
      var h := t.store[bds[0].bkt].heads[bds[0].off];
      LiveOnlySet(t, bds[0], HnodeDel(t.cfg, h, only.value), -1, if t.cfg.counter then t.count - 1 else t.count);
    } else {
      var f := MultiFind(t, bds, key, only);
      if f.Some? {
        var bd := f.value.0;
        var h := t.store[bd.bkt].heads[bd.off];
        LiveOnlySet(t, bd, HnodeDel(t.cfg, h, f.value.1), -1, if t.cfg.counter then t.count - 1 else t.count);
      }
    }
  }

  // ---------------------------------------------------------------- the invariant and its parts

  /** The invariant, taken apart. */
  lemma Parts(s: Sys)
    requires Inv(s) && !s.destroyed
    ensures Arrays(s.t) && Shape(s.t) && EmptyAt(s.t, Private(s.w))
    ensures s.t.store.Keys == IdSet(Full(s.t)) + Private(s.w) && IdSet(Full(s.t)) !! Private(s.w)
    ensures !s.exited ==> Located(s.t)
    ensures TargetOk(s.t) && WorkerOk(s) && ItersOk(s)
    ensures s.scheduled && !s.exited ==> s.t.rehashBits != 0
    ensures s.exited ==> s.t.exiting && s.t.rehashBits == 0
  {
    hide Arrays, Located, WorkerOk, ItersOk, TargetOk, EmptyAt, IdSet, Private;
  }

  /** The invariant, put together from its parts. */
  lemma Assemble(s: Sys)
    requires !s.destroyed && Arrays(s.t) && Shape(s.t)
    requires EmptyAt(s.t, Private(s.w))
    requires s.t.store.Keys == IdSet(Full(s.t)) + Private(s.w) && IdSet(Full(s.t)) !! Private(s.w)
    requires !s.exited ==> Located(s.t)
    requires TargetOk(s.t) && WorkerOk(s) && ItersOk(s)
    requires s.scheduled && !s.exited ==> s.t.rehashBits != 0
    requires s.exited ==> s.t.exiting && s.t.rehashBits == 0
    ensures Inv(s)
  {
    hide Shape, Arrays, Located, WorkerOk, ItersOk, TargetOk, EmptyAt, IdSet, Private;
  }

  // ---------------------------------------------------------------- steps of the users

  /** A change confined to live buckets keeps what concerns the worker's private ones. */
  lemma KeepLive(s: Sys, u: Table, iters: map<nat, Iter>)
    requires Inv(s) && !s.destroyed && LiveOnly(s.t, u) && Shape(u)
    requires !s.exited ==> Located(u)
    requires s.w.Moving? ==> Processed(u, s.w.i)
    requires ItersOk(s.(t := u, iters := iters))
    ensures Inv(s.(t := u, iters := iters))
  {
    var t := s.t;
    assert Full(u) == Full(t);
    forall id | id in Private(s.w) ensures id in u.store && u.store[id] == t.store[id] {
    }
    if s.w.Alloced? && s.w.bkts.Some? {
      var b := s.w.bkts.value;
      forall k | s.w.oldSize <= k < s.w.newSize
        ensures b[k] in u.store && BucketOk(u.cfg, u.store[b[k]], k)
      {
        assert b[k] in Private(s.w);
      }
    }
  }

  /** An iteration's books carry over when its recorded nodes are still in the table. */
  lemma IterFrame(t: Table, u: Table, it: Iter, it': Iter)
    requires Arrays(t) && Arrays(u) && u.cfg == t.cfg && u.curBits == t.curBits && |u.buckets| == |t.buckets|
    requires IterOk(t, it) && it'.Visiting? == it.Visiting?
    requires it.Visiting? ==> it'.pos == it.pos && it'.visited == it.visited && it'.stayed <= it.stayed
    requires it.Visiting? ==> forall n :: n in it'.stayed ==> n in Items(u)
    ensures IterOk(u, it')
  {
    hide Arrays, Items, PosBucket;
  }

  lemma AddProgress(s: Sys)
    requires Arrays(s.t) && WorkerOk(s)
    ensures Progress(s.t, if s.w.Moving? then s.w.i else 0)
  {
    hide Arrays;
  }

  lemma AddIters(s: Sys, u: Table, n: Node)
    requires Arrays(s.t) && Arrays(u) && ItersOk(s) && LiveOnly(s.t, u) && Items(u) == Items(s.t) + multiset{n}
    ensures ItersOk(s.(t := u))
  {
    hide Arrays;
    forall k | k in s.iters ensures IterOk(u, s.iters[k]) {
      IterFrame(s.t, u, s.iters[k], s.iters[k]);
    }
    hide Items, IterOk;
  }

  lemma KeepAdd(s: Sys, n: Node)
    requires Inv(s) && Enabled(s, EvAdd(n)) && Asserted(s, EvAdd(n))
    ensures Inv(Step(s, EvAdd(n)))
    ensures !s.t.exiting && Items(Step(s, EvAdd(n)).t) == Items(s.t) + multiset{n}
  {
    hide Inv, Arrays, Located, ItersOk, TargetOk, SharedPrefix, Processed, EmptyAt, IdSet, LiveOnly, PendingOk;
    Parts(s);
    var upto := if s.w.Moving? then s.w.i else 0;
    AddProgress(s);
    AddedInPlace(s.t, n, upto);
    LiveOnlyAdd(s.t, n);
    var u := Add(s.t, n);
    assert Step(s, EvAdd(n)) == s.(t := u);
    hide Step, Enabled, Asserted, Add, WorkerOk;
    AddIters(s, u, n);
    KeepLive(s, u, s.iters);
  }

  lemma KeepFindAdd(s: Sys, n: Node)
    requires Inv(s) && Enabled(s, EvFindAdd(n)) && Asserted(s, EvFindAdd(n))
    ensures Inv(Step(s, EvFindAdd(n)))
  {
    var upto := if s.w.Moving? then s.w.i else 0;
    FindOrAddRefines(s.t, n, upto);
    if !HasKey(Items(s.t), n.key) {
      KeepAdd(s, n);
      assert Step(s, EvFindAdd(n)) == Step(s, EvAdd(n));
    }
  }

  lemma DepartIter(t: Table, u: Table, it: Iter, it': Iter, n: Node)
    requires Arrays(t) && Arrays(u) && u.cfg == t.cfg && u.curBits == t.curBits && |u.buckets| == |t.buckets|
    requires Items(u) == Items(t) - multiset{n} && IterOk(t, it)
    requires it' == if it.Visiting? then it.(stayed := it.stayed - {n}) else it
    ensures IterOk(u, it')
  {
    hide Arrays;
    IterFrame(t, u, it, it');
  }

  lemma DepartEntries(iters: map<nat, Iter>, gone: set<Node>)
    ensures Depart(iters, gone).Keys == iters.Keys && |Depart(iters, gone)| == |iters|
    ensures forall k :: k in iters ==>
      Depart(iters, gone)[k] == if iters[k].Visiting? then iters[k].(stayed := iters[k].stayed - gone) else iters[k]
    ensures iters == map[] ==> Depart(iters, gone) == map[]
  {
    var d := Depart(iters, gone);
    assert d.Keys == iters.Keys;
    assert |d.Keys| == |d| && |iters.Keys| == |iters|;
  }

  lemma DepartOk(s: Sys, u: Table, n: Node)
    requires Arrays(s.t) && Arrays(u) && ItersOk(s) && u == s.t.(store := u.store, count := u.count)
    requires Items(u) == Items(s.t) - multiset{n} && (forall m :: Items(s.t)[m] <= 1)
    ensures ItersOk(s.(t := u, iters := Depart(s.iters, {n})))
  {
    hide Arrays, Depart, Items;
    var iters := Depart(s.iters, {n});
    DepartEntries(s.iters, {n});
    forall k | k in iters ensures IterOk(u, iters[k]) {
      DepartIter(s.t, u, s.iters[k], iters[k], n);
    }
    hide IterOk;
  }

  lemma KeepDel(s: Sys, key: Key, only: Option<Node>)
    requires Inv(s) && Enabled(s, EvDel(key, only)) && Asserted(s, EvDel(key, only))
    ensures Inv(Step(s, EvDel(key, only)))
  {
    hide Inv, Arrays, Located, ItersOk, TargetOk, SharedPrefix, Processed, EmptyAt, IdSet, LiveOnly, PendingOk, Del;
    Parts(s);
    var upto := if s.w.Moving? then s.w.i else 0;
    AddProgress(s);
    DelRefines(s.t, key, only, upto);
    LiveOnlyDel(s.t, key, only);
    var (u, r) := Del(s.t, key, only);
    var iters := if r.Some? then Depart(s.iters, {r.value}) else s.iters;
    assert Step(s, EvDel(key, only)) == s.(t := u, iters := iters);
    hide Step, Enabled, Asserted, WorkerOk, Depart;
    if r.Some? {
      DelFrame(s.t, key, only);
      DepartOk(s, u, r.value);
      KeepLive(s, u, iters);
    }
  }

  lemma DelFrame(t: Table, key: Key, only: Option<Node>)
    requires Shape(t) && DelAllowed(t, key, only)
    ensures var u := Del(t, key, only).0; u == t.(store := u.store, count := u.count)
  {
    hide Arrays, Live;
  }

  // ---------------------------------------------------------------- steps of the worker

  lemma {:induction false} EmptyHeadsHold(hs: seq<Head>)
    requires forall o :: 0 <= o < |hs| ==> hs[o].chain == []
    ensures HeadsItems(hs) == multiset{}
    decreases |hs|
  {
    if |hs| == 0 {
    } else {
      EmptyHeadsHold(hs[..|hs| - 1]);
    }
  }

  lemma NoItemsNoNode(hs: seq<Head>, o: nat, n: Node)
    requires HeadsItems(hs) == multiset{} && o < |hs|
    ensures n !in hs[o].chain
  {
    HeadsMember(hs, n);
  }

  /** A bucket on which no node can sit holds nothing. */
  lemma NoNodeNoItems(hs: seq<Head>)
    requires forall o, n :: 0 <= o < |hs| ==> n !in hs[o].chain
    ensures HeadsItems(hs) == multiset{}
  {
    forall o | 0 <= o < |hs| ensures hs[o].chain == [] {
      assert forall k :: 0 <= k < |hs[o].chain| ==> hs[o].chain[k] in hs[o].chain;
    }
    EmptyHeadsHold(hs);
  }

  lemma NewNamesOk(old_: seq<nat>, next: nat, newSize: nat)
    requires Distinct(old_) && (forall k :: 0 <= k < |old_| ==> old_[k] < next)
    ensures var b := NewNames(old_, next, newSize);
      && |b| == newSize && Distinct(b)
      && (if newSize > |old_| then old_ <= b else b <= old_)
      && (forall k :: |old_| <= k < newSize ==> b[k] == next + (k - |old_|))
      && (forall id :: id in Freed(Some(b), |old_|, newSize) <==> next <= id < next + (newSize - |old_|))
  {
    var b := NewNames(old_, next, newSize);
    assert forall k :: 0 <= k < |b| && k < |old_| ==> b[k] == old_[k];
    assert forall k :: |old_| <= k < newSize ==> b[k] == next + (k - |old_|);
    forall id | next <= id < next + (newSize - |old_|) ensures id in Freed(Some(b), |old_|, newSize) {
      assert b[|old_| + (id - next)] == id;
    }
  }

  lemma FreshBucketOk(c: Config, oldSize: nat, next: nat, id: nat)
    requires next <= id
    ensures BucketOk(c, FreshBucket(c, oldSize, next, id), oldSize + (id - next))
    ensures HeadsItems(FreshBucket(c, oldSize, next, id).heads) == multiset{}
  {
    EmptyHeadsHold(EmptyHeads(c));
  }

  lemma NewStoreOk(store: map<nat, Bucket>, c: Config, oldSize: nat, next: nat, more: nat)
    requires forall id :: id in store ==> id < next
    ensures var s' := NewStore(store, c, oldSize, next, more);
      && (forall id :: id in s' <==> id in store || next <= id < next + more)
      && (forall id :: id in store ==> s'[id] == store[id])
      && (forall id :: next <= id < next + more ==>
            && BucketOk(c, s'[id], oldSize + (id - next)) && HeadsItems(s'[id].heads) == multiset{})
  {
    var s' := NewStore(store, c, oldSize, next, more);
    forall id | next <= id < next + more
      ensures BucketOk(c, s'[id], oldSize + (id - next)) && HeadsItems(s'[id].heads) == multiset{}
    {
      FreshBucketOk(c, oldSize, next, id);
    }
  }

  lemma ReallocPending(t: Table, newSize: nat)
    requires Arrays(t) && t.rehashBuckets.None? && (forall id :: id in t.store ==> id < t.next)
    ensures var (u, b) := Realloc(t, |t.buckets|, newSize); PendingOk(u, b, |t.buckets|, newSize)
  {
    assert Distinct(t.buckets) && forall k :: 0 <= k < |t.buckets| ==> t.buckets[k] < t.next;
    hide Arrays, Distinct, BucketOk, NewNames, NewStore, Freed, HeadsItems;
    var old_ := |t.buckets|;
    var (u, b) := Realloc(t, old_, newSize);
    assert |b| == newSize && Distinct(b) && (if newSize > old_ then t.buckets <= b else b <= t.buckets) by {
      NewNamesOk(t.buckets, t.next, newSize);
    }
    forall k | old_ <= k < newSize ensures b[k] in u.store && BucketOk(u.cfg, u.store[b[k]], k) {
      assert b[k] == t.next + (k - old_) by { NewNamesOk(t.buckets, t.next, newSize); }
      NewBucket(t.store, t.cfg, old_, t.next, newSize - old_, k);
    }
  }

  lemma NewBucket(store: map<nat, Bucket>, c: Config, oldSize: nat, next: nat, more: nat, k: nat)
    requires (forall id :: id in store ==> id < next) && oldSize <= k < oldSize + more
    ensures var s' := NewStore(store, c, oldSize, next, more); var id := next + (k - oldSize);
      id in s' && BucketOk(c, s'[id], k)
  {
    hide NewStore, BucketOk, HeadsItems;
    NewStoreOk(store, c, oldSize, next, more);
  }

  lemma ReallocOk(t: Table, newSize: nat)
    requires Arrays(t) && t.rehashBuckets.None? && (forall id :: id in t.store ==> id < t.next)
    ensures var (u, b) := Realloc(t, |t.buckets|, newSize); var f := Freed(Some(b), |t.buckets|, newSize);
      && u == t.(store := u.store, next := u.next) && t.next <= u.next
      && (forall id :: id in t.store ==> id in u.store && u.store[id] == t.store[id])
      && u.store.Keys == t.store.Keys + f && t.store.Keys !! f && EmptyAt(u, f)
  {
    NewNamesOk(t.buckets, t.next, newSize);
    var old_ := |t.buckets|;
    var more := if newSize > old_ then newSize - old_ else 0;
    var (u, b) := Realloc(t, old_, newSize);
    hide Arrays, FreshBucket, BucketOk, NewNames, Freed, Distinct, HeadsItems;
    StoreGrown(t, u, Freed(Some(b), old_, newSize), old_, more);
  }

  lemma StoreGrown(t: Table, u: Table, f: set<nat>, oldSize: nat, more: nat)
    requires forall id :: id in t.store ==> id < t.next
    requires u.store == NewStore(t.store, t.cfg, oldSize, t.next, more) && u.next == t.next + more
    requires forall id :: id in f <==> t.next <= id < t.next + more
    ensures forall id :: id in t.store ==> id in u.store && u.store[id] == t.store[id]
    ensures u.store.Keys == t.store.Keys + f && t.store.Keys !! f && EmptyAt(u, f)
  {
    NewStoreOk(t.store, t.cfg, oldSize, t.next, more);
    hide NewStore, BucketOk, HeadsItems;
  }

  // ---------------------------------------------------------------- the arrays around a rehash

  /** Installing the new array: same items, all still at their current position. */
  lemma InstalledOk(t: Table, b: seq<nat>)
    requires Shape(t) && Located(t) && t.rehashBuckets.None? && TargetOk(t) && t.rehashBits != 0
    requires SizesOk(t, |t.buckets|, |b|) && PendingOk(t, b, |t.buckets|, |b|)
    requires forall k :: |t.buckets| <= k < |b| ==> b[k] < t.next && HeadsItems(t.store[b[k]].heads) == multiset{}
    ensures var u := t.(rehashBuckets := Some(b));
      && Shape(u) && Items(u) == Items(t) && Located(u) && Processed(u, 0)
      && forall i: nat, o: nat, n: Node :: Holds(u, i, o, n) ==> InPlace(u, u.curBits, i, o, n)
  {
    var u := t.(rehashBuckets := Some(b));
    var old_ := |t.buckets|;
    GrowMeansLonger(t);
    if t.rehashBits > t.curBits {
      assert b[..old_] == t.buckets;
      ItemsExtend(t.store, b, old_);
    }
    assert Arrays(u);
    forall i: nat, o: nat, n: Node | Holds(u, i, o, n) ensures InPlace(u, u.curBits, i, o, n) {
      if i < old_ {
        assert Holds(t, i, o, n);
      } else {
        NoItemsNoNode(t.store[b[i]].heads, o, n);
      }
    }
  }

  lemma GrowMeansLonger(t: Table)
    requires t.cfg.bktBits <= t.rehashBits && t.cfg.bktBits <= t.curBits
    ensures t.rehashBits > t.curBits ==> NumBuckets(t.cfg, t.rehashBits) > NumBuckets(t.cfg, t.curBits)
    ensures t.rehashBits < t.curBits ==> NumBuckets(t.cfg, t.rehashBits) < NumBuckets(t.cfg, t.curBits)
  {
    if t.rehashBits > t.curBits { Pow2Strict(t.curBits - t.cfg.bktBits, t.rehashBits - t.cfg.bktBits); }
    if t.rehashBits < t.curBits { Pow2Strict(t.rehashBits - t.cfg.bktBits, t.curBits - t.cfg.bktBits); }
  }

  /** Once every bucket is processed, every item sits at its rehash position. */
  lemma AllMoved(t: Table)
    requires Arrays(t) && t.rehashBuckets.Some? && Located(t) && Processed(t, |t.buckets|)
    ensures forall i: nat, o: nat, n: Node :: Holds(t, i, o, n) ==> InPlace(t, t.rehashBits, i, o, n)
  {
    forall i: nat, o: nat, n: Node | Holds(t, i, o, n) ensures InPlace(t, t.rehashBits, i, o, n) {
      if i >= |t.buckets| {
        assert !InPlace(t, t.curBits, i, o, n);
      }
    }
  }

  /** Buckets beyond the new size hold nothing once everything has moved. */
  lemma TailEmpty(t: Table, k: nat)
    requires Arrays(t) && t.rehashBuckets.Some? && Located(t) && Processed(t, |t.buckets|)
    requires |t.rehashBuckets.value| <= k < |Full(t)|
    ensures HeadsItems(t.store[Full(t)[k]].heads) == multiset{}
  {
    AllMoved(t);
    var hs := t.store[Full(t)[k]].heads;
    forall o, n | 0 <= o < |hs| ensures n !in hs[o].chain {
      if n in hs[o].chain {
        assert Holds(t, k, o, n);
      }
    }
    NoNodeNoItems(hs);
  }

  lemma SwapArrays(t: Table)
    requires Arrays(t) && t.rehashBuckets.Some?
    ensures Arrays(Swap(t)) && Full(Swap(t)) == t.rehashBuckets.value
  {
  }

  /** After a finished move the dropped buckets are empty, so the swap keeps the items. */
  lemma SwapItems(t: Table)
    requires Arrays(t) && t.rehashBuckets.Some? && Arrays(Swap(t)) && Full(Swap(t)) == t.rehashBuckets.value
    requires t.rehashBits > t.curBits || (Located(t) && Processed(t, |t.buckets|))
    ensures Items(Swap(t)) == Items(t)
  {
    var r := t.rehashBuckets.value;
    if t.rehashBits < t.curBits {
      GrowMeansLonger(t);
      forall k | |r| <= k < |t.buckets| ensures HeadsItems(t.store[t.buckets[k]].heads) == multiset{} {
        TailEmpty(t, k);
      }
      assert t.buckets[..|r|] == r;
      ItemsExtend(t.store, t.buckets, |r|);
    }
  }

  lemma SwapShape(t: Table)
    requires Shape(t) && t.rehashBuckets.Some?
    requires t.rehashBits > t.curBits || (Located(t) && Processed(t, |t.buckets|))
    ensures Shape(Swap(t)) && Full(Swap(t)) == t.rehashBuckets.value && Items(Swap(t)) == Items(t)
  {
    SwapArrays(t);
    SwapItems(t);
    hide Arrays;
  }

  lemma SwapLocated(t: Table)
    requires Shape(t) && t.rehashBuckets.Some? && Located(t) && Processed(t, |t.buckets|)
    requires Shape(Swap(t)) && Full(Swap(t)) <= Full(t)
    ensures Located(Swap(t))
  {
    AllMoved(t);
    var u := Swap(t);
    forall i: nat, o: nat, n: Node | Holds(u, i, o, n) ensures InPlace(u, u.curBits, i, o, n) {
      assert Holds(t, i, o, n);
    }
  }

  lemma SwapDone(t: Table)
    requires Shape(t) && t.rehashBuckets.Some? && Located(t) && Processed(t, |t.buckets|)
    ensures Shape(Swap(t)) && Located(Swap(t)) && Items(Swap(t)) == Items(t)
    ensures Full(Swap(t)) == t.rehashBuckets.value
  {
    SwapShape(t);
    SwapLocated(t);
  }

  // ---------------------------------------------------------------- control fields

  /** The same arrays and store: everything said about buckets carries over. */
  ghost predicate SameBuckets(t: Table, u: Table) {
    && u.cfg == t.cfg && u.store == t.store && u.next == t.next && u.buckets == t.buckets
    && u.rehashBuckets == t.rehashBuckets && u.curBits == t.curBits && u.count == t.count
    && (t.rehashBuckets.Some? ==> u.rehashBits == t.rehashBits)
  }

  lemma SameBucketsShape(t: Table, u: Table)
    requires Shape(t) && SameBuckets(t, u)
    ensures Arrays(u) && Shape(u) && Full(u) == Full(t) && Items(u) == Items(t)
  {
    assert Full(u) == Full(t);
    assert Arrays(u);
    assert Items(u) == Items(t);
    hide Arrays;
  }

  lemma SameBucketsPlaces(t: Table, u: Table)
    requires Arrays(t) && SameBuckets(t, u) && Arrays(u) && Full(u) == Full(t)
    ensures Located(t) ==> Located(u)
    ensures t.rehashBuckets.Some? ==> forall k: nat :: Processed(t, k) ==> Processed(u, k)
  {
    forall i: nat, o: nat, n: Node | Holds(u, i, o, n) ensures Holds(t, i, o, n) {
    }
  }

  /** The worker's part of the invariant when neither it nor the buckets nor the target change. */
  lemma SameWorker(s: Sys, s': Sys)
    requires Arrays(s.t) && Arrays(s'.t) && Full(s'.t) == Full(s.t) && SameBuckets(s.t, s'.t) && WorkerOk(s)
    requires s'.w == s.w && (s'.scheduled ==> s.scheduled) && (Active(s.w) ==> s'.t.rehashBits == s.t.rehashBits)
    ensures WorkerOk(s')
  {
    SameBucketsPlaces(s.t, s'.t);
    hide Arrays, Processed, Located, BucketOk, Distinct;
  }

  lemma SameIters(s: Sys, s': Sys)
    requires Arrays(s.t) && Arrays(s'.t) && SameBuckets(s.t, s'.t) && Items(s'.t) == Items(s.t) && ItersOk(s)
    requires s'.iters == s.iters && s'.t.iterators == s.t.iterators
    requires s'.t.exiting ==> s.t.exiting || s.iters == map[]
    requires s.t.rehashBits == 0 ==> s'.t.rehashBits == 0
    ensures ItersOk(s')
  {
    hide Arrays;
    forall k | k in s'.iters ensures IterOk(s'.t, s'.iters[k]) {
      IterFrame(s.t, s'.t, s.iters[k], s.iters[k]);
    }
    hide Items, IterOk;
  }

  lemma KeepControl(s: Sys, s': Sys)
    requires Inv(s) && !s.destroyed && SameBuckets(s.t, s'.t) && Shape(s'.t) && Full(s'.t) == Full(s.t)
    requires s'.destroyed == s.destroyed && s'.exited == s.exited
    requires Private(s'.w) == Private(s.w)
    requires TargetOk(s'.t)
    requires s'.scheduled && !s'.exited ==> s'.t.rehashBits != 0
    requires s.exited ==> s'.t.exiting && s'.t.rehashBits == 0
    requires WorkerOk(s') && ItersOk(s')
    ensures Inv(s')
  {
    SameBucketsPlaces(s.t, s'.t);
    hide Arrays, Shape, Located, WorkerOk, ItersOk, TargetOk, SharedPrefix;
  }

  /** A positive target is a legal size one step away, asked for only when nothing stands in the way. */
  lemma RequestTarget(t: Table)
    requires Arrays(t) && TargetBits(t) > 0
    ensures TargetOk(t.(rehashBits := TargetBits(t)))
    ensures t.rehashBits == 0 && !t.exiting && t.iterators == 0
    ensures TargetBits(t) == t.curBits + 1 || TargetBits(t) == t.curBits - 1
  {
  }

  lemma KeepRequest(s: Sys)
    requires Inv(s) && Enabled(s, EvRequest) && Asserted(s, EvRequest)
    ensures Inv(Step(s, EvRequest))
  {
    hide Inv, Shape, Arrays, Located, SharedPrefix, Processed, EmptyAt, IdSet, PendingOk;
    Parts(s);
    if TargetBits(s.t) > 0 {
      var s' := s.(t := s.t.(rehashBits := TargetBits(s.t)), scheduled := true);
      assert Step(s, EvRequest) == s' && !s.destroyed;
      hide Step, Enabled, Asserted;
      SameBucketsShape(s.t, s'.t);
      assert s.t.iterators == 0 && |s.iters| == 0;
      assert s.iters == map[];
      RequestTarget(s.t);
      hide TargetBits, TargetOk;
      KeepControl(s, s');
    } else {
      assert Step(s, EvRequest) == s;
    }
  }

  lemma KeepPop(s: Sys)
    requires Inv(s) && Enabled(s, EvPop) && Asserted(s, EvPop)
    ensures Inv(Step(s, EvPop))
  {
    hide Inv, Shape, Arrays, Located, ItersOk, SharedPrefix, Processed, EmptyAt, IdSet, PendingOk, TargetOk;
    Parts(s);
    var s' := s.(scheduled := false, w := Popped);
    assert Step(s, EvPop) == s' && !s.destroyed;
    hide Step, Enabled, Asserted;
    SameIters(s, s');
    KeepControl(s, s');
  }

  lemma CurrentSize(t: Table)
    requires Arrays(t)
    ensures t.cfg.bktBits <= t.curBits && |t.buckets| == NumBuckets(t.cfg, t.curBits)
  {
  }

  lemma KeepReadSizes(s: Sys)
    requires Inv(s) && Enabled(s, EvReadSizes) && Asserted(s, EvReadSizes)
    ensures Inv(Step(s, EvReadSizes))
  {
    hide Inv, Shape, Arrays, Located, ItersOk, SharedPrefix, Processed, EmptyAt, IdSet, PendingOk, TargetOk;
    Parts(s);
    CurrentSize(s.t);
    var s' := s.(w := Sized(NumBuckets(s.t.cfg, s.t.curBits), NumBuckets(s.t.cfg, s.t.rehashBits)));
    assert Step(s, EvReadSizes) == s' && !s.destroyed;
    hide Step, Enabled, Asserted;
    SameIters(s, s');
    KeepControl(s, s');
  }

  lemma KeepFlag(s: Sys, b: bool)
    requires Inv(s) && Enabled(s, EvFlag(b)) && Asserted(s, EvFlag(b))
    ensures Inv(Step(s, EvFlag(b)))
  {
    hide Inv, Shape, Arrays, Located, ItersOk, WorkerOk, TargetOk, SharedPrefix, Processed, EmptyAt, IdSet;
    Parts(s);
    var s' := s.(t := s.t.(iterating := b));
    assert Step(s, EvFlag(b)) == s' && !s.destroyed;
    hide Step, Enabled, Asserted;
    SameBucketsShape(s.t, s'.t);
    SameWorker(s, s');
    SameIters(s, s');
    TargetFrame(s.t, s'.t);
    KeepControl(s, s');
  }

  lemma KeepDestroy(s: Sys)
    requires Inv(s) && Enabled(s, EvDestroy) && Asserted(s, EvDestroy)
    ensures Inv(Step(s, EvDestroy))
  {
    hide Inv, Shape, Arrays, Located, ItersOk, WorkerOk, TargetOk, SharedPrefix, Processed, EmptyAt, IdSet;
    Parts(s);
    var s' := s.(t := s.t.(exiting := true));
    assert Step(s, EvDestroy) == s' && !s.destroyed && s.iters == map[];
    hide Step, Enabled, Asserted;
    SameBucketsShape(s.t, s'.t);
    SameWorker(s, s');
    SameIters(s, s');
    TargetFrame(s.t, s'.t);
    KeepControl(s, s');
  }

  lemma CancelFrame(s: Sys)
    requires Inv(s) && !s.destroyed
    ensures SameBuckets(s.t, Cancel(s).t) && (Active(s.w) ==> Cancel(s).t.rehashBits == s.t.rehashBits)
    ensures Cancel(s).t.rehashBits == 0 || (Cancel(s) == s.(scheduled := false) && !s.w.Idle?)
  {
    hide Arrays, Located, ItersOk, SharedPrefix, Processed, TargetOk;
  }

  lemma KeepCancel(s: Sys)
    requires Inv(s) && !s.destroyed && s.t.cfg.rehash
    ensures Inv(Cancel(s))
  {
    if s.t.rehashBits != 0 {
      var s' := Cancel(s);
      CancelFrame(s);
      hide Arrays, Located, ItersOk, SharedPrefix, Processed, WorkerOk;
      SameBucketsShape(s.t, s'.t);
      SameWorker(s, s');
      SameIters(s, s');
      KeepControl(s, s');
    }
  }

  // ---------------------------------------------------------------- allocation and release

  lemma StoreBelowNext(s: Sys)
    requires Inv(s) && !s.destroyed
    ensures forall id :: id in s.t.store ==> id < s.t.next
  {
  }

  /** Two tables that differ only outside their live buckets. */
  lemma SameLiveArrays(t: Table, u: Table)
    requires Arrays(t) && u == t.(store := u.store, next := u.next) && t.next <= u.next
    requires forall i :: 0 <= i < |Full(t)| ==> Full(t)[i] in u.store && u.store[Full(t)[i]] == t.store[Full(t)[i]]
    ensures Full(u) == Full(t) && Arrays(u) && Items(u) == Items(t)
  {
    assert Full(u) == Full(t);
    ItemsFrame(t.store, u.store, Full(t));
  }

  lemma SameLiveShape(t: Table, u: Table)
    requires Shape(t) && u == t.(store := u.store, next := u.next) && t.next <= u.next
    requires forall i :: 0 <= i < |Full(t)| ==> Full(t)[i] in u.store && u.store[Full(t)[i]] == t.store[Full(t)[i]]
    ensures Full(u) == Full(t) && Arrays(u) && Shape(u) && Items(u) == Items(t)
  {
    SameLiveArrays(t, u);
    hide Arrays;
  }

  lemma GrownPlaces(t: Table, u: Table)
    requires Arrays(t) && Arrays(u) && Full(u) == Full(t) && u == t.(store := u.store, next := u.next)
    requires forall id :: id in t.store ==> id in u.store && u.store[id] == t.store[id]
    requires Located(t) && t.rehashBuckets.None?
    ensures Located(u)
  {
    forall i: nat, o: nat, n: Node | Holds(u, i, o, n) ensures Holds(t, i, o, n) {
    }
  }

  lemma KeepAlloc(s: Sys, ok: bool)
    requires Inv(s) && Enabled(s, EvAlloc(ok)) && Asserted(s, EvAlloc(ok))
    ensures Inv(Step(s, EvAlloc(ok)))
  {
    hide Inv, Shape, Arrays, AllocStep;
    assert Step(s, EvAlloc(ok)) == AllocStep(s, ok);
    hide Step;
    if ok {
      StoreBelowNext(s);
      KeepAllocOk(s, AllocStep(s, ok));
    } else {
      KeepAllocFailed(s);
    }
  }

  lemma KeepAllocFailed(s: Sys)
    requires Inv(s) && !s.destroyed && s.w.Sized? && s.w.oldSize == |s.t.buckets|
    ensures Inv(AllocStep(s, false))
  {
    hide Inv, Shape, Arrays, Located, ItersOk, SharedPrefix, Processed, TargetOk;
    var s' := AllocStep(s, false);
    Parts(s);
    SameIters(s, s');
    KeepControl(s, s');
  }

  lemma KeepAllocOk(s: Sys, s': Sys)
    requires Inv(s) && !s.destroyed && s.w.Sized? && s.w.oldSize == |s.t.buckets| && s' == AllocStep(s, true)
    requires forall id :: id in s.t.store ==> id < s.t.next
    ensures Inv(s')
  {
    hide Inv, Shape, Arrays, Located, ItersOk, SharedPrefix, Processed, PendingOk, Freed, BucketOk, IdSet, EmptyAt,
      NewStore, NewNames;
    Parts(s);
    var t, u := s.t, s'.t;
    ReallocPending(t, s.w.newSize);
    ReallocOk(t, s.w.newSize);
    LiveInStore(t);
    SameLiveShape(t, u);
    GrownPlaces(t, u);
    GrownIters(s, s');
    Assemble(s');
  }

  lemma LiveInStore(t: Table)
    requires Arrays(t)
    ensures forall i :: 0 <= i < |Full(t)| ==> Full(t)[i] in t.store && Full(t)[i] in IdSet(Full(t))
  {
  }

  lemma GrownIters(s: Sys, s': Sys)
    requires Arrays(s.t) && Arrays(s'.t) && Items(s'.t) == Items(s.t) && ItersOk(s) && s'.iters == s.iters
    requires s'.t == s.t.(store := s'.t.store, next := s'.t.next)
    ensures ItersOk(s')
  {
    hide Arrays;
    forall k | k in s'.iters ensures IterOk(s'.t, s'.iters[k]) {
      IterFrame(s.t, s'.t, s.iters[k], s.iters[k]);
    }
    hide Items, IterOk;
  }

  lemma ShrunkPlaces(t: Table, gone: set<nat>)
    requires Arrays(t) && gone !! IdSet(Full(t)) && Arrays(t.(store := t.store - gone))
    ensures Located(t) ==> Located(t.(store := t.store - gone))
  {
    var u := t.(store := t.store - gone);
    forall i: nat, o: nat, n: Node | Holds(u, i, o, n) ensures Holds(t, i, o, n) {
    }
  }

  lemma KeepFree(s: Sys)
    requires Inv(s) && Enabled(s, EvFree) && Asserted(s, EvFree)
    ensures Inv(Step(s, EvFree))
  {
    hide Inv, Shape, Arrays, EmptyAt, IdSet, WorkerOk, ItersOk, Freed;
    var gone := Freed(s.w.bkts, s.w.lo, s.w.hi);
    var s' := s.(t := s.t.(store := s.t.store - gone), w := Idle);
    assert Step(s, EvFree) == s' && gone == Private(s.w);
    hide Step, Enabled, Asserted;
    if s.destroyed {
      KeepFreeLast(s, s', gone);
    } else {
      KeepFreeLive(s, s', gone);
    }
  }

  lemma KeepFreeLast(s: Sys, s': Sys, gone: set<nat>)
    requires Inv(s) && s.destroyed && gone == Private(s.w)
    requires s' == s.(t := s.t.(store := s.t.store - gone), w := Idle)
    ensures Inv(s')
  {
    hide Shape, Located, WorkerOk, ItersOk, TargetOk, IdSet, Freed;
  }

  lemma KeepFreeLive(s: Sys, s': Sys, gone: set<nat>)
    requires Inv(s) && !s.destroyed && s.w.Freeing? && gone == Private(s.w)
    requires s' == s.(t := s.t.(store := s.t.store - gone), w := Idle)
    ensures Inv(s')
  {
    hide Inv, Shape, Arrays, Located, ItersOk, SharedPrefix, Processed, BucketOk, IdSet, Freed;
    Parts(s);
    var t, u := s.t, s'.t;
    LiveInStore(t);
    SameLiveShape(t, u);
    ShrunkPlaces(t, gone);
    GrownIters(s, s');
    assert u.store.Keys == t.store.Keys - gone;
    Assemble(s');
  }

  // ---------------------------------------------------------------- installing, moving, finishing

  /** Leaving without having installed: the target is cleared, buckets are untouched. */
  lemma KeepOutEarly(s: Sys, bkts: Option<seq<nat>>, lo: nat, hi: nat)
    requires Inv(s) && !s.destroyed && s.w.Alloced? && Freed(bkts, lo, hi) == Private(s.w)
    ensures Inv(Out(s, s.t, false, bkts, lo, hi))
    ensures !s.exited && Shape(s.t) && Shape(Out(s, s.t, false, bkts, lo, hi).t)
    ensures Items(Out(s, s.t, false, bkts, lo, hi).t) == Items(s.t)
  {
    var s' := Out(s, s.t, false, bkts, lo, hi);
    hide Inv, Shape, Arrays, Located, ItersOk, SharedPrefix, Processed, BucketOk, IdSet, Freed;
    Parts(s);
    SameBucketsShape(s.t, s'.t);
    SameBucketsPlaces(s.t, s'.t);
    SameIters(s, s');
    Assemble(s');
  }

  lemma KeepInstall(s: Sys)
    requires Inv(s) && Enabled(s, EvInstall) && Asserted(s, EvInstall)
    ensures Inv(Step(s, EvInstall))
    ensures Shape(s.t) && Shape(Step(s, EvInstall).t) && Items(Step(s, EvInstall).t) == Items(s.t)
  {
    hide Inv, Shape, Arrays, Located, ItersOk, TargetOk, SharedPrefix, Processed, EmptyAt, IdSet, Freed;
    var s' := InstallStep(s);
    assert Step(s, EvInstall) == s' && s.w.Alloced? && !s.destroyed;
    hide Step, Enabled, Asserted;
    Parts(s);
    if s.w.bkts.None? {
      NoneFreed();
      KeepOutEarly(s, None, 0, 0);
    } else if s.w.bkts.value == s.t.buckets {
      SizesDiffer(s.t, s.w.oldSize, s.w.newSize);
      assert false;
    } else if s.t.cfg.minTheta <= Theta(s.t) <= s.t.cfg.maxTheta {
      hide Theta;
      KeepOutEarly(s, s.w.bkts, |s.t.buckets|, s.w.newSize);
    } else {
      hide Theta;
      KeepInstalled(s, s');
    }
  }

  lemma NoneFreed()
    ensures forall lo: nat, hi: nat :: Freed(None, lo, hi) == {}
  {
  }

  lemma SizesDiffer(t: Table, oldSize: nat, newSize: nat)
    requires Arrays(t) && TargetOk(t) && t.rehashBits != 0 && SizesOk(t, oldSize, newSize)
    ensures oldSize != newSize
  {
    GrowMeansLonger(t);
  }

  lemma KeepInstalled(s: Sys, s': Sys)
    requires Inv(s) && !s.destroyed && s.w.Alloced? && s.w.bkts.Some?
    requires s' == s.(t := s.t.(rehashBuckets := s.w.bkts), w := Moving(0, s.w.oldSize, s.w.newSize))
    ensures Inv(s') && Shape(s.t) && Shape(s'.t) && Items(s'.t) == Items(s.t)
  {
    hide Inv, Shape, Arrays, Located, ItersOk, SharedPrefix, Processed, BucketOk, IdSet, Freed, EmptyAt, PendingOk;
    Parts(s);
    var b: seq<nat> := s.w.bkts.value;
    PendingEmpty(s.t, b, s.w.oldSize, s.w.newSize);
    InstalledOk(s.t, b);
    InstalledNames(s.t, b);
    InstalledIters(s, s');
    InstalledWorker(s, s');
    assert TargetOk(s'.t) && !s.exited;
    hide WorkerOk, TargetOk, SizesOk;
    assert Private(s'.w) == {};
    NothingPrivate(s'.t);
    assert s'.t.store.Keys == IdSet(Full(s.t)) + Freed(s.w.bkts, s.w.oldSize, s.w.newSize);
    Assemble(s');
  }

  lemma InstalledWorker(s: Sys, s': Sys)
    requires Arrays(s.t) && Arrays(s'.t) && WorkerOk(s) && s.w.Alloced? && s.w.bkts.Some?
    requires s' == s.(t := s.t.(rehashBuckets := s.w.bkts), w := Moving(0, s.w.oldSize, s.w.newSize))
    ensures WorkerOk(s')
  {
    hide Arrays, BucketOk, PendingOk, Holds;
  }

  lemma NothingPrivate(t: Table)
    ensures EmptyAt(t, {})
  {
  }

  lemma PendingEmpty(t: Table, b: seq<nat>, oldSize: nat, newSize: nat)
    requires EmptyAt(t, Freed(Some(b), oldSize, newSize)) && PendingOk(t, b, oldSize, newSize)
    ensures |b| == newSize
    ensures forall k :: oldSize <= k < |b| ==>
              b[k] in t.store && b[k] < t.next && HeadsItems(t.store[b[k]].heads) == multiset{}
  {
    forall k | oldSize <= k < |b| ensures b[k] in Freed(Some(b), oldSize, newSize) {
    }
  }

  lemma InstalledNames(t: Table, b: seq<nat>)
    requires Arrays(t) && t.rehashBuckets.None? && TargetOk(t) && t.rehashBits != 0
    requires SizesOk(t, |t.buckets|, |b|) && PendingOk(t, b, |t.buckets|, |b|)
    ensures IdSet(Full(t.(rehashBuckets := Some(b)))) == IdSet(Full(t)) + Freed(Some(b), |t.buckets|, |b|)
  {
    GrowMeansLonger(t);
    var u := t.(rehashBuckets := Some(b));
    var old_ := |t.buckets|;
    if t.rehashBits > t.curBits {
      assert forall k :: 0 <= k < old_ ==> b[k] == t.buckets[k];
      forall id | id in IdSet(t.buckets) ensures id in IdSet(b) {
        var k :| 0 <= k < old_ && t.buckets[k] == id;
        assert b[k] == id;
      }
      forall id | id in IdSet(b) ensures id in IdSet(t.buckets) + Freed(Some(b), old_, |b|) {
        var k :| 0 <= k < |b| && b[k] == id;
        if k < old_ { assert t.buckets[k] == id; }
      }
    }
  }

  lemma InstalledIters(s: Sys, s': Sys)
    requires Arrays(s.t) && Arrays(s'.t) && Items(s'.t) == Items(s.t) && ItersOk(s) && s'.iters == s.iters
    requires s'.t == s.t.(rehashBuckets := s'.t.rehashBuckets)
    ensures ItersOk(s')
  {
    hide Arrays;
    forall k | k in s'.iters ensures IterOk(s'.t, s'.iters[k]) {
      IterFrame(s.t, s'.t, s.iters[k], s.iters[k]);
    }
    hide Items, IterOk;
  }

  /** The names of the dropped buckets are exactly those the new array does not have. */
  lemma SwapNames(t: Table)
    requires Arrays(t) && t.rehashBuckets.Some?
    ensures var f := Freed(Some(t.buckets), |t.rehashBuckets.value|, |t.buckets|);
      IdSet(Full(t)) == IdSet(t.rehashBuckets.value) + f && IdSet(t.rehashBuckets.value) !! f
    ensures t.rehashBits > t.curBits ==> Freed(Some(t.buckets), |t.rehashBuckets.value|, |t.buckets|) == {}
  {
    var r := t.rehashBuckets.value;
    var f := Freed(Some(t.buckets), |r|, |t.buckets|);
    GrowMeansLonger(t);
    if t.rehashBits < t.curBits {
      assert forall k :: 0 <= k < |r| ==> r[k] == t.buckets[k];
      forall id | id in IdSet(t.buckets) ensures id in IdSet(r) + f {
        var k :| 0 <= k < |t.buckets| && t.buckets[k] == id;
        if k < |r| { assert r[k] == id; }
      }
      forall id | id in IdSet(r) ensures id in IdSet(t.buckets) && id !in f {
        var k :| 0 <= k < |r| && r[k] == id;
        assert t.buckets[k] == id;
      }
    }
  }

  lemma SwapLeftovers(t: Table)
    requires Arrays(t) && t.rehashBuckets.Some? && Located(t) && Processed(t, |t.buckets|)
    ensures EmptyAt(t, Freed(Some(t.buckets), |t.rehashBuckets.value|, |t.buckets|))
  {
    var r := t.rehashBuckets.value;
    forall id | id in Freed(Some(t.buckets), |r|, |t.buckets|)
      ensures id in t.store && id < t.next && HeadsItems(t.store[id].heads) == multiset{}
    {
      var k :| |r| <= k < |t.buckets| && t.buckets[k] == id;
      GrowMeansLonger(t);
      TailEmpty(t, k);
    }
  }

  lemma KeepFinish(s: Sys, s': Sys)
    requires Inv(s) && !s.destroyed && s.w.Moving? && s.w.i == |s.t.buckets|
    requires s' == Out(s, Swap(s.t), false, Some(s.t.buckets), s.w.newSize, s.w.oldSize)
    ensures Inv(s') && Shape(s.t) && Shape(s'.t) && Items(s'.t) == Items(s.t)
  {
    hide Inv, Shape, Arrays, Located, ItersOk, SharedPrefix, Processed, BucketOk, IdSet, Freed, EmptyAt;
    Parts(s);
    var t := s.t;
    RehashLength(t);
    SwapDone(t);
    SwapNames(t);
    SwapLeftovers(t);
    SwapOut(Swap(t), s'.t);
    NoVisitor(s);
    OutIters(s, s');
    assert !s.exited && Private(s'.w) == Freed(Some(t.buckets), |t.rehashBuckets.value|, |t.buckets|);
    assert EmptyAt(s'.t, Private(s'.w)) by { EmptyFrame(t, s'.t, Private(s'.w)); }
    assert WorkerOk(s') && TargetOk(s'.t);
    assert s'.t.store.Keys == IdSet(Full(t));
    hide WorkerOk, TargetOk, SizesOk, Swap;
    Assemble(s');
  }

  lemma RehashLength(t: Table)
    requires Arrays(t) && t.rehashBuckets.Some?
    ensures |t.rehashBuckets.value| == NumBuckets(t.cfg, t.rehashBits)
  {
  }

  lemma EmptyFrame(t: Table, u: Table, ids: set<nat>)
    requires EmptyAt(t, ids) && u.store == t.store && u.next == t.next
    ensures EmptyAt(u, ids)
  {
  }

  /** Clearing the target of a table without a second array. */
  lemma SwapOut(t: Table, u: Table)
    requires Shape(t) && t.rehashBuckets.None? && u == t.(rehashBits := 0)
    ensures Arrays(u) && Shape(u) && Full(u) == Full(t) && Items(u) == Items(t) && (Located(t) ==> Located(u))
  {
    SameBucketsShape(t, u);
    SameBucketsPlaces(t, u);
  }

  /** While a rehash is wanted, no iteration is past its entry. */
  lemma NoVisitor(s: Sys)
    requires Inv(s) && !s.destroyed && s.t.rehashBits != 0
    ensures forall k :: k in s.iters ==> s.iters[k].Waiting?
  {
    hide Inv, Shape, Arrays, Located, SharedPrefix, Processed, WorkerOk, TargetOk;
    Parts(s);
    forall k | k in s.iters ensures s.iters[k].Waiting? {
      assert s.iters[k].Visiting? ==> s.t.rehashBits == 0;
    }
  }

  lemma OutIters(s: Sys, s': Sys)
    requires Arrays(s.t) && Arrays(s'.t) && ItersOk(s) && s'.iters == s.iters
    requires forall k :: k in s.iters ==> s.iters[k].Waiting?
    requires s'.t.iterators == s.t.iterators && s'.t.exiting == s.t.exiting && s'.t.cfg == s.t.cfg
    ensures ItersOk(s')
  {
    hide Arrays;
  }

  lemma KeepAbort(s: Sys, s': Sys)
    requires Inv(s) && !s.destroyed && s.w.Moving? && s.t.exiting
    requires
      if s.w.oldSize < s.w.newSize then s' == Out(s, Swap(s.t), true, Some(s.t.buckets), s.w.newSize, s.w.oldSize)
      else s' == Out(s, s.t.(rehashBuckets := None), true, s.t.rehashBuckets, |s.t.buckets|, s.w.newSize)
    ensures Inv(s') && Shape(s.t) && Shape(s'.t) && Items(s'.t) == Items(s.t)
  {
    hide Inv, Shape, Arrays, Located, ItersOk, SharedPrefix, Processed, BucketOk, IdSet, EmptyAt;
    Parts(s);
    var t := s.t;
    RehashLength(t);
    AbortDirection(t);
    NoVisitor(s);
    if s.w.oldSize < s.w.newSize {
      SwapShape(t);
      SwapNames(t);
      SwapOut(Swap(t), s'.t);
    } else {
      DropShape(t);
      SwapOut(t.(rehashBuckets := None), s'.t);
    }
    OutIters(s, s');
    assert Private(s'.w) == {};
    NothingPrivate(s'.t);
    assert WorkerOk(s') && TargetOk(s'.t);
    hide WorkerOk, TargetOk, SizesOk, Swap;
    Assemble(s');
  }

  lemma AbortDirection(t: Table)
    requires Arrays(t) && t.rehashBuckets.Some?
    ensures |t.buckets| < |t.rehashBuckets.value| <==> t.rehashBits > t.curBits
  {
    GrowMeansLonger(t);
  }

  /** Giving up a shrink: the long array was the full one all along. */
  lemma DropShape(t: Table)
    requires Shape(t) && t.rehashBuckets.Some? && t.rehashBits < t.curBits
    ensures var u := t.(rehashBuckets := None); Arrays(u) && Shape(u) && Full(u) == Full(t) && Items(u) == Items(t)
  {
    DropArrays(t);
    hide Arrays;
  }

  lemma DropArrays(t: Table)
    requires Arrays(t) && t.rehashBuckets.Some? && t.rehashBits < t.curBits
    ensures var u := t.(rehashBuckets := None); Arrays(u) && Full(u) == Full(t) && Items(u) == Items(t)
  {
  }

  lemma KeepMoveOne(s: Sys, s': Sys)
    requires Inv(s) && !s.destroyed && s.w.Moving? && s.w.i < |s.t.buckets| && s.t.rehashBuckets.Some?
    requires Rehashing(s.t, s.w.i)
    requires s' == s.(t := RehashBucket(s.t, s.w.i), w := s.w.(i := s.w.i + 1))
    ensures Inv(s') && Shape(s.t) && Shape(s'.t) && Items(s'.t) == Items(s.t)
  {
    hide Inv, Arrays, Located, ItersOk, SharedPrefix, Processed, BucketOk, IdSet, EmptyAt, RehashHeads, Freed;
    Parts(s);
    var t, u := s.t, s'.t;
    RehashBucketOk(t, s.w.i);
    LiveOnlyHeads(t, s.w.i, 0);
    NoVisitor(s);
    OutIters(s, s');
    NothingPrivate(u);
    assert Private(s'.w) == {} && Private(s.w) == {};
    assert WorkerOk(s') && TargetOk(u);
    hide WorkerOk, TargetOk, SizesOk;
    Assemble(s');
  }

  lemma KeepMove(s: Sys)
    requires Inv(s) && Enabled(s, EvMove) && Asserted(s, EvMove)
    ensures Inv(Step(s, EvMove))
    ensures Shape(s.t) && Shape(Step(s, EvMove).t) && Items(Step(s, EvMove).t) == Items(s.t)
  {
    hide Inv, Shape, Arrays, Items, RehashHeads, EmptyAt, IdSet, Freed, SharedPrefix;
    var s' := MoveStep(s);
    assert Step(s, EvMove) == s' && !s.destroyed;
    hide Step, Enabled, Asserted;
    if s.w.i == |s.t.buckets| {
      KeepFinish(s, s');
    } else if s.t.exiting {
      KeepAbort(s, s');
    } else {
      KeepMoveOne(s, s');
    }
  }

  // ---------------------------------------------------------------- iterations

  lemma KeepExit(s: Sys, tid: nat)
    requires Inv(s) && Enabled(s, EvExit(tid)) && Asserted(s, EvExit(tid))
    ensures Inv(Step(s, EvExit(tid)))
  {
    hide Inv, Shape, Arrays, Located, SharedPrefix, Processed, WorkerOk, ItersOk, TargetOk;
    Parts(s);
    var t' := if s.t.cfg.rehash then s.t.(iterators := s.t.iterators - 1) else s.t;
    var s' := s.(iters := s.iters - {tid}, t := t');
    assert Step(s, EvExit(tid)) == s' && tid in s.iters && !s.destroyed;
    hide Step, Enabled, Asserted;
    SameBucketsShape(s.t, s'.t);
    SameWorker(s, s');
    TargetFrame(s.t, s'.t);
    DropOneIter(s, s', tid);
    KeepControl(s, s');
  }

  lemma DropOneIter(s: Sys, s': Sys, tid: nat)
    requires Arrays(s.t) && Arrays(s'.t) && SameBuckets(s.t, s'.t) && Items(s'.t) == Items(s.t) && ItersOk(s)
    requires tid in s.iters && s'.iters == s.iters - {tid} && s'.t.exiting == s.t.exiting
    requires s.t.cfg.rehash ==> s.t.iterators > 0 && s'.t.iterators == s.t.iterators - 1
    requires s'.t.rehashBits == s.t.rehashBits
    ensures ItersOk(s')
  {
    hide Arrays;
    assert s'.iters.Keys == s.iters.Keys - {tid};
    assert |s'.iters.Keys| == |s'.iters| && |s.iters.Keys| == |s.iters|;
    forall k | k in s'.iters ensures IterOk(s'.t, s'.iters[k]) {
      IterFrame(s.t, s'.t, s.iters[k], s.iters[k]);
    }
    hide Items, IterOk;
  }

  lemma SetOneIter(s: Sys, s': Sys, tid: nat, it: Iter)
    requires Arrays(s.t) && Arrays(s'.t) && SameBuckets(s.t, s'.t) && Items(s'.t) == Items(s.t) && ItersOk(s)
    requires s'.iters == s.iters[tid := it] && IterOk(s.t, it)
    requires s'.t.exiting == s.t.exiting && !s.t.exiting
    requires s.t.rehashBits == 0 ==> s'.t.rehashBits == 0
    requires it.Visiting? ==> s'.t.rehashBits == 0
    requires s.t.cfg.rehash ==> s'.t.iterators == if tid in s.iters then s.t.iterators else s.t.iterators + 1
    ensures ItersOk(s')
  {
    hide Arrays;
    assert s'.iters.Keys == s.iters.Keys + {tid};
    assert |s'.iters.Keys| == |s'.iters| && |s.iters.Keys| == |s.iters|;
    forall k | k in s'.iters ensures IterOk(s'.t, s'.iters[k]) {
      IterFrame(s.t, s'.t, s'.iters[k], s'.iters[k]);
    }
    hide Items, IterOk;
  }

  lemma BeginOk(t: Table)
    requires Arrays(t)
    ensures IterOk(t, Begin(t))
  {
    hide Arrays;
  }

  lemma KeepResume(s: Sys, tid: nat)
    requires Inv(s) && Enabled(s, EvResume(tid)) && Asserted(s, EvResume(tid))
    ensures Inv(Step(s, EvResume(tid)))
  {
    hide Inv, Shape, Arrays, Located, SharedPrefix, Processed, WorkerOk, EmptyAt, IdSet, TargetOk, Begin;
    Parts(s);
    var s' := s.(iters := s.iters[tid := Begin(s.t)]);
    assert Step(s, EvResume(tid)) == s' && tid in s.iters && !s.destroyed && s.t.rehashBits == 0;
    hide Step, Enabled, Asserted;
    assert !s.t.exiting;
    hide ItersOk;
    BeginOk(s.t);
    SetOneIter(s, s', tid, Begin(s.t));
    SameWorker(s, s');
    KeepControl(s, s');
  }

  /** A node that sits at its current position is in exactly one bucket, the one its key names. */
  lemma VisitCounts(t: Table, pos: nat, n: Node)
    requires Shape(t) && Located(t) && t.rehashBuckets.None? && pos < |t.buckets| && n in Items(t)
    ensures HeadsItems(t.store[t.buckets[pos]].heads)[n] == if PosBucket(t.cfg, t.curBits, n.key) == pos then 1 else 0
  {
    var hs := t.store[t.buckets[pos]].heads;
    HeadsMember(hs, n);
    BucketWithin(t.store, t.buckets, pos);
    if n in HeadsItems(hs) {
      var o: nat :| o < |hs| && n in hs[o].chain;
      assert Holds(t, pos, o, n);
    } else {
      ItemsHolds(t, n);
      var i: nat, o: nat :| Holds(t, i, o, n);
      assert InPlace(t, t.curBits, i, o, n);
    }
  }

  lemma KeepVisit(s: Sys, tid: nat)
    requires Inv(s) && Enabled(s, EvVisit(tid)) && Asserted(s, EvVisit(tid))
    ensures Inv(Step(s, EvVisit(tid)))
  {
    hide Inv, Shape, Arrays, Located, SharedPrefix, Processed, TargetOk, HeadsItems;
    Parts(s);
    var s' := VisitStep(s, tid);
    assert Step(s, EvVisit(tid)) == s' && tid in s.iters && !s.destroyed && s.t.rehashBits == 0;
    hide Step, Enabled, Asserted;
    var it, it' := s.iters[tid], s'.iters[tid];
    assert IterOk(s.t, it) && s.t.rehashBuckets.None? && !s.t.exiting && !s.exited;
    hide ItersOk, WorkerOk;
    VisitedOk(s.t, it, it');
    SetOneIter(s, s', tid, it');
    SameWorker(s, s');
    KeepControl(s, s');
  }

  lemma VisitedOk(t: Table, it: Iter, it': Iter)
    requires Shape(t) && Located(t) && t.rehashBuckets.None? && it.Visiting? && IterOk(t, it)
    requires it.pos < |t.buckets| && t.buckets[it.pos] in t.store
    requires it' == it.(pos := it.pos + 1, visited := it.visited + HeadsItems(t.store[t.buckets[it.pos]].heads))
    ensures IterOk(t, it')
  {
    forall n | n in it'.stayed
      ensures it'.visited[n] == if PosBucket(t.cfg, t.curBits, n.key) < it'.pos then 1 else 0
    {
      VisitCounts(t, it.pos, n);
    }
    hide Arrays, HeadsItems;
  }

  lemma KeepEnter(s: Sys, tid: nat)
    requires Inv(s) && Enabled(s, EvEnter(tid)) && Asserted(s, EvEnter(tid))
    ensures Inv(Step(s, EvEnter(tid)))
  {
    hide Inv, Shape, Arrays, Located, SharedPrefix, Processed, WorkerOk, ItersOk, TargetOk, EmptyAt, IdSet, Begin;
    Parts(s);
    var s' := EnterStep(s, tid);
    assert Step(s, EvEnter(tid)) == s' && tid !in s.iters && !s.destroyed && !s.t.exiting;
    hide Step, Enabled, Asserted;
    BeginOk(s.t);
    if !s.t.cfg.rehash {
      NoRehashNoTarget(s.t);
      SetOneIter(s, s', tid, Begin(s.t));
      SameWorker(s, s');
      KeepControl(s, s');
    } else {
      EnterFrame(s, tid);
      hide EnterStep;
      SameBucketsShape(s.t, s'.t);
      SetOneIter(s, s', tid, s'.iters[tid]);
      SameWorker(s, s');
      TargetFrame(s.t, s'.t);
      KeepControl(s, s');
    }
  }

  lemma NoRehashNoTarget(t: Table)
    requires TargetOk(t) && !t.cfg.rehash
    ensures t.rehashBits == 0
  {
  }

  lemma TargetFrame(t: Table, u: Table)
    requires TargetOk(t) && SameBuckets(t, u) && (u.rehashBits == 0 || u.rehashBits == t.rehashBits)
    ensures TargetOk(u)
  {
  }

  lemma EnterFrame(s: Sys, tid: nat)
    requires Arrays(s.t) && WorkerOk(s) && s.t.cfg.rehash && !s.t.exiting && tid !in s.iters
    requires s.scheduled && !s.exited ==> s.t.rehashBits != 0
    requires s.exited ==> s.t.exiting
    ensures var s' := EnterStep(s, tid);
      && SameBuckets(s.t, s'.t) && s'.w == s.w && (s'.scheduled ==> s.scheduled)
      && (Active(s.w) ==> s'.t.rehashBits == s.t.rehashBits)
      && (s'.t.rehashBits == 0 || s'.t.rehashBits == s.t.rehashBits)
      && s'.t.iterators == s.t.iterators + 1 && s'.t.exiting == s.t.exiting
      && s'.exited == s.exited && s'.destroyed == s.destroyed
      && (s'.scheduled && !s'.exited ==> s'.t.rehashBits != 0)
      && tid in s'.iters && s'.iters == s.iters[tid := s'.iters[tid]]
      && s'.iters[tid] == if s'.t.rehashBits == 0 then Begin(s.t) else Waiting
  {
    hide Arrays, Processed, PendingOk;
  }

  // ---------------------------------------------------------------- destruction

  lemma KeepDestroyCancel(s: Sys)
    requires Inv(s) && Enabled(s, EvDestroyCancel) && Asserted(s, EvDestroyCancel)
    ensures Inv(Step(s, EvDestroyCancel))
  {
    KeepCancel(s);
  }

  lemma KeepDrain(s: Sys)
    requires Inv(s) && Enabled(s, EvDrain) && Asserted(s, EvDrain)
    ensures Inv(Step(s, EvDrain))
  {
    hide Inv, Shape, Arrays, Located, SharedPrefix, Processed, ItersOk, IdSet, Private, EmptyAt;
    Parts(s);
    var s' := s.(t := s.t.(store := s.t.store - IdSet(s.t.buckets), count := 0), destroyed := true);
    assert Step(s, EvDrain) == s' && s.t.rehashBits == 0 && s.t.rehashBuckets.None?;
    hide Step, Enabled, Asserted;
    assert Full(s.t) == s.t.buckets;
    assert !Active(s.w);
    hide WorkerOk;
    assert s'.t.store.Keys == s.t.store.Keys - IdSet(s.t.buckets);
    DrainedEmpty(s, s');
  }

  lemma DrainedEmpty(s: Sys, s': Sys)
    requires EmptyAt(s.t, Private(s.w)) && IdSet(s.t.buckets) !! Private(s.w) && s'.w == s.w && s'.destroyed
    requires s'.t == s.t.(store := s.t.store - IdSet(s.t.buckets), count := 0)
    requires s'.t.store.Keys == Private(s.w) && !Active(s.w)
    ensures Inv(s')
  {
    hide Shape, Located, ItersOk, WorkerOk, TargetOk, IdSet, Private;
  }
}
