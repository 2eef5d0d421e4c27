/**
 * The hash table as the object the source updates in place.  Each method is one of the
 * source's functions, or one lock-protected region of a function that drops the table lock
 * on its way; its contract ties the fields to the step of the value-level model.
 */
module HashClass {
  import opened Prelude
  import opened HashTable
  import opened HashOps
  import opened HashRehash
  import opened HashSystem
  import opened HashSafety
  import opened HashTheorems

  /** What a lookup is for; the reference-taking variants differ only in item reference counts. */
  datatype Intent = Peek | FindOrAddIt | FindDel

  const LOOP_HOG := 1024

  /** Freeing what a failed reallocation had added restores the store. */
  lemma FreshGivenBack(old_: seq<nat>, store: map<nat, Bucket>, c: Config, next: nat, i: nat)
    requires |old_| <= i && (forall id :: id in store ==> id < next)
    ensures NewStore(store, c, |old_|, next, i - |old_|) - Freed(Some(NewNames(old_, next, i)), |old_|, i) == store
  {
    var b := NewNames(old_, next, i);
    forall k | |old_| <= k < i ensures b[k] == next + (k - |old_|) {
    }
    forall id | next <= id < next + (i - |old_|) ensures id in Freed(Some(b), |old_|, i) {
      assert b[|old_| + (id - next)] == id;
    }
  }

  lemma OneMore(old_: seq<nat>, store: map<nat, Bucket>, c: Config, next: nat, i: nat)
    requires |old_| <= i
    ensures NewNames(old_, next, i) + [next + (i - |old_|)] == NewNames(old_, next, i + 1)
    ensures NewStore(store, c, |old_|, next, i - |old_|)[next + (i - |old_|) := Bucket(i, 0, EmptyHeads(c))] ==
            NewStore(store, c, |old_|, next, i + 1 - |old_|)
  {
  }

  lemma NoneMore(old_: seq<nat>, store: map<nat, Bucket>, c: Config, next: nat)
    ensures NewNames(old_, next, |old_|) == old_ && NewStore(store, c, |old_|, next, 0) == store
  {
  }

  lemma NamesKept(old_: seq<nat>, next: nat, newSize: nat)
    ensures newSize <= |old_| ==> NewNames(old_, next, newSize) == old_[..newSize]
  {
  }

  class Hash {
    const cfg: Config
    var store: map<nat, Bucket>
    var next: nat
    var buckets: seq<nat>
    var rehashBuckets: Option<seq<nat>>
    var curBits: nat
    var rehashBits: nat
    var count: int
    var iterators: nat
    var iterating: bool
    var exiting: bool
    var rehashCount: nat

    function T(): Table
      reads this
    {
      Table(cfg, store, next, buckets, rehashBuckets, curBits, rehashBits, count, iterators, iterating, exiting,
            rehashCount)
    }

    constructor (c: Config)
      requires ConfigOk(c)
      ensures T() == Created(c)
    {
      cfg := c;
      store, next, buckets, rehashBuckets := map[], 0, [], None;
      curBits, rehashBits, count := c.minBits, 0, 0;
      iterators, iterating, exiting, rehashCount := 0, false, false, 0;
      new;
      var n := NumBuckets(c, c.minBits);
      var bkts := BucketsRealloc(0, n, n);
      buckets := bkts.value;
    }

    /**
     * Allocates an array of the new size, sharing the buckets of the common prefix.  The
     * allocator grants `budget` buckets; when it runs dry, what was allocated is given back.
     */
    method BucketsRealloc(oldSize: nat, newSize: nat, budget: nat) returns (r: Option<seq<nat>>)
      requires oldSize == |buckets|
      requires forall id :: id in store ==> id < next
      modifies this`store, this`next
      ensures r.Some? <==> newSize <= oldSize + budget
      ensures r.Some? ==> var more := if newSize > oldSize then newSize - oldSize else 0;
              && store == NewStore(old(store), cfg, oldSize, old(next), more) && next == old(next) + more
              && r.value == NewNames(buckets, old(next), newSize)
      ensures r.None? ==> store == old(store)
    {
      ghost var n0, s0 := next, store;
      NoneMore(buckets, store, cfg, n0);
      NamesKept(buckets, n0, newSize);
      hide NewStore, NewNames, FreshBucket, EmptyHeads, Freed;
      if newSize <= oldSize { return Some(buckets[..newSize]); }
      var bkts, i := buckets, oldSize;
      while i < newSize
        invariant oldSize <= i <= newSize && i <= oldSize + budget
        invariant bkts == NewNames(buckets, n0, i)
        invariant next == n0 + (i - oldSize)
        invariant store == NewStore(s0, cfg, oldSize, n0, i - oldSize)
      {
        if i == oldSize + budget {
          FreshGivenBack(buckets, s0, cfg, n0, i);
          BucketsFree(bkts, oldSize, i);
          return None;
        }
        OneMore(buckets, s0, cfg, n0, i);
        var id := AllocBucket(i);
        bkts := bkts + [id];
        i := i + 1;
      }
      return Some(bkts);
    }

    method AllocBucket(i: nat) returns (id: nat)
      modifies this`store, this`next
      ensures id == old(next) && next == old(next) + 1 && store == old(store)[id := Bucket(i, 0, EmptyHeads(cfg))]
    {
      id := next;
      store := store[id := Bucket(i, 0, EmptyHeads(cfg))];
      next := next + 1;
    }

    method BucketsFree(bkts: seq<nat>, lo: nat, hi: nat)
      modifies this`store
      ensures store == old(store) - Freed(Some(bkts), lo, hi)
    {
      var i := lo;
      while i < hi && i < |bkts|
        invariant lo <= i && (i <= hi || i == lo)
        invariant store == old(store) - Freed(Some(bkts), lo, i)
      {
        store := store - {bkts[i]};
        i := i + 1;
      }
      assert Freed(Some(bkts), lo, i) == Freed(Some(bkts), lo, hi);
    }

    // -------------------------------------------------------------- descriptors, with the bucket lock held

    /** hop_hnode_add with the bucket's own counter. */
    method LinkNode(bd: Bd, n: Node)
      requires bd.bkt in store && bd.off < |store[bd.bkt].heads|
      requires var h := store[bd.bkt].heads[bd.off]; cfg.addTail && h.tail.Some? ==> h.tail.value in h.chain
      modifies this`store
      ensures T() == Link(old(T()), bd, n)
    {
      var b := store[bd.bkt];
      var h := HnodeAdd(cfg, b.heads[bd.off], n);
      store := store[bd.bkt := b.(heads := b.heads[bd.off := h], count := b.count + 1)];
    }

    /** hop_hnode_del with the bucket's own counter. */
    method UnlinkNode(bd: Bd, n: Node)
      requires bd.bkt in store && bd.off < |store[bd.bkt].heads| && n in store[bd.bkt].heads[bd.off].chain
      modifies this`store
      ensures T() == Unlink(old(T()), bd, n)
    {
      var b := store[bd.bkt];
      var h := HnodeDel(cfg, b.heads[bd.off], n);
      store := store[bd.bkt := b.(heads := b.heads[bd.off := h], count := b.count - 1)];
    }

    method BdAddLocked(bd: Bd, n: Node)
      requires Shape(T()) && Live(T(), bd) && n !in Items(T())
      modifies this`store, this`count
      ensures (BdAddOk(old(T()), bd, n); T() == BdAdd(old(T()), bd, n))
    {
      BdAddOk(T(), bd, n);
      LinkNode(bd, n);
      if cfg.counter { count := count + 1; }
    }

    method BdDelLocked(bd: Bd, n: Node)
      requires Shape(T()) && Live(T(), bd) && n in ChainAt(T(), bd)
      modifies this`store, this`count
      ensures T() == BdDel(old(T()), bd, n)
    {
      UnlinkNode(bd, n);
      if cfg.counter { count := count - 1; }
    }

    method BdMoveLocked(src: Bd, dst: Bd, n: Node)
      requires Shape(T()) && Live(T(), src) && Live(T(), dst) && n in ChainAt(T(), src)
      modifies this`store
      ensures T() == BdMove(old(T()), src, dst, n)
    {
      if store[src.bkt].index == store[dst.bkt].index && src.off == dst.off { return; }
      UnlinkOk(T(), src, n);
      ghost var u := Unlink(T(), src, n);
      assert Live(u, dst);
      LinkOk(u, dst, n);
      assert BdMove(T(), src, dst, n) == Link(u, dst, n);
      UnlinkNode(src, n);
      LinkNode(dst, n);
    }

    /** Walks one chain for the key and acts on the first match, or on there being none. */
    method BdLookupIntent(bd: Bd, key: Key, hnode: Option<Node>, intent: Intent) returns (r: Option<Node>)
      requires Shape(T()) && Live(T(), bd)
      requires intent.FindOrAddIt? ==> hnode.Some? && hnode.value !in Items(T())
      modifies this`store, this`count
      ensures var only := if intent.FindOrAddIt? then None else hnode;
              var f := FindIn(ChainAt(old(T()), bd), key, only);
              r == if f.None? && intent.FindOrAddIt? then hnode else f
      ensures var only := if intent.FindOrAddIt? then None else hnode;
              var f := FindIn(ChainAt(old(T()), bd), key, only);
              if f.Some? && intent.FindDel? then T() == BdDel(old(T()), bd, f.value)
              else if f.None? && intent.FindOrAddIt? then
                (BdAddOk(old(T()), bd, hnode.value); T() == BdAdd(old(T()), bd, hnode.value))
              else T() == old(T())
    {
      var chain := store[bd.bkt].heads[bd.off].chain;
      var only := if intent.FindOrAddIt? then None else hnode;
      var k := 0;
      while k < |chain|
        invariant k <= |chain|
        invariant T() == old(T())
        invariant FindIn(chain, key, only) == FindIn(chain[k..], key, only)
      {
        var n := chain[k];
        if n.key == key && (only.None? || only.value == n) {
          assert FindIn(chain, key, only) == Some(n);
          if intent.FindDel? { BdDelLocked(bd, n); }
          return Some(n);
        }
        assert chain[k..][1..] == chain[k + 1..];
        k := k + 1;
      }
      if !intent.FindOrAddIt? { return None; }
      BdAddLocked(bd, hnode.value);
      return hnode;
    }

    method GetBd(key: Key) returns (bd: Bd)
      requires Arrays(T())
      ensures bd == BdGet(T(), key)
    {
      if rehashBuckets.None? { bd := BdFromKey(T(), buckets, curBits, key); }
      else { bd := BdFromKey(T(), rehashBuckets.value, rehashBits, key); }
    }

    /** Both descriptors of a key, ordered for locking; a second one equal to the first is dropped. */
    method GetDualBd(key: Key) returns (bds: seq<Bd>)
      requires Arrays(T())
      ensures bds == DualBdGet(T(), key)
    {
      CurBdLive(T(), key);
      var cur := BdFromKey(T(), buckets, curBits, key);
      if rehashBuckets.None? { return [cur]; }
      RehashBdLive(T(), key);
      var re := BdFromKey(T(), rehashBuckets.value, rehashBits, key);
      var i, j := store[cur.bkt].index, store[re.bkt].index;
      if i == j && cur.off == re.off { return [cur]; }
      if i > j || (i == j && cur.off > re.off) { return [re, cur]; }
      return [cur, re];
    }

    // -------------------------------------------------------------- the interface

    method LookupKey(key: Key) returns (r: Option<Node>)
      requires Shape(T())
      ensures r == Lookup(T(), key)
    {
      DualBdLive(T(), key);
      var bds := GetDualBd(key);
      var i := 0;
      while i < |bds|
        invariant i <= |bds|
        invariant MultiFind(T(), bds, key, None) == MultiFind(T(), bds[i..], key, None)
      {
        var chain := store[bds[i].bkt].heads[bds[i].off].chain;
        assert chain == ChainAt(T(), bds[i..][0]);
        var f := FindIn(chain, key, None);
        if f.Some? { return f; }
        assert bds[i..][1..] == bds[i + 1..];
        i := i + 1;
      }
      return None;
    }

    method AddNode(n: Node)
      requires Shape(T()) && n !in Items(T())
      modifies this`store, this`count
      ensures T() == Add(old(T()), n)
    {
      DualBdLive(T(), n.key);
      var bd := GetBd(n.key);
      BdAddLocked(bd, n);
    }

    method FindOrAddNode(n: Node) returns (r: Node)
      requires Shape(T()) && n !in Items(T())
      modifies this`store, this`count
      ensures (T(), r) == FindOrAdd(old(T()), n)
    {
      DualBdLive(T(), n.key);
      hide Arrays, DualBdGet, BdGet;
      var bds := GetDualBd(n.key);
      var i := 0;
      while i < |bds|
        invariant i <= |bds| && T() == old(T())
        invariant MultiFind(T(), bds, n.key, None) == MultiFind(T(), bds[i..], n.key, None)
      {
        assert bds[i] == bds[i..][0];
        var f := BdLookupIntent(bds[i], n.key, None, Peek);
        if f.Some? { return f.value; }
        assert bds[i..][1..] == bds[i + 1..];
        i := i + 1;
      }
      if i == 1 {
        BdAddLocked(bds[0], n);
      } else {
        var mine := GetBd(n.key);
        BdAddLocked(mine, n);
      }
      return n;
    }

    method DelNode(key: Key, only: Option<Node>) returns (r: Option<Node>)
      requires Shape(T()) && DelAllowed(T(), key, only)
      modifies this`store, this`count
      ensures (T(), r) == Del(old(T()), key, only)
    {
      DualBdLive(T(), key);
      hide Arrays, DualBdGet;
      var bds := GetDualBd(key);
      if |bds| == 1 && only.Some? {
        BdDelLocked(bds[0], only.value);
        return only;
      }
      var i := 0;
      while i < |bds|
        invariant i <= |bds| && T() == old(T())
        invariant MultiFind(T(), bds, key, only) == MultiFind(T(), bds[i..], key, only)
      {
        assert bds[i] == bds[i..][0];
        var f := BdLookupIntent(bds[i], key, only, FindDel);
        if f.Some? { return f; }
        assert bds[i..][1..] == bds[i + 1..];
        i := i + 1;
      }
      return None;
    }

    // -------------------------------------------------------------- the rehash worker, region by region

    /** Re-hashes every node of bucket `i`; returns how many nodes it looked at. */
    method RehashBd(i: nat) returns (c: nat)
      requires Rehashing(T(), i)
      modifies this`store
      ensures T() == RehashBucket(old(T()), i)
    {
      hide Arrays, Shape, SharedPrefix;
      c := 0;
      var o, nh := 0, NumHeads(cfg);
      while o < nh
        invariant o <= nh && Rehashing(T(), i)
        invariant RehashHeads(T(), i, o) == RehashBucket(old(T()), i)
      {
        WalkedLive(T(), i, o);
        RehashChainFrame(T(), i, o, 0);
        var d := RehashHead(i, o);
        c := c + d;
        o := o + 1;
      }
    }

    /** The walk along one head; the next node is known before the current one is moved. */
    method RehashHead(i: nat, o: nat) returns (c: nat)
      requires Rehashing(T(), i) && o < NumHeads(cfg)
      requires buckets[i] in store && o < |store[buckets[i]].heads|
      modifies this`store
      ensures T() == RehashChain(old(T()), i, o, 0)
    {
      hide Arrays, Shape, SharedPrefix, RehashChain;
      c := 0;
      var k: nat := 0;
      while k < |store[buckets[i]].heads[o].chain|
        invariant Rehashing(T(), i) && buckets[i] in store && o < |store[buckets[i]].heads|
        invariant k <= |store[buckets[i]].heads[o].chain|
        invariant RehashChain(T(), i, o, k) == RehashChain(old(T()), i, o, 0)
        decreases |store[buckets[i]].heads[o].chain| - k
      {
        k := RehashNode(i, o, k);
        c := c + 1;
      }
      WalkOver(T(), i, o, k);
    }

    /** One node of the walk: stepped over when it stays, taken off the head when it moves. */
    method RehashNode(i: nat, o: nat, k: nat) returns (k': nat)
      requires Rehashing(T(), i) && o < NumHeads(cfg)
      requires buckets[i] in store && o < |store[buckets[i]].heads| && k < |store[buckets[i]].heads[o].chain|
      modifies this`store
      ensures Rehashing(T(), i) && buckets[i] in store && o < |store[buckets[i]].heads|
      ensures k' <= |store[buckets[i]].heads[o].chain|
      ensures |store[buckets[i]].heads[o].chain| - k' < old(|store[buckets[i]].heads[o].chain|) - k
      ensures RehashChain(T(), i, o, k') == RehashChain(old(T()), i, o, k)
    {
      hide Arrays, SharedPrefix, BdMove, RehashChain, Items;
      var here := Bd(buckets[i], o);
      var n := store[buckets[i]].heads[o].chain[k];
      ghost var dst := WalkStep(T(), i, o, k);
      var there := BdFromKey(T(), rehashBuckets.value, rehashBits, n.key);
      if store[here.bkt].index == store[there.bkt].index && here.off == there.off {
        k' := k + 1;
      } else {
        BdMoveLocked(here, there, n);
        k' := k;
      }
    }

    /** The region in which the worker decides whether to go on and installs the new array. */
    method WorkerInstall(ghost s: Sys, bkts: Option<seq<nat>>, oldSize: nat, newSize: nat) returns (w: Worker)
      requires s.t == T() && s.w == Alloced(bkts, oldSize, newSize) && rehashBuckets.None?
      modifies this`rehashBuckets, this`rehashBits
      ensures T() == InstallStep(s).t && w == InstallStep(s).w
    {
      hide Theta;
      if bkts.None? {
        w := Freeing(None, 0, 0);
      } else if bkts.value == buckets {
        w := Freeing(None, 0, 0);
      } else {
        var theta := Theta(T());
        if theta >= cfg.minTheta && theta <= cfg.maxTheta {
          w := Freeing(bkts, |buckets|, newSize);
        } else {
          rehashBuckets := bkts;
          return Moving(0, oldSize, newSize);
        }
      }
      rehashBits := 0;
    }

    /** The end of the loop: the new array becomes the table's. */
    method SwapArrays()
      requires rehashBuckets.Some?
      modifies this`buckets, this`rehashBuckets, this`curBits, this`rehashBits, this`rehashCount
      ensures T() == Swap(old(T())).(rehashBits := 0)
    {
      rehashCount := rehashCount + 1;
      buckets, rehashBuckets, curBits := rehashBuckets.value, None, rehashBits;
      rehashBits := 0;
    }

    /** One pass through the worker's loop, or what follows the loop; `c` is the work done. */
    method WorkerPass(ghost s: Sys, i: nat, oldSize: nat, newSize: nat) returns (w: Worker, c: nat)
      requires s.t == T() && s.w == Moving(i, oldSize, newSize) && rehashBuckets.Some? && i <= |buckets|
      requires i < |buckets| ==> Rehashing(T(), i)
      modifies this`store, this`buckets, this`rehashBuckets, this`curBits, this`rehashBits, this`rehashCount
      ensures T() == MoveStep(s).t && w == MoveStep(s).w
    {
      hide Shape, Arrays, RehashHeads;
      c := 0;
      if i == |buckets| {
        w := Freeing(Some(buckets), newSize, oldSize);
        SwapArrays();
      } else if exiting && oldSize < newSize {
        w := Freeing(Some(buckets), newSize, oldSize);
        SwapArrays();
      } else if exiting {
        w := Freeing(rehashBuckets, |buckets|, newSize);
        rehashBuckets := None;
        rehashBits := 0;
      } else {
        c := RehashBd(i);
        w := Moving(i + 1, oldSize, newSize);
      }
    }

    /**
     * One stay of the worker under the exclusive lock: bucket after bucket, until it has
     * worked long enough and no iteration waits, or the job is over.
     */
    method WorkerBatch(ghost s: Sys, i: nat, oldSize: nat, newSize: nat)
      returns (w: Worker, ghost s': Sys, ghost steps: nat)
      requires Inv(s) && !s.destroyed && s.t == T() && s.w == Moving(i, oldSize, newSize)
      modifies this`store, this`buckets, this`rehashBuckets, this`curBits, this`rehashBits, this`rehashCount
      ensures Moves(s, s', steps) && steps > 0 && Inv(s') && s'.t == T() && s'.w == w
      ensures w.Freeing? || (w.Moving? && !iterating && iterators == 0)
    {
      hide Inv, Shape, Arrays, Step, MoveStep, Rehashing;
      s', steps := s, 0;
      w := Moving(i, oldSize, newSize);
      var work := 0;
      var hog := false;
      ghost var left := |buckets| + 1 - i;
      MovingFacts(s');
      while w.Moving? && !hog
        invariant Inv(s') && !s'.destroyed && s'.t == T() && s'.w == w && Moves(s, s', steps)
        invariant w.Moving? || w.Freeing?
        invariant steps == 0 ==> !hog && w.Moving?
        invariant hog ==> !iterating && iterators == 0
        invariant w.Moving? ==> left == |buckets| + 1 - w.i && w.i <= |buckets|
        decreases if w.Moving? && !hog then left + 1 else 0
      {
        MovingFacts(s');
        MoveKeeps(s');
        MovesLast(s, s', MoveStepOf(s'), steps);
        MoveForward(s');
        var c;
        w, c := WorkerPass(s', w.i, w.oldSize, w.newSize);
        s', steps := MoveStepOf(s'), steps + 1;
        work := work + c;
        hog := work >= LOOP_HOG && !(iterating || iterators != 0);
        left := if w.Moving? then |buckets| + 1 - w.i else left;
      }
    }

    // -------------------------------------------------------------- iteration and destruction

    /** The part of a tight iteration done under one bucket lock: every node of the bucket, head by head. */
    method VisitBucket(pos: nat) returns (nodes: seq<Node>)
      requires Arrays(T()) && pos < |buckets| && buckets[pos] in store
      ensures multiset(nodes) == HeadsItems(store[buckets[pos]].heads)
    {
      var heads := store[buckets[pos]].heads;
      nodes := [];
      var o := 0;
      while o < |heads|
        invariant o <= |heads| && multiset(nodes) == HeadsItems(heads[..o])
      {
        var chain := heads[o].chain;
        var k := 0;
        while k < |chain|
          invariant k <= |chain| && multiset(nodes) == HeadsItems(heads[..o]) + multiset(chain[..k])
        {
          assert chain[..k + 1] == chain[..k] + [chain[k]];
          nodes := nodes + [chain[k]];
          k := k + 1;
        }
        assert chain[..k] == chain;
        assert heads[..o + 1][..o] == heads[..o];
        o := o + 1;
      }
      assert heads[..o] == heads;
    }

    /** Empties one head; each node is handed out once and nothing else moves. */
    method DrainHead(bd: Bd) returns (gone: seq<Node>)
      requires Shape(T()) && Live(T(), bd)
      modifies this`store, this`count
      ensures Shape(T()) && Full(T()) == old(Full(T())) && LiveOnly(old(T()), T())
      ensures Items(T()) + multiset(gone) == old(Items(T()))
      ensures Emptier(old(T()), T()) && ChainEmpty(T(), bd)
    {
      gone := [];
      LiveOnlyRefl(T());
      while |store[bd.bkt].heads[bd.off].chain| > 0
        invariant Shape(T()) && Live(T(), bd) && Full(T()) == old(Full(T())) && LiveOnly(old(T()), T())
        invariant Items(T()) + multiset(gone) == old(Items(T()))
        invariant Emptier(old(T()), T())
        decreases |store[bd.bkt].heads[bd.off].chain|
      {
        ghost var t := T();
        var n := store[bd.bkt].heads[bd.off].chain[0];
        DrainOne(old(T()), t, bd, n);
        BdDelLocked(bd, n);
        HandOut(Items(t), Items(T()), n, gone, old(Items(T())));
        gone := gone + [n];
      }
    }

    method DrainBucket(i: nat) returns (gone: seq<Node>)
      requires Shape(T()) && rehashBuckets.None? && i < |buckets| && Cleared(T(), i, 0)
      modifies this`store, this`count
      ensures Shape(T()) && Full(T()) == old(Full(T())) && LiveOnly(old(T()), T())
      ensures Items(T()) + multiset(gone) == old(Items(T()))
      ensures Cleared(T(), i + 1, 0)
    {
      gone := [];
      LiveOnlyRefl(T());
      var o: nat, nh := 0, NumHeads(cfg);
      hide Arrays, Holds, Live, Cleared, Emptier;
      while o < nh
        invariant o <= nh && Shape(T()) && Full(T()) == old(Full(T())) && LiveOnly(old(T()), T())
        invariant Items(T()) + multiset(gone) == old(Items(T())) && Cleared(T(), i, o)
      {
        ghost var t := T();
        BucketHere(t, i, o);
        var more := DrainHead(Bd(buckets[i], o));
        LiveOnlyTrans(old(T()), t, T());
        ClearedOne(t, T(), i, o);
        Join(Items(T()), more, Items(t), gone, old(Items(T())));
        gone := gone + more;
        o := o + 1;
      }
      ClearedBucket(T(), i);
    }

    /**
     * What destruction does once no rehash is under way: every item leaves the table and
     * every bucket is freed.
     */
    method Drain() returns (gone: seq<Node>)
      requires Shape(T()) && rehashBuckets.None?
      modifies this`store, this`count
      ensures multiset(gone) == old(Items(T()))
      ensures cfg.counter ==> count == 0
      ensures store.Keys == old(store.Keys) - IdSet(buckets)
    {
      gone := [];
      var i: nat := 0;
      LiveOnlyRefl(T());
      assert Cleared(T(), 0, 0);
      hide Arrays, Holds, Cleared, IdSet, Freed, Items;
      while i < |buckets|
        invariant i <= |buckets| && Shape(T()) && LiveOnly(old(T()), T())
        invariant Items(T()) + multiset(gone) == old(Items(T())) && Cleared(T(), i, 0)
      {
        ghost var t := T();
        var more := DrainBucket(i);
        LiveOnlyTrans(old(T()), t, T());
        Join(Items(T()), more, Items(t), gone, old(Items(T())));
        gone := gone + more;
        i := i + 1;
      }
      ClearedAll(T());
      FreeAll();
    }

    method FreeAll()
      modifies this`store
      ensures store.Keys == old(store.Keys) - IdSet(buckets)
    {
      AllNames(buckets);
      hide Freed, IdSet;
      BucketsFree(buckets, 0, |buckets|);
    }
  }

  ghost predicate Emptier(t: Table, u: Table)
    requires Arrays(t) && Arrays(u)
  {
    forall i: nat, o: nat, m: Node :: Holds(u, i, o, m) ==> Holds(t, i, o, m)
  }

  ghost predicate ChainEmpty(t: Table, bd: Bd) {
    bd.bkt in t.store && bd.off < |t.store[bd.bkt].heads| && t.store[bd.bkt].heads[bd.off].chain == []
  }

  /** No node is left before head `o` of bucket `i`. */
  ghost predicate Cleared(t: Table, i: nat, o: nat)
    requires Arrays(t)
  {
    forall p: nat, q: nat, m: Node :: (p < i || (p == i && q < o)) ==> !Holds(t, p, q, m)
  }

  lemma AllNames(b: seq<nat>)
    ensures Freed(Some(b), 0, |b|) == IdSet(b)
  {
  }

  lemma BucketHere(t: Table, i: nat, o: nat)
    requires Arrays(t) && t.rehashBuckets.None? && i < |t.buckets| && o < NumHeads(t.cfg)
    ensures t.buckets[i] in t.store && Live(t, Bd(t.buckets[i], o)) && t.store[t.buckets[i]].index == i
  {
  }

  lemma ClearedOne(t: Table, u: Table, i: nat, o: nat)
    requires Arrays(t) && Arrays(u) && Full(u) == Full(t) && u.cfg == t.cfg && Cleared(t, i, o) && Emptier(t, u)
    requires i < |Full(t)| && o < NumHeads(t.cfg) && ChainEmpty(u, Bd(Full(t)[i], o))
    ensures Cleared(u, i, o + 1)
  {
  }

  lemma ClearedBucket(t: Table, i: nat)
    requires Arrays(t) && Cleared(t, i, NumHeads(t.cfg))
    ensures Cleared(t, i + 1, 0)
  {
  }

  lemma ClearedAll(t: Table)
    requires Arrays(t) && t.rehashBuckets.None? && Cleared(t, |t.buckets|, 0)
    ensures Items(t) == multiset{}
  {
    forall n ensures n !in Items(t) {
      ItemsHolds(t, n);
    }
  }

  lemma Join(after: multiset<Node>, more: seq<Node>, before: multiset<Node>, gone: seq<Node>, all: multiset<Node>)
    requires after + multiset(more) == before && before + multiset(gone) == all
    ensures after + multiset(gone + more) == all
  {
    assert multiset(gone + more) == multiset(gone) + multiset(more);
  }

  lemma DrainOne(t0: Table, t: Table, bd: Bd, n: Node)
    requires Shape(t) && Live(t, bd) && n in ChainAt(t, bd) && LiveOnly(t0, t)
    ensures var u := BdDel(t, bd, n);
      && Shape(u) && Live(u, bd) && Full(u) == Full(t) && Items(u) == Items(t) - multiset{n} && n in Items(t)
      && LiveOnly(t0, u) && |ChainAt(u, bd)| < |ChainAt(t, bd)| && Emptier(t, u)
  {
    BdDelOk(t, bd, n);
    forall i: nat, o: nat, m: Node | Holds(BdDel(t, bd, n), i, o, m) ensures Holds(t, i, o, m) {
      BdDelHolds(t, bd, n, i, o, m);
    }
    UnlinkOk(t, bd, n);
    LiveOnlySet(t, bd, HnodeDel(t.cfg, t.store[bd.bkt].heads[bd.off], n), -1,
                if t.cfg.counter then t.count - 1 else t.count);
    LiveOnlyTrans(t0, t, BdDel(t, bd, n));
    hide Arrays, Shape;
  }

  lemma HandOut(before: multiset<Node>, after: multiset<Node>, n: Node, gone: seq<Node>, all: multiset<Node>)
    requires after == before - multiset{n} && n in before && before + multiset(gone) == all
    ensures after + multiset(gone + [n]) == all
  {
    assert before == after + multiset{n};
  }

  /** The state after one more bucket of the worker's loop, or after its end. */
  ghost function MoveStepOf(s: Sys): Sys
    requires Inv(s) && !s.destroyed && s.w.Moving?
  {
    MoveEnabled(s);
    Step(s, EvMove)
  }

  lemma MoveEnabled(s: Sys)
    requires Inv(s) && !s.destroyed && s.w.Moving?
    ensures Enabled(s, EvMove) && Asserted(s, EvMove)
  {
    hide Arrays, Located, WorkerOk, ItersOk, TargetOk, EmptyAt, IdSet;
    AssertionsHold(s, EvMove);
  }

  lemma MovingFacts(s: Sys)
    requires Inv(s) && !s.destroyed && s.w.Moving?
    ensures s.t.rehashBuckets.Some? && s.w.i <= |s.t.buckets| && s.w.oldSize == |s.t.buckets|
    ensures s.w.i < |s.t.buckets| ==> Rehashing(s.t, s.w.i)
  {
    hide Inv, Arrays, Located, ItersOk, TargetOk, EmptyAt, IdSet, Processed;
    Parts(s);
  }

  lemma MoveKeeps(s: Sys)
    requires Inv(s) && !s.destroyed && s.w.Moving?
    ensures Inv(MoveStepOf(s)) && !MoveStepOf(s).destroyed
    ensures s.t.rehashBuckets.Some? && (s.w.i < |s.t.buckets| ==> Rehashing(s.t, s.w.i)) && MoveStepOf(s) == MoveStep(s)
  {
    hide Inv, Shape, Arrays, RehashHeads, SharedPrefix;
    MoveEnabled(s);
    MovingFacts(s);
    assert MoveStepOf(s) == MoveStep(s);
    KeepMove(s);
    hide Enabled, Asserted;
    StillStanding(s, EvMove);
  }

  /** A pass that does not end the job goes on to the next bucket of the same array. */
  lemma MoveForward(s: Sys)
    requires Inv(s) && !s.destroyed && s.w.Moving?
    ensures var s' := MoveStepOf(s);
      && (s'.w.Moving? || s'.w.Freeing?)
      && (s'.w.Moving? ==> s'.w.i == s.w.i + 1 <= |s.t.buckets| && s'.t.buckets == s.t.buckets)
  {
    MoveKeeps(s);
    var i := s.w.i;
    if i < |s.t.buckets| && !s.t.exiting {
      MovingFacts(s);
      hide Inv, Shape, Arrays, RehashHeads;
      LiveOnlyHeads(s.t, i, 0);
    } else {
      MovingFacts(s);
      hide Inv, Shape, Arrays, RehashHeads;
    }
  }

  lemma WalkOver(t: Table, i: nat, o: nat, k: nat)
    requires Rehashing(t, i) && o < NumHeads(t.cfg)
    requires t.buckets[i] in t.store && o < |t.store[t.buckets[i]].heads| && k == |ChainAt(t, Bd(t.buckets[i], o))|
    ensures RehashChain(t, i, o, k) == t
  {
  }

  /** `steps` consecutive steps of the worker's loop lead from one state to another. */
  ghost predicate Moves(s: Sys, s': Sys, steps: nat)
    decreases steps
  {
    if steps == 0 then s' == s
    else exists m: Sys :: Moves(s, m, steps - 1) && Enabled(m, EvMove) && Asserted(m, EvMove) && s' == Step(m, EvMove)
  }

  lemma MovesLast(s: Sys, m: Sys, s': Sys, steps: nat)
    requires Moves(s, m, steps) && Inv(m) && !m.destroyed && m.w.Moving? && s' == MoveStepOf(m)
    ensures Moves(s, s', steps + 1)
  {
    MoveEnabled(m);
    hide Inv, Enabled, Asserted, Step;
  }
}
