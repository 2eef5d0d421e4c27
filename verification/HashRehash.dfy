/**
 * Moving one bucket to the new layout: every node of every head of the bucket is re-hashed
 * and, when its place changed, unlinked and linked again.  Bucket objects are shared by the
 * two arrays, so a node may be moved within the bucket being walked.
 */
module HashRehash {
  import opened Prelude
  import opened HashTable
  import opened HashOps

  ghost predicate Rehashing(t: Table, i: nat) {
    Shape(t) && t.rehashBuckets.Some? && i < |t.buckets|
  }

  lemma WalkedLive(t: Table, i: nat, o: nat)
    requires Rehashing(t, i) && o < NumHeads(t.cfg)
    ensures Live(t, Bd(t.buckets[i], o)) && t.store[t.buckets[i]].index == i && Full(t)[i] == t.buckets[i]
    ensures o < |t.store[t.buckets[i]].heads|
  {
  }

  /** The walk along one head from position `k` on: a node that stays is stepped over, one that moves is removed. */
  function RehashChain(t: Table, i: nat, o: nat, k: nat): Table
    requires Rehashing(t, i) && o < NumHeads(t.cfg)
    requires t.buckets[i] in t.store && o < |t.store[t.buckets[i]].heads| && k <= |ChainAt(t, Bd(t.buckets[i], o))|
    decreases |ChainAt(t, Bd(t.buckets[i], o))| - k
  {
    var bd := Bd(t.buckets[i], o);
    if k == |ChainAt(t, bd)| then t
    else
      var n := ChainAt(t, bd)[k];
      WalkedLive(t, i, o);
      RehashBdLive(t, n.key);
      var dst := BdFromKey(t, t.rehashBuckets.value, t.rehashBits, n.key);
      MoveOne(t, bd, dst, k);
      if BdCompare(t, bd, dst) == 0 then RehashChain(t, i, o, k + 1)
      else RehashChain(BdMove(t, bd, dst, n), i, o, k)
  }

  function RehashHeads(t: Table, i: nat, o: nat): Table
    requires Rehashing(t, i) && o <= NumHeads(t.cfg)
    decreases NumHeads(t.cfg) - o
  {
    if o == NumHeads(t.cfg) then t
    else
      WalkedLive(t, i, o);
      RehashChainFrame(t, i, o, 0);
      RehashHeads(RehashChain(t, i, o, 0), i, o + 1)
  }

  function RehashBucket(t: Table, i: nat): Table
    requires Rehashing(t, i)
  {
    RehashHeads(t, i, 0)
  }

  /** A move that changes place shortens the walked chain by the node at the cursor and keeps the rest. */
  lemma MoveOne(t: Table, src: Bd, dst: Bd, k: nat)
    requires Shape(t) && Live(t, src) && Live(t, dst) && k < |ChainAt(t, src)|
    ensures var u := BdMove(t, src, dst, ChainAt(t, src)[k]);
      && Shape(u) && Full(u) == Full(t) && Items(u) == Items(t) && u == t.(store := u.store)
      && Live(u, src) && Live(u, dst)
      && (BdCompare(t, src, dst) != 0 ==> ChainAt(u, src) == ChainAt(t, src)[..k] + ChainAt(t, src)[k + 1..])
  {
    var n := ChainAt(t, src)[k];
    hide Arrays;
    BdMoveOk(t, src, dst, n);
    CursorIndex(t, src, k);
    if BdCompare(t, src, dst) != 0 {
      UnlinkThenLink(t, src, dst, n);
      MovedChain(t, src, dst, n, k);
    }
  }

  lemma CursorIndex(t: Table, bd: Bd, k: nat)
    requires Shape(t) && Live(t, bd) && k < |ChainAt(t, bd)|
    ensures IndexOf(ChainAt(t, bd), ChainAt(t, bd)[k]) == k
  {
    ChainWithin(t, bd);
    SingleDistinct(ChainAt(t, bd), Items(t));
  }

  lemma MovedChain(t: Table, src: Bd, dst: Bd, n: Node, k: nat)
    requires Shape(t) && Live(t, src) && Live(t, dst) && n in ChainAt(t, src) && IndexOf(ChainAt(t, src), n) == k
    requires BdCompare(t, src, dst) != 0
    ensures var u := BdMove(t, src, dst, n);
      && src.bkt in u.store && src.off < |u.store[src.bkt].heads|
      && ChainAt(u, src) == ChainAt(t, src)[..k] + ChainAt(t, src)[k + 1..]
  {
    assert src.bkt == dst.bkt ==> src.off != dst.off;
    var u := MovedIs(t, src, dst, n);
    hide *;
    UnlinkedChain(t, src, n);
    LinkedChain(u, dst, n, src);
  }

  lemma MovedIs(t: Table, src: Bd, dst: Bd, n: Node) returns (u: Table)
    requires Shape(t) && Live(t, src) && Live(t, dst) && n in ChainAt(t, src) && BdCompare(t, src, dst) != 0
    ensures u == Unlink(t, src, n)
    ensures src.bkt in u.store && src.off < |u.store[src.bkt].heads|
    ensures dst.bkt in u.store && dst.off < |u.store[dst.bkt].heads|
    ensures var h := u.store[dst.bkt].heads[dst.off]; u.cfg.addTail && h.tail.Some? ==> h.tail.value in h.chain
    ensures BdMove(t, src, dst, n) == Link(u, dst, n)
  {
    hide Arrays, Items, Unlink, Link;
    UnlinkThenLink(t, src, dst, n);
    u := Unlink(t, src, n);
  }

  lemma UnlinkedChain(t: Table, bd: Bd, n: Node)
    requires bd.bkt in t.store && bd.off < |t.store[bd.bkt].heads| && n in ChainAt(t, bd)
    ensures var u := Unlink(t, bd, n); var k := IndexOf(ChainAt(t, bd), n);
      && bd.bkt in u.store && bd.off < |u.store[bd.bkt].heads|
      && ChainAt(u, bd) == ChainAt(t, bd)[..k] + ChainAt(t, bd)[k + 1..]
  {
    hide IndexOf, SetHead;
    HeadSet(t, bd, HnodeDel(t.cfg, t.store[bd.bkt].heads[bd.off], n), -1, bd);
  }

  lemma LinkedChain(t: Table, bd: Bd, n: Node, other: Bd)
    requires bd.bkt in t.store && bd.off < |t.store[bd.bkt].heads| && other != bd
    requires other.bkt in t.store && other.off < |t.store[other.bkt].heads|
    requires var h := t.store[bd.bkt].heads[bd.off]; t.cfg.addTail && h.tail.Some? ==> h.tail.value in h.chain
    ensures var u := Link(t, bd, n);
      other.bkt in u.store && other.off < |u.store[other.bkt].heads| && ChainAt(u, other) == ChainAt(t, other)
  {
    hide SetHead, HnodeAdd;
    HeadSet(t, bd, HnodeAdd(t.cfg, t.store[bd.bkt].heads[bd.off], n), 1, other);
  }

  /** What replacing one head does to a chain. */
  lemma HeadSet(t: Table, bd: Bd, h: Head, delta: int, other: Bd)
    requires bd.bkt in t.store && bd.off < |t.store[bd.bkt].heads|
    requires other.bkt in t.store && other.off < |t.store[other.bkt].heads|
    ensures var u := SetHead(t, bd, h, delta);
      && other.bkt in u.store && other.off < |u.store[other.bkt].heads|
      && ChainAt(u, other) == if other == bd then h.chain else ChainAt(t, other)
  {
  }

  /** What one pass of the walk does: `dst` is where the node at the cursor belongs. */
  lemma WalkStep(t: Table, i: nat, o: nat, k: nat) returns (dst: Bd)
    requires Rehashing(t, i) && o < NumHeads(t.cfg)
    requires t.buckets[i] in t.store && o < |t.store[t.buckets[i]].heads| && k < |ChainAt(t, Bd(t.buckets[i], o))|
    ensures t.cfg.bktBits <= t.rehashBits && |t.rehashBuckets.value| == NumBuckets(t.cfg, t.rehashBits)
    ensures var bd := Bd(t.buckets[i], o); var n := ChainAt(t, bd)[k];
      && dst == BdFromKey(t, t.rehashBuckets.value, t.rehashBits, n.key)
      && Live(t, bd) && Live(t, dst) && t.store[dst.bkt].index == PosBucket(t.cfg, t.rehashBits, n.key)
      && t.store[t.buckets[i]].index == i
      && (BdCompare(t, bd, dst) == 0 ==> RehashChain(t, i, o, k) == RehashChain(t, i, o, k + 1))
      && (BdCompare(t, bd, dst) != 0 ==>
            var u := BdMove(t, bd, dst, n);
            && Rehashing(u, i) && u == t.(store := u.store) && Full(u) == Full(t) && Items(u) == Items(t)
            && t.buckets[i] in u.store && o < |u.store[t.buckets[i]].heads|
            && ChainAt(u, bd) == ChainAt(t, bd)[..k] + ChainAt(t, bd)[k + 1..]
            && RehashChain(t, i, o, k) == RehashChain(u, i, o, k))
  {
    var bd := Bd(t.buckets[i], o);
    var n := ChainAt(t, bd)[k];
    WalkedLive(t, i, o);
    RehashBdLive(t, n.key);
    dst := BdFromKey(t, t.rehashBuckets.value, t.rehashBits, n.key);
    hide Arrays, SharedPrefix, BdMove, BdFromKey;
    MoveOne(t, bd, dst, k);
  }

  /** One turn of the walk: the table and the cursor it leaves. */
  lemma WalkOn(t: Table, i: nat, o: nat, k: nat) returns (u: Table, k': nat)
    requires Rehashing(t, i) && o < NumHeads(t.cfg)
    requires t.buckets[i] in t.store && o < |t.store[t.buckets[i]].heads| && k < |ChainAt(t, Bd(t.buckets[i], o))|
    ensures Rehashing(u, i) && u == t.(store := u.store) && Full(u) == Full(t) && Items(u) == Items(t)
    ensures u.buckets[i] in u.store && o < |u.store[u.buckets[i]].heads| && k' <= |ChainAt(u, Bd(u.buckets[i], o))|
    ensures |ChainAt(u, Bd(u.buckets[i], o))| - k' < |ChainAt(t, Bd(t.buckets[i], o))| - k
    ensures RehashChain(t, i, o, k) == RehashChain(u, i, o, k')
  {
    hide Arrays, BdMove, RehashChain, Items, BdFromKey;
    var bd := Bd(t.buckets[i], o);
    var dst := WalkStep(t, i, o, k);
    if BdCompare(t, bd, dst) == 0 {
      u, k' := t, k + 1;
    } else {
      u, k' := BdMove(t, bd, dst, ChainAt(t, bd)[k]), k;
    }
  }

  lemma {:induction false} RehashChainFrame(t: Table, i: nat, o: nat, k: nat)
    requires Rehashing(t, i) && o < NumHeads(t.cfg)
    requires t.buckets[i] in t.store && o < |t.store[t.buckets[i]].heads| && k <= |ChainAt(t, Bd(t.buckets[i], o))|
    ensures var u := RehashChain(t, i, o, k);
      Rehashing(u, i) && u == t.(store := u.store) && Full(u) == Full(t) && Items(u) == Items(t)
    decreases |ChainAt(t, Bd(t.buckets[i], o))| - k
  {
    if k < |ChainAt(t, Bd(t.buckets[i], o))| {
      var u, k' := WalkOn(t, i, o, k);
      RehashChainFrame(u, i, o, k');
    } else {
      assert RehashChain(t, i, o, k) == t;
    }
    hide Arrays, RehashChain, Items, Full;
  }

  // ---------------------------------------------------------------- placement

  /** Every node on head `o` of bucket `i` sits at its rehash position. */
  ghost predicate HeadDone(t: Table, i: nat, o: nat)
    requires Arrays(t) && t.rehashBuckets.Some?
  {
    forall n :: Holds(t, i, o, n) ==> InPlace(t, t.rehashBits, i, o, n)
  }

  ghost predicate Placed(t: Table, i: nat, o: nat)
    requires Arrays(t) && t.rehashBuckets.Some?
  {
    Located(t) && Processed(t, i) && forall p: nat :: p < o ==> HeadDone(t, i, p)
  }

  /** Moving a node to its rehash position disturbs no placement already achieved. */
  lemma MoveKeepsPlaced(t: Table, i: nat, o: nat, src: Bd, n: Node)
    requires Rehashing(t, i) && Live(t, src) && n in ChainAt(t, src) && Placed(t, i, o)
    requires Live(t, BdFromKey(t, t.rehashBuckets.value, t.rehashBits, n.key))
    requires BdCompare(t, src, BdFromKey(t, t.rehashBuckets.value, t.rehashBits, n.key)) != 0
    ensures var u := BdMove(t, src, BdFromKey(t, t.rehashBuckets.value, t.rehashBits, n.key), n);
      Rehashing(u, i) && Placed(u, i, o)
  {
    var dst := BdFromKey(t, t.rehashBuckets.value, t.rehashBits, n.key);
    RehashBdLive(t, n.key);
    BdMoveOk(t, src, dst, n);
    var u := BdMove(t, src, dst, n);
    assert u == t.(store := u.store);
    hide Arrays, BdMove;
    forall p: nat, q: nat, m: Node | Holds(u, p, q, m)
      ensures Holds(t, p, q, m) || InPlace(u, u.rehashBits, p, q, m)
    {
      BdMoveHolds(t, src, dst, n, p, q, m);
    }
    hide Holds;
    PlacedFrame(t, u, i, o);
  }

  /** Placement carries over to a table whose nodes are where they were or at their rehash position. */
  lemma PlacedFrame(t: Table, u: Table, i: nat, o: nat)
    requires Arrays(t) && t.rehashBuckets.Some? && Placed(t, i, o) && Arrays(u) && u == t.(store := u.store)
    requires forall p: nat, q: nat, m: Node :: Holds(u, p, q, m) ==>
      Holds(t, p, q, m) || InPlace(u, u.rehashBits, p, q, m)
    ensures Placed(u, i, o)
  {
    hide Arrays, Holds;
    forall p: nat | p < o ensures HeadDone(u, i, p) {
      assert HeadDone(t, i, p);
    }
  }

  lemma WalkedDone(t: Table, i: nat, o: nat)
    requires Rehashing(t, i) && o < NumHeads(t.cfg) && Placed(t, i, o)
    requires t.buckets[i] in t.store && o < |t.store[t.buckets[i]].heads|
    requires forall j :: 0 <= j < |ChainAt(t, Bd(t.buckets[i], o))| ==>
               InPlace(t, t.rehashBits, i, o, ChainAt(t, Bd(t.buckets[i], o))[j])
    ensures Placed(t, i, o + 1)
  {
    WalkedLive(t, i, o);
    hide Arrays;
    forall n | Holds(t, i, o, n) ensures InPlace(t, t.rehashBits, i, o, n) {
      var j :| 0 <= j < |ChainAt(t, Bd(t.buckets[i], o))| && ChainAt(t, Bd(t.buckets[i], o))[j] == n;
    }
    assert HeadDone(t, i, o);
  }

  /** The part of head `o` of bucket `i` before the cursor is in place. */
  ghost predicate WalkedTo(t: Table, i: nat, o: nat, k: nat) {
    && Rehashing(t, i) && o < NumHeads(t.cfg) && Placed(t, i, o)
    && t.buckets[i] in t.store && o < |t.store[t.buckets[i]].heads| && k <= |ChainAt(t, Bd(t.buckets[i], o))|
    && t.cfg.bktBits <= t.rehashBits
    && forall j :: 0 <= j < k ==> InPlace(t, t.rehashBits, i, o, ChainAt(t, Bd(t.buckets[i], o))[j])
  }

  lemma PlaceOn(t: Table, i: nat, o: nat, k: nat) returns (u: Table, k': nat)
    requires WalkedTo(t, i, o, k) && k < |ChainAt(t, Bd(t.buckets[i], o))|
    ensures WalkedTo(u, i, o, k') && u.buckets == t.buckets
    ensures |ChainAt(u, Bd(u.buckets[i], o))| - k' < |ChainAt(t, Bd(t.buckets[i], o))| - k
    ensures RehashChain(t, i, o, k) == RehashChain(u, i, o, k')
  {
    hide Arrays, BdMove, RehashChain, Items, Placed, SharedPrefix;
    var bd := Bd(t.buckets[i], o);
    var dst := WalkStep(t, i, o, k);
    var n := ChainAt(t, bd)[k];
    if BdCompare(t, bd, dst) == 0 {
      u, k' := t, k + 1;
      assert InPlace(t, t.rehashBits, i, o, n);
    } else {
      u, k' := BdMove(t, bd, dst, n), k;
      MoveKeepsPlaced(t, i, o, bd, n);
    }
  }

  lemma {:induction false} RehashChainPlaces(t: Table, i: nat, o: nat, k: nat)
    requires WalkedTo(t, i, o, k)
    ensures var u := RehashChain(t, i, o, k); Rehashing(u, i) && Placed(u, i, o + 1)
    decreases |ChainAt(t, Bd(t.buckets[i], o))| - k
  {
    if k == |ChainAt(t, Bd(t.buckets[i], o))| {
      assert RehashChain(t, i, o, k) == t;
      WalkedDone(t, i, o);
    } else {
      var u, k' := PlaceOn(t, i, o, k);
      RehashChainPlaces(u, i, o, k');
    }
    hide Arrays, RehashChain, Items, Located, Processed, HeadDone, Full, Placed;
  }

  /** The walk along one head: the table it leaves. */
  lemma HeadPlaces(t: Table, i: nat, o: nat) returns (u: Table)
    requires Rehashing(t, i) && o < NumHeads(t.cfg) && Placed(t, i, o)
    ensures Rehashing(u, i) && u == t.(store := u.store) && Full(u) == Full(t) && Items(u) == Items(t)
    ensures Placed(u, i, o + 1) && RehashHeads(t, i, o) == RehashHeads(u, i, o + 1)
  {
    WalkedLive(t, i, o);
    assert t.cfg.bktBits <= t.rehashBits;
    hide Arrays, Placed, RehashChain, Items;
    u := RehashChain(t, i, o, 0);
    RehashChainFrame(t, i, o, 0);
    RehashChainPlaces(t, i, o, 0);
  }

  /** Same items, other places, and every head of bucket `i` is done. */
  ghost predicate HeadsDone(t: Table, u: Table, i: nat) {
    && Rehashing(t, i) && Rehashing(u, i) && u == t.(store := u.store) && Full(u) == Full(t) && Items(u) == Items(t)
    && Placed(u, i, NumHeads(t.cfg))
  }

  lemma HeadsDoneFrom(t: Table, u: Table, v: Table, i: nat)
    requires Rehashing(t, i) && Rehashing(u, i) && u == t.(store := u.store)
    requires Full(u) == Full(t) && Items(u) == Items(t)
    requires HeadsDone(u, v, i)
    ensures HeadsDone(t, v, i)
  {
    hide Arrays, Placed, Items, Full;
  }

  lemma {:induction false} RehashHeadsPlaces(t: Table, i: nat, o: nat)
    requires Rehashing(t, i) && o <= NumHeads(t.cfg) && Placed(t, i, o)
    ensures HeadsDone(t, RehashHeads(t, i, o), i)
    decreases NumHeads(t.cfg) - o
  {
    if o == NumHeads(t.cfg) {
      assert RehashHeads(t, i, o) == t;
    } else {
      var u := HeadPlaces(t, i, o);
      RehashHeadsPlaces(u, i, o + 1);
      HeadsDoneFrom(t, u, RehashHeads(t, i, o), i);
    }
    hide Arrays, Shape, RehashHeads, Items, Full, Placed;
  }

  /** Rehashing bucket `i` keeps every item, and afterwards buckets up to and including `i` are done. */
  lemma RehashBucketOk(t: Table, i: nat)
    requires Rehashing(t, i) && Located(t) && Processed(t, i)
    ensures var u := RehashBucket(t, i);
      && Rehashing(u, i) && u == t.(store := u.store) && Full(u) == Full(t) && Items(u) == Items(t)
      && Located(u) && Processed(u, i + 1)
  {
    RehashHeadsPlaces(t, i, 0);
    var u := RehashBucket(t, i);
    forall p: nat, o: nat, n: Node | p < i + 1 && Holds(u, p, o, n) ensures InPlace(u, u.rehashBits, p, o, n) {
      if p == i { assert HeadDone(u, i, o); }
    }
  }
}
