/**
 * The libcfs hash table as a value: buckets held in a store, two bucket arrays that may
 * share bucket objects, and the operations that run under the table and bucket locks.
 *
 * A bucket object is named by its allocation number, so `buckets` and `rehashBuckets` are
 * sequences of names: copying a prefix of one array into the other shares the objects, and
 * freeing a bucket removes its name from the store.
 */
module HashTable {
  import opened Prelude

  type Key = int

  /** A hash-list node; `id` is its address, `key` what the registered key operation returns. */
  datatype Node = Node(id: nat, key: Key)

  /** Creation-time choices: the registered hash operation, sizes, load bounds and flags. */
  datatype Config = Config(
    hash: (Key, nat) -> nat,
    minBits: nat, maxBits: nat, bktBits: nat,
    minTheta: int, maxTheta: int,
    rehash: bool, shrink: bool, counter: bool,
    addTail: bool, depth: bool)

  /** A hash head; `tail` and `depth` are kept only by the variants that track them. */
  datatype Head = Head(chain: seq<Node>, tail: Option<Node>, depth: int)

  datatype Bucket = Bucket(index: nat, count: int, heads: seq<Head>)

  /** A bucket descriptor: which bucket object and which head inside it. */
  datatype Bd = Bd(bkt: nat, off: nat)

  datatype Table = Table(
    cfg: Config,
    store: map<nat, Bucket>, next: nat,
    buckets: seq<nat>, rehashBuckets: Option<seq<nat>>,
    curBits: nat, rehashBits: nat,
    count: int,
    iterators: nat, iterating: bool, exiting: bool,
    rehashCount: nat)

  // ---------------------------------------------------------------- layout

  ghost predicate ConfigOk(c: Config) {
    && 0 < c.minBits <= c.maxBits < 31
    && c.bktBits <= c.minBits
    && (c.rehash ==> c.counter)
    && (forall k: Key, m: nat :: c.hash(k, m) <= m)
  }

  function NumBuckets(c: Config, bits: nat): (n: nat)
    requires c.bktBits <= bits
    ensures n > 0
  {
    Pow2(bits - c.bktBits)
  }

  function NumHeads(c: Config): (n: nat)
    ensures n > 0
  {
    Pow2(c.bktBits)
  }

  /** Bucket index of a key in a table of `bits` bits: the low bits of the hash. */
  function PosBucket(c: Config, bits: nat, key: Key): (b: nat)
    requires c.bktBits <= bits
    ensures b < NumBuckets(c, bits)
  {
    c.hash(key, Pow2(bits) - 1) % NumBuckets(c, bits)
  }

  function Quotient(x: nat, n: nat): nat
    requires n > 0
  {
    x / n
  }

  /** Head offset of a key in a table of `bits` bits: the high bits of the hash. */
  function PosOffset(c: Config, bits: nat, key: Key): (o: nat)
    requires c.bktBits <= bits
  {
    Quotient(c.hash(key, Pow2(bits) - 1), NumBuckets(c, bits))
  }

  lemma PosOffsetBound(c: Config, bits: nat, key: Key)
    requires ConfigOk(c) && c.bktBits <= bits
    ensures PosOffset(c, bits, key) < NumHeads(c)
  {
    Pow2Split(bits - c.bktBits, c.bktBits);
    QuotientBound(c.hash(key, Pow2(bits) - 1), NumBuckets(c, bits), NumHeads(c));
  }

  // ---------------------------------------------------------------- contents

  ghost function HeadsItems(hs: seq<Head>): multiset<Node> {
    if |hs| == 0 then multiset{} else HeadsItems(hs[..|hs| - 1]) + multiset(hs[|hs| - 1].chain)
  }

  ghost function ItemsOf(store: map<nat, Bucket>, ids: seq<nat>): multiset<Node>
    requires forall i :: 0 <= i < |ids| ==> ids[i] in store
  {
    if |ids| == 0 then multiset{}
    else ItemsOf(store, ids[..|ids| - 1]) + HeadsItems(store[ids[|ids| - 1]].heads)
  }

  /** Adding the same items to both sides of an exchange keeps it an exchange. */
  lemma Carry(a: multiset<Node>, x: multiset<Node>, b: multiset<Node>, y: multiset<Node>, more: multiset<Node>)
    requires a + x == b + y
    ensures (a + more) + x == (b + more) + y
  {
    assert (a + more) + x == (a + x) + more;
  }

  lemma {:induction false} HeadsUpdate(hs: seq<Head>, o: nat, h: Head)
    requires o < |hs|
    ensures HeadsItems(hs[o := h]) + multiset(hs[o].chain) == HeadsItems(hs) + multiset(h.chain)
    decreases |hs|
  {
    var n := |hs| - 1;
    if o == n {
      assert hs[o := h][..n] == hs[..n];
    } else {
      HeadsUpdate(hs[..n], o, h);
      assert hs[o := h][..n] == hs[..n][o := h];
      Carry(HeadsItems(hs[..n][o := h]), multiset(hs[o].chain), HeadsItems(hs[..n]), multiset(h.chain),
            multiset(hs[n].chain));
    }
  }

  lemma {:induction false} HeadsMember(hs: seq<Head>, n: Node)
    ensures n in HeadsItems(hs) <==> exists o :: 0 <= o < |hs| && n in hs[o].chain
    decreases |hs|
  {
    if |hs| == 0 {
    } else {
      var m := |hs| - 1;
      HeadsMember(hs[..m], n);
      assert n in HeadsItems(hs) <==> n in HeadsItems(hs[..m]) || n in hs[m].chain;
      hide HeadsItems;
      HeadsLast(hs, n);
    }
  }

  lemma HeadsLast(hs: seq<Head>, n: Node)
    requires |hs| > 0
    ensures var m := |hs| - 1;
      (exists o :: 0 <= o < |hs| && n in hs[o].chain) <==>
        (exists o :: 0 <= o < |hs[..m]| && n in hs[..m][o].chain) || n in hs[m].chain
  {
    var m := |hs| - 1;
    forall o | 0 <= o < m ensures hs[..m][o] == hs[o] { }
    if o :| 0 <= o < |hs| && n in hs[o].chain {
      if o < m { assert n in hs[..m][o].chain; }
    }
    if o :| 0 <= o < m && n in hs[..m][o].chain { assert n in hs[o].chain; }
  }

  lemma {:induction false} ItemsFrame(s: map<nat, Bucket>, s': map<nat, Bucket>, ids: seq<nat>)
    requires forall i :: 0 <= i < |ids| ==> ids[i] in s && ids[i] in s' && s[ids[i]].heads == s'[ids[i]].heads
    ensures ItemsOf(s, ids) == ItemsOf(s', ids)
    decreases |ids|
  {
    if |ids| == 0 {
    } else {
      ItemsFrame(s, s', ids[..|ids| - 1]);
    }
  }

  lemma {:induction false} ItemsUpdate(s: map<nat, Bucket>, ids: seq<nat>, i: nat, b: Bucket)
    requires Distinct(ids) && i < |ids|
    requires forall j :: 0 <= j < |ids| ==> ids[j] in s
    ensures ItemsOf(s[ids[i] := b], ids) + HeadsItems(s[ids[i]].heads) == ItemsOf(s, ids) + HeadsItems(b.heads)
    decreases |ids|
  {
    var n := |ids| - 1;
    if i == n {
      ItemsFrame(s, s[ids[i] := b], ids[..n]);
    } else {
      ItemsUpdate(s, ids[..n], i, b);
      assert ids[n] != ids[i];
      Carry(ItemsOf(s[ids[i] := b], ids[..n]), HeadsItems(s[ids[i]].heads), ItemsOf(s, ids[..n]),
            HeadsItems(b.heads), HeadsItems(s[ids[n]].heads));
    }
  }

  lemma {:induction false} HeadWithin(hs: seq<Head>, o: nat)
    requires o < |hs|
    ensures multiset(hs[o].chain) <= HeadsItems(hs)
    decreases |hs|
  {
    if o < |hs| - 1 {
      HeadWithin(hs[..|hs| - 1], o);
    }
  }

  lemma {:induction false} BucketWithin(s: map<nat, Bucket>, ids: seq<nat>, i: nat)
    requires i < |ids|
    requires forall j :: 0 <= j < |ids| ==> ids[j] in s
    ensures HeadsItems(s[ids[i]].heads) <= ItemsOf(s, ids)
    decreases |ids|
  {
    if i < |ids| - 1 {
      BucketWithin(s, ids[..|ids| - 1], i);
    }
  }

  /** Where an item is found. */
  lemma {:induction false} ItemFound(s: map<nat, Bucket>, ids: seq<nat>, n: Node) returns (i: nat, o: nat)
    requires forall j :: 0 <= j < |ids| ==> ids[j] in s
    requires n in ItemsOf(s, ids)
    ensures i < |ids| && o < |s[ids[i]].heads| && n in s[ids[i]].heads[o].chain
    decreases |ids|
  {
    var m := |ids| - 1;
    if n in HeadsItems(s[ids[m]].heads) {
      HeadsMember(s[ids[m]].heads, n);
      var p :| 0 <= p < |s[ids[m]].heads| && n in s[ids[m]].heads[p].chain;
      return m, p;
    }
    i, o := ItemFound(s, ids[..m], n);
    assert ids[..m][i] == ids[i];
  }

  lemma ItemListed(s: map<nat, Bucket>, ids: seq<nat>, i: nat, o: nat, n: Node)
    requires forall j :: 0 <= j < |ids| ==> ids[j] in s
    requires i < |ids| && o < |s[ids[i]].heads| && n in s[ids[i]].heads[o].chain
    ensures n in ItemsOf(s, ids)
  {
    HeadWithin(s[ids[i]].heads, o);
    BucketWithin(s, ids, i);
    assert n in multiset(s[ids[i]].heads[o].chain);
  }

  /** Appending buckets that hold nothing does not change the items. */
  lemma {:induction false} ItemsExtend(s: map<nat, Bucket>, ids: seq<nat>, k: nat)
    requires k <= |ids|
    requires forall j :: 0 <= j < |ids| ==> ids[j] in s
    requires forall j :: k <= j < |ids| ==> HeadsItems(s[ids[j]].heads) == multiset{}
    ensures ItemsOf(s, ids) == ItemsOf(s, ids[..k])
    decreases |ids|
  {
    if k == |ids| {
      assert ids[..k] == ids;
    } else {
      var m := |ids| - 1;
      ItemsExtend(s, ids[..m], k);
      assert ids[..m][..k] == ids[..k];
    }
  }

  // ---------------------------------------------------------------- shape of a table

  /** The longer of the two bucket arrays: every live bucket object is in it. */
  function Full(t: Table): seq<nat> {
    if t.rehashBuckets.Some? && t.rehashBits > t.curBits then t.rehashBuckets.value else t.buckets
  }

  ghost predicate HeadOk(c: Config, h: Head) {
    && (c.addTail ==> h.tail == if |h.chain| == 0 then None else Some(h.chain[|h.chain| - 1]))
    && (c.depth ==> h.depth == |h.chain|)
  }

  ghost predicate BucketOk(c: Config, b: Bucket, i: nat) {
    && b.index == i
    && |b.heads| == NumHeads(c)
    && b.count == |HeadsItems(b.heads)|
    && (forall o :: 0 <= o < |b.heads| ==> HeadOk(c, b.heads[o]))
  }

  ghost predicate BitsOk(c: Config, bits: nat) {
    c.bktBits <= c.minBits <= bits <= c.maxBits
  }

  /** The two arrays differ in size and the shorter one is a prefix of the longer: shared objects. */
  ghost predicate SharedPrefix(t: Table) {
    t.rehashBuckets.Some? ==>
      && BitsOk(t.cfg, t.rehashBits)
      && t.rehashBits != t.curBits
      && |t.rehashBuckets.value| == NumBuckets(t.cfg, t.rehashBits)
      && (if t.rehashBits > t.curBits then t.buckets <= t.rehashBuckets.value
          else t.rehashBuckets.value <= t.buckets)
  }

  /** Structural invariant of the bucket arrays and of every bucket in them. */
  ghost predicate Arrays(t: Table) {
    && ConfigOk(t.cfg)
    && BitsOk(t.cfg, t.curBits)
    && |t.buckets| == NumBuckets(t.cfg, t.curBits)
    && SharedPrefix(t)
    && Distinct(Full(t))
    && (forall i :: 0 <= i < |Full(t)| ==>
          Full(t)[i] in t.store && Full(t)[i] < t.next && BucketOk(t.cfg, t.store[Full(t)[i]], i))
  }

  /** Everything the table holds. */
  ghost function Items(t: Table): multiset<Node>
    requires Arrays(t)
  {
    ItemsOf(t.store, Full(t))
  }

  /** Structure, the item counter, and each node linked at most once. */
  ghost predicate Shape(t: Table) {
    && Arrays(t)
    && (t.cfg.counter ==> t.count == |Items(t)|)
    && (forall n :: Items(t)[n] <= 1)
  }

  ghost predicate InPlace(t: Table, bits: nat, i: nat, o: nat, n: Node)
    requires t.cfg.bktBits <= bits
  {
    PosBucket(t.cfg, bits, n.key) == i && PosOffset(t.cfg, bits, n.key) == o
  }

  ghost predicate Holds(t: Table, i: nat, o: nat, n: Node)
    requires Arrays(t)
  {
    i < |Full(t)| && o < NumHeads(t.cfg) && n in t.store[Full(t)[i]].heads[o].chain
  }

  /** Every item sits at its current or at its rehash position. */
  ghost predicate Located(t: Table)
    requires Arrays(t)
  {
    forall i: nat, o: nat, n: Node :: Holds(t, i, o, n) ==>
      InPlace(t, t.curBits, i, o, n) || (t.rehashBuckets.Some? && InPlace(t, t.rehashBits, i, o, n))
  }

  /** Every item in a bucket below `upto` sits at its rehash position. */
  ghost predicate Processed(t: Table, upto: nat)
    requires Arrays(t) && t.rehashBuckets.Some?
  {
    forall i: nat, o: nat, n: Node :: i < upto && Holds(t, i, o, n) ==> InPlace(t, t.rehashBits, i, o, n)
  }

  lemma ItemsHolds(t: Table, n: Node)
    requires Arrays(t)
    ensures n in Items(t) <==> exists i: nat, o: nat :: Holds(t, i, o, n)
  {
    if n in Items(t) {
      var i, o := ItemFound(t.store, Full(t), n);
      assert Holds(t, i, o, n);
    }
    if i: nat, o: nat :| Holds(t, i, o, n) {
      ItemListed(t.store, Full(t), i, o, n);
    }
  }
}
