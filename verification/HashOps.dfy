/**
 * The operations on bucket descriptors that run with the bucket (or table) lock held:
 * hash-list add and delete, descriptor add/delete/move, lookups with an intent, and the
 * dual-descriptor forms that search both layouts while a rehash is under way.
 */
module HashOps {
  import opened Prelude
  import opened HashTable

  // ---------------------------------------------------------------- hash lists

  /** Adds at the head, or after the recorded tail when the table adds at the tail. */
  function HnodeAdd(c: Config, h: Head, n: Node): Head
    requires c.addTail && h.tail.Some? ==> h.tail.value in h.chain
  {
    var chain :=
      if c.addTail && h.tail.Some? then
        var k := IndexOf(h.chain, h.tail.value);
        h.chain[..k + 1] + [n] + h.chain[k + 1..]
      else
        [n] + h.chain;
    Head(chain, if c.addTail then Some(n) else h.tail, if c.depth then h.depth + 1 else h.depth)
  }

  function HnodeDel(c: Config, h: Head, n: Node): Head
    requires n in h.chain
  {
    var k := IndexOf(h.chain, n);
    var tail :=
      if c.addTail && k == |h.chain| - 1 then (if k == 0 then None else Some(h.chain[k - 1])) else h.tail;
    Head(h.chain[..k] + h.chain[k + 1..], tail, if c.depth then h.depth - 1 else h.depth)
  }

  lemma AddedChain(c: Config, h: Head, n: Node)
    requires HeadOk(c, h) && Distinct(h.chain)
    ensures c.addTail && h.tail.Some? ==> h.tail.value in h.chain
    ensures HnodeAdd(c, h, n).chain == if c.addTail then h.chain + [n] else [n] + h.chain
  {
    if c.addTail && |h.chain| > 0 {
      var k := IndexOf(h.chain, h.tail.value);
      assert k == |h.chain| - 1;
      assert h.chain[..k + 1] == h.chain;
    } else if c.addTail {
      assert [n] + h.chain == h.chain + [n];
    }
  }

  lemma HnodeAddOk(c: Config, h: Head, n: Node)
    requires HeadOk(c, h) && n !in h.chain && Distinct(h.chain)
    ensures c.addTail && h.tail.Some? ==> h.tail.value in h.chain
    ensures HeadOk(c, HnodeAdd(c, h, n))
    ensures HnodeAdd(c, h, n).chain == if c.addTail then h.chain + [n] else [n] + h.chain
    ensures multiset(HnodeAdd(c, h, n).chain) == multiset(h.chain) + multiset{n}
  {
    AddedChain(c, h, n);
    hide Distinct;
  }

  lemma HnodeDelOk(c: Config, h: Head, n: Node)
    requires HeadOk(c, h) && n in h.chain
    ensures HeadOk(c, HnodeDel(c, h, n))
    ensures multiset(HnodeDel(c, h, n).chain) == multiset(h.chain) - multiset{n}
    ensures |HnodeDel(c, h, n).chain| == |h.chain| - 1
  {
    var k := IndexOf(h.chain, n);
    hide IndexOf;
    TakenOut(h.chain, k);
    var d := HnodeDel(c, h, n);
    assert d.chain == h.chain[..k] + h.chain[k + 1..];
    if |d.chain| > 0 { assert d.chain[|d.chain| - 1] == h.chain[if k == |h.chain| - 1 then k - 1 else |h.chain| - 1]; }
  }

  lemma TakenOut(q: seq<Node>, k: nat)
    requires k < |q|
    ensures multiset(q[..k] + q[k + 1..]) == multiset(q) - multiset{q[k]}
  {
    assert q == q[..k] + [q[k]] + q[k + 1..];
  }

  // ---------------------------------------------------------------- descriptors

  ghost predicate Live(t: Table, bd: Bd)
    requires Arrays(t)
  {
    && bd.bkt in t.store
    && t.store[bd.bkt].index < |Full(t)|
    && Full(t)[t.store[bd.bkt].index] == bd.bkt
    && bd.off < |t.store[bd.bkt].heads|
  }

  lemma LiveFacts(t: Table, bd: Bd)
    requires Arrays(t) && Live(t, bd)
    ensures ConfigOk(t.cfg) && |t.store[bd.bkt].heads| == NumHeads(t.cfg) && bd.off < NumHeads(t.cfg)
    ensures HeadOk(t.cfg, t.store[bd.bkt].heads[bd.off]) && BucketOk(t.cfg, t.store[bd.bkt], t.store[bd.bkt].index)
    ensures Distinct(Full(t)) && (forall i :: 0 <= i < |Full(t)| ==> Full(t)[i] in t.store)
  {
  }

  function ChainAt(t: Table, bd: Bd): seq<Node>
    requires bd.bkt in t.store && bd.off < |t.store[bd.bkt].heads|
  {
    t.store[bd.bkt].heads[bd.off].chain
  }

  function SetHead(t: Table, bd: Bd, h: Head, delta: int): Table
    requires bd.bkt in t.store && bd.off < |t.store[bd.bkt].heads|
  {
    var b := t.store[bd.bkt];
    t.(store := t.store[bd.bkt := b.(heads := b.heads[bd.off := h], count := b.count + delta)])
  }

  lemma SetHeadBucket(c: Config, b: Bucket, o: nat, h: Head)
    requires BucketOk(c, b, b.index) && o < |b.heads| && HeadOk(c, h)
    ensures BucketOk(c, b.(heads := b.heads[o := h], count := b.count + |h.chain| - |b.heads[o].chain|), b.index)
  {
    HeadsUpdate(b.heads, o, h);
    assert |HeadsItems(b.heads[o := h]) + multiset(b.heads[o].chain)| == |HeadsItems(b.heads) + multiset(h.chain)|;
  }

  lemma SetHeadArrays(t: Table, bd: Bd, h: Head)
    requires Arrays(t) && Live(t, bd) && HeadOk(t.cfg, h)
    ensures var t' := SetHead(t, bd, h, |h.chain| - |ChainAt(t, bd)|);
      && Full(t') == Full(t) && Arrays(t') && Live(t', bd) && t'.store.Keys == t.store.Keys
      && (forall i :: 0 <= i < |Full(t)| && Full(t)[i] != bd.bkt ==> t'.store[Full(t)[i]] == t.store[Full(t)[i]])
  {
    SetHeadBucket(t.cfg, t.store[bd.bkt], bd.off, h);
  }

  /** Replacing one head exchanges exactly that head's items and disturbs nothing else. */
  lemma SetHeadOk(t: Table, bd: Bd, h: Head)
    requires Arrays(t) && Live(t, bd) && HeadOk(t.cfg, h)
    ensures var t' := SetHead(t, bd, h, |h.chain| - |ChainAt(t, bd)|);
      && Full(t') == Full(t) && Arrays(t') && Live(t', bd)
      && Items(t') + multiset(ChainAt(t, bd)) == Items(t) + multiset(h.chain)
  {
    LiveFacts(t, bd);
    hide Arrays, BucketOk, Distinct, HeadOk, ItemsOf, HeadsItems;
    SetHeadArrays(t, bd, h);
    var b := t.store[bd.bkt];
    var b' := b.(heads := b.heads[bd.off := h], count := b.count + (|h.chain| - |ChainAt(t, bd)|));
    assert SetHead(t, bd, h, |h.chain| - |ChainAt(t, bd)|).store == t.store[bd.bkt := b'];
    hide SetHead;
    HeadsUpdate(b.heads, bd.off, h);
    ItemsUpdate(t.store, Full(t), b.index, b');
    Exchange(ItemsOf(t.store[bd.bkt := b'], Full(t)), HeadsItems(b.heads), ItemsOf(t.store, Full(t)),
             HeadsItems(b'.heads), multiset(b.heads[bd.off].chain), multiset(h.chain));
  }

  lemma SetHeadHolds(t: Table, bd: Bd, h: Head, i: nat, o: nat, n: Node)
    requires Arrays(t) && Live(t, bd) && HeadOk(t.cfg, h)
    requires var t' := SetHead(t, bd, h, |h.chain| - |ChainAt(t, bd)|); Full(t') == Full(t) && Arrays(t')
    ensures var t' := SetHead(t, bd, h, |h.chain| - |ChainAt(t, bd)|);
      Holds(t', i, o, n) <==>
        if i == t.store[bd.bkt].index && o == bd.off then n in h.chain else Holds(t, i, o, n)
  {
    if i < |Full(t)| && i != t.store[bd.bkt].index {
      assert Full(t)[i] != bd.bkt;
    }
  }

  /** Composes an exchange inside a bucket with the exchange of the whole bucket. */
  lemma Exchange(a: multiset<Node>, x: multiset<Node>, b: multiset<Node>, y: multiset<Node>,
                 u: multiset<Node>, v: multiset<Node>)
    requires a + x == b + y
    requires y + u == x + v
    ensures a + u == b + v
  {
    assert a + u + (x + y) == (a + x) + (y + u) == b + v + (x + y);
    assert forall n :: (a + u + (x + y))[n] == (a + u)[n] + (x + y)[n];
  }

  lemma RepeatedTwice(s: seq<Node>, i: nat, j: nat)
    requires i < j < |s| && s[i] == s[j]
    ensures multiset(s)[s[i]] >= 2
  {
    assert s == s[..i] + [s[i]] + s[i + 1..j] + [s[j]] + s[j + 1..];
  }

  /** A multiset without repetitions comes from a sequence without repetitions. */
  lemma SingleDistinct(s: seq<Node>, all: multiset<Node>)
    requires multiset(s) <= all && (forall n :: all[n] <= 1)
    ensures Distinct(s)
  {
    forall i, j | 0 <= i < j < |s| ensures s[i] != s[j] {
      if s[i] == s[j] { RepeatedTwice(s, i, j); }
    }
  }

  lemma TakeOne(a: multiset<Node>, c: multiset<Node>, b: multiset<Node>, n: Node)
    requires a + c == b + (c - multiset{n}) && n in c && c <= b && (forall m :: b[m] <= 1)
    ensures a == b - multiset{n} && n in b && n !in a && |a| == |b| - 1 && (forall m :: a[m] <= 1)
  {
    forall m ensures a[m] == (b - multiset{n})[m] {
      assert (a + c)[m] == (b + (c - multiset{n}))[m];
    }
    assert b == a + multiset{n};
  }

  lemma PutOne(a: multiset<Node>, c: multiset<Node>, b: multiset<Node>, n: Node)
    requires a + c == b + (c + multiset{n}) && n !in b && (forall m :: b[m] <= 1)
    ensures a == b + multiset{n} && |a| == |b| + 1 && (forall m :: a[m] <= 1)
  {
    forall m ensures a[m] == (b + multiset{n})[m] {
      assert (a + c)[m] == (b + (c + multiset{n}))[m];
    }
  }

  lemma ChainWithin(t: Table, bd: Bd)
    requires Arrays(t) && Live(t, bd)
    ensures multiset(ChainAt(t, bd)) <= Items(t)
  {
    HeadWithin(t.store[bd.bkt].heads, bd.off);
    BucketWithin(t.store, Full(t), t.store[bd.bkt].index);
  }

  lemma NotOnChain(t: Table, bd: Bd, n: Node)
    requires Arrays(t) && Live(t, bd) && n !in Items(t)
    ensures n !in ChainAt(t, bd)
  {
    ChainWithin(t, bd);
    assert n !in multiset(ChainAt(t, bd));
  }

  function Unlink(t: Table, bd: Bd, n: Node): Table
    requires bd.bkt in t.store && bd.off < |t.store[bd.bkt].heads| && n in ChainAt(t, bd)
  {
    SetHead(t, bd, HnodeDel(t.cfg, t.store[bd.bkt].heads[bd.off], n), -1)
  }

  function Link(t: Table, bd: Bd, n: Node): Table
    requires bd.bkt in t.store && bd.off < |t.store[bd.bkt].heads|
    requires var h := t.store[bd.bkt].heads[bd.off]; t.cfg.addTail && h.tail.Some? ==> h.tail.value in h.chain
  {
    SetHead(t, bd, HnodeAdd(t.cfg, t.store[bd.bkt].heads[bd.off], n), 1)
  }

  function BdAdd(t: Table, bd: Bd, n: Node): Table
    requires bd.bkt in t.store && bd.off < |t.store[bd.bkt].heads|
    requires var h := t.store[bd.bkt].heads[bd.off]; t.cfg.addTail && h.tail.Some? ==> h.tail.value in h.chain
  {
    Link(t, bd, n).(count := if t.cfg.counter then t.count + 1 else t.count)
  }

  function BdDel(t: Table, bd: Bd, n: Node): Table
    requires bd.bkt in t.store && bd.off < |t.store[bd.bkt].heads| && n in ChainAt(t, bd)
  {
    Unlink(t, bd, n).(count := if t.cfg.counter then t.count - 1 else t.count)
  }

  /** Lexicographic order on bucket index and offset. */
  function BdCompare(t: Table, a: Bd, b: Bd): int
    requires a.bkt in t.store && b.bkt in t.store
  {
    if t.store[a.bkt].index != t.store[b.bkt].index then t.store[a.bkt].index - t.store[b.bkt].index
    else a.off - b.off
  }

  /** The state after taking one node off a head. */
  lemma UnlinkOk(t: Table, bd: Bd, n: Node)
    requires Arrays(t) && Live(t, bd) && n in ChainAt(t, bd) && (forall m :: Items(t)[m] <= 1)
    ensures var u := Unlink(t, bd, n);
      && Arrays(u) && Full(u) == Full(t) && Live(u, bd)
      && Items(u) == Items(t) - multiset{n} && n in Items(t) && n !in Items(u)
      && |Items(u)| == |Items(t)| - 1 && (forall m :: Items(u)[m] <= 1)
      && |ChainAt(u, bd)| == |ChainAt(t, bd)| - 1
  {
    LiveFacts(t, bd);
    hide Arrays, BucketOk, Distinct;
    HnodeDelOk(t.cfg, t.store[bd.bkt].heads[bd.off], n);
    var h := HnodeDel(t.cfg, t.store[bd.bkt].heads[bd.off], n);
    SetHeadOk(t, bd, h);
    ChainWithin(t, bd);
    TakeOne(Items(Unlink(t, bd, n)), multiset(ChainAt(t, bd)), Items(t), n);
  }

  /** A node that is not in the table can be put on any head. */
  lemma AddReady(t: Table, bd: Bd, n: Node)
    requires Arrays(t) && Live(t, bd) && n !in Items(t) && (forall m :: Items(t)[m] <= 1)
    ensures var h := t.store[bd.bkt].heads[bd.off];
      && HeadOk(t.cfg, h) && Distinct(h.chain) && n !in h.chain
      && (t.cfg.addTail && h.tail.Some? ==> h.tail.value in h.chain)
      && HeadOk(t.cfg, HnodeAdd(t.cfg, h, n))
      && multiset(HnodeAdd(t.cfg, h, n).chain) == multiset(h.chain) + multiset{n}
      && |HnodeAdd(t.cfg, h, n).chain| == |h.chain| + 1
  {
    LiveFacts(t, bd);
    hide Arrays, BucketOk, Distinct, HeadOk, Items, HnodeAdd;
    ChainWithin(t, bd);
    var h := t.store[bd.bkt].heads[bd.off];
    SingleDistinct(h.chain, Items(t));
    NotOnChain(t, bd, n);
    HnodeAddOk(t.cfg, h, n);
  }

  /** The state after putting one unlinked node on a head. */
  lemma LinkOk(t: Table, bd: Bd, n: Node)
    requires Arrays(t) && Live(t, bd) && n !in Items(t) && (forall m :: Items(t)[m] <= 1)
    ensures var h := t.store[bd.bkt].heads[bd.off]; t.cfg.addTail && h.tail.Some? ==> h.tail.value in h.chain
    ensures var u := Link(t, bd, n);
      && Arrays(u) && Full(u) == Full(t) && Live(u, bd)
      && Items(u) == Items(t) + multiset{n}
      && |Items(u)| == |Items(t)| + 1 && (forall m :: Items(u)[m] <= 1)
  {
    LiveFacts(t, bd);
    hide Arrays, BucketOk, Distinct, HeadOk, Items, HnodeAdd, SetHead;
    AddReady(t, bd, n);
    var h := t.store[bd.bkt].heads[bd.off];
    SetHeadOk(t, bd, HnodeAdd(t.cfg, h, n));
    PutOne(Items(Link(t, bd, n)), multiset(h.chain), Items(t), n);
  }

  /** Descriptors stay live when one head is replaced. */
  lemma StillLive(t: Table, bd: Bd, h: Head, delta: int, other: Bd)
    requires Arrays(t) && bd.bkt in t.store && bd.off < |t.store[bd.bkt].heads| && Live(t, other)
    requires Arrays(SetHead(t, bd, h, delta)) && Full(SetHead(t, bd, h, delta)) == Full(t)
    ensures Live(SetHead(t, bd, h, delta), other)
  {
    hide Arrays;
  }

  /** Unlinking leaves every other descriptor live, so a link may follow. */
  lemma UnlinkThenLink(t: Table, src: Bd, dst: Bd, n: Node)
    requires Shape(t) && Live(t, src) && Live(t, dst) && n in ChainAt(t, src)
    ensures var u := Unlink(t, src, n);
      && Arrays(u) && Full(u) == Full(t) && Live(u, src) && Live(u, dst)
      && Items(u) == Items(t) - multiset{n} && n in Items(t) && n !in Items(u)
      && |Items(u)| == |Items(t)| - 1 && (forall m :: Items(u)[m] <= 1)
      && |ChainAt(u, src)| == |ChainAt(t, src)| - 1
      && (var h := u.store[dst.bkt].heads[dst.off]; u.cfg.addTail && h.tail.Some? ==> h.tail.value in h.chain)
  {
    hide Arrays;
    UnlinkOk(t, src, n);
    var u := Unlink(t, src, n);
    StillLive(t, src, HnodeDel(t.cfg, t.store[src.bkt].heads[src.off], n), -1, dst);
    LinkOk(u, dst, n);
  }

  /** Unlinks a node from one head and links it into another, leaving the item counter alone. */
  function BdMove(t: Table, src: Bd, dst: Bd, n: Node): Table
    requires Shape(t) && Live(t, src) && Live(t, dst) && n in ChainAt(t, src)
  {
    if BdCompare(t, src, dst) == 0 then t
    else
      UnlinkThenLink(t, src, dst, n);
      var u := Unlink(t, src, n);
      Link(u, dst, n)
  }

  lemma CountFrame(t: Table, c: int)
    requires Arrays(t)
    ensures Arrays(t.(count := c)) && Full(t.(count := c)) == Full(t) && Items(t.(count := c)) == Items(t)
  {
  }

  lemma BdAddOk(t: Table, bd: Bd, n: Node)
    requires Shape(t) && Live(t, bd) && n !in Items(t)
    ensures var h := t.store[bd.bkt].heads[bd.off]; t.cfg.addTail && h.tail.Some? ==> h.tail.value in h.chain
    ensures var u := BdAdd(t, bd, n);
      Shape(u) && Full(u) == Full(t) && Items(u) == Items(t) + multiset{n}
  {
    hide Arrays, Items;
    LinkOk(t, bd, n);
    CountFrame(Link(t, bd, n), if t.cfg.counter then t.count + 1 else t.count);
  }

  lemma BdDelOk(t: Table, bd: Bd, n: Node)
    requires Shape(t) && Live(t, bd) && n in ChainAt(t, bd)
    ensures var u := BdDel(t, bd, n);
      && Shape(u) && Full(u) == Full(t) && Items(u) == Items(t) - multiset{n} && n in Items(t)
  {
    hide Arrays, Items;
    UnlinkOk(t, bd, n);
    CountFrame(Unlink(t, bd, n), if t.cfg.counter then t.count - 1 else t.count);
  }

  lemma BdMoveOk(t: Table, src: Bd, dst: Bd, n: Node)
    requires Shape(t) && Live(t, src) && Live(t, dst) && n in ChainAt(t, src)
    ensures var u := BdMove(t, src, dst, n);
      && Shape(u) && Full(u) == Full(t) && Items(u) == Items(t)
      && Live(u, src) && Live(u, dst)
  {
    if BdCompare(t, src, dst) != 0 {
      UnlinkThenLink(t, src, dst, n);
      hide Arrays;
      var u := Unlink(t, src, n);
      LinkOk(u, dst, n);
      StillLive(u, dst, HnodeAdd(t.cfg, u.store[dst.bkt].heads[dst.off], n), 1, src);
      Restored(Items(t), Items(u), n);
    }
  }

  lemma Restored(a: multiset<Node>, b: multiset<Node>, n: Node)
    requires b == a - multiset{n} && n in a
    ensures b + multiset{n} == a
  {
  }

  // ---------------------------------------------------------------- who sits where afterwards

  lemma DelMember(c: Config, h: Head, n: Node, m: Node)
    requires n in h.chain && Distinct(h.chain)
    ensures m in HnodeDel(c, h, n).chain <==> m in h.chain && m != n
  {
    var k := IndexOf(h.chain, n);
    assert h.chain == h.chain[..k] + [n] + h.chain[k + 1..];
    assert n !in h.chain[k + 1..];
  }

  lemma AddMember(c: Config, h: Head, n: Node, m: Node)
    requires HeadOk(c, h) && n !in h.chain && Distinct(h.chain)
    ensures c.addTail && h.tail.Some? ==> h.tail.value in h.chain
    ensures m in HnodeAdd(c, h, n).chain <==> m in h.chain || m == n
  {
    HnodeAddOk(c, h, n);
  }

  ghost predicate Here(t: Table, bd: Bd, i: nat, o: nat)
    requires bd.bkt in t.store
  {
    i == t.store[bd.bkt].index && o == bd.off
  }

  lemma UnlinkHolds(t: Table, bd: Bd, n: Node, i: nat, o: nat, m: Node)
    requires Arrays(t) && Live(t, bd) && n in ChainAt(t, bd) && (forall x :: Items(t)[x] <= 1)
    requires Arrays(Unlink(t, bd, n)) && Full(Unlink(t, bd, n)) == Full(t)
    ensures Holds(Unlink(t, bd, n), i, o, m) <==> Holds(t, i, o, m) && !(m == n && Here(t, bd, i, o))
  {
    var h := t.store[bd.bkt].heads[bd.off];
    LiveFacts(t, bd);
    hide Arrays, BucketOk, Holds, Live;
    ChainWithin(t, bd);
    SingleDistinct(ChainAt(t, bd), Items(t));
    HnodeDelOk(t.cfg, h, n);
    DelMember(t.cfg, h, n, m);
    SetHeadHolds(t, bd, HnodeDel(t.cfg, h, n), i, o, m);
  }

  lemma LinkHolds(t: Table, bd: Bd, n: Node, i: nat, o: nat, m: Node)
    requires Arrays(t) && Live(t, bd) && n !in Items(t) && (forall x :: Items(t)[x] <= 1)
    requires var h := t.store[bd.bkt].heads[bd.off]; t.cfg.addTail && h.tail.Some? ==> h.tail.value in h.chain
    requires Arrays(Link(t, bd, n)) && Full(Link(t, bd, n)) == Full(t)
    ensures Holds(Link(t, bd, n), i, o, m) <==> Holds(t, i, o, m) || (m == n && Here(t, bd, i, o))
  {
    hide Arrays, Distinct, HeadOk, Items, HnodeAdd, Holds;
    AddReady(t, bd, n);
    var h := t.store[bd.bkt].heads[bd.off];
    AddMember(t.cfg, h, n, m);
    SetHeadHolds(t, bd, HnodeAdd(t.cfg, h, n), i, o, m);
    if Here(t, bd, i, o) { HoldsHere(t, bd, m); }
  }

  lemma HoldsHere(t: Table, bd: Bd, m: Node)
    requires Arrays(t) && Live(t, bd)
    ensures Holds(t, t.store[bd.bkt].index, bd.off, m) <==> m in ChainAt(t, bd)
  {
    LiveFacts(t, bd);
    hide Arrays, BucketOk;
  }

  lemma BdAddHolds(t: Table, bd: Bd, n: Node, i: nat, o: nat, m: Node)
    requires Shape(t) && Live(t, bd) && n !in Items(t)
    requires var h := t.store[bd.bkt].heads[bd.off]; t.cfg.addTail && h.tail.Some? ==> h.tail.value in h.chain
    requires Shape(BdAdd(t, bd, n)) && Full(BdAdd(t, bd, n)) == Full(t)
    ensures Holds(BdAdd(t, bd, n), i, o, m) <==> Holds(t, i, o, m) || (m == n && Here(t, bd, i, o))
  {
    LinkOk(t, bd, n);
    LinkHolds(t, bd, n, i, o, m);
  }

  lemma BdDelHolds(t: Table, bd: Bd, n: Node, i: nat, o: nat, m: Node)
    requires Shape(t) && Live(t, bd) && n in ChainAt(t, bd)
    requires Shape(BdDel(t, bd, n)) && Full(BdDel(t, bd, n)) == Full(t)
    ensures Holds(BdDel(t, bd, n), i, o, m) <==> Holds(t, i, o, m) && !(m == n && Here(t, bd, i, o))
  {
    UnlinkOk(t, bd, n);
    UnlinkHolds(t, bd, n, i, o, m);
  }

  lemma BdMoveHolds(t: Table, src: Bd, dst: Bd, n: Node, i: nat, o: nat, m: Node)
    requires Shape(t) && Live(t, src) && Live(t, dst) && n in ChainAt(t, src)
    requires BdCompare(t, src, dst) != 0
    requires Shape(BdMove(t, src, dst, n)) && Full(BdMove(t, src, dst, n)) == Full(t)
    ensures Holds(BdMove(t, src, dst, n), i, o, m) <==>
            (Holds(t, i, o, m) && !(m == n && Here(t, src, i, o))) || (m == n && Here(t, dst, i, o))
  {
    hide Arrays;
    UnlinkThenLink(t, src, dst, n);
    UnlinkHolds(t, src, n, i, o, m);
    var u := Unlink(t, src, n);
    LinkOk(u, dst, n);
    LinkHolds(u, dst, n, i, o, m);
  }

  // ---------------------------------------------------------------- descriptors of a key

  function BdFromKey(t: Table, ids: seq<nat>, bits: nat, key: Key): Bd
    requires t.cfg.bktBits <= bits && |ids| == NumBuckets(t.cfg, bits)
  {
    Bd(ids[PosBucket(t.cfg, bits, key)], PosOffset(t.cfg, bits, key))
  }

  lemma CurBdLive(t: Table, key: Key)
    requires Arrays(t)
    ensures var bd := BdFromKey(t, t.buckets, t.curBits, key);
      Live(t, bd) && t.store[bd.bkt].index == PosBucket(t.cfg, t.curBits, key)
  {
    PosOffsetBound(t.cfg, t.curBits, key);
  }

  lemma RehashBdLive(t: Table, key: Key)
    requires Arrays(t) && t.rehashBuckets.Some?
    ensures var bd := BdFromKey(t, t.rehashBuckets.value, t.rehashBits, key);
      Live(t, bd) && t.store[bd.bkt].index == PosBucket(t.cfg, t.rehashBits, key)
  {
    PosOffsetBound(t.cfg, t.rehashBits, key);
    if t.rehashBits > t.curBits {
    } else {
      assert t.rehashBuckets.value <= t.buckets;
    }
  }

  /** Where an addition goes: the new layout as soon as there is one. */
  function BdGet(t: Table, key: Key): Bd
    requires Arrays(t)
  {
    if t.rehashBuckets.None? then BdFromKey(t, t.buckets, t.curBits, key)
    else BdFromKey(t, t.rehashBuckets.value, t.rehashBits, key)
  }

  /** The one or two descriptors to search, in lock order; equal descriptors collapse to one. */
  function DualBdGet(t: Table, key: Key): (bds: seq<Bd>)
    requires Arrays(t)
    ensures 1 <= |bds| <= 2
  {
    CurBdLive(t, key);
    var cur := BdFromKey(t, t.buckets, t.curBits, key);
    if t.rehashBuckets.None? then [cur]
    else
      RehashBdLive(t, key);
      var re := BdFromKey(t, t.rehashBuckets.value, t.rehashBits, key);
      var rc := BdCompare(t, cur, re);
      if rc == 0 then [cur] else if rc > 0 then [re, cur] else [cur, re]
  }

  lemma DualBdLive(t: Table, key: Key)
    requires Arrays(t)
    ensures AllLive(t, DualBdGet(t, key))
    ensures |DualBdGet(t, key)| == 1 ==> DualBdGet(t, key)[0] == BdGet(t, key)
    ensures BdGet(t, key) in DualBdGet(t, key) && Live(t, BdGet(t, key))
    ensures BdFromKey(t, t.buckets, t.curBits, key) in DualBdGet(t, key)
  {
    CurBdLive(t, key);
    if t.rehashBuckets.Some? {
      RehashBdLive(t, key);
      var cur := BdFromKey(t, t.buckets, t.curBits, key);
      var re := BdFromKey(t, t.rehashBuckets.value, t.rehashBits, key);
      if BdCompare(t, cur, re) == 0 {
        assert t.store[cur.bkt].index == t.store[re.bkt].index;
        assert cur == re;
      }
    }
  }

  // ---------------------------------------------------------------- lookups

  /** First node of a chain with the key (and equal to `only`, when given). */
  function FindIn(chain: seq<Node>, key: Key, only: Option<Node>): (r: Option<Node>)
    ensures r.Some? ==> r.value in chain && r.value.key == key && (only.Some? ==> only.value == r.value)
    ensures r.None? ==> forall n :: n in chain && n.key == key ==> only.Some? && n != only.value
  {
    if |chain| == 0 then None
    else if chain[0].key == key && (only.None? || only.value == chain[0]) then Some(chain[0])
    else FindIn(chain[1..], key, only)
  }

  ghost predicate AllLive(t: Table, bds: seq<Bd>)
    requires Arrays(t)
  {
    forall j :: 0 <= j < |bds| ==> Live(t, bds[j])
  }

  /** First match over a list of descriptors, with the descriptor it was found at. */
  function MultiFind(t: Table, bds: seq<Bd>, key: Key, only: Option<Node>): (r: Option<(Bd, Node)>)
    requires Arrays(t) && AllLive(t, bds)
    ensures r.Some? ==> Live(t, r.value.0) && r.value.1 in ChainAt(t, r.value.0) && r.value.1.key == key &&
                        (only.Some? ==> only.value == r.value.1)
    ensures r.None? ==> forall j, n :: 0 <= j < |bds| && n in ChainAt(t, bds[j]) && n.key == key ==>
                                       only.Some? && n != only.value
  {
    if |bds| == 0 then None
    else
      var f := FindIn(ChainAt(t, bds[0]), key, only);
      if f.Some? then Some((bds[0], f.value)) else MultiFind(t, bds[1..], key, only)
  }

  function Lookup(t: Table, key: Key): Option<Node>
    requires Arrays(t)
  {
    DualBdLive(t, key);
    var f := MultiFind(t, DualBdGet(t, key), key, None);
    if f.None? then None else Some(f.value.1)
  }

  function Add(t: Table, n: Node): Table
    requires Shape(t) && n !in Items(t)
  {
    DualBdLive(t, n.key);
    BdAddOk(t, BdGet(t, n.key), n);
    BdAdd(t, BdGet(t, n.key), n)
  }

  /** Returns the node already stored under the key, or adds the given one and returns it. */
  function FindOrAdd(t: Table, n: Node): (Table, Node)
    requires Shape(t) && n !in Items(t)
  {
    DualBdLive(t, n.key);
    var bds := DualBdGet(t, n.key);
    var f := MultiFind(t, bds, n.key, None);
    if f.Some? then (t, f.value.1)
    else
      var bd := if |bds| == 1 then bds[0] else BdGet(t, n.key);
      BdAddOk(t, bd, n);
      (BdAdd(t, bd, n), n)
  }

  /** What the source asks of a caller that names a node: without a rehash it must be on its chain. */
  ghost predicate DelAllowed(t: Table, key: Key, only: Option<Node>)
    requires Arrays(t)
  {
    DualBdLive(t, key);
    only.Some? && |DualBdGet(t, key)| == 1 ==> only.value in ChainAt(t, DualBdGet(t, key)[0])
  }

  function Del(t: Table, key: Key, only: Option<Node>): (Table, Option<Node>)
    requires Shape(t) && DelAllowed(t, key, only)
  {
    DualBdLive(t, key);
    var bds := DualBdGet(t, key);
    if |bds| == 1 && only.Some? then (BdDel(t, bds[0], only.value), only)
    else
      var f := MultiFind(t, bds, key, only);
      if f.None? then (t, None) else (BdDel(t, f.value.0, f.value.1), Some(f.value.1))
  }
}
