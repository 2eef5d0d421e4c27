/**
 * What holds in every run of the hash system: the invariant with all its assertions, the
 * contents as those of a plain multiset, the books of the table, what the worker may free,
 * and what an iteration sees.
 */
module HashTheorems {
  import opened Prelude
  import opened HashTable
  import opened HashOps
  import opened HashRefine
  import opened HashRehash
  import opened HashSystem
  import opened HashSafety

  // ---------------------------------------------------------------- creation

  /** A table as cfs_hash_create leaves it. */
  function Created(c: Config): Table
    requires c.bktBits <= c.minBits
  {
    var n := NumBuckets(c, c.minBits);
    Table(c, NewStore(map[], c, 0, 0, n), n, NewNames([], 0, n), None, c.minBits, 0, 0, 0, false, false, 0)
  }

  function InitialSys(c: Config): Sys
    requires c.bktBits <= c.minBits
  {
    Sys(Created(c), Idle, false, false, false, map[])
  }

  lemma CreatedBuckets(c: Config)
    requires ConfigOk(c)
    ensures var t := Created(c); var n := NumBuckets(c, c.minBits);
      && |t.buckets| == n && (forall k :: 0 <= k < n ==> t.buckets[k] == k)
      && (forall id :: id in t.store <==> 0 <= id < n)
      && (forall k :: 0 <= k < n ==> BucketOk(c, t.store[k], k) && HeadsItems(t.store[k].heads) == multiset{})
  {
    var n := NumBuckets(c, c.minBits);
    hide NewStore, NewNames, HeadsItems, BucketOk, Pow2, NumBuckets;
    NewStoreOk(map[], c, 0, 0, n);
    NewNamesOk([], 0, n);
  }

  lemma CreatedArrays(c: Config)
    requires ConfigOk(c)
    ensures var t := Created(c);
      && Arrays(t) && t.store.Keys == IdSet(Full(t))
      && (forall k :: 0 <= k < |t.buckets| ==> HeadsItems(t.store[t.buckets[k]].heads) == multiset{})
  {
    hide NewStore, NewNames, HeadsItems, BucketOk, Pow2, NumBuckets;
    CreatedBuckets(c);
    var t := Created(c);
    forall id | id in t.store ensures id in IdSet(t.buckets) {
      assert t.buckets[id] == id;
    }
  }

  lemma CreatedEmpty(c: Config)
    requires ConfigOk(c)
    ensures var t := Created(c); Arrays(t) && Items(t) == multiset{} && Located(t)
  {
    var t := Created(c);
    CreatedArrays(c);
    ItemsExtend(t.store, t.buckets, 0);
    assert Items(t) == multiset{};
    hide Arrays, Created;
    forall i: nat, o: nat, m: Node ensures !Holds(t, i, o, m) {
      ItemsHolds(t, m);
    }
  }

  lemma InitialInv(c: Config)
    requires ConfigOk(c)
    ensures Inv(InitialSys(c))
  {
    hide Arrays, Located, EmptyAt, IdSet, NewStore, NewNames, Processed, PendingOk, Items;
    CreatedArrays(c);
    CreatedEmpty(c);
    var s := InitialSys(c);
    NothingPrivate(s.t);
    assert Private(s.w) == {} && TargetOk(s.t) && WorkerOk(s) && ItersOk(s);
    assert Shape(s.t);
    hide Shape, WorkerOk, ItersOk, TargetOk, Created;
    Assemble(s);
  }

  // ---------------------------------------------------------------- runs

  /** Every step keeps the invariant, and the code's own assertions hold at it. */
  lemma StepKeeps(s: Sys, e: Event)
    requires Inv(s) && Enabled(s, e)
    ensures Asserted(s, e) && Inv(Step(s, e))
  {
    AssertionsHold(s, e);
    hide Inv, Step, Enabled, Asserted;
    match e
    case EvAdd(n) => KeepAdd(s, n);
    case EvFindAdd(n) => KeepFindAdd(s, n);
    case EvDel(key, only) => KeepDel(s, key, only);
    case EvRequest => KeepRequest(s);
    case EvPop => KeepPop(s);
    case EvReadSizes => KeepReadSizes(s);
    case EvAlloc(ok) => KeepAlloc(s, ok);
    case EvInstall => KeepInstall(s);
    case EvMove => KeepMove(s);
    case EvFree => KeepFree(s);
    case EvFlag(b) => KeepFlag(s, b);
    case EvEnter(tid) => KeepEnter(s, tid);
    case EvResume(tid) => KeepResume(s, tid);
    case EvVisit(tid) => KeepVisit(s, tid);
    case EvExit(tid) => KeepExit(s, tid);
    case EvDestroy => KeepDestroy(s);
    case EvDestroyCancel => KeepDestroyCancel(s);
    case EvDrain => KeepDrain(s);
  }

  /** A step that may happen; where an assertion of the code fails anything may follow. */
  ghost predicate Next(s: Sys, e: Event, s': Sys) {
    Enabled(s, e) && (Asserted(s, e) ==> s' == Step(s, e))
  }

  ghost predicate Run(c: Config, ss: seq<Sys>, es: seq<Event>) {
    && ConfigOk(c)
    && |ss| == |es| + 1
    && ss[0] == InitialSys(c)
    && (forall k :: 0 <= k < |es| ==> Next(ss[k], es[k], ss[k + 1]))
  }

  lemma NextKeeps(s: Sys, e: Event, s': Sys)
    requires Inv(s) && Next(s, e, s')
    ensures Enabled(s, e) && Asserted(s, e) && s' == Step(s, e) && Inv(s')
  {
    hide Inv, Step, Enabled, Asserted;
    StepKeeps(s, e);
  }

  /** Safety over whole runs: the invariant holds in every state and no assertion ever fails. */
  lemma {:induction false} RunSafe(c: Config, ss: seq<Sys>, es: seq<Event>, k: nat)
    requires Run(c, ss, es) && k <= |es|
    ensures Inv(ss[k])
    ensures k < |es| ==> Enabled(ss[k], es[k]) && Asserted(ss[k], es[k]) && ss[k + 1] == Step(ss[k], es[k])
  {
    hide Inv, Step, Enabled, Asserted, Next;
    if k == 0 {
      InitialInv(c);
    } else {
      RunSafe(c, ss, es, k - 1);
      NextKeeps(ss[k - 1], es[k - 1], ss[k]);
    }
    if k < |es| {
      NextKeeps(ss[k], es[k], ss[k + 1]);
    }
  }

  // ---------------------------------------------------------------- contents

  /** The contents after a step, as a plain multiset of nodes would have them. */
  ghost function PlainStep(items: multiset<Node>, e: Event, found: Option<Node>): multiset<Node> {
    match e
    case EvAdd(n) => items + multiset{n}
    case EvFindAdd(n) => if HasKey(items, n.key) then items else items + multiset{n}
    case EvDel(_, _) => if found.Some? then items - multiset{found.value} else items
    case _ => items
  }

  /** What a deletion may report, as a plain multiset of nodes would. */
  ghost predicate PlainDel(items: multiset<Node>, key: Key, only: Option<Node>, found: Option<Node>) {
    match found
    case Some(n) => n in items && n.key == key && (only.Some? ==> only.value == n)
    case None => if only.Some? then only.value !in items else !HasKey(items, key)
  }

  ghost function Deleted(s: Sys, e: Event): Option<Node>
    requires e.EvDel? ==> Shape(s.t) && DelAllowed(s.t, e.key, e.only)
  {
    if e.EvDel? then Del(s.t, e.key, e.only).1 else None
  }

  /** Whatever the worker and the iterations do, the table behaves as a plain multiset. */
  lemma ContentsRefine(s: Sys, e: Event)
    requires Inv(s) && !s.destroyed && Enabled(s, e) && !e.EvDrain? && Asserted(s, e)
    ensures var s' := Step(s, e);
      && Shape(s.t) && Shape(s'.t) && !s'.destroyed
      && Items(s'.t) == PlainStep(Items(s.t), e, Deleted(s, e))
      && (e.EvDel? ==> PlainDel(Items(s.t), e.key, e.only, Deleted(s, e)))
  {
    hide Inv, Shape, Arrays, Located, ItersOk, WorkerOk, TargetOk, EmptyAt, IdSet, Private;
    Parts(s);
    match e
    case EvAdd(n) => KeepAdd(s, n); AddedInPlace(s.t, n, 0) by { StartOfProgress(s.t); }
    case EvFindAdd(n) => FindAddContents(s.t, n);
    case EvDel(key, only) => StartOfProgress(s.t); DelRefines(s.t, key, only, 0);
    case EvInstall => KeepInstall(s); StillStanding(s, e);
    case EvMove => KeepMove(s); StillStanding(s, e);
    case EvAlloc(ok) => AllocContents(s, ok);
    case EvFree => FreeContents(s);
    case EvDrain =>
    case _ => OnlyControl(s, e); SameBucketsShape(s.t, Step(s, e).t);
  }

  lemma StartOfProgress(t: Table)
    requires Arrays(t)
    ensures Progress(t, 0)
  {
  }

  lemma StillStanding(s: Sys, e: Event)
    requires Enabled(s, e) && Asserted(s, e) && !e.EvDrain?
    ensures Step(s, e).destroyed == s.destroyed
  {
    hide Shape, Arrays;
  }

  /** Steps that touch neither the arrays nor the store. */
  lemma OnlyControl(s: Sys, e: Event)
    requires Inv(s) && !s.destroyed && Enabled(s, e) && Asserted(s, e)
    requires e.EvRequest? || e.EvPop? || e.EvReadSizes? || e.EvFlag? || e.EvEnter? || e.EvResume? || e.EvVisit? ||
             e.EvExit? || e.EvDestroy? || e.EvDestroyCancel?
    ensures SameBuckets(s.t, Step(s, e).t) && !Step(s, e).destroyed
  {
    hide Inv, Shape, Arrays, Located, ItersOk, TargetOk, EmptyAt, IdSet, Private, Processed, PendingOk;
    Parts(s);
  }

  lemma FindAddContents(t: Table, n: Node)
    requires Shape(t) && Located(t) && n !in Items(t)
    ensures Shape(FindOrAdd(t, n).0)
    ensures Items(FindOrAdd(t, n).0) == if HasKey(Items(t), n.key) then Items(t) else Items(t) + multiset{n}
  {
    FindOrAddRefines(t, n, 0);
    AddedInPlace(t, n, 0);
  }

  lemma AllocContents(s: Sys, ok: bool)
    requires Inv(s) && !s.destroyed && s.w.Sized? && s.w.oldSize == |s.t.buckets| && Shape(s.t)
    ensures Shape(AllocStep(s, ok).t) && Items(AllocStep(s, ok).t) == Items(s.t)
  {
    if ok {
      StoreBelowNext(s);
      hide Inv, Shape, Arrays, Located, ItersOk, EmptyAt, IdSet, NewStore, NewNames, PendingOk, Freed;
      Parts(s);
      ReallocOk(s.t, s.w.newSize);
      LiveInStore(s.t);
      SameLiveShape(s.t, AllocStep(s, ok).t);
    }
  }

  lemma FreeContents(s: Sys)
    requires Inv(s) && !s.destroyed && s.w.Freeing? && Shape(s.t)
    ensures var u := s.t.(store := s.t.store - Freed(s.w.bkts, s.w.lo, s.w.hi)); Shape(u) && Items(u) == Items(s.t)
  {
    hide Inv, Shape, Arrays, Located, ItersOk, EmptyAt, IdSet, Freed, WorkerOk;
    Parts(s);
    LiveInStore(s.t);
    SameLiveShape(s.t, s.t.(store := s.t.store - Freed(s.w.bkts, s.w.lo, s.w.hi)));
  }

  /** Over whole runs: the contents change only as the users' own operations on a plain multiset would change them. */
  lemma RunContents(c: Config, ss: seq<Sys>, es: seq<Event>, k: nat)
    requires Run(c, ss, es) && k < |es| && !ss[k + 1].destroyed && !ss[k].destroyed
    ensures Enabled(ss[k], es[k]) && Shape(ss[k].t) && Shape(ss[k + 1].t)
    ensures Items(ss[k + 1].t) == PlainStep(Items(ss[k].t), es[k], Deleted(ss[k], es[k]))
    ensures es[k].EvDel? ==> PlainDel(Items(ss[k].t), es[k].key, es[k].only, Deleted(ss[k], es[k]))
  {
    RunBounds(c, ss, es);
    hide Run, Inv, Shape, Arrays, Items, Add, FindOrAdd, Del, Begin, Realloc, HeadsItems, RehashBucket, Depart;
    RunSafe(c, ss, es, k);
    assert !es[k].EvDrain?;
    hide Step, Asserted;
    ContentsRefine(ss[k], es[k]);
  }

  // ---------------------------------------------------------------- the books

  function SumCounts(store: map<nat, Bucket>, ids: seq<nat>): int
    requires forall i :: 0 <= i < |ids| ==> ids[i] in store
  {
    if |ids| == 0 then 0 else SumCounts(store, ids[..|ids| - 1]) + store[ids[|ids| - 1]].count
  }

  lemma {:induction false} CountsAdd(store: map<nat, Bucket>, ids: seq<nat>)
    requires forall i :: 0 <= i < |ids| ==> ids[i] in store && store[ids[i]].count == |HeadsItems(store[ids[i]].heads)|
    ensures SumCounts(store, ids) == |ItemsOf(store, ids)|
    decreases |ids|
  {
    if |ids| == 0 {
    } else {
      CountsAdd(store, ids[..|ids| - 1]);
    }
  }

  lemma {:induction false} LengthsAdd(hs: seq<Head>)
    ensures |HeadsItems(hs)| == ChainLengths(hs)
    decreases |hs|
  {
    if |hs| == 0 {
    } else {
      LengthsAdd(hs[..|hs| - 1]);
    }
  }

  function ChainLengths(hs: seq<Head>): nat {
    if |hs| == 0 then 0 else ChainLengths(hs[..|hs| - 1]) + |hs[|hs| - 1].chain|
  }

  /** Sizes follow the bits, the bits are in range, and the three counts agree. */
  ghost predicate Balanced(t: Table) {
    && Arrays(t)
    && t.cfg.minBits <= t.curBits <= t.cfg.maxBits && |t.buckets| == Pow2(t.curBits - t.cfg.bktBits)
    && (t.cfg.counter ==> t.count == |Items(t)|)
    && SumCounts(t.store, Full(t)) == |Items(t)|
    && (forall i :: 0 <= i < |Full(t)| ==> t.store[Full(t)[i]].count == ChainLengths(t.store[Full(t)[i]].heads))
  }

  lemma TableBooks(t: Table)
    requires Shape(t)
    ensures Balanced(t)
  {
    hide HeadsItems, ItemsOf, ChainLengths, SumCounts;
    CountsAdd(t.store, Full(t));
    forall i | 0 <= i < |Full(t)|
      ensures t.store[Full(t)[i]].count == ChainLengths(t.store[Full(t)[i]].heads)
    {
      LengthsAdd(t.store[Full(t)[i]].heads);
    }
  }

  /** The books of the table balance in every state of every run. */
  lemma BooksBalance(c: Config, ss: seq<Sys>, es: seq<Event>, k: nat)
    requires Run(c, ss, es) && k <= |es| && !ss[k].destroyed
    ensures Balanced(ss[k].t)
  {
    RunBounds(c, ss, es);
    hide *;
    RunSafe(c, ss, es, k);
    Parts(ss[k]);
    TableBooks(ss[k].t);
  }

  /** In every run, a bucket the worker frees holds nothing and no array names it; no bucket is lost. */
  lemma FreedAreDead(c: Config, ss: seq<Sys>, es: seq<Event>, k: nat)
    requires Run(c, ss, es) && k < |es| && es[k].EvFree? && ss[k].w.Freeing?
    ensures var s := ss[k]; var gone := Freed(s.w.bkts, s.w.lo, s.w.hi);
      && (forall id :: id in gone ==> id in s.t.store && HeadsItems(s.t.store[id].heads) == multiset{})
      && (!s.destroyed ==> gone !! IdSet(Full(s.t)) && ss[k + 1].t.store.Keys == IdSet(Full(s.t)))
      && (s.destroyed ==> ss[k + 1].t.store.Keys == {})
  {
    hide Run, Inv, Shape, Enabled, Asserted, IdSet, Freed, Arrays;
    RunBounds(c, ss, es);
    RunSafe(c, ss, es, k);
    var s := ss[k];
    var gone := Freed(s.w.bkts, s.w.lo, s.w.hi);
    assert ss[k + 1].t.store == s.t.store - gone;
    hide Step;
    assert ss[k + 1].t.store.Keys == s.t.store.Keys - gone;
    if s.destroyed { DestroyedParts(s); } else { Parts(s); }
  }

  lemma DestroyedParts(s: Sys)
    requires Inv(s) && s.destroyed
    ensures EmptyAt(s.t, Private(s.w)) && s.t.store.Keys == Private(s.w)
  {
    hide Shape, Located, WorkerOk, ItersOk, TargetOk, IdSet, EmptyAt, Private;
  }

  /** When the rehash target is clear, a table in use holds every item at its current position and no second array. */
  lemma AtRest(c: Config, ss: seq<Sys>, es: seq<Event>, k: nat)
    requires Run(c, ss, es) && k <= |es| && !ss[k].destroyed && ss[k].t.rehashBits == 0
    ensures Arrays(ss[k].t) && ss[k].t.rehashBuckets.None?
    ensures !ss[k].exited ==>
              forall i: nat, o: nat, n: Node :: Holds(ss[k].t, i, o, n) ==> InPlace(ss[k].t, ss[k].t.curBits, i, o, n)
  {
    RunSafe(c, ss, es, k);
    hide Run, Inv;
    Parts(ss[k]);
    hide Shape, Arrays, ItersOk, TargetOk, EmptyAt, IdSet, Private, Processed, PendingOk;
  }

  /** In every state of every run, lookups answer from the contents. */
  lemma RunLookup(c: Config, ss: seq<Sys>, es: seq<Event>, k: nat, key: Key)
    requires Run(c, ss, es) && k <= |es| && !ss[k].destroyed && !ss[k].exited
    ensures var t := ss[k].t;
      && Arrays(t) && Located(t) && (ss[k].w.Moving? ==> t.rehashBuckets.Some? && Processed(t, ss[k].w.i))
      && (Lookup(t, key).Some? <==> HasKey(Items(t), key))
      && (Lookup(t, key).Some? ==> Lookup(t, key).value in Items(t) && Lookup(t, key).value.key == key)
  {
    RunSafe(c, ss, es, k);
    hide Run, Inv;
    Parts(ss[k]);
    LookupRefines(ss[k].t, key);
    hide Shape, Arrays, ItersOk, TargetOk, EmptyAt, IdSet, Private, PendingOk, Located, Processed;
  }

  // ---------------------------------------------------------------- iterations

  /** From the end of its entry to its exit an iteration sees no rehash in progress. */
  lemma NoRehashWhileIterating(c: Config, ss: seq<Sys>, es: seq<Event>, k: nat, tid: nat)
    requires Run(c, ss, es) && k <= |es| && !ss[k].destroyed
    requires tid in ss[k].iters && ss[k].iters[tid].Visiting?
    ensures ss[k].t.rehashBits == 0 && ss[k].t.rehashBuckets.None? && !Active(ss[k].w)
  {
    RunSafe(c, ss, es, k);
    hide Run, Inv;
    Parts(ss[k]);
    hide Shape, Arrays, Located, TargetOk, EmptyAt, IdSet, Private, PendingOk, Processed, IterOk;
  }

  /** One step of anyone: the iteration goes on, and a node that is still there is still on record. */
  lemma StillOnRecord(s: Sys, e: Event, tid: nat, n: Node)
    requires Inv(s) && !s.destroyed && Enabled(s, e) && Asserted(s, e) && e != EvExit(tid)
    requires tid in s.iters && s.iters[tid].Visiting? && n in s.iters[tid].stayed
    requires var s' := Step(s, e); !s'.destroyed && Arrays(s'.t) && n in Items(s'.t)
    ensures var s' := Step(s, e); tid in s'.iters && s'.iters[tid].Visiting? && n in s'.iters[tid].stayed
  {
    hide Inv, Shape, Arrays, Located, WorkerOk, TargetOk, EmptyAt, IdSet, Private, ItersOk, Del;
    Parts(s);
    if e.EvDel? {
      hide Asserted;
      StartOfProgress(s.t);
      DelRefines(s.t, e.key, e.only, 0);
      var r := Del(s.t, e.key, e.only).1;
      if r.Some? {
        GoneForGood(s.t, r.value);
        DepartEntries(s.iters, {r.value});
        hide Depart;
      }
    } else {
      RecordKept(s, e, tid);
    }
  }

  lemma RecordKept(s: Sys, e: Event, tid: nat)
    requires !s.destroyed && Enabled(s, e) && Asserted(s, e) && e != EvExit(tid) && !e.EvDel?
    requires tid in s.iters && s.iters[tid].Visiting?
    ensures var s' := Step(s, e);
      tid in s'.iters && s'.iters[tid].Visiting? && s'.iters[tid].stayed == s.iters[tid].stayed
  {
    hide Shape, Arrays, RehashHeads, Realloc, Begin, HeadsItems, Theta, TargetBits, DelAllowed, Items, Rehashing;
  }

  lemma GoneForGood(t: Table, n: Node)
    requires Shape(t)
    ensures n !in Items(t) - multiset{n}
  {
    hide Arrays;
  }

  /**
   * A full iteration visits every item that stays in the table exactly once, although the
   * table lock is dropped on the way: from the state `a` in which the iteration begins to
   * the state `b` in which it has passed the last bucket.
   */
  lemma {:induction false} VisitedExactlyOnce(c: Config, ss: seq<Sys>, es: seq<Event>, a: nat, b: nat, tid: nat,
      n: Node)
    requires Run(c, ss, es) && a <= b <= |es|
    requires forall k :: a <= k <= b ==> !ss[k].destroyed && Arrays(ss[k].t) && n in Items(ss[k].t)
    requires tid in ss[a].iters && ss[a].iters[tid] == Begin(ss[a].t)
    requires forall k :: a <= k < b ==> es[k] != EvExit(tid)
    ensures tid in ss[b].iters && ss[b].iters[tid].Visiting? && n in ss[b].iters[tid].stayed
    ensures ss[b].iters[tid].pos == |ss[b].t.buckets| ==> ss[b].iters[tid].visited[n] == 1
    decreases b - a
  {
    hide Run, Inv, Step, Enabled, Asserted, Arrays, Items, Begin;
    RunBounds(c, ss, es);
    RunSafe(c, ss, es, b);
    if a < b {
      VisitedExactlyOnce(c, ss, es, a, b - 1, tid, n);
      RunSafe(c, ss, es, b - 1);
      StillOnRecord(ss[b - 1], es[b - 1], tid, n);
    } else {
      OnRecordAtFirst(ss[a].t, n);
    }
    RecordSays(ss[b], tid, n);
  }

  lemma OnRecordAtFirst(t: Table, n: Node)
    requires Arrays(t) && n in Items(t)
    ensures Begin(t).Visiting? && n in Begin(t).stayed
  {
    hide Arrays, Items;
  }

  lemma RunBounds(c: Config, ss: seq<Sys>, es: seq<Event>)
    requires Run(c, ss, es)
    ensures |ss| == |es| + 1
  {
  }

  lemma RecordSays(s: Sys, tid: nat, n: Node)
    requires Inv(s) && !s.destroyed && tid in s.iters && s.iters[tid].Visiting? && n in s.iters[tid].stayed
    ensures s.iters[tid].pos == |s.t.buckets| ==> s.iters[tid].visited[n] == 1
  {
    hide Inv;
    Parts(s);
    assert IterOk(s.t, s.iters[tid]);
    assert |s.t.buckets| == NumBuckets(s.t.cfg, s.t.curBits);
    hide Shape, Arrays, Located, WorkerOk, TargetOk, EmptyAt, IdSet, Private;
  }
}
