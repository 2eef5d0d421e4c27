/**
 * The hash table with its rehash worker, its iterators and its destruction as a step
 * system.  Every region the source runs under the table lock is one step, so any other
 * step may come between two of them; the worker's loop may lose the lock after every
 * bucket.  The rehash work item is carried as two flags: scheduled, and running (the
 * worker is somewhere in its code).
 */
module HashSystem {
  import opened Prelude
  import opened HashTable
  import opened HashOps
  import opened HashRehash

  /** Where the rehash worker is.  `Idle` means its work item is not running. */
  datatype Worker =
    | Idle
    | Popped
    | Sized(oldSize: nat, newSize: nat)
    | Alloced(bkts: Option<seq<nat>>, oldSize: nat, newSize: nat)
    | Moving(i: nat, oldSize: nat, newSize: nat)
    | Freeing(bkts: Option<seq<nat>>, lo: nat, hi: nat)

  /** An iteration; `stayed` records the nodes in the table ever since it began. */
  datatype Iter = Waiting | Visiting(pos: nat, visited: multiset<Node>, stayed: set<Node>)

  datatype Sys = Sys(
    t: Table, w: Worker,
    scheduled: bool, exited: bool, destroyed: bool,
    iters: map<nat, Iter>)

  datatype Event =
    | EvAdd(n: Node)
    | EvFindAdd(n: Node)
    | EvDel(key: Key, only: Option<Node>)
    | EvRequest
    | EvPop
    | EvReadSizes
    | EvAlloc(ok: bool)
    | EvInstall
    | EvMove
    | EvFree
    | EvFlag(iterating: bool)
    | EvEnter(tid: nat)
    | EvResume(tid: nat)
    | EvVisit(tid: nat)
    | EvExit(tid: nat)
    | EvDestroy
    | EvDestroyCancel
    | EvDrain

  // ---------------------------------------------------------------- load and target size

  const EOPNOTSUPP := 95
  const ESRCH := 3
  const EALREADY := 114
  const EAGAIN := 11
  const THETA_BITS := 10

  /** Two's complement reading of a 32-bit word. */
  function ToInt32(x: int): int {
    var w := x % 0x1_0000_0000;
    if w < 0x8000_0000 then w else w - 0x1_0000_0000
  }

  function Theta(t: Table): int {
    ToInt32(t.count * Pow2(THETA_BITS)) / Pow2(t.curBits)
  }

  predicate IsIterating(t: Table) { t.iterating || t.iterators != 0 }

  /** The size to rehash to, zero for none, negative for an error. */
  function TargetBits(t: Table): int {
    if !t.cfg.rehash then -EOPNOTSUPP
    else if t.exiting then -ESRCH
    else if t.rehashBits != 0 then -EALREADY
    else if IsIterating(t) then -EAGAIN
    else if t.curBits < t.cfg.maxBits && Theta(t) > t.cfg.maxTheta then t.curBits + 1
    else if !t.cfg.shrink then 0
    else if t.curBits > t.cfg.minBits && Theta(t) < t.cfg.minTheta then t.curBits - 1
    else 0
  }

  // ---------------------------------------------------------------- allocation

  function EmptyHeads(c: Config): seq<Head> {
    seq(NumHeads(c), _ => Head([], None, 0))
  }

  /** The empty bucket allocated under `id` by a reallocation that started at `next`. */
  function FreshBucket(c: Config, oldSize: nat, next: nat, id: nat): Bucket
    requires next <= id
  {
    Bucket(oldSize + id - next, 0, EmptyHeads(c))
  }

  /** The names in an array of the new size: the common prefix is copied, the rest is freshly allocated. */
  function NewNames(old_: seq<nat>, next: nat, newSize: nat): seq<nat> {
    if newSize <= |old_| then old_[..newSize] else old_ + seq(newSize - |old_|, k => next + k)
  }

  function NewStore(store: map<nat, Bucket>, c: Config, oldSize: nat, next: nat, more: nat): map<nat, Bucket> {
    store + map id | next <= id < next + more :: FreshBucket(c, oldSize, next, id)
  }

  function Realloc(t: Table, oldSize: nat, newSize: nat): (Table, seq<nat>)
    requires oldSize == |t.buckets|
  {
    var more := if newSize > oldSize then newSize - oldSize else 0;
    (t.(store := NewStore(t.store, t.cfg, oldSize, t.next, more), next := t.next + more),
     NewNames(t.buckets, t.next, newSize))
  }

  function Freed(bkts: Option<seq<nat>>, lo: nat, hi: nat): set<nat> {
    if bkts.Some? then set k | lo <= k < hi && k < |bkts.value| :: bkts.value[k] else {}
  }

  // ---------------------------------------------------------------- steps

  /** cfs_wi_cancel on the rehash item, then clear the request if it did not run. */
  function Cancel(s: Sys): Sys {
    if s.t.rehashBits == 0 then s
    else
      var s' := s.(scheduled := false);
      if s.w.Idle? then s'.(t := s.t.(rehashBits := 0)) else s'
  }

  ghost function Begin(t: Table): Iter
    requires Arrays(t)
  {
    Visiting(0, multiset{}, set n | n in Items(t))
  }

  /** Leaving the worker's locked part: the request is cleared and the array to release is remembered. */
  function Out(s: Sys, t: Table, esrch: bool, bkts: Option<seq<nat>>, lo: nat, hi: nat): Sys {
    s.(t := t.(rehashBits := 0), w := Freeing(bkts, lo, hi),
       exited := s.exited || esrch, scheduled := s.scheduled || esrch)
  }

  function Swap(t: Table): Table
    requires t.rehashBuckets.Some?
  {
    t.(buckets := t.rehashBuckets.value, rehashBuckets := None, curBits := t.rehashBits,
       rehashCount := t.rehashCount + 1)
  }

  function InstallStep(s: Sys): Sys
    requires s.w.Alloced?
  {
    var t := s.t;
    if s.w.bkts.None? then Out(s, t, false, None, 0, 0)
    else if s.w.bkts.value == t.buckets then Out(s, t, false, None, 0, 0)
    else if t.cfg.minTheta <= Theta(t) <= t.cfg.maxTheta then
      Out(s, t, false, s.w.bkts, |t.buckets|, s.w.newSize)
    else s.(t := t.(rehashBuckets := s.w.bkts), w := Moving(0, s.w.oldSize, s.w.newSize))
  }

  function MoveStep(s: Sys): Sys
    requires s.w.Moving? && s.t.rehashBuckets.Some?
    requires s.w.i < |s.t.buckets| ==> Rehashing(s.t, s.w.i)
  {
    var t := s.t;
    if s.w.i == |t.buckets| then
      Out(s, Swap(t), false, Some(t.buckets), s.w.newSize, s.w.oldSize)
    else if s.w.i > |t.buckets| then s
    else if t.exiting then
      if s.w.oldSize < s.w.newSize then Out(s, Swap(t), true, Some(t.buckets), s.w.newSize, s.w.oldSize)
      else Out(s, t.(rehashBuckets := None), true, t.rehashBuckets, |t.buckets|, s.w.newSize)
    else s.(t := RehashBucket(t, s.w.i), w := s.w.(i := s.w.i + 1))
  }

  /** Nodes that leave the table leave every iteration's record of what stayed. */
  ghost function Depart(iters: map<nat, Iter>, gone: set<Node>): map<nat, Iter> {
    map k | k in iters :: if iters[k].Visiting? then iters[k].(stayed := iters[k].stayed - gone) else iters[k]
  }

  /** Whether the step is at its place in the code and its caller keeps to the rules of the interface. */
  ghost predicate Enabled(s: Sys, e: Event) {
    (s.destroyed ==> e.EvFree?) && (!s.destroyed ==> Shape(s.t)) &&
    match e
    case EvAdd(n) => !s.t.exiting && n !in Items(s.t)
    case EvFindAdd(n) => !s.t.exiting && n !in Items(s.t)
    case EvDel(key, only) => !s.t.exiting && DelAllowed(s.t, key, only) && (only.Some? ==> only.value.key == key)
    case EvRequest => s.t.cfg.rehash
    case EvPop => s.scheduled && !s.exited && s.w.Idle?
    case EvReadSizes => s.w.Popped?
    case EvAlloc(_) => s.w.Sized?
    case EvInstall => s.w.Alloced?
    case EvMove => s.w.Moving?
    case EvFree => s.w.Freeing?
    case EvFlag(_) => true
    case EvEnter(tid) => !s.t.exiting && tid !in s.iters
    case EvResume(tid) => tid in s.iters && s.iters[tid].Waiting? && s.t.rehashBits == 0
    case EvVisit(tid) => tid in s.iters && s.iters[tid].Visiting? && s.iters[tid].pos < |s.t.buckets|
    case EvExit(tid) => tid in s.iters && s.iters[tid].Visiting?
    case EvDestroy => !s.t.exiting && !IsIterating(s.t) && s.iters == map[]
    case EvDestroyCancel => s.t.exiting && s.t.cfg.rehash
    case EvDrain => s.t.exiting && s.t.rehashBits == 0
  }

  // ---------------------------------------------------------------- invariant

  /** The worker is between being popped and leaving its locked part. */
  predicate Active(w: Worker) { w.Popped? || w.Sized? || w.Alloced? || w.Moving? }

  function IdSet(ids: seq<nat>): set<nat> { set k | 0 <= k < |ids| :: ids[k] }

  /** Bucket objects only the worker knows: allocated and not yet installed, or waiting to be freed. */
  function Private(w: Worker): set<nat> {
    match w
    case Alloced(bkts, oldSize, newSize) => Freed(bkts, oldSize, newSize)
    case Freeing(bkts, lo, hi) => Freed(bkts, lo, hi)
    case _ => {}
  }

  ghost predicate EmptyAt(t: Table, ids: set<nat>) {
    forall id :: id in ids ==> id in t.store && id < t.next && HeadsItems(t.store[id].heads) == multiset{}
  }

  ghost predicate TargetOk(t: Table) {
    t.rehashBits != 0 ==> t.cfg.rehash && BitsOk(t.cfg, t.rehashBits) && t.rehashBits != t.curBits
  }

  ghost predicate SizesOk(t: Table, oldSize: nat, newSize: nat) {
    && oldSize == |t.buckets|
    && t.cfg.bktBits <= t.rehashBits && newSize == NumBuckets(t.cfg, t.rehashBits)
  }

  /** An allocated array that is not installed yet. */
  ghost predicate PendingOk(t: Table, bkts: seq<nat>, oldSize: nat, newSize: nat) {
    && |bkts| == newSize
    && Distinct(bkts)
    && (if newSize > oldSize then t.buckets <= bkts else bkts <= t.buckets)
    && (forall k :: oldSize <= k < newSize ==> bkts[k] in t.store && BucketOk(t.cfg, t.store[bkts[k]], k))
  }

  ghost predicate WorkerOk(s: Sys)
    requires Arrays(s.t)
  {
    && (Active(s.w) ==> s.t.rehashBits != 0 && !s.scheduled)
    && (s.t.rehashBuckets.Some? <==> s.w.Moving?)
    && (s.w.Sized? ==> SizesOk(s.t, s.w.oldSize, s.w.newSize))
    && (s.w.Alloced? ==>
          && SizesOk(s.t, s.w.oldSize, s.w.newSize)
          && (s.w.bkts.Some? ==> PendingOk(s.t, s.w.bkts.value, s.w.oldSize, s.w.newSize)))
    && (s.w.Moving? ==>
          && SizesOk(s.t, s.w.oldSize, s.w.newSize)
          && s.w.i <= |s.t.buckets| && Processed(s.t, s.w.i))
  }

  ghost predicate IterOk(t: Table, it: Iter)
    requires Arrays(t)
  {
    it.Visiting? ==>
      && it.pos <= |t.buckets|
      && (forall n :: n in it.stayed ==>
            && n in Items(t)
            && it.visited[n] == if PosBucket(t.cfg, t.curBits, n.key) < it.pos then 1 else 0)
  }

  ghost predicate ItersOk(s: Sys)
    requires Arrays(s.t)
  {
    && (s.t.cfg.rehash ==> s.t.iterators == |s.iters|)
    && (s.t.exiting ==> s.iters == map[])
    && (forall k :: k in s.iters ==> IterOk(s.t, s.iters[k]))
    && (forall k :: k in s.iters && s.iters[k].Visiting? ==> s.t.rehashBits == 0)
  }

  ghost predicate Inv(s: Sys) {
    && EmptyAt(s.t, Private(s.w))
    && (s.destroyed ==> s.t.store.Keys == Private(s.w) && !Active(s.w))
    && (!s.destroyed ==>
          && Shape(s.t)
          && s.t.store.Keys == IdSet(Full(s.t)) + Private(s.w)
          && IdSet(Full(s.t)) !! Private(s.w)
          && (!s.exited ==> Located(s.t))
          && TargetOk(s.t)
          && (s.scheduled && !s.exited ==> s.t.rehashBits != 0)
          && (s.exited ==> s.t.exiting && s.t.rehashBits == 0)
          && WorkerOk(s)
          && ItersOk(s))
  }

  /** What the code itself asserts or relies on at the step. */
  ghost predicate Asserted(s: Sys, e: Event) {
    var t := s.t;
    match e
    case EvReadSizes => t.cfg.bktBits <= t.curBits && t.cfg.bktBits <= t.rehashBits && t.rehashBits != 0
    case EvAlloc(_) => s.w.Sized? && s.w.oldSize == |t.buckets|
    case EvInstall => s.w.Alloced? && t.rehashBuckets.None?
    case EvMove =>
      s.w.Moving? && t.rehashBuckets.Some? && s.w.i <= |t.buckets| &&
      (s.w.i < |t.buckets| ==> Rehashing(t, s.w.i))
    case EvVisit(tid) =>
      && tid in s.iters && s.iters[tid].Visiting? && s.iters[tid].pos < |t.buckets|
      && t.rehashBits == 0 && t.buckets[s.iters[tid].pos] in t.store
    case EvExit(_) => t.cfg.rehash ==> t.iterators > 0
    case EvDrain => t.rehashBuckets.None?
    case _ => true
  }

  /** One step of the system. */
  ghost function Step(s: Sys, e: Event): Sys
    requires Enabled(s, e) && Asserted(s, e)
  {
    var t := s.t;
    match e
    case EvAdd(n) => s.(t := Add(t, n))
    case EvFindAdd(n) => s.(t := FindOrAdd(t, n).0)
    case EvDel(key, only) => DelStep(s, key, only)
    case EvRequest =>
      var bits := TargetBits(t);
      if bits <= 0 then s else s.(t := t.(rehashBits := bits), scheduled := true)
    case EvPop => s.(scheduled := false, w := Popped)
    case EvReadSizes => s.(w := Sized(NumBuckets(t.cfg, t.curBits), NumBuckets(t.cfg, t.rehashBits)))
    case EvAlloc(ok) => AllocStep(s, ok)
    case EvInstall => InstallStep(s)
    case EvMove => MoveStep(s)
    case EvFree => s.(t := t.(store := t.store - Freed(s.w.bkts, s.w.lo, s.w.hi)), w := Idle)
    case EvFlag(b) => s.(t := t.(iterating := b))
    case EvEnter(tid) => EnterStep(s, tid)
    case EvResume(tid) => s.(iters := s.iters[tid := Begin(t)])
    case EvVisit(tid) => VisitStep(s, tid)
    case EvExit(tid) =>
      s.(iters := s.iters - {tid}, t := if t.cfg.rehash then t.(iterators := t.iterators - 1) else t)
    case EvDestroy => s.(t := t.(exiting := true))
    case EvDestroyCancel => Cancel(s)
    case EvDrain => s.(t := t.(store := t.store - IdSet(t.buckets), count := 0), destroyed := true)
  }

  ghost function DelStep(s: Sys, key: Key, only: Option<Node>): Sys
    requires Shape(s.t) && DelAllowed(s.t, key, only)
  {
    var (u, r) := Del(s.t, key, only);
    s.(t := u, iters := if r.Some? then Depart(s.iters, {r.value}) else s.iters)
  }

  function AllocStep(s: Sys, ok: bool): Sys
    requires s.w.Sized? && s.w.oldSize == |s.t.buckets|
  {
    if !ok then s.(w := Alloced(None, s.w.oldSize, s.w.newSize))
    else
      var (u, bkts) := Realloc(s.t, s.w.oldSize, s.w.newSize);
      s.(t := u, w := Alloced(Some(bkts), s.w.oldSize, s.w.newSize))
  }

  /** Entering an iteration: counted first, then a pending rehash is cancelled or waited for. */
  ghost function EnterStep(s: Sys, tid: nat): Sys
    requires Arrays(s.t)
  {
    if !s.t.cfg.rehash then s.(iters := s.iters[tid := Begin(s.t)])
    else
      var u := Cancel(s.(t := s.t.(iterators := s.t.iterators + 1)));
      u.(iters := u.iters[tid := if u.t.rehashBits == 0 then Begin(s.t) else Waiting])
  }

  ghost function VisitStep(s: Sys, tid: nat): Sys
    requires tid in s.iters && s.iters[tid].Visiting? && s.iters[tid].pos < |s.t.buckets|
    requires s.t.buckets[s.iters[tid].pos] in s.t.store
  {
    var it := s.iters[tid];
    s.(iters := s.iters[tid := it.(pos := it.pos + 1,
                                   visited := it.visited + HeadsItems(s.t.store[s.t.buckets[it.pos]].heads))])
  }

  /** No assertion of the code fires in a state that satisfies the invariant. */
  lemma AssertionsHold(s: Sys, e: Event)
    requires Inv(s) && Enabled(s, e)
    ensures Asserted(s, e)
  {
    if e.EvExit? && s.t.cfg.rehash {
      assert e.tid in s.iters.Keys;
    }
  }
}
