/**
 * The work-item scheduler, kernel variant: two schedulers (one for concurrent items, one
 * for serialised items), each with a run queue and a re-run queue, and the threads that
 * take items off the run queues.  Every region under the scheduler lock is one step.
 */
module WorkItem {
  import opened Prelude

  const NSCHED := 2
  const SCHED_ANY := -1
  const SCHED_SERIAL := -2

  /** `exited` records that cfs_wi_exit has been called for the item. */
  datatype Item = Item(sched: nat, scheduled: bool, running: bool, exited: bool)

  datatype Sched = Sched(runq: seq<nat>, rerunq: seq<nat>, shuttingdown: bool)

  /** A scheduler thread and the item whose action it is executing, if any. */
  datatype Thread = Thread(sched: nat, cur: Option<nat>)

  /** `calls` and `starts` count schedule calls and run starts of each item. */
  datatype State = State(
    items: map<nat, Item>, scheds: seq<Sched>, threads: map<nat, Thread>,
    calls: map<nat, nat>, starts: map<nat, nat>)

  datatype Event =
    | EvInit(i: nat, schedId: int)
    | EvSchedule(i: nat)
    | EvCancel(i: nat)
    | EvExit(th: nat)
    | EvPop(th: nat)
    | EvReturn(th: nat, rc: int)
    | EvForget(i: nat)
    | EvShutdown(k: nat)

  /** Which scheduler an item's scheduler id names. */
  function ToSched(id: int): nat
    requires id == SCHED_ANY || id == SCHED_SERIAL || 0 <= id < NSCHED
  {
    if id == SCHED_ANY then 0 else if id == SCHED_SERIAL then NSCHED - 1 else id
  }

  // ---------------------------------------------------------------- queues

  /** Takes the item off both queues of a scheduler (it is on at most one). */
  function Unqueue(s: Sched, i: nat): Sched {
    s.(runq := Without(s.runq, i), rerunq := Without(s.rerunq, i))
  }

  predicate Queued(st: State, i: nat)
    requires i in st.items && st.items[i].sched < |st.scheds|
  {
    var s := st.scheds[st.items[i].sched];
    i in s.runq || i in s.rerunq
  }

  // ---------------------------------------------------------------- steps

  ghost predicate Enabled(st: State, e: Event) {
    match e
    case EvInit(i, id) =>
      i !in st.items && i !in st.calls && (id == SCHED_ANY || id == SCHED_SERIAL || 0 <= id < NSCHED)
    case EvSchedule(i) => i in st.items && !st.items[i].exited && Open(st, st.items[i].sched)
    case EvCancel(i) => i in st.items && !st.items[i].exited && Open(st, st.items[i].sched)
    case EvExit(th) =>
      th in st.threads && st.threads[th].cur.Some? && st.threads[th].cur.value in st.items &&
      !st.items[st.threads[th].cur.value].exited && Open(st, st.threads[th].sched)
    case EvPop(th) =>
      th in st.threads && st.threads[th].cur.None? && Open(st, st.threads[th].sched) &&
      |st.scheds[st.threads[th].sched].runq| > 0
    case EvReturn(th, rc) =>
      && th in st.threads && st.threads[th].cur.Some?
      && (rc != 0 ==> ReturnsDead(st, st.threads[th].cur.value))
    case EvForget(i) => i in st.items && !st.items[i].running && (st.items[i].exited || !st.items[i].scheduled)
    case EvShutdown(k) => k < |st.scheds| && st.scheds[k].runq == [] && st.scheds[k].rerunq == []
  }

  predicate Open(st: State, k: nat) { k < |st.scheds| && !st.scheds[k].shuttingdown }

  /** An action that reports its item dead must not have left it on a queue. */
  predicate ReturnsDead(st: State, i: nat) {
    i in st.items && (st.items[i].exited || !st.items[i].scheduled)
  }

  function Schedule(st: State, i: nat): State
    requires i in st.items && st.items[i].sched < |st.scheds| && i in st.calls
  {
    var it := st.items[i];
    var s := st.scheds[it.sched];
    var st' := st.(calls := st.calls[i := st.calls[i] + 1]);
    if it.scheduled then st'
    else
      var s' := if !it.running then s.(runq := s.runq + [i]) else s.(rerunq := [i] + s.rerunq);
      st'.(items := st.items[i := it.(scheduled := true)], scheds := st.scheds[it.sched := s'])
  }

  /** Returns 1 when the item was not running: then no run follows until it is scheduled again. */
  function Cancel(st: State, i: nat): (State, int)
    requires i in st.items && st.items[i].sched < |st.scheds|
  {
    var it := st.items[i];
    var rc := if it.running then 0 else 1;
    if !it.scheduled then (st, rc)
    else
      (st.(items := st.items[i := it.(scheduled := false)],
           scheds := st.scheds[it.sched := Unqueue(st.scheds[it.sched], i)]), rc)
  }

  function Exit(st: State, i: nat): State
    requires i in st.items && st.items[i].sched < |st.scheds|
  {
    var it := st.items[i];
    var s := st.scheds[it.sched];
    st.(items := st.items[i := it.(scheduled := true, exited := true)],
        scheds := st.scheds[it.sched := if it.scheduled then Unqueue(s, i) else s])
  }

  function Pop(st: State, th: nat): State
    requires th in st.threads && st.threads[th].sched < |st.scheds| && |st.scheds[st.threads[th].sched].runq| > 0
    requires st.scheds[st.threads[th].sched].runq[0] in st.items && st.scheds[st.threads[th].sched].runq[0] in st.starts
  {
    var t := st.threads[th];
    var s := st.scheds[t.sched];
    var i := s.runq[0];
    st.(scheds := st.scheds[t.sched := s.(runq := s.runq[1..])],
        items := st.items[i := st.items[i].(running := true, scheduled := false)],
        threads := st.threads[th := t.(cur := Some(i))],
        starts := st.starts[i := st.starts[i] + 1])
  }

  /** The action is over: a dead item is dropped, a re-scheduled one moves to the tail of the run queue. */
  function Return(st: State, th: nat, rc: int): State
    requires th in st.threads && st.threads[th].cur.Some? && st.threads[th].cur.value in st.items
    requires st.items[st.threads[th].cur.value].sched < |st.scheds|
  {
    var t := st.threads[th];
    var i := t.cur.value;
    var it := st.items[i];
    var st' := st.(threads := st.threads[th := t.(cur := None)]);
    if rc != 0 then st'.(items := st.items - {i})
    else
      var st'' := st'.(items := st.items[i := it.(running := false)]);
      if !Queued(st, i) then st''
      else
        var s := Unqueue(st.scheds[it.sched], i);
        st''.(scheds := st.scheds[it.sched := s.(runq := s.runq + [i])])
  }

  // ---------------------------------------------------------------- invariant

  /** A run queue holds scheduled idle items of its scheduler, a re-run queue scheduled running ones. */
  ghost predicate QueueOk(items: map<nat, Item>, s: Sched, k: nat) {
    && Distinct(s.runq) && Distinct(s.rerunq)
    && (forall i :: i in s.runq ==> i in items && items[i] == Item(k, true, false, false))
    && (forall i :: i in s.rerunq ==> i in items && items[i] == Item(k, true, true, false))
  }

  ghost predicate QueuesOk(st: State) {
    |st.scheds| == NSCHED && QueueOk(st.items, st.scheds[0], 0) && QueueOk(st.items, st.scheds[1], 1)
  }

  ghost predicate ItemOk(st: State, i: nat)
    requires i in st.items
  {
    && st.items[i].sched < |st.scheds| && i in st.calls && i in st.starts
    && (!st.items[i].exited && st.items[i].scheduled ==> Queued(st, i))
    && (st.items[i].exited ==> st.items[i].scheduled)
    && st.starts[i] + (if Queued(st, i) then 1 else 0) <= st.calls[i]
  }

  ghost predicate ItemsOk(st: State) {
    st.calls.Keys == st.starts.Keys && forall i :: i in st.items ==> ItemOk(st, i)
  }

  predicate SameItem(a: Thread, b: Thread) { a.cur.Some? && a.cur == b.cur }

  predicate BothSerial(a: Thread, b: Thread) { a.sched == NSCHED - 1 && b.sched == NSCHED - 1 }

  /**
   * A thread executes a running item of its own scheduler; no item has two threads; one thread
   * serves the serial queue.
   */
  ghost predicate ThreadsOk(items: map<nat, Item>, threads: map<nat, Thread>) {
    && (forall th :: th in threads ==> threads[th].sched < NSCHED)
    && (forall th :: th in threads && threads[th].cur.Some? ==>
          var i := threads[th].cur.value; i in items && items[i].running && items[i].sched == threads[th].sched)
    && (forall a, b :: a in threads && b in threads && SameItem(threads[a], threads[b]) ==> a == b)
    && (forall a, b :: a in threads && b in threads && BothSerial(threads[a], threads[b]) ==> a == b)
  }

  ghost predicate RunnersOk(items: map<nat, Item>, threads: map<nat, Thread>) {
    forall i :: i in items && items[i].running ==> HasRunner(threads, i)
  }

  ghost predicate HasRunner(threads: map<nat, Thread>, i: nat) {
    exists th :: th in threads && threads[th].cur == Some(i)
  }

  ghost predicate Inv(st: State) {
    QueuesOk(st) && ItemsOk(st) && ThreadsOk(st.items, st.threads) && RunnersOk(st.items, st.threads)
  }

  ghost function Step(st: State, e: Event): State
    requires Inv(st) && Enabled(st, e)
  {
    match e
    case EvInit(i, id) =>
      st.(items := st.items[i := Item(ToSched(id), false, false, false)],
          calls := st.calls[i := 0], starts := st.starts[i := 0])
    case EvSchedule(i) => Schedule(st, i)
    case EvCancel(i) => Cancel(st, i).0
    case EvExit(th) => Exit(st, st.threads[th].cur.value)
    case EvPop(th) => HeadLive(st, st.threads[th].sched); Pop(st, th)
    case EvReturn(th, rc) => Return(st, th, rc)
    case EvForget(i) => st.(items := st.items - {i})
    case EvShutdown(k) => st.(scheds := st.scheds[k := st.scheds[k].(shuttingdown := true)])
  }

  lemma HeadLive(st: State, k: nat)
    requires Inv(st) && k < |st.scheds| && |st.scheds[k].runq| > 0
    ensures var i := st.scheds[k].runq[0]; i in st.items && st.items[i] == Item(k, true, false, false) && i in st.starts
  {
    assert st.scheds[k].runq[0] in st.scheds[k].runq;
    hide ThreadsOk, RunnersOk;
    assert ItemOk(st, st.scheds[k].runq[0]);
  }

  // ---------------------------------------------------------------- every step keeps the invariant

  /** Two states in which an item has the same record, queue places and counters. */
  lemma ItemFrame(st: State, st': State, j: nat)
    requires j in st.items && ItemOk(st, j) && j in st'.items && st'.items[j] == st.items[j]
    requires |st'.scheds| == |st.scheds| && j in st'.calls && j in st'.starts
    requires st'.starts[j] == st.starts[j] && st'.calls[j] == st.calls[j] && Queued(st', j) == Queued(st, j)
    ensures ItemOk(st', j)
  {
  }

  /** The same items on the same queues, item `i` aside. */
  ghost predicate SameQueues(st: State, st': State, i: nat) {
    && |st.scheds| == NSCHED && |st'.scheds| == NSCHED
    && (forall j :: j != i ==> (j in st'.scheds[0].runq <==> j in st.scheds[0].runq))
    && (forall j :: j != i ==> (j in st'.scheds[0].rerunq <==> j in st.scheds[0].rerunq))
    && (forall j :: j != i ==> (j in st'.scheds[1].runq <==> j in st.scheds[1].runq))
    && (forall j :: j != i ==> (j in st'.scheds[1].rerunq <==> j in st.scheds[1].rerunq))
  }

  /** The items' part of the invariant after a step on item `i` alone. */
  lemma OneItem(st: State, st': State, i: nat)
    requires ItemsOk(st) && SameQueues(st, st', i)
    requires forall j :: j in st'.items && j != i ==> j in st.items && st'.items[j] == st.items[j]
    requires st'.calls.Keys == st'.starts.Keys
    requires forall j :: j in st.calls ==> j in st'.calls && j in st'.starts
    requires forall j :: j in st.calls && j != i ==> st'.calls[j] == st.calls[j] && st'.starts[j] == st.starts[j]
    requires i in st'.items ==> ItemOk(st', i)
    ensures ItemsOk(st')
  {
    forall j | j in st'.items ensures ItemOk(st', j) {
      if j != i {
        assert ItemOk(st, j);
        ItemFrame(st, st', j);
      }
    }
  }

  /** The threads' part when one idle item's record changes without touching its running flag or scheduler. */
  lemma ThreadsFrame(items: map<nat, Item>, items': map<nat, Item>, threads: map<nat, Thread>)
    requires ThreadsOk(items, threads) && RunnersOk(items, threads) && items'.Keys == items.Keys
    requires forall i :: i in items ==> items'[i].running == items[i].running && items'[i].sched == items[i].sched
    ensures ThreadsOk(items', threads) && RunnersOk(items', threads)
  {
    hide SameItem, BothSerial, HasRunner;
  }

  /** The queues of one scheduler after an item was taken off. */
  lemma UnqueuedOk(items: map<nat, Item>, s: Sched, k: nat, i: nat)
    requires QueueOk(items, s, k)
    ensures var u := Unqueue(s, i);
      && Distinct(u.runq) && Distinct(u.rerunq) && i !in u.runq && i !in u.rerunq
      && (forall j :: j in u.runq <==> j in s.runq && j != i)
      && (forall j :: j in u.rerunq <==> j in s.rerunq && j != i)
  {
  }

  lemma UnqueuedKept(items: map<nat, Item>, items': map<nat, Item>, s: Sched, k: nat, i: nat)
    requires QueueOk(items, s, k)
    requires forall j :: j in items && j != i ==> j in items' && items'[j] == items[j]
    ensures QueueOk(items', Unqueue(s, i), k)
  {
    UnqueuedOk(items, s, k, i);
    hide Unqueue;
  }

  /** Changing the record of an item that is on no queue disturbs no queue. */
  lemma OffQueueFrame(items: map<nat, Item>, items': map<nat, Item>, s: Sched, k: nat, i: nat)
    requires QueueOk(items, s, k) && i !in s.runq && i !in s.rerunq
    requires forall j :: j in items && j != i ==> j in items' && items'[j] == items[j]
    ensures QueueOk(items', s, k)
  {
  }

  /** One scheduler's queues after an idle item joins the tail of the run queue. */
  lemma TailOk(items: map<nat, Item>, items': map<nat, Item>, s: Sched, k: nat, i: nat)
    requires QueueOk(items, s, k) && i !in s.runq && i !in s.rerunq
    requires forall j :: j in items && j != i ==> j in items' && items'[j] == items[j]
    requires i in items' && items'[i] == Item(k, true, false, false)
    ensures QueueOk(items', s.(runq := s.runq + [i]), k)
  {
  }

  /** One scheduler's queues after a running item joins the head of the re-run queue. */
  lemma RerunOk(items: map<nat, Item>, items': map<nat, Item>, s: Sched, k: nat, i: nat)
    requires QueueOk(items, s, k) && i !in s.runq && i !in s.rerunq
    requires forall j :: j in items && j != i ==> j in items' && items'[j] == items[j]
    requires i in items' && items'[i] == Item(k, true, true, false)
    ensures QueueOk(items', s.(rerunq := [i] + s.rerunq), k)
  {
  }

  /** An item on no queue of its scheduler is on no queue at all. */
  lemma OffAllQueues(st: State, i: nat)
    requires Inv(st) && i in st.items && !Queued(st, i)
    ensures i !in st.scheds[0].runq && i !in st.scheds[0].rerunq && i !in st.scheds[1].runq && i !in st.scheds[1].rerunq
  {
    hide ThreadsOk, RunnersOk, ItemsOk;
  }

  lemma KeepSchedule(st: State, i: nat)
    requires Inv(st) && Enabled(st, EvSchedule(i))
    ensures Inv(Step(st, EvSchedule(i))) && Queued(Step(st, EvSchedule(i)), i)
  {
    hide QueueOk, ThreadsOk, RunnersOk, ItemsOk;
    LiveItem(st, i);
    var st' := Schedule(st, i);
    if st.items[i].scheduled {
      OneItem(st, st', i);
    } else {
      UnscheduledOff(st, i);
      var k := st.items[i].sched;
      OffAllQueues(st, i);
      OffQueueFrame(st.items, st'.items, st.scheds[1 - k], 1 - k, i);
      if st.items[i].running {
        RerunOk(st.items, st'.items, st.scheds[k], k, i);
      } else {
        TailOk(st.items, st'.items, st.scheds[k], k, i);
      }
      ThreadsFrame(st.items, st'.items, st.threads);
      OneItem(st, st', i);
    }
  }

  lemma LiveItem(st: State, i: nat)
    requires Inv(st) && i in st.items
    ensures ItemOk(st, i) && i in st.calls && i in st.starts && st.calls.Keys == st.starts.Keys
  {
    hide QueuesOk, ThreadsOk, RunnersOk;
  }

  lemma UnscheduledOff(st: State, i: nat)
    requires Inv(st) && i in st.items && (!st.items[i].scheduled || st.items[i].exited)
    ensures st.items[i].sched < |st.scheds| && !Queued(st, i)
  {
    hide ThreadsOk, RunnersOk;
    assert ItemOk(st, i);
  }

  /** An item taken off its queues, with a new record that is not on any queue. */
  lemma UnqueueStep(st: State, st': State, i: nat, it: Item)
    requires Inv(st) && i in st.items && st.items[i].sched == it.sched && st.items[i].running == it.running
    requires it.sched < |st.scheds|
    requires st' == st.(items := st.items[i := it], scheds := st.scheds[it.sched := Unqueue(st.scheds[it.sched], i)])
    requires it.exited == it.scheduled
    ensures Inv(st') && !Queued(st', i)
  {
    hide QueueOk, ThreadsOk, RunnersOk, ItemsOk, Unqueue;
    LiveItem(st, i);
    var k := it.sched;
    UnqueuedOk(st.items, st.scheds[k], k, i);
    OtherQueue(st.items, st'.items, st.scheds[1 - k], 1 - k, i);
    UnqueuedKept(st.items, st'.items, st.scheds[k], k, i);
    ThreadsFrame(st.items, st'.items, st.threads);
    OneItem(st, st', i);
  }

  lemma KeepCancel(st: State, i: nat)
    requires Inv(st) && Enabled(st, EvCancel(i))
    ensures Inv(Step(st, EvCancel(i))) && !Queued(Step(st, EvCancel(i)), i)
  {
    assert ItemOk(st, i);
    if st.items[i].scheduled {
      UnqueueStep(st, Cancel(st, i).0, i, st.items[i].(scheduled := false));
    }
  }

  lemma KeepExit(st: State, th: nat)
    requires Inv(st) && Enabled(st, EvExit(th))
    ensures Inv(Step(st, EvExit(th))) && !Queued(Step(st, EvExit(th)), st.threads[th].cur.value)
  {
    var i := st.threads[th].cur.value;
    var it := st.items[i];
    assert ItemOk(st, i);
    UnqueueNothing(st.scheds[it.sched], i);
    UnqueueStep(st, Exit(st, i), i, it.(scheduled := true, exited := true));
  }

  lemma UnqueueNothing(s: Sched, i: nat)
    ensures i !in s.runq && i !in s.rerunq ==> Unqueue(s, i) == s
  {
  }

  lemma KeepPop(st: State, th: nat)
    requires Inv(st) && Enabled(st, EvPop(th))
    ensures Inv(Step(st, EvPop(th)))
  {
    hide QueueOk, ThreadsOk, RunnersOk, ItemsOk;
    PopperSched(st, th);
    var k := st.threads[th].sched;
    HeadLive(st, k);
    var i := st.scheds[k].runq[0];
    var st' := Pop(st, th);
    LiveItem(st, i);
    PoppedQueues(st.items, st'.items, st.scheds[k], k);
    OtherQueue(st.items, st'.items, st.scheds[1 - k], 1 - k, i);
    PoppedThreads(st.items, st'.items, st.threads, th, i);
    PoppedOff(st.items, st.scheds[k], k);
    OneItem(st, st', i);
  }

  lemma PopperSched(st: State, th: nat)
    requires Inv(st) && th in st.threads
    ensures st.threads[th].sched < |st.scheds| == NSCHED
    ensures st.threads[th].cur.Some? ==> var i := st.threads[th].cur.value;
      i in st.items && st.items[i].running && st.items[i].sched == st.threads[th].sched
  {
    hide ItemsOk, RunnersOk, QueueOk;
  }

  lemma PoppedQueues(items: map<nat, Item>, items': map<nat, Item>, s: Sched, k: nat)
    requires QueueOk(items, s, k) && |s.runq| > 0
    requires forall j :: j in items && j != s.runq[0] ==> j in items' && items'[j] == items[j]
    ensures QueueOk(items', s.(runq := s.runq[1..]), k)
  {
    assert s.runq[0] !in s.runq[1..];
    assert s.runq[0] in s.runq;
  }

  /** The popped item has left the run queue and was not on the re-run queue; the others stay. */
  lemma PoppedOff(items: map<nat, Item>, s: Sched, k: nat)
    requires QueueOk(items, s, k) && |s.runq| > 0
    ensures s.runq[0] !in s.runq[1..] && s.runq[0] !in s.rerunq && s.runq[0] in s.runq
    ensures forall j :: j != s.runq[0] ==> (j in s.runq[1..] <==> j in s.runq)
  {
    assert s.runq == [s.runq[0]] + s.runq[1..];
    assert s.runq[0] in s.runq;
  }

  lemma OtherQueue(items: map<nat, Item>, items': map<nat, Item>, s: Sched, k: nat, i: nat)
    requires QueueOk(items, s, k) && i in items && items[i].sched != k
    requires forall j :: j in items && j != i ==> j in items' && items'[j] == items[j]
    ensures QueueOk(items', s, k)
  {
  }

  lemma PoppedThreads(items: map<nat, Item>, items': map<nat, Item>, threads: map<nat, Thread>, th: nat, i: nat)
    requires ThreadsOk(items, threads) && RunnersOk(items, threads)
    requires th in threads && threads[th].cur.None? && i in items && !items[i].running &&
      items[i].sched == threads[th].sched
    requires items' == items[i := items[i].(running := true, scheduled := false)]
    ensures ThreadsOk(items', threads[th := threads[th].(cur := Some(i))])
    ensures RunnersOk(items', threads[th := threads[th].(cur := Some(i))])
  {
    var threads' := threads[th := threads[th].(cur := Some(i))];
    assert threads'[th].cur == Some(i);
    forall j | j in items' && items'[j].running ensures HasRunner(threads', j) {
      if j != i {
        assert HasRunner(threads, j);
        var t :| t in threads && threads[t].cur == Some(j);
        assert threads'[t].cur == Some(j);
      }
    }
  }

  /** The threads after one finishes its action and the item is idle or gone. */
  lemma ReturnedRunners(items: map<nat, Item>, items': map<nat, Item>, threads: map<nat, Thread>, th: nat, i: nat)
    requires ThreadsOk(items, threads) && RunnersOk(items, threads) && th in threads && threads[th].cur == Some(i)
    requires items' == items - {i} || items' == items[i := items[i].(running := false)]
    ensures RunnersOk(items', threads[th := threads[th].(cur := None)])
  {
    var threads' := threads[th := threads[th].(cur := None)];
    forall j | j in items' && items'[j].running ensures HasRunner(threads', j) {
      assert HasRunner(threads, j);
      var t :| t in threads && threads[t].cur == Some(j);
      assert threads'[t].cur == Some(j);
    }
  }

  lemma ReturnedThreads(items: map<nat, Item>, items': map<nat, Item>, threads: map<nat, Thread>, th: nat, i: nat)
    requires ThreadsOk(items, threads) && RunnersOk(items, threads) && th in threads && threads[th].cur == Some(i)
    requires items' == items - {i} || items' == items[i := items[i].(running := false)]
    ensures ThreadsOk(items', threads[th := threads[th].(cur := None)])
    ensures RunnersOk(items', threads[th := threads[th].(cur := None)])
  {
    ReturnedRunners(items, items', threads, th, i);
    hide RunnersOk;
    var threads' := threads[th := threads[th].(cur := None)];
    forall t | t in threads' && threads'[t].cur.Some?
      ensures threads'[t].cur.value in items' && items'[threads'[t].cur.value].running
    {
      assert SameItem(threads[t], threads[th]) ==> t == th;
    }
  }

  lemma KeepReturn(st: State, th: nat, rc: int)
    requires Inv(st) && Enabled(st, EvReturn(th, rc))
    ensures Inv(Step(st, EvReturn(th, rc)))
  {
    hide QueueOk, ThreadsOk, RunnersOk, ItemsOk, Unqueue;
    PopperSched(st, th);
    var i := st.threads[th].cur.value;
    LiveItem(st, i);
    var st' := Return(st, th, rc);
    var k := st.items[i].sched;
    ReturnedThreads(st.items, st'.items, st.threads, th, i);
    if rc != 0 || !Queued(st, i) {
      if rc != 0 { UnscheduledOff(st, i); }
      OffAllQueues(st, i);
      OffQueueFrame(st.items, st'.items, st.scheds[0], 0, i);
      OffQueueFrame(st.items, st'.items, st.scheds[1], 1, i);
      OneItem(st, st', i);
    } else {
      UnqueuedOk(st.items, st.scheds[k], k, i);
      OtherQueue(st.items, st'.items, st.scheds[1 - k], 1 - k, i);
      ReturnedTail(st.items, st'.items, st.scheds[k], k, i);
      OneItem(st, st', i);
    }
  }

  lemma ReturnedTail(items: map<nat, Item>, items': map<nat, Item>, s: Sched, k: nat, i: nat)
    requires QueueOk(items, s, k) && i in items && items[i].running && (i in s.runq || i in s.rerunq)
    requires items' == items[i := items[i].(running := false)]
    ensures var u := Unqueue(s, i); QueueOk(items', u.(runq := u.runq + [i]), k)
  {
    UnqueuedOk(items, s, k, i);
    hide Unqueue;
  }

  lemma KeepInit(st: State, i: nat, id: int)
    requires Inv(st) && Enabled(st, EvInit(i, id))
    ensures Inv(Step(st, EvInit(i, id)))
  {
    hide ThreadsOk, RunnersOk, ItemsOk;
    var st' := Step(st, EvInit(i, id));
    NewThreads(st.items, st'.items, st.threads, i);
    assert QueuesOk(st') && !Queued(st', i);
    CountsMatch(st);
    OneItem(st, st', i);
  }

  lemma CountsMatch(st: State)
    requires Inv(st)
    ensures st.calls.Keys == st.starts.Keys
  {
    hide QueuesOk, ThreadsOk, RunnersOk;
  }

  lemma KeepForget(st: State, i: nat)
    requires Inv(st) && Enabled(st, EvForget(i))
    ensures Inv(Step(st, EvForget(i)))
  {
    hide QueueOk, ThreadsOk, RunnersOk, ItemsOk;
    var st' := st.(items := st.items - {i});
    UnscheduledOff(st, i);
    OffAllQueues(st, i);
    OffQueueFrame(st.items, st'.items, st.scheds[0], 0, i);
    OffQueueFrame(st.items, st'.items, st.scheds[1], 1, i);
    ForgottenThreads(st.items, st.threads, i);
    CountsMatch(st);
    OneItem(st, st', i);
  }

  lemma ForgottenThreads(items: map<nat, Item>, threads: map<nat, Thread>, i: nat)
    requires ThreadsOk(items, threads) && RunnersOk(items, threads) && i in items && !items[i].running
    ensures ThreadsOk(items - {i}, threads) && RunnersOk(items - {i}, threads)
  {
    hide SameItem, BothSerial, HasRunner;
  }

  lemma KeepShutdown(st: State, k: nat)
    requires Inv(st) && Enabled(st, EvShutdown(k))
    ensures Inv(Step(st, EvShutdown(k)))
  {
    hide ThreadsOk, RunnersOk;
    var st' := Step(st, EvShutdown(k));
    forall j | j in st'.items ensures ItemOk(st', j) {
      assert ItemOk(st, j);
      ItemFrame(st, st', j);
    }
  }

  lemma NewThreads(items: map<nat, Item>, items': map<nat, Item>, threads: map<nat, Thread>, i: nat)
    requires ThreadsOk(items, threads) && RunnersOk(items, threads) && i !in items
    requires i in items' && !items'[i].running && items' == items[i := items'[i]]
    ensures ThreadsOk(items', threads) && RunnersOk(items', threads)
  {
    hide SameItem, BothSerial, HasRunner;
  }
}
