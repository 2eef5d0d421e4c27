/**
 * What every run of the work-item scheduler keeps: an item is on a queue exactly when it is
 * scheduled, never executes on two threads, serial items never execute together, and a
 * schedule request is neither lost nor served twice.
 */
module WorkItemRuns {
  import opened Prelude
  import opened WorkItem

  /** As cfs_wi_startup leaves it: `n` threads for the concurrent queue and one for the serial one. */
  function Started(n: nat): State {
    State(map[], [Sched([], [], false), Sched([], [], false)],
          map th | 0 <= th <= n :: NewThread(n, th), map[], map[])
  }

  function NewThread(n: nat, th: nat): Thread {
    Thread(if th == n then NSCHED - 1 else 0, None)
  }

  lemma StartedInv(n: nat)
    ensures Inv(Started(n))
  {
  }

  lemma StepKeeps(st: State, e: Event)
    requires Inv(st) && Enabled(st, e)
    ensures Inv(Step(st, e))
  {
    hide Inv, Enabled, Step;
    match e
    case EvInit(i, id) => KeepInit(st, i, id);
    case EvSchedule(i) => KeepSchedule(st, i);
    case EvCancel(i) => KeepCancel(st, i);
    case EvExit(th) => KeepExit(st, th);
    case EvPop(th) => KeepPop(st, th);
    case EvReturn(th, rc) => KeepReturn(st, th, rc);
    case EvForget(i) => KeepForget(st, i);
    case EvShutdown(k) => KeepShutdown(st, k);
  }

  ghost predicate Next(st: State, e: Event, st': State) {
    Enabled(st, e) && (Inv(st) ==> st' == Step(st, e))
  }

  ghost predicate Run(n: nat, ss: seq<State>, es: seq<Event>) {
    |ss| == |es| + 1 && ss[0] == Started(n) && forall k :: 0 <= k < |es| ==> Next(ss[k], es[k], ss[k + 1])
  }

  lemma {:induction false} RunSafe(n: nat, ss: seq<State>, es: seq<Event>, k: nat)
    requires Run(n, ss, es) && k <= |es|
    ensures Inv(ss[k])
    ensures k < |es| ==> Enabled(ss[k], es[k]) && ss[k + 1] == Step(ss[k], es[k])
  {
    hide Inv, Enabled, Step, Started;
    if k == 0 {
      StartedInv(n);
    } else {
      RunSafe(n, ss, es, k - 1);
      StepKeeps(ss[k - 1], es[k - 1]);
    }
    if k < |es| {
      assert Next(ss[k], es[k], ss[k + 1]);
    }
  }

  // ---------------------------------------------------------------- states

  /** In every state of every run, a live item is on a queue iff it is scheduled, and on the right one. */
  lemma QueuedIffScheduled(n: nat, ss: seq<State>, es: seq<Event>, k: nat, i: nat)
    requires Run(n, ss, es) && k <= |es| && i in ss[k].items && !ss[k].items[i].exited
    ensures var st := ss[k];
      && st.items[i].sched < |st.scheds|
      && (Queued(st, i) <==> st.items[i].scheduled)
      && (i in st.scheds[st.items[i].sched].runq ==> !st.items[i].running)
      && (i in st.scheds[st.items[i].sched].rerunq ==> st.items[i].running)
      && i in st.starts && i in st.calls && st.starts[i] <= st.calls[i]
  {
    RunSafe(n, ss, es, k);
    hide Run;
    LiveItem(ss[k], i);
    hide ThreadsOk, RunnersOk, ItemsOk;
  }

  /** In every state of every run, no item executes on two threads and at most one thread executes serial items. */
  lemma NeverTwice(n: nat, ss: seq<State>, es: seq<Event>, k: nat, a: nat, b: nat)
    requires Run(n, ss, es) && k <= |es| && a in ss[k].threads && b in ss[k].threads
    requires ss[k].threads[a].cur.Some? && ss[k].threads[b].cur.Some?
    ensures ss[k].threads[a].cur.value in ss[k].items && ss[k].threads[b].cur.value in ss[k].items
    ensures ss[k].threads[a].cur == ss[k].threads[b].cur ==> a == b
    ensures (ss[k].items[ss[k].threads[a].cur.value].sched == NSCHED - 1 &&
             ss[k].items[ss[k].threads[b].cur.value].sched == NSCHED - 1) ==> a == b
  {
    RunSafe(n, ss, es, k);
    hide Run, QueuesOk, ItemsOk, RunnersOk;
    var st := ss[k];
    assert SameItem(st.threads[a], st.threads[b]) ==> a == b;
    assert BothSerial(st.threads[a], st.threads[b]) ==> a == b;
  }

  /** The scheduler's own assertions: what it finds at the head of a queue, and what its operations leave behind. */
  lemma AssertionsHold(st: State, e: Event)
    requires Inv(st) && Enabled(st, e)
    ensures e.EvPop? ==> var q := st.scheds[st.threads[e.th].sched].runq;
              |q| > 0 && q[0] in st.items && st.items[q[0]].scheduled && !st.items[q[0]].running
    ensures e.EvSchedule? ==> OnQueue(Step(st, e), e.i)
    ensures e.EvCancel? ==> !OnQueue(Step(st, e), e.i)
    ensures e.EvReturn? ==> var i := st.threads[e.th].cur.value;
              i in st.items && st.items[i].running && st.items[i].sched < |st.scheds| &&
              (e.rc == 0 && Queued(st, i) ==> st.items[i].scheduled && i in st.scheds[st.items[i].sched].rerunq)
  {
    match e
    case EvPop(th) => HeadLive(st, st.threads[th].sched);
    case EvSchedule(i) => KeepSchedule(st, i);
    case EvCancel(i) => KeepCancel(st, i);
    case EvReturn(th, rc) => PopperSched(st, th); hide ItemsOk, RunnersOk, ThreadsOk;
    case _ =>
  }

  // ---------------------------------------------------------------- requests

  /** The step starts, cancels or ends item `i`. */
  predicate Touches(st: State, e: Event, i: nat) {
    || e == EvCancel(i)
    || (e.EvExit? && e.th in st.threads && st.threads[e.th].cur == Some(i))
    || Starts(st, e, i)
  }

  predicate Starts(st: State, e: Event, i: nat) {
    e.EvPop? && e.th in st.threads && st.threads[e.th].sched < |st.scheds| &&
    |st.scheds[st.threads[e.th].sched].runq| > 0 && st.scheds[st.threads[e.th].sched].runq[0] == i
  }

  predicate OnQueue(st: State, i: nat) {
    i in st.items && st.items[i].sched < |st.scheds| && Queued(st, i)
  }

  /** The item a step is about. */
  function Subject(st: State, e: Event): Option<nat> {
    match e
    case EvInit(i, _) => Some(i)
    case EvSchedule(i) => Some(i)
    case EvCancel(i) => Some(i)
    case EvForget(i) => Some(i)
    case EvExit(th) => if th in st.threads then st.threads[th].cur else None
    case EvReturn(th, _) => if th in st.threads then st.threads[th].cur else None
    case EvPop(th) =>
      if th in st.threads && st.threads[th].sched < |st.scheds| && |st.scheds[st.threads[th].sched].runq| > 0
      then Some(st.scheds[st.threads[th].sched].runq[0]) else None
    case EvShutdown(_) => None
  }

  /** The item's record and its places on the queues are the same. */
  ghost predicate LeftAlone(st: State, st': State, i: nat) {
    && i in st.items && i in st'.items && st'.items[i] == st.items[i] && |st'.scheds| == |st.scheds| == NSCHED
    && (forall k :: 0 <= k < NSCHED ==> (i in st'.scheds[k].runq <==> i in st.scheds[k].runq))
    && (forall k :: 0 <= k < NSCHED ==> (i in st'.scheds[k].rerunq <==> i in st.scheds[k].rerunq))
  }

  /** The record and the queue places of every other item survive a step. */
  lemma Undisturbed(st: State, e: Event, i: nat)
    requires Inv(st) && Enabled(st, e) && i in st.items && Subject(st, e) != Some(i)
    ensures LeftAlone(st, Step(st, e), i)
  {
    if e.EvExit? || e.EvReturn? || e.EvPop? {
      ThreadUndisturbed(st, e, i);
    } else {
      CallUndisturbed(st, e, i);
    }
    hide *;
  }

  lemma CallUndisturbed(st: State, e: Event, i: nat)
    requires Inv(st) && Enabled(st, e) && i in st.items && Subject(st, e) != Some(i)
    requires !e.EvExit? && !e.EvReturn? && !e.EvPop?
    ensures LeftAlone(st, Step(st, e), i)
  {
    hide ThreadsOk, RunnersOk, ItemsOk, QueueOk;
    if e.EvSchedule? || e.EvCancel? { LiveItem(st, e.i); }
  }

  lemma ThreadUndisturbed(st: State, e: Event, i: nat)
    requires Inv(st) && Enabled(st, e) && i in st.items && Subject(st, e) != Some(i)
    requires e.EvExit? || e.EvReturn? || e.EvPop?
    ensures LeftAlone(st, Step(st, e), i)
  {
    hide ThreadsOk, RunnersOk, ItemsOk, QueueOk;
    PopperSched(st, e.th);
    if e.EvPop? {
      HeadLive(st, st.threads[e.th].sched);
      PoppedOff(st.items, st.scheds[st.threads[e.th].sched], st.threads[e.th].sched);
    } else {
      LiveItem(st, st.threads[e.th].cur.value);
    }
  }

  /** A queued item stays queued through every step that does not start, cancel or end it. */
  lemma StaysQueued(st: State, e: Event, i: nat)
    requires Inv(st) && Enabled(st, e) && OnQueue(st, i) && !Touches(st, e, i)
    ensures OnQueue(Step(st, e), i)
  {
    if Subject(st, e) != Some(i) {
      Undisturbed(st, e, i);
    } else {
      QueuedIsScheduled(st, i);
      hide Inv;
      match e
      case EvSchedule(j) => KeepSchedule(st, i);
      case EvReturn(th, rc) => ReturnedStays(st, th, rc, i);
      case _ =>
    }
  }

  lemma QueuedIsScheduled(st: State, i: nat)
    requires Inv(st) && OnQueue(st, i)
    ensures st.items[i].scheduled && !st.items[i].exited
  {
    hide ThreadsOk, RunnersOk, ItemsOk;
  }

  lemma ReturnedStays(st: State, th: nat, rc: int, i: nat)
    requires Inv(st) && Enabled(st, EvReturn(th, rc)) && st.threads[th].cur == Some(i) && OnQueue(st, i)
    ensures rc == 0
    ensures var s := Step(st, EvReturn(th, rc)); OnQueue(s, i) && i in s.scheds[s.items[i].sched].runq
  {
    QueuedIsScheduled(st, i);
    hide Inv;
  }

  /**
   * No request is lost: from a schedule call on, the item is queued in every state until a
   * step starts a run of it, cancels it or ends it.
   */
  lemma {:induction false} RequestNotLost(n: nat, ss: seq<State>, es: seq<Event>, a: nat, b: nat, i: nat)
    requires Run(n, ss, es) && a < b <= |es| && es[a] == EvSchedule(i)
    requires forall k :: a < k < b ==> !Touches(ss[k], es[k], i)
    ensures OnQueue(ss[b], i) && ss[b].items[i].scheduled
    decreases b - a
  {
    hide Run, Inv, Step, Enabled;
    RunBounds(n, ss, es);
    RunSafe(n, ss, es, b - 1);
    RunSafe(n, ss, es, b);
    if b == a + 1 {
      AssertionsHold(ss[a], es[a]);
    } else {
      RequestNotLost(n, ss, es, a, b - 1, i);
      StaysQueued(ss[b - 1], es[b - 1], i);
    }
    QueuedIsScheduled(ss[b], i);
  }

  lemma RunBounds(n: nat, ss: seq<State>, es: seq<Event>)
    requires Run(n, ss, es)
    ensures |ss| == |es| + 1
  {
  }

  // ---------------------------------------------------------------- cancellation

  predicate Idle(st: State, i: nat) {
    i in st.items ==> !st.items[i].running && !OnQueue(st, i)
  }

  lemma StaysIdle(st: State, e: Event, i: nat)
    requires Inv(st) && Enabled(st, e) && Idle(st, i) && i in st.calls && e != EvSchedule(i)
    ensures Idle(Step(st, e), i) && i in Step(st, e).calls && !Starts(st, e, i)
  {
    if i in st.items && Subject(st, e) != Some(i) {
      Undisturbed(st, e, i);
      hide Inv;
    } else if i in st.items {
      LiveItem(st, i);
      match e
      case EvCancel(_) => KeepCancel(st, i); hide Inv;
      case EvPop(th) => PopperSched(st, th); HeadLive(st, st.threads[th].sched); assert false;
      case EvExit(th) => PopperSched(st, th); hide Inv;
      case EvReturn(th, _) => PopperSched(st, th); hide Inv;
      case EvForget(_) => hide Inv;
      case EvInit(_, _) => hide Inv;
    } else {
      GoneStaysGone(st, e, i);
    }
  }

  lemma GoneStaysGone(st: State, e: Event, i: nat)
    requires Inv(st) && Enabled(st, e) && i !in st.items && i in st.calls
    ensures i !in Step(st, e).items && i in Step(st, e).calls && !Starts(st, e, i)
  {
    hide QueueOk, ItemsOk, RunnersOk, ThreadsOk;
    match e
    case EvPop(th) => PopperSched(st, th); HeadLive(st, st.threads[th].sched);
    case EvExit(th) => PopperSched(st, th);
    case EvReturn(th, _) => PopperSched(st, th);
    case _ =>
  }

  /** A cancel that returns 1 means no run of the item until it is scheduled again. */
  lemma {:induction false} CancelStops(n: nat, ss: seq<State>, es: seq<Event>, a: nat, b: nat, i: nat)
    requires Run(n, ss, es) && a < b <= |es| && es[a] == EvCancel(i)
    requires i in ss[a].items && ss[a].items[i].sched < |ss[a].scheds| && Cancel(ss[a], i).1 == 1
    requires forall k :: a < k < b ==> es[k] != EvSchedule(i)
    ensures Idle(ss[b], i) && i in ss[b].calls
    ensures forall k :: a < k < b ==> !Starts(ss[k], es[k], i)
    decreases b - a
  {
    hide Run, Inv, Step, Enabled, Starts, Idle;
    RunBounds(n, ss, es);
    RunSafe(n, ss, es, b - 1);
    if b == a + 1 {
      JustCancelled(ss[a], i);
    } else {
      CancelStops(n, ss, es, a, b - 1, i);
      StaysIdle(ss[b - 1], es[b - 1], i);
    }
  }

  lemma JustCancelled(st: State, i: nat)
    requires Inv(st) && Enabled(st, EvCancel(i)) && st.items[i].sched < |st.scheds| && Cancel(st, i).1 == 1
    ensures Idle(Step(st, EvCancel(i)), i) && i in Step(st, EvCancel(i)).calls
  {
    LiveItem(st, i);
    KeepCancel(st, i);
    hide Inv;
  }

  // ---------------------------------------------------------------- first come, first served

  predicate Waiting(st: State, i: nat) {
    i in st.items && st.items[i].sched < |st.scheds| && i in st.scheds[st.items[i].sched].runq
  }

  /** How many items are ahead of a waiting item. */
  function Rank(st: State, i: nat): nat
    requires Waiting(st, i)
  {
    IndexOf(st.scheds[st.items[i].sched].runq, i)
  }

  lemma {:induction false} FirstIndex(q: seq<nat>, i: nat, k: nat)
    requires k < |q| && q[k] == i
    ensures i in q && IndexOf(q, i) <= k
    ensures i !in q[..k] ==> IndexOf(q, i) == k
  {
    if k > 0 && q[0] != i {
      FirstIndex(q[1..], i, k - 1);
      assert q[1..][..k - 1] == q[..k][1..];
    } else if k > 0 {
      assert q[..k][0] == i;
    }
  }

  lemma RankAppend(q: seq<nat>, j: nat, i: nat)
    requires i in q
    ensures IndexOf(q + [j], i) == IndexOf(q, i)
  {
    var k := IndexOf(q, i);
    assert (q + [j])[..k] == q[..k];
    FirstIndex(q + [j], i, k);
  }

  lemma RankWithout(q: seq<nat>, j: nat, i: nat)
    requires i in q && i != j
    ensures i in Without(q, j) && IndexOf(Without(q, j), i) <= IndexOf(q, i)
  {
    if j in q {
      var k, m := IndexOf(q, i), IndexOf(q, j);
      var r := Without(q, j);
      assert r == q[..m] + q[m + 1..];
      hide Without, IndexOf;
      CutAt(q, m, k);
      FirstIndex(r, i, if k < m then k else k - 1);
    }
  }

  lemma CutAt(q: seq<nat>, m: nat, k: nat)
    requires m < |q| && k < |q| && m != k
    ensures (q[..m] + q[m + 1..])[if k < m then k else k - 1] == q[k]
  {
  }

  predicate PopsFrom(st: State, e: Event, k: nat) {
    e.EvPop? && e.th in st.threads && st.threads[e.th].sched == k
  }

  /** What a step other than a start can do to a run queue: add, remove or move one item. */
  ghost predicate Rearranged(q: seq<nat>, q': seq<nat>, j: nat) {
    q' == q || q' == q + [j] || q' == Without(q, j) || q' == Without(q, j) + [j]
  }

  lemma QueueStep(st: State, e: Event, k: nat)
    requires Inv(st) && Enabled(st, e) && k < NSCHED
    ensures |st.scheds| == |Step(st, e).scheds| == NSCHED
    ensures var q, q' := st.scheds[k].runq, Step(st, e).scheds[k].runq;
      if PopsFrom(st, e, k) then |q| > 0 && q' == q[1..]
      else q' == q || (Subject(st, e).Some? && Rearranged(q, q', Subject(st, e).value))
  {
    hide ThreadsOk, RunnersOk, ItemsOk, QueueOk, IndexOf, Without;
    match e
    case EvSchedule(j) => LiveItem(st, j);
    case EvCancel(j) => LiveItem(st, j);
    case EvExit(th) => PopperSched(st, th);
    case EvReturn(th, _) => PopperSched(st, th);
    case EvPop(th) => PopperSched(st, th); HeadLive(st, st.threads[th].sched);
    case EvShutdown(_) =>
    case EvInit(_, _) =>
    case EvForget(_) =>
  }

  lemma RankRearranged(q: seq<nat>, q': seq<nat>, j: nat, i: nat)
    requires Rearranged(q, q', j) && i in q && i != j
    ensures i in q' && IndexOf(q', i) <= IndexOf(q, i)
  {
    RankAppend(q, j, i);
    RankWithout(q, j, i);
    RankAppend(Without(q, j), j, i);
    hide IndexOf, Without;
  }

  /** A waiting item never loses its place, and every start on its scheduler moves it up by one. */
  lemma RankStep(st: State, e: Event, i: nat)
    requires Inv(st) && Enabled(st, e) && Waiting(st, i) && !Touches(st, e, i)
    ensures var st' := Step(st, e);
      && Waiting(st', i) && st'.items[i].sched == st.items[i].sched
      && Rank(st', i) + (if PopsFrom(st, e, st.items[i].sched) then 1 else 0) <= Rank(st, i)
  {
    WaitingIdle(st, i);
    if Subject(st, e) == Some(i) {
      OwnStep(st, e, i);
    } else {
      hide Step, IndexOf, Rearranged;
      Undisturbed(st, e, i);
      LiveItem(st, i);
      hide Inv;
      var k := st.items[i].sched;
      QueueStep(st, e, k);
      var q, q' := st.scheds[k].runq, Step(st, e).scheds[k].runq;
      if PopsFrom(st, e, k) {
        RankTail(q, i);
      } else if q' != q {
        RankRearranged(q, q', Subject(st, e).value, i);
      }
    }
  }

  lemma OwnStep(st: State, e: Event, i: nat)
    requires Inv(st) && Enabled(st, e) && Waiting(st, i) && !Touches(st, e, i) && Subject(st, e) == Some(i)
    ensures Step(st, e).items == st.items && Step(st, e).scheds == st.scheds && !e.EvPop?
  {
    WaitingIdle(st, i);
    hide QueuesOk, RunnersOk, ItemsOk;
    match e
    case EvSchedule(_) =>
    case EvReturn(th, _) => assert false;
    case EvForget(_) =>
    case EvPop(_) =>
    case EvExit(_) =>
  }

  lemma RankTail(q: seq<nat>, i: nat)
    requires i in q && q[0] != i
    ensures i in q[1..] && IndexOf(q[1..], i) + 1 == IndexOf(q, i)
  {
  }

  lemma WaitingIdle(st: State, i: nat)
    requires Inv(st) && Waiting(st, i)
    ensures st.items[i].scheduled && !st.items[i].running && !st.items[i].exited
  {
    hide ThreadsOk, RunnersOk, ItemsOk;
  }

  /** Starts on scheduler `k` in steps `a` to `b`. */
  function Pops(ss: seq<State>, es: seq<Event>, a: nat, b: nat, k: nat): nat
    requires a <= b <= |es| && |ss| == |es| + 1
    decreases b
  {
    if a == b then 0 else Pops(ss, es, a, b - 1, k) + if PopsFrom(ss[b - 1], es[b - 1], k) then 1 else 0
  }

  /**
   * Bounded overtaking: over any stretch of a run in which a waiting item is not touched, its
   * scheduler starts no more items than were ahead of it.
   */
  lemma {:induction false} BoundedWait(n: nat, ss: seq<State>, es: seq<Event>, a: nat, b: nat, i: nat)
    requires Run(n, ss, es) && a <= b <= |es| && Waiting(ss[a], i)
    requires forall k :: a <= k < b ==> !Touches(ss[k], es[k], i)
    ensures Waiting(ss[b], i) && ss[b].items[i].sched == ss[a].items[i].sched
    ensures Pops(ss, es, a, b, ss[a].items[i].sched) + Rank(ss[b], i) <= Rank(ss[a], i)
    decreases b
  {
    hide Inv, Step, Enabled, Rank, PopsFrom, Touches, Waiting, Next, Started;
    if a < b {
      RunSafe(n, ss, es, b - 1);
      BoundedWait(n, ss, es, a, b - 1, i);
      RankStep(ss[b - 1], es[b - 1], i);
    }
  }
}
