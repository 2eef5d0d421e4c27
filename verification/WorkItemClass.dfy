/**
 * The work-item operations as they update the scheduler in place, one lock-protected region
 * each.  The source's own assertions are assertions here.
 */
module WorkItemClass {
  import opened Prelude
  import opened WorkItem
  import opened WorkItemRuns

  class Schedulers {
    var items: map<nat, Item>
    var scheds: seq<Sched>
    var threads: map<nat, Thread>
    var calls: map<nat, nat>
    var starts: map<nat, nat>

    function St(): State reads this { State(items, scheds, threads, calls, starts) }

    constructor (n: nat)
      ensures St() == Started(n) && Inv(St())
    {
      items, calls, starts := map[], map[], map[];
      scheds := [Sched([], [], false), Sched([], [], false)];
      threads := map th | 0 <= th <= n :: NewThread(n, th);
      new;
      StartedInv(n);
    }

    /** cfs_list_del_init on the item's list entry. */
    method ListDel(k: nat, i: nat)
      requires k < |scheds|
      modifies this`scheds
      ensures scheds == old(scheds)[k := Unqueue(old(scheds[k]), i)]
    {
      var s := scheds[k];
      scheds := scheds[k := s.(runq := Without(s.runq, i), rerunq := Without(s.rerunq, i))];
    }

    method Schedule(i: nat)
      requires Inv(St()) && Enabled(St(), EvSchedule(i))
      modifies this
      ensures St() == Step(old(St()), EvSchedule(i)) && Inv(St()) && OnQueue(St(), i)
    {
      ghost var st0 := St();
      hide Inv, Enabled, Step, OnQueue, Queued;
      ScheduleFacts(st0, i);
      calls := calls[i := calls[i] + 1];
      var wi := items[i];
      if !wi.scheduled {
        assert !Queued(st0, i);
        items := items[i := wi.(scheduled := true)];
        var s := scheds[wi.sched];
        if !wi.running {
          scheds := scheds[wi.sched := s.(runq := s.runq + [i])];
        } else {
          scheds := scheds[wi.sched := s.(rerunq := [i] + s.rerunq)];
        }
      }
      assert OnQueue(St(), i);
    }

    /** Returns 1 when the item's action was not running, and then it stays off until scheduled again. */
    method Cancel(i: nat) returns (rc: int)
      requires Inv(St()) && Enabled(St(), EvCancel(i))
      modifies this
      ensures St() == Step(old(St()), EvCancel(i)) && Inv(St()) && !OnQueue(St(), i)
      ensures rc == 1 <==> Idle(St(), i)
      ensures rc == 0 <==> St().items[i].running
    {
      ghost var st0 := St();
      LiveItem(st0, i);
      KeepCancel(st0, i);
      AssertionsHold(st0, EvCancel(i));
      hide Inv;
      var wi := items[i];
      rc := if wi.running then 0 else 1;
      if wi.scheduled {
        assert Queued(st0, i);
        ListDel(wi.sched, i);
        items := items[i := wi.(scheduled := false)];
      }
      assert St() == Step(st0, EvCancel(i));
    }

    /** Called from the item's own action, on thread `th`. */
    method Exit(th: nat)
      requires Inv(St()) && Enabled(St(), EvExit(th))
      modifies this
      ensures St() == Step(old(St()), EvExit(th)) && Inv(St())
      ensures var i := old(threads[th].cur.value); !OnQueue(St(), i) && i in items && items[i].exited
    {
      ghost var st0 := St();
      PopperSched(st0, th);
      KeepExit(st0, th);
      ExitOff(st0, th);
      hide Inv;
      var i := threads[th].cur.value;
      var wi := items[i];
      assert wi.running;
      if wi.scheduled {
        assert Queued(st0, i);
        ListDel(wi.sched, i);
      }
      items := items[i := wi.(scheduled := true, exited := true)];
      assert St() == Step(st0, EvExit(th));
      assert !OnQueue(St(), i);
    }

    /** Takes the head of the run queue: from here until Finish the thread executes the item's action. */
    method Begin(th: nat)
      requires Inv(St()) && Enabled(St(), EvPop(th))
      modifies this
      ensures St() == Step(old(St()), EvPop(th)) && Inv(St())
    {
      ghost var st0 := St();
      hide Inv, Enabled, Step;
      BeginFacts(st0, th);
      var k := threads[th].sched;
      var i := scheds[k].runq[0];
      assert items[i].scheduled && !items[i].running;
      scheds := scheds[k := scheds[k].(runq := scheds[k].runq[1..])];
      items := items[i := items[i].(running := true, scheduled := false)];
      threads := threads[th := threads[th].(cur := Some(i))];
      starts := starts[i := starts[i] + 1];
    }

    /** The action returned `rc`. */
    method Finish(th: nat, rc: int)
      requires Inv(St()) && Enabled(St(), EvReturn(th, rc))
      modifies this
      ensures St() == Step(old(St()), EvReturn(th, rc)) && Inv(St())
    {
      ghost var st0 := St();
      PopperSched(st0, th);
      KeepReturn(st0, th, rc);
      AssertionsHold(st0, EvReturn(th, rc));
      hide Inv;
      var i := threads[th].cur.value;
      threads := threads[th := threads[th].(cur := None)];
      if rc != 0 {
        items := items - {i};
        return;
      }
      var wi := items[i];
      items := items[i := wi.(running := false)];
      if i !in scheds[wi.sched].runq && i !in scheds[wi.sched].rerunq {
        return;
      }
      assert wi.scheduled;
      ListDel(wi.sched, i);
      scheds := scheds[wi.sched := scheds[wi.sched].(runq := scheds[wi.sched].runq + [i])];
    }
  }

  lemma ScheduleFacts(st: State, i: nat)
    requires Inv(st) && Enabled(st, EvSchedule(i))
    ensures i in st.items && st.items[i].sched < |st.scheds| && i in st.calls
    ensures !st.items[i].scheduled ==> !Queued(st, i)
    ensures Step(st, EvSchedule(i)) == WorkItem.Schedule(st, i)
    ensures Inv(Step(st, EvSchedule(i))) && OnQueue(Step(st, EvSchedule(i)), i)
  {
    LiveItem(st, i);
    KeepSchedule(st, i);
    AssertionsHold(st, EvSchedule(i));
    hide Inv, Queued;
  }

  lemma BeginFacts(st: State, th: nat)
    requires Inv(st) && Enabled(st, EvPop(th))
    ensures th in st.threads && st.threads[th].sched < |st.scheds| && |st.scheds[st.threads[th].sched].runq| > 0
    ensures var i := st.scheds[st.threads[th].sched].runq[0];
      && i in st.items && i in st.starts && st.items[i].scheduled && !st.items[i].running
      && Step(st, EvPop(th)) == Pop(st, th) && Inv(Step(st, EvPop(th)))
  {
    HeadLive(st, st.threads[th].sched);
    KeepPop(st, th);
    hide Inv;
  }

  lemma ExitOff(st: State, th: nat)
    requires Inv(st) && Enabled(st, EvExit(th))
    ensures var i := st.threads[th].cur.value; var st' := Step(st, EvExit(th));
      && i in st.items && st.items[i].running && st.items[i].sched < |st.scheds|
      && (st.items[i].scheduled ==> Queued(st, i))
      && !OnQueue(st', i)
  {
    KeepExit(st, th);
    hide ThreadsOk, RunnersOk;
    PopperSched(st, th);
    LiveItem(st, st.threads[th].cur.value);
  }
}
