/**
 Runs that are dismissed before they were admitted: refused on submission,
 expired in the queue or cancelled there. From the very step that dismisses
 a run, and through the whole of its finish, no worker is ever started for it.
 */
module SupervisorDismissal {
  import opened Base
  import opened RunTableSpec
  import opened SchedulerIds
  import opened SupervisorSpec
  import opened SupervisorInv
  import opened SupervisorSteps
  import opened SupervisorHistory
  import opened SupervisorFair
  import S = SchedulerSpec

  /** Not admitted, not waiting, and not on its way to be submitted. */
  ghost predicate Dismissed(st: Sup, id: RunId) {
    && id in st.table.rows && id in st.local
    && !st.local[id].admitted && id !in Queue(st)
    && forall tid :: tid in st.tasks && Early(st.tasks[tid]) ==> RunOf(st.tasks[tid]) != id
  }

  /** What that means: the run is done, or inside one of the five stages of a finish. */
  lemma DismissedIsFinishing(st: Sup, id: RunId)
    requires Inv(st) && Dismissed(st, id)
    ensures st.local[id].workers == 0 && id !in Slots(st) && id !in Held(st)
    ensures st.local[id].place == Done
         || (&& st.local[id].place.With? && st.local[id].place.tid in st.tasks
             && var task := st.tasks[st.local[id].place.tid];
                task.Expiring? || task.Finishing? || task.Storing? || task.Unregistering? || task.Releasing?)
  {
    assert RunOk(st, id);
  }

  // ------------------------------------------------------------ what a step does

  lemma QueuedByScheduler(st: Sup, ev: Event, id: RunId)
    requires Inv(st) && Enabled(st, ev) && id !in Queue(st)
    ensures ev.Tick? ==> id !in S.QueueIds(S.Expire(st.sched, ev.now).0.queue)
    ensures ev.ReleaseSlot? ==>
              var task := st.tasks[ev.tid];
              var (sched, ids) := S.Release(st.sched, task.id, task.result.cleanup != Complete, ev.now);
              id !in S.QueueIds(sched.queue) && id !in ids
    ensures ev.CancelTake? ==> id !in S.QueueIds(S.CancelQueued(st.sched, st.tasks[ev.tid].id).0.queue)
  {
    if ev.Tick? {
      ExpireMoves(st.sched, ev.now);
    } else if ev.ReleaseSlot? {
      ReleaseEffect(st, ev.tid, ev.now);
      var task := st.tasks[ev.tid];
      var ids := S.Release(st.sched, task.id, task.result.cleanup != Complete, ev.now).1;
      assert id in ids ==> id in Elements(ids);
    } else if ev.CancelTake? {
      CancelMoves(st.sched, st.tasks[ev.tid].id);
    }
  }

  lemma QueuedBySubmit(st: Sup, tid: Tid, now: nat, refusal: RunResult, id: RunId)
    requires Inv(st) && tid in st.tasks && st.tasks[tid].Registered? && st.tasks[tid].id != id && id !in Queue(st)
    ensures id !in Queue(DoSubmit(st, tid, now, refusal))
  {
    var task := st.tasks[tid];
    Holds(st, tid, task.id);
    SubmitMoves(st.sched, task.id, task.request.project, task.request.memory, task.request.timeout, now);
  }

  /** Nobody else puts a run into the queue. */
  lemma StaysOut(st: Sup, ev: Event, id: RunId)
    requires Inv(st) && Enabled(st, ev) && id !in Queue(st)
    requires ev.SubmitRun? ==> st.tasks[ev.tid].id != id
    ensures id !in Queue(Apply(st, ev))
  {
    if ev.SubmitRun? {
      QueuedBySubmit(st, ev.tid, ev.now, ev.refusal, id);
    } else {
      QueuedByScheduler(st, ev, id);
    }
  }

  lemma ReleaseSparesUnqueued(st: Sup, ev: Event, id: RunId)
    requires Inv(st) && Enabled(st, ev) && ev.ReleaseSlot? && id in st.local
    requires !st.local[id].admitted && id !in Queue(st)
    ensures id in Apply(st, ev).local && !Apply(st, ev).local[id].admitted
  {
    QueuedByScheduler(st, ev, id);
  }

  lemma WorkSparesOthers(st: Sup, ev: Event, id: RunId)
    requires Enabled(st, ev) && id in st.local && !st.local[id].admitted
    requires ev.Move? || ev.Write? || ev.EnterFinish? || ev.Store? || ev.Unregister? || ev.Register? || ev.GetReturn?
    ensures id in Apply(st, ev).local && !Apply(st, ev).local[id].admitted
  {
  }

  lemma SchedulingSparesOthers(st: Sup, ev: Event, id: RunId)
    requires Enabled(st, ev) && id in st.local && !st.local[id].admitted && st.table.nextId != id
    requires ev.SubmitRun? ==> st.tasks[ev.tid].id != id
    requires ev.Insert? || ev.SubmitRun? || ev.Spawn? || ev.Tick? || ev.ExpireNext? || ev.CancelTake?
    ensures id in Apply(st, ev).local && !Apply(st, ev).local[id].admitted
  {
  }

  /** And nobody else admits it. */
  lemma StaysUnadmitted(st: Sup, ev: Event, id: RunId)
    requires Inv(st) && Enabled(st, ev) && id in st.table.rows && id in st.local
    requires !st.local[id].admitted && id !in Queue(st)
    requires ev.SubmitRun? ==> st.tasks[ev.tid].id != id
    ensures id in Apply(st, ev).local && !Apply(st, ev).local[id].admitted
  {
    assert st.table.nextId !in st.table.rows;
    if ev.ReleaseSlot? {
      ReleaseSparesUnqueued(st, ev, id);
    } else if ev.Insert? || ev.SubmitRun? || ev.Spawn? || ev.Tick? || ev.ExpireNext? || ev.CancelTake? {
      SchedulingSparesOthers(st, ev, id);
    } else if ev.Move? || ev.Write? || ev.EnterFinish? || ev.Store? || ev.Unregister? || ev.Register? || ev.GetReturn? {
      WorkSparesOthers(st, ev, id);
    }
  }

  lemma StepKeepsDismissed(st: Sup, ev: Event, id: RunId)
    requires Inv(st) && Enabled(st, ev) && Dismissed(st, id)
    ensures Dismissed(Apply(st, ev), id)
  {
    var t := Apply(st, ev);
    StaysOut(st, ev, id);
    StaysUnadmitted(st, ev, id);
    RowsStay(st, ev);
    forall tid | tid in t.tasks && Early(t.tasks[tid]) ensures RunOf(t.tasks[tid]) != id {
      EarlyTasksCome(st, ev, tid);
      assert st.table.nextId !in st.table.rows;
    }
  }

  lemma {:induction false} RunKeepsDismissed(st: Sup, evs: seq<Event>, id: RunId)
    requires Inv(st) && IsRun(st, evs) && Dismissed(st, id)
    ensures Inv(RunAll(st, evs)) && Dismissed(RunAll(st, evs), id)
    decreases |evs|
  {
    if evs != [] {
      StepKeepsInv(st, evs[0]);
      StepKeepsDismissed(st, evs[0], id);
      RunKeepsDismissed(Apply(st, evs[0]), evs[1..], id);
    }
  }

  // --------------------------------------------------------- the dismissing step

  /** The critical section that refuses, expires or cancels the run. */
  ghost predicate Dismisses(st: Sup, ev: Event, id: RunId)
    requires Enabled(st, ev)
  {
    match ev
    case SubmitRun(tid, now, _) =>
      var task := st.tasks[tid];
      && task.id == id
      && S.Submit(st.sched, id, task.request.project, task.request.memory, task.request.timeout, now).1.Rejected?
    case Tick(_, now) => id in S.Expire(st.sched, now).1
    case CancelTake(tid, _) => st.tasks[tid].id == id && S.CancelQueued(st.sched, id).1
    case _ => false
  }

  lemma QueuedIsNotEarly(st: Sup, id: RunId, tid: Tid)
    requires Inv(st) && id in Queue(st) && tid in st.tasks && Early(st.tasks[tid])
    ensures RunOf(st.tasks[tid]) != id
  {
    if RunOf(st.tasks[tid]) == id {
      Holds(st, tid, id);
    }
  }

  lemma RefusalDismisses(st: Sup, ev: Event, id: RunId)
    requires Inv(st) && Enabled(st, ev) && ev.SubmitRun? && Dismisses(st, ev, id)
    ensures Dismissed(Apply(st, ev), id)
  {
    var t := Apply(st, ev);
    Holds(st, ev.tid, id);
    forall tid | tid in t.tasks && Early(t.tasks[tid]) ensures RunOf(t.tasks[tid]) != id {
      EarlyTasksCome(st, ev, tid);
      if RunOf(t.tasks[tid]) == id {
        OneHolder(st, tid, ev.tid, id);
      }
    }
  }

  lemma TickDismisses(st: Sup, ev: Event, id: RunId)
    requires Inv(st) && Enabled(st, ev) && ev.Tick? && Dismisses(st, ev, id)
    ensures Dismissed(Apply(st, ev), id)
  {
    var t := Apply(st, ev);
    var (sched, ids) := S.Expire(st.sched, ev.now);
    ExpireMoves(st.sched, ev.now);
    assert id in Elements(ids) && id in Queue(st) && id in st.table.rows && RunOk(st, id);
    forall tid | tid in t.tasks && Early(t.tasks[tid]) ensures RunOf(t.tasks[tid]) != id {
      EarlyTasksCome(st, ev, tid);
      QueuedIsNotEarly(st, id, tid);
    }
  }

  lemma CancelDismisses(st: Sup, ev: Event, id: RunId)
    requires Inv(st) && Enabled(st, ev) && ev.CancelTake? && Dismisses(st, ev, id)
    ensures Dismissed(Apply(st, ev), id)
  {
    var t := Apply(st, ev);
    CancelMoves(st.sched, id);
    assert id in Queue(st) && id in st.table.rows && RunOk(st, id);
    forall tid | tid in t.tasks && Early(t.tasks[tid]) ensures RunOf(t.tasks[tid]) != id {
      EarlyTasksCome(st, ev, tid);
      QueuedIsNotEarly(st, id, tid);
    }
  }

  /**
   A run that is refused on submission, expires in the queue or is cancelled
   there has no worker and never gets one, holds no slot and never leaves a
   reservation, from that very step on and in every continuation.
   */
  lemma DismissedNeverRuns(st: Sup, ev: Event, evs: seq<Event>, id: RunId)
    requires Inv(st) && Enabled(st, ev) && Dismisses(st, ev, id) && IsRun(Apply(st, ev), evs)
    ensures var t := RunAll(Apply(st, ev), evs);
            && id in t.local && t.local[id].workers == 0 && !t.local[id].admitted
            && id !in Slots(t) && id !in Held(t)
  {
    StepKeepsInv(st, ev);
    if ev.SubmitRun? {
      RefusalDismisses(st, ev, id);
    } else if ev.Tick? {
      TickDismisses(st, ev, id);
    } else {
      CancelDismisses(st, ev, id);
    }
    RunKeepsDismissed(Apply(st, ev), evs, id);
    DismissedIsFinishing(RunAll(Apply(st, ev), evs), id);
  }

  /** The same from anywhere inside the finish of such a run. */
  lemma UnadmittedFinishNeverRuns(st: Sup, tid: Tid, evs: seq<Event>, id: RunId)
    requires Inv(st) && IsRun(st, evs) && WorksOn(st, tid, id) && id in st.local && !st.local[id].admitted
    requires var task := st.tasks[tid];
             task.Expiring? || task.Finishing? || task.Storing? || task.Unregistering? || task.Releasing?
    ensures id in RunAll(st, evs).local && RunAll(st, evs).local[id].workers == 0
  {
    Holds(st, tid, id);
    forall other | other in st.tasks && Early(st.tasks[other]) ensures RunOf(st.tasks[other]) != id {
      if RunOf(st.tasks[other]) == id {
        OneHolder(st, other, tid, id);
      }
    }
    RunKeepsDismissed(st, evs, id);
    DismissedIsFinishing(RunAll(st, evs), id);
  }
}
