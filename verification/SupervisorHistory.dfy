/**
 What callers and operators can rely on, derived from the invariant: one
 holder and at most one worker per run, capacity given back exactly once,
 and revisions that only move a run forward.
 */
module SupervisorHistory {
  import opened Base
  import opened RunTableSpec
  import opened SchedulerIds
  import opened SupervisorSpec
  import opened SupervisorInv
  import opened SupervisorSteps
  import S = SchedulerSpec

  // ---------------------------------------------------------------- new rows

  /** New runs get new ids, and nothing has happened to them. */
  ghost predicate AddsNew(st: Sup, t: Sup) {
    && st.table.nextId <= t.table.nextId
    && forall id :: id in t.table.rows && id !in st.table.rows ==> id >= st.table.nextId && t.table.rows[id].revision == 0
  }

  lemma RowsStayInStart(st: Sup, ev: Event)
    requires Enabled(st, ev) && Starts(ev)
    ensures st.table.rows.Keys <= Apply(st, ev).table.rows.Keys && AddsNew(st, Apply(st, ev))
  {
  }

  lemma RowsStayInWork(st: Sup, ev: Event)
    requires Enabled(st, ev) && Works(ev)
    ensures st.table.rows.Keys <= Apply(st, ev).table.rows.Keys && AddsNew(st, Apply(st, ev))
  {
  }

  /** No step drops a row. */
  lemma RowsStay(st: Sup, ev: Event)
    requires Enabled(st, ev)
    ensures st.table.rows.Keys <= Apply(st, ev).table.rows.Keys && AddsNew(st, Apply(st, ev))
  {
    if Starts(ev) {
      RowsStayInStart(st, ev);
    } else if Works(ev) {
      RowsStayInWork(st, ev);
    }
  }

  // ------------------------------------------------------------- one place

  ghost predicate WorksOn(st: Sup, tid: Tid, id: RunId) {
    tid in st.tasks && id in Owned(st.tasks[tid])
  }

  /** No two pieces of work are responsible for the same run. */
  lemma OneHolder(st: Sup, a: Tid, b: Tid, id: RunId)
    requires Inv(st) && WorksOn(st, a, id) && WorksOn(st, b, id)
    ensures a == b
  {
    Holds(st, a, id);
    Holds(st, b, id);
  }

  /**
   An accepted run that has not finished is in exactly one place: it waits in
   the queue and nobody works on it, or exactly one piece of work has it.
   */
  lemma UnfinishedIsInOnePlace(st: Sup, id: RunId)
    requires Inv(st) && id in st.table.rows && st.table.rows[id].phase != Finished
    ensures id in Queue(st) <==> !exists tid :: WorksOn(st, tid, id)
    ensures id in Slots(st) ==> id !in Queue(st)
  {
    assert RunOk(st, id);
    if id in Queue(st) {
      forall tid | WorksOn(st, tid, id) ensures false {
        Holds(st, tid, id);
      }
    } else {
      assert WorksOn(st, st.local[id].place.tid, id);
    }
  }

  /** At most one worker, and only for a run that was given capacity. */
  lemma AtMostOneWorker(st: Sup, id: RunId)
    requires Inv(st) && id in st.table.rows
    ensures st.local[id].workers <= 1
    ensures st.local[id].workers == 1 ==> st.local[id].admitted
    ensures id in Slots(st) ==> st.local[id].admitted
  {
    assert RunOk(st, id);
  }

  /** Nothing pending and nothing queued: no run was lost on the way. */
  lemma NothingIsLost(st: Sup, id: RunId)
    requires Inv(st) && st.tasks == map[] && id in st.table.rows
    ensures st.table.rows[id].phase == Finished || id in Queue(st)
  {
    assert RunOk(st, id);
  }

  /**
   When all runs have finished, no slot is taken, and the reservations still
   held are exactly those of admitted runs whose cleanup was not complete,
   once each.
   */
  lemma CapacityComesBack(st: Sup)
    requires Inv(st) && st.tasks == map[]
    requires forall id :: id in st.table.rows ==> st.table.rows[id].phase == Finished
    ensures st.sched.running == [] && st.sched.queue == []
    ensures DistinctSlots(st.sched.held)
    ensures forall id :: id in Held(st) <==>
              && id in st.table.rows && st.local[id].admitted
              && st.table.rows[id].result.Some? && st.table.rows[id].result.value.cleanup != Complete
    ensures S.RawReserved(st.sched) == S.RawSum(st.sched.held)
  {
    forall id | id in st.table.rows
      ensures id !in Slots(st) && id !in Queue(st) && st.table.rows[id].result.Some?
      ensures id in Held(st) <==> st.local[id].admitted && st.table.rows[id].result.value.cleanup != Complete
    {
      assert RunOk(st, id);
    }
    assert st.sched.running != [] ==> st.sched.running[0].id in Slots(st);
    assert st.sched.queue != [] ==> st.sched.queue[0].id in Queue(st);
  }

  /** Finishing a run that holds no slot changes no reservation and admits nobody. */
  lemma UnadmittedReleaseIsFree(st: Sup, tid: Tid, now: nat)
    requires Inv(st) && tid in st.tasks && st.tasks[tid].Releasing? && !At(st, st.tasks[tid].id).admitted
    ensures DoRelease(st, tid, now).sched == st.sched
  {
    Holds(st, tid, st.tasks[tid].id);
    ReleaseWithoutSlot(st.sched, st.tasks[tid].id, st.tasks[tid].result.cleanup != Complete, now);
  }

  // ---------------------------------------------------------- moving forward

  /** The same view, or a later revision in a strictly later phase. */
  predicate Advances(a: View, b: View) {
    a == b || (a.revision < b.revision && Rank(a.phase) < Rank(b.phase))
  }

  /** How one step may change what is kept about one run. */
  ghost predicate Forward(st: Sup, t: Sup, id: RunId) {
    && id in st.table.rows && id in t.table.rows && id in st.local && id in t.local
    && Advances(RowView(st.table.rows[id]), RowView(t.table.rows[id]))
    && (st.table.rows[id].phase == Finished ==> t.table.rows[id] == st.table.rows[id])
    && t.table.rows[id].requestId == st.table.rows[id].requestId
    && (st.local[id].slot.Some? ==>
          t.local[id].slot.Some? && Advances(st.local[id].slot.value, t.local[id].slot.value))
    && (st.table.rows[id].phase == Finished ==>
          t.local[id].admitted == st.local[id].admitted && t.local[id].workers == st.local[id].workers)
    && (id in Slots(st) && id !in Slots(t) ==> t.local[id].place == Done)
    && (st.local[id].place == Done ==> t.local[id].place == Done)
  }

  lemma ForwardSame(st: Sup, t: Sup, id: RunId)
    requires Inv(st) && id in st.table.rows && id in t.table.rows && id in t.local
    requires t.table.rows[id] == st.table.rows[id] && t.local[id] == st.local[id]
    requires id in Slots(st) ==> id in Slots(t)
    ensures Forward(st, t, id)
  {
    assert RunOk(st, id);
  }

  lemma OneForward(st: Sup, tid: Tid, x: RunId, t: Sup)
    requires Inv(st) && tid in st.tasks && x in st.table.rows
    requires t.sched == st.sched && t.local.Keys == st.local.Keys && t.table.rows.Keys == st.table.rows.Keys
    requires x !in Owned(st.tasks[tid]) ==> t.table.rows[x] == st.table.rows[x] && t.local[x] == st.local[x]
    requires x in Owned(st.tasks[tid]) ==>
      && Advances(RowView(st.table.rows[x]), RowView(t.table.rows[x]))
      && (st.table.rows[x].phase == Finished ==> t.table.rows[x] == st.table.rows[x])
      && t.table.rows[x].requestId == st.table.rows[x].requestId
      && (st.local[x].slot.Some? ==> t.local[x].slot.Some? && Advances(st.local[x].slot.value, t.local[x].slot.value))
      && t.local[x].admitted == st.local[x].admitted && t.local[x].workers == st.local[x].workers
    ensures Forward(st, t, x)
  {
    assert RunOk(st, x);
    if x in Owned(st.tasks[tid]) {
      Holds(st, tid, x);
    } else {
      ForwardSame(st, t, x);
    }
  }

  lemma ForwardEnterFinish(st: Sup, tid: Tid, x: RunId)
    requires Inv(st) && tid in st.tasks && st.tasks[tid].Finishing? && x in st.table.rows
    ensures Forward(st, DoEnterFinish(st, tid), x)
  {
    var id := st.tasks[tid].id;
    Holds(st, tid, id);
    EnterFinishPlace(id, st.tasks[tid], st.table.rows[id], st.local[id], id in Queue(st), id in Slots(st), id in Held(st));
    EnterFinishIsMoved(st, tid);
    assert DoEnterFinish(st, tid).local.Keys == st.local.Keys;
    OneForward(st, tid, x, DoEnterFinish(st, tid));
  }

  lemma ForwardStore(st: Sup, tid: Tid, x: RunId)
    requires Inv(st) && tid in st.tasks && st.tasks[tid].Storing? && x in st.table.rows
    ensures Forward(st, DoStore(st, tid), x)
  {
    var id := st.tasks[tid].id;
    Holds(st, tid, id);
    StorePlace(id, st.tasks[tid], st.table.rows[id], st.local[id], id in Queue(st), id in Slots(st), id in Held(st));
    assert DoStore(st, tid).table.rows.Keys == st.table.rows.Keys;
    OneForward(st, tid, x, DoStore(st, tid));
  }

  lemma ForwardMove(st: Sup, tid: Tid, phase: Phase, x: RunId)
    requires Inv(st) && tid in st.tasks && st.tasks[tid].Worker? && CanMove(st.tasks[tid].at, phase) && x in st.table.rows
    ensures Forward(st, DoMove(st, tid, phase), x)
  {
    var id := st.tasks[tid].id;
    Holds(st, tid, id);
    MovePlace(id, st.tasks[tid], phase, st.table.rows[id], st.local[id], id in Queue(st), id in Slots(st), id in Held(st));
    MoveIsMoved(st, tid, phase);
    assert DoMove(st, tid, phase).local.Keys == st.local.Keys;
    OneForward(st, tid, x, DoMove(st, tid, phase));
  }

  lemma ForwardWrite(st: Sup, tid: Tid, x: RunId)
    requires Inv(st) && tid in st.tasks && st.tasks[tid].Worker? && st.tasks[tid].at.Wrote? && x in st.table.rows
    ensures Forward(st, DoWrite(st, tid), x)
  {
    var id := st.tasks[tid].id;
    Holds(st, tid, id);
    WritePlace(id, st.tasks[tid], st.table.rows[id], st.local[id], id in Queue(st), id in Slots(st), id in Held(st));
    assert DoWrite(st, tid).table.rows.Keys == st.table.rows.Keys;
    OneForward(st, tid, x, DoWrite(st, tid));
  }

  lemma ForwardRegistry(st: Sup, tid: Tid, x: RunId)
    requires Inv(st) && tid in st.tasks && x in st.table.rows
    ensures st.tasks[tid].Inserted? ==> Forward(st, DoRegister(st, tid), x)
    ensures st.tasks[tid].Unregistering? ==> Forward(st, DoUnregister(st, tid), x)
  {
    if st.tasks[tid].Inserted? {
      Holds(st, tid, st.tasks[tid].id);
      assert DoRegister(st, tid).local.Keys == st.local.Keys;
      OneForward(st, tid, x, DoRegister(st, tid));
    } else if st.tasks[tid].Unregistering? {
      Holds(st, tid, st.tasks[tid].id);
      assert DoUnregister(st, tid).local.Keys == st.local.Keys;
      OneForward(st, tid, x, DoUnregister(st, tid));
    }
  }

  /** A step that leaves rows and slots alone. */
  lemma ForwardQuiet(st: Sup, t: Sup, x: RunId)
    requires Inv(st) && x in st.table.rows && x in t.table.rows && x in t.local
    requires t.table.rows[x] == st.table.rows[x] && t.local[x].slot == st.local[x].slot
    requires st.table.rows[x].phase == Finished ==>
               t.local[x].admitted == st.local[x].admitted && t.local[x].workers == st.local[x].workers
    requires Leaves(st, t, x) ==> t.local[x].place == Done
    requires st.local[x].place == Done ==> t.local[x].place == Done
    ensures Forward(st, t, x)
  {
    assert RunOk(st, x);
  }

  ghost predicate Leaves(st: Sup, t: Sup, x: RunId) {
    x in Slots(st) && x !in Slots(t)
  }

  lemma ForwardInsert(st: Sup, tid: Tid, requestId: string, fingerprint: string, request: Request, now: nat, x: RunId)
    requires Inv(st) && tid !in st.tasks && x in st.table.rows
    ensures Forward(st, DoInsert(st, tid, requestId, fingerprint, request, now), x)
  {
    assert RunOk(st, x);
    assert st.table.nextId !in st.table.rows;
    ForwardSame(st, DoInsert(st, tid, requestId, fingerprint, request, now), x);
  }

  lemma ForwardSubmit(st: Sup, tid: Tid, now: nat, refusal: RunResult, x: RunId)
    requires Inv(st) && tid in st.tasks && st.tasks[tid].Registered? && x in st.table.rows
    ensures Forward(st, DoSubmit(st, tid, now, refusal), x)
  {
    var id, rq := st.tasks[tid].id, st.tasks[tid].request;
    Holds(st, tid, id);
    SubmitMoves(st.sched, id, rq.project, rq.memory, rq.timeout, now);
    assert RunOk(st, x);
    ForwardQuiet(st, DoSubmit(st, tid, now, refusal), x);
  }

  lemma ForwardSplit(st: Sup, tid: Tid, worker: Tid, result: RunResult, x: RunId)
    requires Inv(st) && tid in st.tasks && x in st.table.rows
    ensures st.tasks[tid].Spawning? && st.tasks[tid].ids != [] ==>
              Forward(st, DoSpawn(st, tid, worker), x) && Forward(st, DoLookUp(st, tid), x)
    ensures st.tasks[tid].Expiring? && st.tasks[tid].ids != [] ==> Forward(st, DoExpireNext(st, tid, worker, result), x)
  {
    assert RunOk(st, x);
    if st.tasks[tid].Spawning? && st.tasks[tid].ids != [] {
      Holds(st, tid, st.tasks[tid].ids[0]);
      ForwardQuiet(st, DoSpawn(st, tid, worker), x);
      ForwardSame(st, DoLookUp(st, tid), x);
    } else if st.tasks[tid].Expiring? && st.tasks[tid].ids != [] {
      Holds(st, tid, st.tasks[tid].ids[0]);
      ForwardQuiet(st, DoExpireNext(st, tid, worker, result), x);
    }
  }

  lemma ForwardTicked(st: Sup, tid: Tid, sched: S.State, ids: seq<RunId>, x: RunId)
    requires Inv(st) && tid !in st.tasks && Elements(ids) <= Queue(st) && x in st.table.rows
    requires sched.running == st.sched.running
    ensures Forward(st, Ticked(st, tid, sched, ids), x)
  {
    assert RunOk(st, x);
    ForwardQuiet(st, Ticked(st, tid, sched, ids), x);
  }

  lemma ForwardReleased(st: Sup, tid: Tid, id: RunId, sched: S.State, ids: seq<RunId>, x: RunId)
    requires Inv(st) && tid in st.tasks && st.tasks[tid].Releasing? && st.tasks[tid].id == id && x in st.table.rows
    requires ReleasedSched(st, id, st.tasks[tid].result.cleanup != Complete, sched, ids)
    ensures Forward(st, Released(st, tid, id, sched, ids), x)
  {
    Holds(st, tid, id);
    assert RunOk(st, x);
    var t := Released(st, tid, id, sched, ids);
    assert t.local.Keys == st.local.Keys;
    if x in Elements(ids) {
      Waits(st, x);
    }
    ForwardQuiet(st, t, x);
  }

  lemma ForwardTaken(st: Sup, tid: Tid, id: RunId, task: Task, sched: S.State, x: RunId)
    requires Inv(st) && task.Finishing? && task.id == id && id in Queue(st) && x in st.table.rows
    requires sched.running == st.sched.running
    ensures Forward(st, Taken(st, tid, task, sched), x)
  {
    Waits(st, id);
    assert RunOk(st, x);
    ForwardQuiet(st, Taken(st, tid, task, sched), x);
  }

  /** A step that touches neither rows, nor memory, nor the running slots. */
  ghost predicate Hands(st: Sup, t: Sup) {
    t.table == st.table && t.sched.running == st.sched.running && t.local.Keys == st.local.Keys
    && forall x :: x in st.local ==> t.local[x] == st.local[x].(published := t.local[x].published, cancel := t.local[x].cancel)
  }

  lemma ForwardCalls(st: Sup, ev: Event, x: RunId)
    requires Inv(st) && Enabled(st, ev) && x in st.table.rows
    requires ev.CancelCall? || ev.CancelRead? || ev.CancelCheck? || ev.GetCall? || ev.GetRead? || ev.GetReturn?
          || ev.ChangeLimits? || ev.Conclude? || ev.Poll? || ev.CancelFlag?
    ensures Forward(st, Apply(st, ev), x)
  {
    assert RunOk(st, x);
    CallsOnlyLook(st, ev);
    ForwardQuiet(st, Apply(st, ev), x);
  }

  lemma CallsOnlyLook(st: Sup, ev: Event)
    requires Enabled(st, ev)
    requires ev.CancelCall? || ev.CancelRead? || ev.CancelCheck? || ev.GetCall? || ev.GetRead? || ev.GetReturn?
          || ev.ChangeLimits? || ev.Conclude? || ev.Poll? || ev.CancelFlag?
    ensures Hands(st, Apply(st, ev))
  {
    if ev.GetReturn? || ev.CancelFlag? {
      CallsOnlyMark(st, ev);
    }
  }

  lemma CallsOnlyMark(st: Sup, ev: Event)
    requires Enabled(st, ev) && (ev.GetReturn? || ev.CancelFlag?)
    ensures Hands(st, Apply(st, ev))
  {
    if st.tasks[ev.tid].id in st.local {
      assert Apply(st, ev).local.Keys == st.local.Keys;
    }
  }

  /** Every step of every thread moves every run forward or leaves it alone. */
  lemma StepGoesForward(st: Sup, ev: Event, x: RunId)
    requires Inv(st) && Enabled(st, ev) && x in st.table.rows
    ensures Forward(st, Apply(st, ev), x)
  {
    match ev
    case Insert(tid, requestId, fingerprint, request, now) => ForwardInsert(st, tid, requestId, fingerprint, request, now, x);
    case Register(tid) => ForwardRegistry(st, tid, x);
    case SubmitRun(tid, now, refusal) => ForwardSubmit(st, tid, now, refusal, x);
    case LookUp(tid) => ForwardSplit(st, tid, 0, REFUSAL, x);
    case Spawn(tid, worker) => ForwardSplit(st, tid, worker, REFUSAL, x);
    case Tick(tid, now) =>
      ExpireMoves(st.sched, now);
      ForwardTicked(st, tid, S.Expire(st.sched, now).0, S.Expire(st.sched, now).1, x);
    case ExpireNext(tid, finisher, result) => ForwardSplit(st, tid, finisher, result, x);
    case EnterFinish(tid) => ForwardEnterFinish(st, tid, x);
    case Store(tid) => ForwardStore(st, tid, x);
    case Unregister(tid) => ForwardRegistry(st, tid, x);
    case ReleaseSlot(tid, now) =>
      ReleaseEffect(st, tid, now);
      var r := S.Release(st.sched, st.tasks[tid].id, st.tasks[tid].result.cleanup != Complete, now);
      ForwardReleased(st, tid, st.tasks[tid].id, r.0, r.1, x);
    case Move(tid, phase) => ForwardMove(st, tid, phase, x);
    case Write(tid) => ForwardWrite(st, tid, x);
    case CancelTake(tid, result) => ForwardCancel(st, tid, result, x);
    case Poll(_, _) => ForwardCalls(st, ev, x);
    case Conclude(_, _) => ForwardCalls(st, ev, x);
    case CancelCall(_, _) => ForwardCalls(st, ev, x);
    case CancelRead(_) => ForwardCalls(st, ev, x);
    case CancelCheck(_) => ForwardCalls(st, ev, x);
    case CancelFlag(_) => ForwardCalls(st, ev, x);
    case GetCall(_, _) => ForwardCalls(st, ev, x);
    case GetRead(_) => ForwardCalls(st, ev, x);
    case GetReturn(_) => ForwardCalls(st, ev, x);
    case ChangeLimits(_) => ForwardCalls(st, ev, x);
  }

  lemma ForwardCancel(st: Sup, tid: Tid, result: RunResult, x: RunId)
    requires Inv(st) && tid in st.tasks && st.tasks[tid].Cancelling? && x in st.table.rows
    ensures Forward(st, DoCancelTake(st, tid, result), x)
  {
    var task := st.tasks[tid];
    var (sched, found) := S.CancelQueued(st.sched, task.id);
    CancelMoves(st.sched, task.id);
    if found {
      ForwardTaken(st, tid, task.id, Finishing(task.id, task.ref, result), sched, x);
    } else {
      assert RunOk(st, x);
      ForwardSame(st, Put(st, tid, Flagging(task.id, task.ref)).(sched := sched), x);
    }
  }

  /**
   Over any run of any interleaving: each new revision of a stored run comes
   with a strictly later phase, a finished row is never touched again, and a
   run that finished without capacity never gets a worker.
   */
  lemma {:induction false} RunGoesForward(st: Sup, evs: seq<Event>, id: RunId)
    requires Inv(st) && IsRun(st, evs) && id in st.table.rows
    ensures var t := RunAll(st, evs);
            && id in t.table.rows && id in t.local && id in st.local
            && Advances(RowView(st.table.rows[id]), RowView(t.table.rows[id]))
            && (st.table.rows[id].phase == Finished ==>
                  t.table.rows[id] == st.table.rows[id] && t.local[id].workers == st.local[id].workers)
            && (st.local[id].slot.Some? ==>
                  t.local[id].slot.Some? && Advances(st.local[id].slot.value, t.local[id].slot.value))
            && (st.local[id].place == Done ==> t.local[id].place == Done)
    decreases |evs|
  {
    assert RunOk(st, id);
    if evs != [] {
      var mid := Apply(st, evs[0]);
      StepGoesForward(st, evs[0], id);
      StepKeepsInv(st, evs[0]);
      RunGoesForward(mid, evs[1..], id);
    }
  }

  /** The row never runs ahead of memory, and lags it by at most one revision. */
  lemma RowFollowsMemory(st: Sup, id: RunId)
    requires Inv(st) && id in st.table.rows && st.local[id].registered && st.table.rows[id].phase != Finished
    ensures st.local[id].slot.Some?
    ensures var row, v := st.table.rows[id], st.local[id].slot.value;
            row.revision <= v.revision <= row.revision + 1 && Advances(RowView(row), v)
  {
    assert RunOk(st, id);
  }

  /** A slot given back is never taken or given back again for the same run. */
  lemma SlotIsReleasedOnce(st: Sup, ev: Event, evs: seq<Event>, id: RunId)
    requires Inv(st) && Enabled(st, ev) && IsRun(Apply(st, ev), evs)
    requires id in Slots(st) && id !in Slots(Apply(st, ev))
    ensures id !in Slots(RunAll(Apply(st, ev), evs))
  {
    var mid := Apply(st, ev);
    StepKeepsInv(st, ev);
    StepGoesForward(st, ev, id);
    RunGoesForward(mid, evs, id);
    RunKeepsInv(mid, evs);
    assert RunOk(RunAll(mid, evs), id);
  }

  /**
   A run that finished without having been admitted (refused, expired or
   cancelled in the queue) has no worker, now or ever.
   */
  lemma FinishedInQueueNeverRuns(st: Sup, evs: seq<Event>, id: RunId)
    requires Inv(st) && IsRun(st, evs) && id in st.table.rows
    requires st.table.rows[id].phase == Finished && !st.local[id].admitted
    ensures id in RunAll(st, evs).local && RunAll(st, evs).local[id].workers == 0
  {
    assert RunOk(st, id);
    RunGoesForward(st, evs, id);
  }

  /**
   A repeated `start` inside the window meets the stored run and changes
   nothing at all: no row, no reservation, no worker.
   */
  lemma RepeatedStartDoesNothing(st: Sup, tid: Tid, id: RunId, fingerprint: string, request: Request, now: nat)
    requires Inv(st) && id in st.table.rows
    requires now <= st.table.rows[id].createdAt + 86_400
    requires forall x :: x in st.table.rows && st.table.rows[x].requestId == st.table.rows[id].requestId ==> x <= id
    ensures DoInsert(st, tid, st.table.rows[id].requestId, fingerprint, request, now) == st
    ensures InsertRun(st.table, st.table.rows[id].requestId, fingerprint, now).1
         == if st.table.rows[id].fingerprint == fingerprint then Existing(id) else Conflict(id)
  {
    RepeatMeetsTheRun(st.table, id, fingerprint, now);
  }
}
