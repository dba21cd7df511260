/** Every critical section of every thread keeps the invariant. */
module SupervisorSteps {
  import opened Base
  import opened RunTableSpec
  import opened SchedulerIds
  import opened SupervisorSpec
  import opened SupervisorInv
  import S = SchedulerSpec

  ghost predicate SameRun(st: Sup, t: Sup, id: RunId) {
    && (id in t.table.rows <==> id in st.table.rows)
    && (id in t.local <==> id in st.local)
    && (id in t.table.rows && id in st.table.rows ==> t.table.rows[id] == st.table.rows[id])
    && (id in t.local && id in st.local ==> t.local[id] == st.local[id])
    && (id in Queue(t) <==> id in Queue(st))
    && (id in Slots(t) <==> id in Slots(st))
    && (id in Held(t) <==> id in Held(st))
  }

  ghost predicate SameTask(st: Sup, t: Sup, tid: Tid) {
    && (tid in t.tasks <==> tid in st.tasks)
    && (tid in t.tasks && tid in st.tasks ==> t.tasks[tid] == st.tasks[tid])
  }

  /** Only what a step touched has to be looked at. */
  lemma Rebuild(st: Sup, t: Sup, ids: set<RunId>, tids: set<Tid>)
    requires Inv(st) && Keyed(t)
    requires forall x: RunId {:trigger SameRun(st, t, x)} :: x !in ids ==> SameRun(st, t, x)
    requires forall tid: Tid {:trigger SameTask(st, t, tid)} :: tid !in tids ==> SameTask(st, t, tid)
    requires forall tid :: tid in tids && tid in st.tasks ==> Owned(st.tasks[tid]) <= ids
    requires forall x :: x in ids && x in st.local && st.local[x].place.With? ==> st.local[x].place.tid in tids
    requires forall x {:trigger RunOk(t, x)} :: x in ids && x in t.table.rows ==> RunOk(t, x)
    requires forall tid {:trigger TaskWf(t, tid)} :: tid in tids && tid in t.tasks ==> TaskWf(t, tid)
    ensures Inv(t)
  {
    forall x | x in t.table.rows ensures RunOk(t, x) {
      if x !in ids {
        assert SameRun(st, t, x) && RunOk(st, x);
        if st.local[x].place.With? {
          assert SameTask(st, t, st.local[x].place.tid);
        }
      }
    }
    forall tid | tid in t.tasks ensures TaskWf(t, tid) {
      if tid !in tids {
        assert SameTask(st, t, tid) && TaskWf(st, tid);
        forall id | id in Owned(t.tasks[tid]) ensures id in t.local && t.local[id].place == With(tid) {
          assert id !in ids;
          assert SameRun(st, t, id);
        }
      }
    }
  }

  /** What the invariant says about a run and the task that holds it. */
  lemma Holds(st: Sup, tid: Tid, id: RunId)
    requires Inv(st) && tid in st.tasks && id in Owned(st.tasks[tid])
    ensures id in st.table.rows && id in st.local && st.local[id].place == With(tid)
    ensures id !in Queue(st) && id !in Held(st) && (id in Slots(st) <==> st.local[id].admitted)
    ensures PlaceOk(id, st.table.rows[id], st.local[id], Some(st.tasks[tid]), id in Queue(st), id in Slots(st), id in Held(st))
    ensures TaskShape(st.tasks[tid])
  {
    assert TaskWf(st, tid) && RunOk(st, id);
  }

  // -------------------------------------------------- steps that touch one run

  function Moved(st: Sup, tid: Tid, task: Task, id: RunId, row: Row, l: Local): Sup {
    st.(table := st.table.(rows := st.table.rows[id := row]),
        local := st.local[id := l],
        tasks := st.tasks[tid := task])
  }

  lemma KeepOne(st: Sup, tid: Tid, task: Task, id: RunId, row: Row, l: Local)
    requires Inv(st) && tid in st.tasks
    requires Owned(st.tasks[tid]) == {id} && Owned(task) == {id} && TaskShape(task)
    requires l.place == With(tid)
    requires id in st.table.rows
    requires row.requestId == st.table.rows[id].requestId && row.createdAt == st.table.rows[id].createdAt
    requires PlaceOk(id, row, l, Some(task), id in Queue(st), id in Slots(st), id in Held(st))
    ensures Inv(Moved(st, tid, task, id, row, l))
  {
    var t := Moved(st, tid, task, id, row, l);
    Holds(st, tid, id);
    MovedIsKeyed(st, tid, task, id, row, l);
    MovedAside(st, tid, task, id, row, l);
    Rebuild(st, t, {id}, {tid});
  }

  lemma MovedAside(st: Sup, tid: Tid, task: Task, id: RunId, row: Row, l: Local)
    requires id in st.table.rows && id in st.local && tid in st.tasks
    requires Owned(task) == {id} && TaskShape(task) && l.place == With(tid)
    requires PlaceOk(id, row, l, Some(task), id in Queue(st), id in Slots(st), id in Held(st))
    ensures var t := Moved(st, tid, task, id, row, l);
            && RunOk(t, id) && TaskWf(t, tid)
            && (forall x: RunId {:trigger SameRun(st, t, x)} :: x !in {id} ==> SameRun(st, t, x))
            && (forall x: Tid {:trigger SameTask(st, t, x)} :: x !in {tid} ==> SameTask(st, t, x))
  {
  }

  /** The same for a state known to be that one. */
  lemma KeepMoved(st: Sup, t: Sup, tid: Tid, task: Task, id: RunId, row: Row, l: Local)
    requires Inv(st) && tid in st.tasks && id in st.table.rows && t == Moved(st, tid, task, id, row, l)
    requires Owned(st.tasks[tid]) == {id} && Owned(task) == {id} && TaskShape(task) && l.place == With(tid)
    requires row.requestId == st.table.rows[id].requestId && row.createdAt == st.table.rows[id].createdAt
    requires PlaceOk(id, row, l, Some(task), id in Queue(st), id in Slots(st), id in Held(st))
    ensures Inv(t)
  {
    KeepOne(st, tid, task, id, row, l);
  }

  lemma MovedIsKeyed(st: Sup, tid: Tid, task: Task, id: RunId, row: Row, l: Local)
    requires Keyed(st) && id in st.table.rows
    requires row.requestId == st.table.rows[id].requestId && row.createdAt == st.table.rows[id].createdAt
    ensures Keyed(Moved(st, tid, task, id, row, l))
  {
    var t := Moved(st, tid, task, id, row, l);
    assert t.table.rows.Keys == st.table.rows.Keys && t.local.Keys == st.local.Keys;
  }

  lemma RegisterPlace(id: RunId, task: Task, row: Row, l: Local, q: bool, r: bool, h: bool)
    requires task.Inserted? && task.id == id && l.place.With? && PlaceOk(id, row, l, Some(task), q, r, h)
    ensures PlaceOk(id, row, l.(slot := Some(FRESH), registered := true), Some(Registered(id, task.request)), q, r, h)
  {
  }

  lemma KeepRegister(st: Sup, tid: Tid)
    requires Inv(st) && tid in st.tasks && st.tasks[tid].Inserted?
    ensures Inv(DoRegister(st, tid))
  {
    var task := st.tasks[tid];
    var id := task.id;
    Holds(st, tid, id);
    var row, l := st.table.rows[id], st.local[id];
    RegisterPlace(id, task, row, l, id in Queue(st), id in Slots(st), id in Held(st));
    KeepOne(st, tid, Registered(id, task.request), id, row, l.(slot := Some(FRESH), registered := true));
    assert st.table.rows[id := row] == st.table.rows;
  }

  function Ended(task: Task, l: Local): Local
    requires task.Finishing?
  {
    if task.ref.Live?
    then l.(slot := Some(View(Finished, Deref(l, Live).revision + 1, Some(task.result))))
    else l
  }

  /** The slot `finish` meets is never terminal yet, and becomes so once. */
  lemma EnterFinishPlace(id: RunId, task: Task, row: Row, l: Local, q: bool, r: bool, h: bool)
    requires task.Finishing? && task.id == id && l.place.With? && PlaceOk(id, row, l, Some(task), q, r, h)
    ensures var v := Deref(l, task.ref);
            && v.phase != Finished && v.revision == row.revision
            && PlaceOk(id, row, Ended(task, l), Some(Storing(id, v.revision + 1, task.result)), q, r, h)
  {
  }

  lemma KeepEnterFinish(st: Sup, tid: Tid)
    requires Inv(st) && tid in st.tasks && st.tasks[tid].Finishing?
    ensures Inv(DoEnterFinish(st, tid))
  {
    var task := st.tasks[tid];
    var id := task.id;
    Holds(st, tid, id);
    var row, l := st.table.rows[id], st.local[id];
    EnterFinishPlace(id, task, row, l, id in Queue(st), id in Slots(st), id in Held(st));
    var next := Storing(id, Deref(l, task.ref).revision + 1, task.result);
    EnterFinishIsMoved(st, tid);
    KeepMoved(st, DoEnterFinish(st, tid), tid, next, id, row, Ended(task, l));
  }

  lemma EnterFinishIsMoved(st: Sup, tid: Tid)
    requires tid in st.tasks && st.tasks[tid].Finishing?
    requires st.tasks[tid].id in st.local && st.tasks[tid].id in st.table.rows
    requires Deref(st.local[st.tasks[tid].id], st.tasks[tid].ref).phase != Finished
    ensures var task := st.tasks[tid]; var l := st.local[task.id];
            DoEnterFinish(st, tid) == Moved(st, tid, Storing(task.id, Deref(l, task.ref).revision + 1, task.result),
                                            task.id, st.table.rows[task.id], Ended(task, l))
  {
    var id := st.tasks[tid].id;
    assert st.table.rows[id := st.table.rows[id]] == st.table.rows;
    assert st.local[id := st.local[id]] == st.local;
  }

  lemma StorePlace(id: RunId, task: Task, row: Row, l: Local, q: bool, r: bool, h: bool)
    requires task.Storing? && task.id == id && l.place.With? && PlaceOk(id, row, l, Some(task), q, r, h)
    ensures var row' := row.(phase := Finished, cleanup := task.result.cleanup,
                             revision := task.revision, result := Some(task.result));
            row.phase != Finished && PlaceOk(id, row', l, Some(Unregistering(id, task.result)), q, r, h)
  {
  }

  lemma KeepStore(st: Sup, tid: Tid)
    requires Inv(st) && tid in st.tasks && st.tasks[tid].Storing?
    ensures Inv(DoStore(st, tid))
  {
    var task := st.tasks[tid];
    var id := task.id;
    Holds(st, tid, id);
    var row, l := st.table.rows[id], st.local[id];
    StorePlace(id, task, row, l, id in Queue(st), id in Slots(st), id in Held(st));
    var row' := row.(phase := Finished, cleanup := task.result.cleanup, revision := task.revision, result := Some(task.result));
    KeepOne(st, tid, Unregistering(id, task.result), id, row', l);
    assert st.local[id := l] == st.local;
  }

  lemma UnregisterPlace(id: RunId, task: Task, row: Row, l: Local, q: bool, r: bool, h: bool)
    requires task.Unregistering? && task.id == id && l.place.With? && PlaceOk(id, row, l, Some(task), q, r, h)
    ensures PlaceOk(id, row, l.(registered := false), Some(Releasing(id, task.result)), q, r, h)
  {
  }

  lemma KeepUnregister(st: Sup, tid: Tid)
    requires Inv(st) && tid in st.tasks && st.tasks[tid].Unregistering?
    ensures Inv(DoUnregister(st, tid))
  {
    var task := st.tasks[tid];
    var id := task.id;
    Holds(st, tid, id);
    var row, l := st.table.rows[id], st.local[id];
    UnregisterPlace(id, task, row, l, id in Queue(st), id in Slots(st), id in Held(st));
    KeepOne(st, tid, Releasing(id, task.result), id, row, l.(registered := false));
    assert st.table.rows[id := row] == st.table.rows;
  }

  /** A worker never finds its run finished by someone else. */
  lemma MovePlace(id: RunId, task: Task, phase: Phase, row: Row, l: Local, q: bool, r: bool, h: bool)
    requires task.Worker? && task.id == id && CanMove(task.at, phase)
    requires l.place.With? && PlaceOk(id, row, l, Some(task), q, r, h)
    ensures var v := Deref(l, Live);
            && v.phase != Finished && Rank(v.phase) < Rank(phase)
            && PlaceOk(id, row, l.(slot := Some(View(phase, v.revision + 1, v.result))),
                       Some(Worker(id, Wrote(phase, v.revision + 1))), q, r, h)
  {
  }

  lemma KeepMove(st: Sup, tid: Tid, phase: Phase)
    requires Inv(st) && tid in st.tasks && st.tasks[tid].Worker? && CanMove(st.tasks[tid].at, phase)
    ensures Inv(DoMove(st, tid, phase))
  {
    var id := st.tasks[tid].id;
    Holds(st, tid, id);
    var row, l := st.table.rows[id], st.local[id];
    MovePlace(id, st.tasks[tid], phase, row, l, id in Queue(st), id in Slots(st), id in Held(st));
    var v := Deref(l, Live);
    KeepOne(st, tid, Worker(id, Wrote(phase, v.revision + 1)), id, row, l.(slot := Some(View(phase, v.revision + 1, v.result))));
    MoveIsMoved(st, tid, phase);
  }

  lemma MoveIsMoved(st: Sup, tid: Tid, phase: Phase)
    requires tid in st.tasks && st.tasks[tid].Worker?
    requires st.tasks[tid].id in st.local && st.tasks[tid].id in st.table.rows
    requires Deref(st.local[st.tasks[tid].id], Live).phase != Finished
    ensures var id := st.tasks[tid].id;
            var v := Deref(st.local[id], Live);
            DoMove(st, tid, phase) == Moved(st, tid, Worker(id, Wrote(phase, v.revision + 1)), id, st.table.rows[id],
                                            st.local[id].(slot := Some(View(phase, v.revision + 1, v.result))))
  {
    var id := st.tasks[tid].id;
    assert st.table.rows[id := st.table.rows[id]] == st.table.rows;
  }

  /** The durable half of a transition is never refused as stale. */
  lemma WritePlace(id: RunId, task: Task, row: Row, l: Local, q: bool, r: bool, h: bool)
    requires task.Worker? && task.id == id && task.at.Wrote?
    requires l.place.With? && PlaceOk(id, row, l, Some(task), q, r, h)
    ensures row.revision < task.at.revision
    ensures var row' := row.(phase := task.at.phase, cleanup := Pending, revision := task.at.revision);
            PlaceOk(id, row', l, Some(Worker(id, In(task.at.phase))), q, r, h)
  {
  }

  lemma KeepWrite(st: Sup, tid: Tid)
    requires Inv(st) && tid in st.tasks && st.tasks[tid].Worker? && st.tasks[tid].at.Wrote?
    ensures Inv(DoWrite(st, tid))
  {
    var id, at := st.tasks[tid].id, st.tasks[tid].at;
    Holds(st, tid, id);
    var row, l := st.table.rows[id], st.local[id];
    WritePlace(id, st.tasks[tid], row, l, id in Queue(st), id in Slots(st), id in Held(st));
    KeepOne(st, tid, Worker(id, In(at.phase)), id, row.(phase := at.phase, cleanup := Pending, revision := at.revision), l);
    assert st.local[id := l] == st.local;
  }

  lemma ConcludePlace(id: RunId, task: Task, result: RunResult, row: Row, l: Local, q: bool, r: bool, h: bool)
    requires task.Worker? && task.id == id && CanConclude(task.at, result)
    requires l.place.With? && PlaceOk(id, row, l, Some(task), q, r, h)
    ensures PlaceOk(id, row, l, Some(Finishing(id, Live, result)), q, r, h)
  {
  }

  lemma KeepConclude(st: Sup, tid: Tid, result: RunResult)
    requires Inv(st) && tid in st.tasks && st.tasks[tid].Worker? && CanConclude(st.tasks[tid].at, result)
    ensures Inv(Put(st, tid, Finishing(st.tasks[tid].id, Live, result)))
  {
    var id := st.tasks[tid].id;
    Holds(st, tid, id);
    var row, l := st.table.rows[id], st.local[id];
    ConcludePlace(id, st.tasks[tid], result, row, l, id in Queue(st), id in Slots(st), id in Held(st));
    KeepOne(st, tid, Finishing(id, Live, result), id, row, l);
    OnlyTheTask(st, tid, Finishing(id, Live, result), id);
  }

  lemma PollPlace(id: RunId, task: Task, result: RunResult, row: Row, l: Local, q: bool, r: bool, h: bool)
    requires task.Worker? && task.id == id && task.at == In(Starting) && result.cleanup == Complete
    requires l.place.With? && PlaceOk(id, row, l, Some(task), q, r, h)
    ensures PlaceOk(id, row, l, Some(Finishing(id, Live, result)), q, r, h)
    ensures PlaceOk(id, row, l, Some(Worker(id, Cleared)), q, r, h)
  {
  }

  lemma KeepPoll(st: Sup, tid: Tid, result: RunResult)
    requires Inv(st) && tid in st.tasks && st.tasks[tid].Worker? && st.tasks[tid].at == In(Starting)
    requires result.cleanup == Complete
    ensures Inv(DoPoll(st, tid, result))
  {
    var id := st.tasks[tid].id;
    Holds(st, tid, id);
    var row, l := st.table.rows[id], st.local[id];
    PollPlace(id, st.tasks[tid], result, row, l, id in Queue(st), id in Slots(st), id in Held(st));
    var next := if l.cancel then Finishing(id, Live, result) else Worker(id, Cleared);
    KeepOne(st, tid, next, id, row, l);
    OnlyTheTask(st, tid, next, id);
  }

  lemma OnlyTheTask(st: Sup, tid: Tid, task: Task, id: RunId)
    requires id in st.table.rows && id in st.local
    ensures Put(st, tid, task) == Moved(st, tid, task, id, st.table.rows[id], st.local[id])
  {
    assert st.table.rows[id := st.table.rows[id]] == st.table.rows;
    assert st.local[id := st.local[id]] == st.local;
  }

  lemma KeepInsert(st: Sup, tid: Tid, requestId: string, fingerprint: string, request: Request, now: nat)
    requires Inv(st) && tid !in st.tasks
    ensures Inv(DoInsert(st, tid, requestId, fingerprint, request, now))
  {
    var (table, r) := InsertRun(st.table, requestId, fingerprint, now);
    if r.Created? {
      InsertKeepsSeparated(st.table, requestId, fingerprint, now);
      var row := Row(requestId, fingerprint, now, Queued, Pending, 0, None);
      KeepAdded(st, tid, r.id, row, table, Inserted(r.id, request), UNKNOWN.(place := With(tid)));
    }
  }

  lemma KeepAdded(st: Sup, tid: Tid, id: RunId, row: Row, table: Table, task: Task, l: Local)
    requires Inv(st) && tid !in st.tasks && id !in st.table.rows
    requires Separated(table) && table.rows == st.table.rows[id := row]
    requires l.place == With(tid) && Owned(task) == {id} && TaskShape(task)
    requires PlaceOk(id, row, l, Some(task), false, false, false)
    ensures Inv(Note(Put(st, tid, task).(table := table), id, l))
  {
    var t := Note(Put(st, tid, task).(table := table), id, l);
    AddedRun(st, tid, id, row, table, task, l);
    AddedAside(st, tid, id, row, table, task, l);
    Rebuild(st, t, {id}, {tid});
  }

  lemma AddedAside(st: Sup, tid: Tid, id: RunId, row: Row, table: Table, task: Task, l: Local)
    requires table.rows == st.table.rows[id := row] && l.place == With(tid) && Owned(task) == {id} && TaskShape(task)
    ensures var t := Note(Put(st, tid, task).(table := table), id, l);
            && TaskWf(t, tid)
            && (forall x: RunId {:trigger SameRun(st, t, x)} :: x !in {id} ==> SameRun(st, t, x))
            && (forall x: Tid {:trigger SameTask(st, t, x)} :: x !in {tid} ==> SameTask(st, t, x))
  {
  }

  lemma AddedRun(st: Sup, tid: Tid, id: RunId, row: Row, table: Table, task: Task, l: Local)
    requires Keyed(st) && tid !in st.tasks && id !in st.table.rows
    requires Separated(table) && table.rows == st.table.rows[id := row]
    requires l.place == With(tid) && PlaceOk(id, row, l, Some(task), false, false, false)
    ensures var t := Note(Put(st, tid, task).(table := table), id, l);
            Keyed(t) && RunOk(t, id)
  {
    var t := Note(Put(st, tid, task).(table := table), id, l);
    assert id !in Queue(st) + Slots(st) + Held(st);
    assert t.local.Keys == st.local.Keys + {id} && t.table.rows.Keys == st.table.rows.Keys + {id};
    assert Holder(t, l) == Some(task);
  }

  // ------------------------------------- steps that split the head off a list

  lemma TailPlace(id: RunId, task: Task, rest: Task, row: Row, l: Local, q: bool, r: bool, h: bool)
    requires l.place.With? && PlaceOk(id, row, l, Some(task), q, r, h) && id in Owned(rest)
    requires (task.Spawning? && rest.Spawning?) || (task.Expiring? && rest.Expiring?)
    ensures PlaceOk(id, row, l, Some(rest), q, r, h)
  {
  }

  lemma KeepSplit(st: Sup, tid: Tid, rest: Option<Task>, forked: Tid, task: Task, id: RunId, l: Local)
    requires Inv(st) && tid in st.tasks && forked !in st.tasks && id in Owned(st.tasks[tid])
    requires rest.None? ==> Owned(st.tasks[tid]) == {id}
    requires rest.Some? ==> Owned(rest.value) == Owned(st.tasks[tid]) - {id} && TaskShape(rest.value)
    requires rest.Some? ==> (st.tasks[tid].Spawning? && rest.value.Spawning?) || (st.tasks[tid].Expiring? && rest.value.Expiring?)
    requires Owned(task) == {id} && TaskShape(task) && l.place == With(forked)
    requires id in st.table.rows
    requires PlaceOk(id, st.table.rows[id], l, Some(task), id in Queue(st), id in Slots(st), id in Held(st))
    ensures Inv(Split(st, tid, rest, forked, task, id, l))
  {
    var t := Split(st, tid, rest, forked, task, id, l);
    Holds(st, tid, id);
    SplitIsKeyed(st, tid, rest, forked, task, id, l);
    SplitRuns(st, tid, rest, forked, task, id, l);
    SplitTasks(st, tid, rest, forked, task, id, l);
    SplitFrame(st, tid, rest, forked, task, id, l);
    RebuildSplit(st, t, tid, forked);
  }

  /** Only what the two tasks hold has to be looked at. */
  lemma RebuildSplit(st: Sup, t: Sup, tid: Tid, forked: Tid)
    requires Inv(st) && Keyed(t) && tid in st.tasks && forked !in st.tasks
    requires forall x: RunId {:trigger SameRun(st, t, x)} :: x !in Owned(st.tasks[tid]) ==> SameRun(st, t, x)
    requires forall x: Tid {:trigger SameTask(st, t, x)} :: x !in {tid, forked} ==> SameTask(st, t, x)
    requires forall x :: x in Owned(st.tasks[tid]) ==> x in st.local && st.local[x].place == With(tid)
    requires forall x {:trigger RunOk(t, x)} :: x in Owned(st.tasks[tid]) ==> RunOk(t, x)
    requires forked in t.tasks && TaskWf(t, forked) && (tid in t.tasks ==> TaskWf(t, tid))
    ensures Inv(t)
  {
    Rebuild(st, t, Owned(st.tasks[tid]), {tid, forked});
  }

  /** Nothing else changes. */
  lemma SplitFrame(st: Sup, tid: Tid, rest: Option<Task>, forked: Tid, task: Task, id: RunId, l: Local)
    requires id in st.local && tid in st.tasks && id in Owned(st.tasks[tid])
    ensures var t := Split(st, tid, rest, forked, task, id, l);
            && (forall x: RunId {:trigger SameRun(st, t, x)} :: x !in Owned(st.tasks[tid]) ==> SameRun(st, t, x))
            && (forall x: Tid {:trigger SameTask(st, t, x)} :: x !in {tid, forked} ==> SameTask(st, t, x))
  {
  }

  lemma SplitIsKeyed(st: Sup, tid: Tid, rest: Option<Task>, forked: Tid, task: Task, id: RunId, l: Local)
    requires Keyed(st) && id in st.local
    ensures Keyed(Split(st, tid, rest, forked, task, id, l))
  {
    assert st.local[id := l].Keys == st.local.Keys;
  }

  lemma SplitRuns(st: Sup, tid: Tid, rest: Option<Task>, forked: Tid, task: Task, id: RunId, l: Local)
    requires Inv(st) && tid in st.tasks && forked !in st.tasks && id in Owned(st.tasks[tid])
    requires rest.None? ==> Owned(st.tasks[tid]) == {id}
    requires rest.Some? ==> Owned(rest.value) == Owned(st.tasks[tid]) - {id}
    requires rest.Some? ==> (st.tasks[tid].Spawning? && rest.value.Spawning?) || (st.tasks[tid].Expiring? && rest.value.Expiring?)
    requires id in st.table.rows && l.place == With(forked)
    requires PlaceOk(id, st.table.rows[id], l, Some(task), id in Queue(st), id in Slots(st), id in Held(st))
    ensures forall x {:trigger RunOk(Split(st, tid, rest, forked, task, id, l), x)} :: x in Owned(st.tasks[tid]) ==>
              RunOk(Split(st, tid, rest, forked, task, id, l), x)
    ensures forall x :: x in Owned(st.tasks[tid]) ==> x in st.local && st.local[x].place == With(tid)
  {
    forall x | x in Owned(st.tasks[tid])
      ensures x in st.local && st.local[x].place == With(tid) && RunOk(Split(st, tid, rest, forked, task, id, l), x)
    {
      Holds(st, tid, x);
      if x != id {
        TailRun(st, tid, rest.value, forked, task, id, l, x);
      }
    }
  }

  lemma SplitTasks(st: Sup, tid: Tid, rest: Option<Task>, forked: Tid, task: Task, id: RunId, l: Local)
    requires tid in st.tasks && forked !in st.tasks
    requires forall x :: x in Owned(st.tasks[tid]) ==> x in st.local && st.local[x].place == With(tid)
    requires rest.Some? ==> Owned(rest.value) == Owned(st.tasks[tid]) - {id} && TaskShape(rest.value)
    requires Owned(task) == {id} && TaskShape(task) && l.place == With(forked)
    ensures var t := Split(st, tid, rest, forked, task, id, l);
            TaskWf(t, forked) && (tid in t.tasks ==> TaskWf(t, tid))
  {
  }

  lemma TailRun(st: Sup, tid: Tid, rest: Task, forked: Tid, task: Task, id: RunId, l: Local, x: RunId)
    requires Inv(st) && tid in st.tasks && forked !in st.tasks && x in Owned(rest) && x in Owned(st.tasks[tid]) && x != id
    requires (st.tasks[tid].Spawning? && rest.Spawning?) || (st.tasks[tid].Expiring? && rest.Expiring?)
    ensures RunOk(Split(st, tid, Some(rest), forked, task, id, l), x)
  {
    Holds(st, tid, x);
    TailPlace(x, st.tasks[tid], rest, st.table.rows[x], st.local[x], x in Queue(st), x in Slots(st), x in Held(st));
  }

  lemma HeadAndTail(ids: seq<RunId>)
    requires Distinct(ids) && ids != []
    ensures Distinct(ids[1..]) && Elements(ids[1..]) == Elements(ids) - {ids[0]} && ids[0] in Elements(ids)
    ensures ids[1..] == [] ==> Elements(ids) == {ids[0]}
  {
    assert ids == [ids[0]] + ids[1..];
  }

  lemma SpawnPlace(id: RunId, task: Task, row: Row, l: Local, worker: Tid, q: bool, r: bool, h: bool)
    requires task.Spawning? && l.place.With? && PlaceOk(id, row, l, Some(task), q, r, h)
    ensures PlaceOk(id, row, l.(place := With(worker), workers := l.workers + 1), Some(Worker(id, Begin)), q, r, h)
  {
  }

  lemma KeepSpawn(st: Sup, tid: Tid, worker: Tid)
    requires Inv(st) && tid in st.tasks && st.tasks[tid].Spawning? && st.tasks[tid].ids != [] && worker !in st.tasks
    ensures Inv(DoSpawn(st, tid, worker))
  {
    var ids := st.tasks[tid].ids;
    var id := ids[0];
    assert TaskShape(st.tasks[tid]) by { assert TaskWf(st, tid); }
    HeadAndTail(ids);
    Holds(st, tid, id);
    var l := st.local[id];
    SpawnPlace(id, st.tasks[tid], st.table.rows[id], l, worker, id in Queue(st), id in Slots(st), id in Held(st));
    var t := Split(st, tid, Spawnings(ids[1..]), worker, Worker(id, Begin), id, l.(place := With(worker), workers := l.workers + 1));
    KeepSplit(st, tid, Spawnings(ids[1..]), worker, Worker(id, Begin), id, l.(place := With(worker), workers := l.workers + 1));
    assert DoSpawn(st, tid, worker) == t;
  }

  lemma ExpireNextPlace(id: RunId, task: Task, row: Row, l: Local, finisher: Tid, result: RunResult, q: bool, r: bool, h: bool)
    requires task.Expiring? && l.place.With? && PlaceOk(id, row, l, Some(task), q, r, h) && result.cleanup == Complete
    ensures l.registered && Deref(l, Live).phase != Finished
    ensures PlaceOk(id, row, l.(place := With(finisher)), Some(Finishing(id, Live, result)), q, r, h)
  {
  }

  lemma KeepExpireNext(st: Sup, tid: Tid, finisher: Tid, result: RunResult)
    requires Inv(st) && tid in st.tasks && st.tasks[tid].Expiring? && st.tasks[tid].ids != [] && finisher !in st.tasks
    requires result.cleanup == Complete
    ensures Inv(DoExpireNext(st, tid, finisher, result))
  {
    var ids := st.tasks[tid].ids;
    var id := ids[0];
    assert TaskShape(st.tasks[tid]) by { assert TaskWf(st, tid); }
    HeadAndTail(ids);
    Holds(st, tid, id);
    var l := st.local[id];
    ExpireNextPlace(id, st.tasks[tid], st.table.rows[id], l, finisher, result, id in Queue(st), id in Slots(st), id in Held(st));
    KeepSplit(st, tid, Expirings(ids[1..]), finisher, Finishing(id, Live, result), id, l.(place := With(finisher)));
  }

  /** Whoever waits for a worker is still registered, so nobody is skipped. */
  lemma SpawningIsRegistered(st: Sup, tid: Tid)
    requires Inv(st) && tid in st.tasks && st.tasks[tid].Spawning? && st.tasks[tid].ids != []
    ensures At(st, st.tasks[tid].ids[0]).registered
  {
    Holds(st, tid, st.tasks[tid].ids[0]);
  }

  lemma KeepLookUp(st: Sup, tid: Tid)
    requires Inv(st) && tid in st.tasks && st.tasks[tid].Spawning? && st.tasks[tid].ids != []
    ensures Inv(DoLookUp(st, tid))
  {
    SpawningIsRegistered(st, tid);
    var ids := st.tasks[tid].ids;
    var t := Put(st, tid, Spawning(ids, true));
    assert DoLookUp(st, tid) == t;
    forall id | id in Elements(ids) ensures id in st.local && st.local[id].place == With(tid) && RunOk(t, id) {
      LookedUpRun(st, tid, id);
    }
    LookedUpTask(st, tid);
    Rebuild(st, t, Elements(ids), {tid});
  }

  lemma LookedUpRun(st: Sup, tid: Tid, id: RunId)
    requires Inv(st) && tid in st.tasks && st.tasks[tid].Spawning? && id in st.tasks[tid].ids
    ensures id in st.local && st.local[id].place == With(tid)
    ensures RunOk(Put(st, tid, Spawning(st.tasks[tid].ids, true)), id)
  {
    assert id in Owned(st.tasks[tid]);
    Holds(st, tid, id);
  }

  lemma LookedUpTask(st: Sup, tid: Tid)
    requires Inv(st) && tid in st.tasks && st.tasks[tid].Spawning?
    ensures TaskWf(Put(st, tid, Spawning(st.tasks[tid].ids, true)), tid)
  {
    assert TaskWf(st, tid);
  }

  // ---------------------------------------- steps that go through the scheduler

  ghost predicate SetsAside(st: Sup, t: Sup, ids: set<RunId>) {
    Queue(t) - ids == Queue(st) - ids && Slots(t) - ids == Slots(st) - ids && Held(t) - ids == Held(st) - ids
  }

  /** The runs outside `ids` are where they were. */
  ghost predicate Aside(st: Sup, t: Sup, ids: set<RunId>) {
    && SetsAside(st, t, ids)
    && t.local.Keys == st.local.Keys
    && forall x :: x in st.local && x !in ids ==> t.local[x] == st.local[x]
  }

  /** Runs the scheduler did not move keep their place. */
  lemma RebuildScheduled(st: Sup, t: Sup, ids: set<RunId>, tid: Tid)
    requires Inv(st) && Tidy(t.sched) && t.table == st.table && Aside(st, t, ids)
    requires ids <= st.table.rows.Keys
    requires t.tasks - {tid} == st.tasks - {tid}
    requires tid in st.tasks ==> Owned(st.tasks[tid]) <= ids
    requires forall x :: x in ids && st.local[x].place.With? ==> st.local[x].place.tid == tid
    requires forall x {:trigger RunOk(t, x)} :: x in ids ==> RunOk(t, x)
    requires tid in t.tasks ==> TaskWf(t, tid)
    ensures Inv(t)
  {
    forall x: RunId | x !in ids ensures SameRun(st, t, x) {
      assert x in Queue(t) <==> x in Queue(t) - ids;
      assert x in Slots(t) <==> x in Slots(t) - ids;
      assert x in Held(t) <==> x in Held(t) - ids;
    }
    forall k: Tid | k !in {tid} ensures SameTask(st, t, k) {
      assert k in t.tasks <==> k in t.tasks - {tid};
      assert k in t.tasks ==> (t.tasks - {tid})[k] == t.tasks[k];
    }
    assert Keyed(t) by {
      forall x | x in Queue(t) + Slots(t) + Held(t) ensures x in t.table.rows {
        if x !in ids {
          assert SameRun(st, t, x);
        }
      }
    }
    Rebuild(st, t, ids, {tid});
  }

  lemma SubmitPlace(id: RunId, task: Task, row: Row, l: Local, refusal: RunResult)
    requires task.Registered? && task.id == id && l.place.With? && refusal.cleanup == Complete
    requires PlaceOk(id, row, l, Some(task), false, false, false)
    ensures PlaceOk(id, row, l.(admitted := true), Some(Spawning([id], true)), false, true, false)
    ensures PlaceOk(id, row, l.(place := InQueue), None, true, false, false)
    ensures PlaceOk(id, row, l, Some(Finishing(id, Live, refusal)), false, false, false)
  {
  }

  lemma KeepStarted(st: Sup, tid: Tid, id: RunId, sched: S.State)
    requires Inv(st) && tid in st.tasks && st.tasks[tid].Registered? && st.tasks[tid].id == id
    requires Tidy(sched) && sched.queue == st.sched.queue && sched.held == st.sched.held
    requires S.RunningIds(sched.running) == Slots(st) + {id}
    ensures Inv(Started(st, tid, id, sched))
  {
    Holds(st, tid, id);
    SubmitPlace(id, st.tasks[tid], st.table.rows[id], st.local[id], REFUSAL);
    var t := Started(st, tid, id, sched);
    assert t.local.Keys == st.local.Keys;
    RebuildScheduled(st, t, {id}, tid);
  }

  const REFUSAL: RunResult := RunResult(SpawnFailed, None, None, None, 0, 0, Complete, None)

  lemma KeepEnqueued(st: Sup, tid: Tid, id: RunId, sched: S.State)
    requires Inv(st) && tid in st.tasks && st.tasks[tid].Registered? && st.tasks[tid].id == id
    requires Tidy(sched) && sched.running == st.sched.running && sched.held == st.sched.held
    requires S.QueueIds(sched.queue) == Queue(st) + {id}
    ensures Inv(Enqueued(st, tid, id, sched))
  {
    Holds(st, tid, id);
    SubmitPlace(id, st.tasks[tid], st.table.rows[id], st.local[id], REFUSAL);
    var t := Enqueued(st, tid, id, sched);
    assert t.local.Keys == st.local.Keys;
    RebuildScheduled(st, t, {id}, tid);
  }

  lemma KeepSubmit(st: Sup, tid: Tid, now: nat, refusal: RunResult)
    requires Inv(st) && tid in st.tasks && st.tasks[tid].Registered? && refusal.cleanup == Complete
    ensures Inv(DoSubmit(st, tid, now, refusal))
  {
    var id, rq := st.tasks[tid].id, st.tasks[tid].request;
    Holds(st, tid, id);
    SubmitMoves(st.sched, id, rq.project, rq.memory, rq.timeout, now);
    var (sched, decision) := S.Submit(st.sched, id, rq.project, rq.memory, rq.timeout, now);
    match decision {
      case Start(_) => KeepStarted(st, tid, id, sched);
      case Waiting(_) => KeepEnqueued(st, tid, id, sched);
      case Rejected(_) =>
        SubmitPlace(id, st.tasks[tid], st.table.rows[id], st.local[id], refusal);
        KeepOne(st, tid, Finishing(id, Live, refusal), id, st.table.rows[id], st.local[id]);
        OnlyTheTask(st, tid, Finishing(id, Live, refusal), id);
    }
  }

  /** A run that waits in the queue, as the invariant sees it. */
  lemma Waits(st: Sup, id: RunId)
    requires Inv(st) && id in Queue(st)
    ensures id in st.table.rows && id in st.local && st.local[id].place == InQueue
    ensures id !in Slots(st) && id !in Held(st)
    ensures PlaceOk(id, st.table.rows[id], st.local[id], None, true, false, false)
  {
    assert RunOk(st, id);
  }

  lemma ExpirePlace(id: RunId, row: Row, l: Local, tid: Tid, ids: seq<RunId>)
    requires l.place == InQueue && PlaceOk(id, row, l, None, true, false, false) && id in ids
    ensures PlaceOk(id, row, l.(place := With(tid)), Some(Expiring(ids)), false, false, false)
  {
  }

  lemma KeepTicked(st: Sup, tid: Tid, sched: S.State, ids: seq<RunId>)
    requires Inv(st) && tid !in st.tasks && Tidy(sched) && Distinct(ids) && Elements(ids) <= Queue(st)
    requires sched.running == st.sched.running && sched.held == st.sched.held
    requires S.QueueIds(sched.queue) == Queue(st) - Elements(ids)
    ensures Inv(Ticked(st, tid, sched, ids))
  {
    var t := Ticked(st, tid, sched, ids);
    assert t.local.Keys == st.local.Keys;
    forall id | id in Elements(ids)
      ensures id in st.table.rows && id in st.local && st.local[id].place == InQueue && RunOk(t, id)
    {
      TickedRun(st, tid, sched, ids, id);
    }
    TickedTask(st, tid, sched, ids);
    TickedAside(st, tid, sched, ids);
    RebuildScheduled(st, t, Elements(ids), tid);
  }

  lemma TickedRun(st: Sup, tid: Tid, sched: S.State, ids: seq<RunId>, id: RunId)
    requires Inv(st) && tid !in st.tasks && Elements(ids) <= Queue(st) && id in ids
    requires sched.running == st.sched.running && sched.held == st.sched.held
    requires S.QueueIds(sched.queue) == Queue(st) - Elements(ids)
    ensures id in st.table.rows && id in st.local && st.local[id].place == InQueue
    ensures RunOk(Ticked(st, tid, sched, ids), id)
  {
    assert id in Elements(ids);
    Waits(st, id);
    ExpirePlace(id, st.table.rows[id], st.local[id], tid, ids);
  }

  lemma TickedAside(st: Sup, tid: Tid, sched: S.State, ids: seq<RunId>)
    requires tid !in st.tasks && sched.running == st.sched.running && sched.held == st.sched.held
    requires S.QueueIds(sched.queue) == Queue(st) - Elements(ids)
    ensures var t := Ticked(st, tid, sched, ids);
            Aside(st, t, Elements(ids)) && t.tasks - {tid} == st.tasks - {tid}
  {
    assert Ticked(st, tid, sched, ids).local.Keys == st.local.Keys;
  }

  lemma TickedTask(st: Sup, tid: Tid, sched: S.State, ids: seq<RunId>)
    requires Distinct(ids) && Elements(ids) <= st.local.Keys
    ensures var t := Ticked(st, tid, sched, ids);
            tid in t.tasks ==> TaskWf(t, tid)
  {
  }

  lemma KeepTick(st: Sup, tid: Tid, now: nat)
    requires Inv(st) && tid !in st.tasks
    ensures Inv(DoTick(st, tid, now))
  {
    ExpireMoves(st.sched, now);
    var (sched, ids) := S.Expire(st.sched, now);
    KeepTicked(st, tid, sched, ids);
  }

  lemma CancelPlace(id: RunId, task: Task, result: RunResult, row: Row, l: Local, tid: Tid)
    requires task.Cancelling? && task.id == id && TaskShape(task) && result.cleanup == Complete
    requires l.place == InQueue && PlaceOk(id, row, l, None, true, false, false)
    ensures PlaceOk(id, row, l.(place := With(tid)), Some(Finishing(id, task.ref, result)), false, false, false)
  {
  }

  lemma KeepTaken(st: Sup, tid: Tid, id: RunId, result: RunResult, sched: S.State)
    requires Inv(st) && tid in st.tasks && st.tasks[tid].Cancelling? && st.tasks[tid].id == id && result.cleanup == Complete
    requires Tidy(sched) && sched.running == st.sched.running && sched.held == st.sched.held
    requires id in Queue(st) && S.QueueIds(sched.queue) == Queue(st) - {id}
    ensures Inv(Taken(st, tid, Finishing(id, st.tasks[tid].ref, result), sched))
  {
    var t := Taken(st, tid, Finishing(id, st.tasks[tid].ref, result), sched);
    assert TaskShape(st.tasks[tid]) by { assert TaskWf(st, tid); }
    Waits(st, id);
    CancelPlace(id, st.tasks[tid], result, st.table.rows[id], st.local[id], tid);
    assert t.local.Keys == st.local.Keys;
    RebuildScheduled(st, t, {id}, tid);
  }

  lemma KeepCancelTake(st: Sup, tid: Tid, result: RunResult)
    requires Inv(st) && tid in st.tasks && st.tasks[tid].Cancelling? && result.cleanup == Complete
    ensures Inv(DoCancelTake(st, tid, result))
  {
    var id := st.tasks[tid].id;
    var (sched, found) := S.CancelQueued(st.sched, id);
    CancelMoves(st.sched, id);
    if found {
      KeepTaken(st, tid, id, result, sched);
    } else {
      RebuildScheduled(st, Put(st, tid, Flagging(id, st.tasks[tid].ref)).(sched := sched), {}, tid);
    }
  }

  lemma AdmitPlace(id: RunId, row: Row, l: Local, tid: Tid, ids: seq<RunId>)
    requires l.place == InQueue && PlaceOk(id, row, l, None, true, false, false) && id in ids
    ensures PlaceOk(id, row, l.(place := With(tid), admitted := true), Some(Spawning(ids, false)), false, true, false)
  {
  }

  lemma ReleasePlace(id: RunId, task: Task, row: Row, l: Local, r: bool)
    requires task.Releasing? && task.id == id && l.place.With? && PlaceOk(id, row, l, Some(task), false, r, false)
    ensures PlaceOk(id, row, l.(place := Done), None, false, false, task.result.cleanup != Complete && r)
  {
  }

  /** The scheduler after a release, as far as ids are concerned. */
  ghost predicate ReleasedSched(st: Sup, id: RunId, hold: bool, sched: S.State, ids: seq<RunId>) {
    && Tidy(sched) && Distinct(ids) && Elements(ids) <= Queue(st)
    && S.QueueIds(sched.queue) == Queue(st) - Elements(ids)
    && S.RunningIds(sched.running) == Slots(st) - {id} + Elements(ids)
    && S.RunningIds(sched.held) == Held(st) + (if hold && id in Slots(st) then {id} else {})
  }

  lemma ReleaseEffect(st: Sup, tid: Tid, now: nat)
    requires Inv(st) && tid in st.tasks && st.tasks[tid].Releasing?
    ensures var id := st.tasks[tid].id;
            var hold := st.tasks[tid].result.cleanup != Complete;
            var r := S.Release(st.sched, id, hold, now);
            ReleasedSched(st, id, hold, r.0, r.1)
  {
    var id, hold := st.tasks[tid].id, st.tasks[tid].result.cleanup != Complete;
    Holds(st, tid, id);
    if id in Slots(st) {
      ReleaseMoves(st.sched, id, hold, now);
    } else {
      ReleaseWithoutSlot(st.sched, id, hold, now);
    }
  }

  lemma ReleasedRun(st: Sup, tid: Tid, id: RunId, sched: S.State, ids: seq<RunId>)
    requires Inv(st) && tid in st.tasks && st.tasks[tid].Releasing? && st.tasks[tid].id == id
    requires ReleasedSched(st, id, st.tasks[tid].result.cleanup != Complete, sched, ids)
    ensures RunOk(Released(st, tid, id, sched, ids), id)
  {
    Holds(st, tid, id);
    ReleasePlace(id, st.tasks[tid], st.table.rows[id], st.local[id], id in Slots(st));
    var t := Released(st, tid, id, sched, ids);
    assert id !in Elements(ids);
    assert t.local[id] == st.local[id].(place := Done);
  }

  lemma AdmittedRun(st: Sup, tid: Tid, id: RunId, sched: S.State, ids: seq<RunId>, x: RunId)
    requires Inv(st) && tid in st.tasks && st.tasks[tid].Releasing? && st.tasks[tid].id == id
    requires ReleasedSched(st, id, st.tasks[tid].result.cleanup != Complete, sched, ids) && x in Elements(ids)
    ensures var t := Released(st, tid, id, sched, ids);
            && x in st.local && st.local[x].place == InQueue
            && RunOk(t, x) && t.local[x].place == With(tid)
  {
    Holds(st, tid, id);
    Waits(st, x);
    AdmitPlace(x, st.table.rows[x], st.local[x], tid, ids);
    var t := Released(st, tid, id, sched, ids);
    assert t.local[x] == st.local[x].(place := With(tid), admitted := true);
  }

  lemma KeepReleased(st: Sup, tid: Tid, id: RunId, sched: S.State, ids: seq<RunId>)
    requires Inv(st) && tid in st.tasks && st.tasks[tid].Releasing? && st.tasks[tid].id == id
    requires ReleasedSched(st, id, st.tasks[tid].result.cleanup != Complete, sched, ids)
    ensures Inv(Released(st, tid, id, sched, ids))
  {
    var t := Released(st, tid, id, sched, ids);
    forall x | x in {id} + Elements(ids) ensures ReleasedOk(st, t, tid, x) {
      ReleasedAny(st, tid, id, sched, ids, x);
    }
    Holds(st, tid, id);
    assert Elements(ids) <= st.local.Keys;
    ReleasedAside(st, tid, id, sched, ids);
    ReleasedTask(st, t, tid, id, sched, ids);
    RebuildScheduled(st, t, {id} + Elements(ids), tid);
  }

  ghost predicate ReleasedOk(st: Sup, t: Sup, tid: Tid, x: RunId) {
    && x in st.table.rows && x in st.local && RunOk(t, x)
    && (st.local[x].place.With? ==> st.local[x].place.tid == tid)
  }

  lemma ReleasedAny(st: Sup, tid: Tid, id: RunId, sched: S.State, ids: seq<RunId>, x: RunId)
    requires Inv(st) && tid in st.tasks && st.tasks[tid].Releasing? && st.tasks[tid].id == id
    requires ReleasedSched(st, id, st.tasks[tid].result.cleanup != Complete, sched, ids) && x in {id} + Elements(ids)
    ensures ReleasedOk(st, Released(st, tid, id, sched, ids), tid, x)
  {
    if x in Elements(ids) {
      AdmittedRun(st, tid, id, sched, ids, x);
    } else {
      Holds(st, tid, id);
      ReleasedRun(st, tid, id, sched, ids);
    }
  }

  lemma ReleasedTask(st: Sup, t: Sup, tid: Tid, id: RunId, sched: S.State, ids: seq<RunId>)
    requires t == Released(st, tid, id, sched, ids) && Distinct(ids)
    requires Elements(ids) <= st.local.Keys
    ensures tid in t.tasks ==> TaskWf(t, tid)
  {
  }

  lemma ReleasedAside(st: Sup, tid: Tid, id: RunId, sched: S.State, ids: seq<RunId>)
    requires id in st.local
    requires exists hold :: ReleasedSched(st, id, hold, sched, ids)
    ensures var t := Released(st, tid, id, sched, ids);
            Aside(st, t, {id} + Elements(ids)) && t.tasks - {tid} == st.tasks - {tid}
  {
    var t := Released(st, tid, id, sched, ids);
    assert t.local.Keys == st.local.Keys;
  }

  lemma KeepRelease(st: Sup, tid: Tid, now: nat)
    requires Inv(st) && tid in st.tasks && st.tasks[tid].Releasing?
    ensures Inv(DoRelease(st, tid, now))
  {
    var id := st.tasks[tid].id;
    ReleaseEffect(st, tid, now);
    var r := S.Release(st.sched, id, st.tasks[tid].result.cleanup != Complete, now);
    KeepReleased(st, tid, id, r.0, r.1);
  }

  // ------------------------------------------------ calls that hold no run

  lemma KeepCall(st: Sup, tid: Tid, task: Option<Task>)
    requires Inv(st) && (tid in st.tasks ==> Owned(st.tasks[tid]) == {})
    requires task.Some? ==> Owned(task.value) == {} && TaskShape(task.value)
    ensures Inv(if task.Some? then Put(st, tid, task.value) else Drop(st, tid))
  {
    var t := if task.Some? then Put(st, tid, task.value) else Drop(st, tid);
    Rebuild(st, t, {}, {tid});
  }

  /** What was returned, and the cancel flag, are nothing the invariant speaks of. */
  lemma KeepMarked(st: Sup, id: RunId, cancel: bool, published: Option<View>)
    requires Inv(st) && id in st.local
    ensures Inv(Note(st, id, st.local[id].(cancel := cancel, published := published)))
  {
    var t := Note(st, id, st.local[id].(cancel := cancel, published := published));
    assert t.local.Keys == st.local.Keys;
    forall x | x in t.table.rows ensures RunOk(t, x) {
      assert RunOk(st, x);
    }
    forall k | k in t.tasks ensures TaskWf(t, k) {
      assert TaskWf(st, k);
    }
  }

  lemma KeepCancelCall(st: Sup, ev: Event)
    requires Inv(st) && Enabled(st, ev) && ev.CancelCall?
    ensures Inv(Apply(st, ev))
  {
    KeepCall(st, ev.tid, Some(if At(st, ev.id).registered then CancelLoaded(ev.id, Live) else CancelMissed(ev.id)));
  }

  lemma KeepCancelRead(st: Sup, ev: Event)
    requires Inv(st) && Enabled(st, ev) && ev.CancelRead?
    ensures Inv(Apply(st, ev))
  {
    var id := st.tasks[ev.tid].id;
    if id in st.table.rows {
      assert RunOk(st, id);
      KeepCall(st, ev.tid, Some(CancelLoaded(id, Copy(RowView(st.table.rows[id])))));
    } else {
      KeepCall(st, ev.tid, None);
    }
  }

  lemma KeepCancelCheck(st: Sup, ev: Event)
    requires Inv(st) && Enabled(st, ev) && ev.CancelCheck?
    ensures Inv(Apply(st, ev))
  {
    var task := st.tasks[ev.tid];
    assert TaskWf(st, ev.tid);
    KeepCall(st, ev.tid, CancelNext(task, Deref(At(st, task.id), task.ref).phase));
  }

  lemma KeepGetCall(st: Sup, ev: Event)
    requires Inv(st) && Enabled(st, ev) && ev.GetCall?
    ensures Inv(Apply(st, ev))
  {
    var l := At(st, ev.id);
    KeepCall(st, ev.tid, Some(if l.registered then GetLoaded(ev.id, Live, l.published) else GetMissed(ev.id, l.published)));
  }

  lemma KeepGetRead(st: Sup, ev: Event)
    requires Inv(st) && Enabled(st, ev) && ev.GetRead?
    ensures Inv(Apply(st, ev))
  {
    var task := st.tasks[ev.tid];
    KeepCall(st, ev.tid, GetNext(task, if task.id in st.table.rows then Some(RowView(st.table.rows[task.id])) else None));
  }

  lemma KeepGetReturn(st: Sup, ev: Event)
    requires Inv(st) && Enabled(st, ev) && ev.GetReturn?
    ensures Inv(Apply(st, ev))
  {
    var task := st.tasks[ev.tid];
    KeepCall(st, ev.tid, None);
    if task.id in st.local {
      var l := st.local[task.id];
      KeepMarked(Drop(st, ev.tid), task.id, l.cancel, Some(Deref(l, task.ref)));
    }
  }

  lemma KeepCancelFlag(st: Sup, ev: Event)
    requires Inv(st) && Enabled(st, ev) && ev.CancelFlag?
    ensures Inv(Apply(st, ev))
  {
    var task := st.tasks[ev.tid];
    KeepCall(st, ev.tid, None);
    if task.id in st.local {
      KeepMarked(Drop(st, ev.tid), task.id, true, st.local[task.id].published);
    }
  }

  lemma StepKeepsInv(st: Sup, ev: Event)
    requires Inv(st) && Enabled(st, ev)
    ensures Inv(Apply(st, ev))
  {
    match ev
    case Insert(tid, requestId, fingerprint, request, now) => KeepInsert(st, tid, requestId, fingerprint, request, now);
    case Register(tid) => KeepRegister(st, tid);
    case SubmitRun(tid, now, refusal) => KeepSubmit(st, tid, now, refusal);
    case LookUp(tid) => KeepLookUp(st, tid);
    case Spawn(tid, worker) => KeepSpawn(st, tid, worker);
    case Tick(tid, now) => KeepTick(st, tid, now);
    case ExpireNext(tid, finisher, result) => KeepExpireNext(st, tid, finisher, result);
    case EnterFinish(tid) => KeepEnterFinish(st, tid);
    case Store(tid) => KeepStore(st, tid);
    case Unregister(tid) => KeepUnregister(st, tid);
    case ReleaseSlot(tid, now) => KeepRelease(st, tid, now);
    case Move(tid, phase) => KeepMove(st, tid, phase);
    case Write(tid) => KeepWrite(st, tid);
    case Conclude(tid, result) => KeepConclude(st, tid, result);
    case CancelTake(tid, result) => KeepCancelTake(st, tid, result);
    case Poll(tid, result) => KeepPoll(st, tid, result);
    case CancelFlag(_) => KeepCancelFlag(st, ev);
    case ChangeLimits(_) => Rebuild(st, Apply(st, ev), {}, {});
    case CancelCall(_, _) => KeepCancelCall(st, ev);
    case CancelRead(_) => KeepCancelRead(st, ev);
    case CancelCheck(_) => KeepCancelCheck(st, ev);
    case GetCall(_, _) => KeepGetCall(st, ev);
    case GetRead(_) => KeepGetRead(st, ev);
    case GetReturn(_) => KeepGetReturn(st, ev);
  }

  /** The invariant holds after every run of every interleaving. */
  lemma {:induction false} RunKeepsInv(st: Sup, evs: seq<Event>)
    requires Inv(st) && IsRun(st, evs)
    ensures Inv(RunAll(st, evs))
    decreases |evs|
  {
    if evs != [] {
      StepKeepsInv(st, evs[0]);
      RunKeepsInv(Apply(st, evs[0]), evs[1..]);
    }
  }
}
