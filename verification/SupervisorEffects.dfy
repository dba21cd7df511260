/**
 What each call and each piece of work does from its first critical section to
 its last, when nothing comes between: the whole next state, said of the rows,
 slots, queue and tasks themselves.
 */
module SupervisorEffects {
  import opened Base
  import opened RunTableSpec
  import opened SchedulerIds
  import opened SchedulerEffects
  import opened SupervisorSpec
  import opened SupervisorInv
  import opened SupervisorSteps
  import opened SupervisorRace
  import opened SupervisorCancels
  import S = SchedulerSpec

  lemma RunOne(st: Sup, a: Event, t: Sup)
    requires Enabled(st, a) && Apply(st, a) == t
    ensures IsRun(st, [a]) && RunAll(st, [a]) == t
  {
    RunCons(st, a, []);
    assert [a] + [] == [a];
  }

  lemma RunThree(st: Sup, a: Event, b: Event, c: Event, mid: Sup, t: Sup)
    requires After(st, a, b, mid) && Enabled(mid, c) && Apply(mid, c) == t
    ensures IsRun(st, [a, b, c]) && RunAll(st, [a, b, c]) == t
  {
    RunOne(mid, c, t);
    RunTwo(st, a, b, mid, [c]);
    assert [a, b] + [c] == [a, b, c];
  }

  /** The state in which one run looks different and one task is gone. */
  function Ending(st: Sup, tid: Tid, id: RunId, l: Local): Sup {
    st.(local := st.local[id := l], tasks := st.tasks - {tid})
  }

  // ------------------------------------------------------------------- cancel

  /** A cancel looks in the registry, then in the table; a run in neither ends the call. */
  lemma CancelFinds(st: Sup, c: Tid, id: RunId)
    requires c !in st.tasks
    ensures var l := At(st, id);
            if l.registered then
              IsRun(st, [CancelCall(c, id)]) && RunAll(st, [CancelCall(c, id)]) == Put(st, c, CancelLoaded(id, Live))
            else
              && IsRun(st, [CancelCall(c, id), CancelRead(c)])
              && RunAll(st, [CancelCall(c, id), CancelRead(c)])
                 == (if id in st.table.rows
                     then var row := st.table.rows[id];
                          Put(st, c, CancelLoaded(id, Copy(View(row.phase, row.revision, row.result))))
                     else st)
  {
    if At(st, id).registered {
      RunOne(st, CancelCall(c, id), Put(st, c, CancelLoaded(id, Live)));
    } else {
      var mid := Put(st, c, CancelMissed(id));
      assert Apply(st, CancelCall(c, id)) == mid;
      assert Drop(mid, c).tasks == st.tasks;
      RunBoth(st, CancelCall(c, id), CancelRead(c), Apply(mid, CancelRead(c)));
    }
  }

  /** The cancel of a run that has started sets the flag of its slot, and does nothing else. */
  lemma CancelOfStarted(st: Sup, c: Tid, id: RunId)
    requires Has(st, c, CancelLoaded(id, Live)) && id in st.local && st.local[id].slot.Some?
    requires st.local[id].slot.value.phase in {Starting, Running, Stopping}
    ensures var evs := [CancelCheck(c), CancelFlag(c)];
            IsRun(st, evs) && RunAll(st, evs) == Ending(st, c, id, st.local[id].(cancel := true))
  {
    var mid := Put(st, c, Flagging(id, Live));
    assert Apply(st, CancelCheck(c)) == mid;
    FlagIsSet(st, c, id);
    RunBoth(st, CancelCheck(c), CancelFlag(c), Ending(st, c, id, st.local[id].(cancel := true)));
  }

  lemma FlagIsSet(st: Sup, c: Tid, id: RunId)
    requires id in st.local
    ensures var mid := Put(st, c, Flagging(id, Live));
            Enabled(mid, CancelFlag(c)) && Apply(mid, CancelFlag(c)) == Ending(st, c, id, st.local[id].(cancel := true))
  {
    assert Put(st, c, Flagging(id, Live)).tasks - {c} == st.tasks - {c};
  }

  /** The cancel of a run that waits takes it out of the queue, the others staying, and goes on to finish it. */
  lemma CancelOfWaiting(st: Sup, c: Tid, i: nat, result: RunResult)
    requires Inv(st) && i < |st.sched.queue| && Has(st, c, CancelLoaded(st.sched.queue[i].id, Live))
    requires result.outcome == Cancelled && result.cleanup == Complete
    ensures var id := st.sched.queue[i].id;
            var evs := [CancelCheck(c), CancelTake(c, result)];
            && id in st.local && IsRun(st, evs)
            && RunAll(st, evs)
               == st.(sched := st.sched.(queue := st.sched.queue[..i] + st.sched.queue[i + 1..]),
                      local := st.local[id := st.local[id].(place := With(c))],
                      tasks := st.tasks[c := Finishing(id, Live, result)])
  {
    var id := st.sched.queue[i].id;
    assert st.sched.queue[i] in st.sched.queue && id in Queue(st);
    Waits(st, id);
    CancelAnswers(st.sched, id);
    var mid := Put(st, c, Cancelling(id, Live));
    assert Apply(st, CancelCheck(c)) == mid;
    var t := Apply(mid, CancelTake(c, result));
    assert t.tasks == st.tasks[c := Finishing(id, Live, result)];
    RunBoth(st, CancelCheck(c), CancelTake(c, result), t);
  }

  /** The cancel of a run that is queued but not in the queue, because it is on its way in or out, sets the flag. */
  lemma CancelOfPassing(st: Sup, c: Tid, id: RunId, result: RunResult)
    requires Has(st, c, CancelLoaded(id, Live)) && id in st.local && st.local[id].slot.Some?
    requires st.local[id].slot.value.phase == Queued && id !in Queue(st)
    requires result.outcome == Cancelled && result.cleanup == Complete
    ensures var evs := [CancelCheck(c), CancelTake(c, result), CancelFlag(c)];
            IsRun(st, evs) && RunAll(st, evs) == Ending(st, c, id, st.local[id].(cancel := true))
  {
    NobodyTaken(st.sched.queue, id);
    var one := Put(st, c, Cancelling(id, Live));
    assert Apply(st, CancelCheck(c)) == one;
    var mid := Put(st, c, Flagging(id, Live));
    assert Apply(one, CancelTake(c, result)).tasks == mid.tasks;
    assert Apply(one, CancelTake(c, result)) == mid;
    FlagIsSet(st, c, id);
    RunThree(st, CancelCheck(c), CancelTake(c, result), CancelFlag(c), mid,
             Ending(st, c, id, st.local[id].(cancel := true)));
  }

  /** The cancel of a finished run, live or stored, ends and changes nothing. */
  lemma CancelOfFinished(st: Sup, c: Tid, id: RunId, ref: Ref)
    requires Has(st, c, CancelLoaded(id, ref))
    requires match ref
             case Live => id in st.local && st.local[id].slot.Some? && st.local[id].slot.value.phase == Finished
             case Copy(view) => view.phase == Finished
    ensures IsRun(st, [CancelCheck(c)]) && RunAll(st, [CancelCheck(c)]) == st.(tasks := st.tasks - {c})
  {
    RunOne(st, CancelCheck(c), st.(tasks := st.tasks - {c}));
  }

  // --------------------------------------------------------------------- read

  /** What a call returned is remembered, unless a later revision was returned before. */
  function Shown(l: Local, v: View): Local {
    if l.published.Some? && l.published.value.revision > v.revision then l else l.(published := Some(v))
  }

  /** A read of a registered run returns its live slot. */
  lemma GetOfLive(st: Sup, g: Tid, id: RunId)
    requires g !in st.tasks && id in st.local && st.local[id].registered && st.local[id].slot.Some?
    ensures var evs := [GetCall(g, id), GetReturn(g)];
            && IsRun(st, evs)
            && RunAll(st, evs) == st.(local := st.local[id := Shown(st.local[id], st.local[id].slot.value)])
  {
    var l := st.local[id];
    var mid := Put(st, g, GetLoaded(id, Live, l.published));
    assert Apply(st, GetCall(g, id)) == mid;
    ReturnShows(st, g, id, Live, l.published);
    RunBoth(st, GetCall(g, id), GetReturn(g), st.(local := st.local[id := Shown(l, l.slot.value)]));
  }

  lemma ReturnShows(st: Sup, g: Tid, id: RunId, ref: Ref, floor: Option<View>)
    requires g !in st.tasks && id in st.local && (ref.Live? ==> st.local[id].slot.Some?)
    ensures var mid := Put(st, g, GetLoaded(id, ref, floor));
            var v := if ref.Live? then st.local[id].slot.value else ref.view;
            && Enabled(mid, GetReturn(g))
            && Apply(mid, GetReturn(g)) == st.(local := st.local[id := Shown(st.local[id], v)])
  {
    var mid := Put(st, g, GetLoaded(id, ref, floor));
    assert mid.tasks - {g} == st.tasks;
    assert st.local[id := st.local[id]] == st.local;
  }

  /** A read of a run that is only stored returns its row. */
  lemma GetOfStored(st: Sup, g: Tid, id: RunId)
    requires g !in st.tasks && id in st.local && !st.local[id].registered && id in st.table.rows
    ensures var evs := [GetCall(g, id), GetRead(g), GetReturn(g)];
            var row := st.table.rows[id];
            && IsRun(st, evs)
            && RunAll(st, evs)
               == st.(local := st.local[id := Shown(st.local[id], View(row.phase, row.revision, row.result))])
  {
    var l, v := st.local[id], View(st.table.rows[id].phase, st.table.rows[id].revision, st.table.rows[id].result);
    var one := Put(st, g, GetMissed(id, l.published));
    assert Apply(st, GetCall(g, id)) == one;
    var mid := Put(st, g, GetLoaded(id, Copy(v), l.published));
    assert Apply(one, GetRead(g)) == mid;
    ReturnShows(st, g, id, Copy(v), l.published);
    RunThree(st, GetCall(g, id), GetRead(g), GetReturn(g), mid, st.(local := st.local[id := Shown(l, v)]));
  }

  /** A read of a run that is neither looks for the row twice and ends with nothing. */
  lemma GetOfNothing(st: Sup, g: Tid, id: RunId)
    requires g !in st.tasks && id !in st.local && id !in st.table.rows
    ensures IsRun(st, [GetCall(g, id), GetRead(g), GetRead(g)])
    ensures RunAll(st, [GetCall(g, id), GetRead(g), GetRead(g)]) == st
    ensures RunAll(st, [GetCall(g, id), GetRead(g)]).tasks == st.tasks[g := GetAgain(id, None)]
  {
    var one, mid := Put(st, g, GetMissed(id, None)), Put(st, g, GetAgain(id, None));
    assert Apply(st, GetCall(g, id)) == one && Apply(one, GetRead(g)) == mid;
    assert mid.tasks - {g} == st.tasks;
    RunBoth(st, GetCall(g, id), GetRead(g), mid);
    RunThree(st, GetCall(g, id), GetRead(g), GetRead(g), mid, st);
  }

  // ------------------------------------------------------------------- worker

  /** A row under its next revision. */
  function NextRow(was: Row, phase: Phase, cleanup: Cleanup, result: Option<RunResult>): Row {
    Row(was.requestId, was.fingerprint, was.createdAt, phase, cleanup, was.revision + 1, result)
  }

  /** The worker's slot shows what the row says, and the run is not finished. */
  lemma WorkerSees(id: RunId, task: Task, row: Row, l: Local, q: bool, r: bool, h: bool)
    requires task.Worker? && task.id == id && task.at in {Begin, Cleared, In(Running)}
    requires l.place.With? && PlaceOk(id, row, l, Some(task), q, r, h)
    ensures l.slot == Some(View(row.phase, row.revision, None)) && row.phase != Finished && row.result == None
  {
  }

  lemma MoveShows(st: Sup, w: Tid, id: RunId, at: Pc, phase: Phase, row: Row, l: Local)
    requires Has(st, w, Worker(id, at)) && CanMove(at, phase) && id in st.local && st.local[id] == l
    requires l.slot == Some(View(row.phase, row.revision, None)) && row.phase != Finished
    ensures Enabled(st, Move(w, phase))
    ensures Apply(st, Move(w, phase))
         == st.(local := st.local[id := l.(slot := Some(View(phase, row.revision + 1, None)))],
                tasks := st.tasks[w := Worker(id, Wrote(phase, row.revision + 1))])
  {
  }

  lemma WriteStores(st: Sup, w: Tid, id: RunId, phase: Phase)
    requires id in st.table.rows && Has(st, w, Worker(id, Wrote(phase, st.table.rows[id].revision + 1)))
    ensures Enabled(st, Write(w))
    ensures Apply(st, Write(w))
         == st.(table := st.table.(rows := st.table.rows[id := NextRow(st.table.rows[id], phase, Pending, st.table.rows[id].result)]),
                tasks := st.tasks[w := Worker(id, In(phase))])
  {
  }

  /** The state after a transition. */
  function Moved(st: Sup, w: Tid, id: RunId, phase: Phase): Sup
    requires id in st.table.rows && id in st.local
  {
    var was := st.table.rows[id];
    st.(table := st.table.(rows := st.table.rows[id := NextRow(was, phase, Pending, was.result)]),
        local := st.local[id := st.local[id].(slot := Some(View(phase, was.revision + 1, None)))],
        tasks := st.tasks[w := Worker(id, In(phase))])
  }

  lemma MoveThenWrite(st: Sup, w: Tid, id: RunId, at: Pc, phase: Phase, row: Row, l: Local)
    requires Has(st, w, Worker(id, at)) && CanMove(at, phase)
    requires id in st.local && st.local[id] == l && id in st.table.rows && st.table.rows[id] == row
    requires l.slot == Some(View(row.phase, row.revision, None)) && row.phase != Finished
    ensures After(st, Move(w, phase), Write(w), Moved(st, w, id, phase))
  {
    MoveShows(st, w, id, at, phase, row, l);
    var mid := Apply(st, Move(w, phase));
    WriteStores(mid, w, id, phase);
    assert mid.tasks[w := Worker(id, In(phase))] == st.tasks[w := Worker(id, In(phase))];
  }

  /** A transition shows the new phase under the next revision, in the slot and in the row. */
  lemma TransitionRecords(st: Sup, w: Tid, id: RunId, at: Pc, phase: Phase)
    requires Inv(st) && Has(st, w, Worker(id, at))
    requires (at == Begin && phase == Starting) || (at == Cleared && phase == Running) || (at == In(Running) && phase == Stopping)
    ensures id in st.table.rows && id in st.local && st.table.rows[id].result == None
    ensures IsRun(st, [Move(w, phase), Write(w)]) && RunAll(st, [Move(w, phase), Write(w)]) == Moved(st, w, id, phase)
  {
    Holds(st, w, id);
    WorkerSees(id, st.tasks[w], st.table.rows[id], st.local[id], id in Queue(st), id in Slots(st), id in Held(st));
    MoveThenWrite(st, w, id, at, phase, st.table.rows[id], st.local[id]);
    RunBoth(st, Move(w, phase), Write(w), Moved(st, w, id, phase));
  }

  /** Before it spawns, the worker looks at the flag: set, it finishes the run as cancelled; not set, it goes on. */
  lemma PollLooks(st: Sup, w: Tid, id: RunId, result: RunResult)
    requires Has(st, w, Worker(id, In(Starting))) && id in st.local
    requires result.outcome == Cancelled && result.cleanup == Complete
    ensures IsRun(st, [Poll(w, result)])
    ensures st.local[id].cancel ==> RunAll(st, [Poll(w, result)]) == st.(tasks := st.tasks[w := Finishing(id, Live, result)])
    ensures !st.local[id].cancel ==> RunAll(st, [Poll(w, result)]) == st.(tasks := st.tasks[w := Worker(id, Cleared)])
  {
    RunOne(st, Poll(w, result), Apply(st, Poll(w, result)));
  }

  /** A worker that was cleared may end completely, a running one too, and a stopped one with any verdict. */
  lemma WorkerEnds(st: Sup, w: Tid, id: RunId, at: Pc, result: RunResult)
    requires Has(st, w, Worker(id, at)) && at in {Cleared, In(Running), In(Stopping)}
    requires result.cleanup == Complete || (at == In(Stopping) && result.cleanup != Pending)
    ensures IsRun(st, [Conclude(w, result)])
    ensures RunAll(st, [Conclude(w, result)]) == st.(tasks := st.tasks[w := Finishing(id, Live, result)])
  {
    RunOne(st, Conclude(w, result), Apply(st, Conclude(w, result)));
  }

  // ------------------------------------------------------------------- finish

  lemma FinisherSees(id: RunId, task: Task, row: Row, l: Local, q: bool, r: bool, h: bool)
    requires task.Finishing? && task.id == id && l.place.With? && PlaceOk(id, row, l, Some(task), q, r, h)
    ensures l.slot == Some(View(row.phase, row.revision, row.result)) && row.phase != Finished
  {
  }

  lemma EnterShows(st: Sup, tid: Tid, id: RunId, result: RunResult, row: Row, l: Local)
    requires Has(st, tid, Finishing(id, Live, result)) && id in st.local && st.local[id] == l
    requires l.slot == Some(View(row.phase, row.revision, row.result)) && row.phase != Finished
    ensures Enabled(st, EnterFinish(tid))
    ensures Apply(st, EnterFinish(tid))
         == st.(local := st.local[id := l.(slot := Some(View(Finished, row.revision + 1, Some(result))))],
                tasks := st.tasks[tid := Storing(id, row.revision + 1, result)])
  {
  }

  lemma StoreStores(st: Sup, tid: Tid, id: RunId, result: RunResult)
    requires id in st.table.rows && st.table.rows[id].phase != Finished
    requires Has(st, tid, Storing(id, st.table.rows[id].revision + 1, result))
    ensures Enabled(st, Store(tid))
    ensures Apply(st, Store(tid))
         == st.(table := st.table.(rows := st.table.rows[id := NextRow(st.table.rows[id], Finished, result.cleanup, Some(result))]),
                tasks := st.tasks[tid := Unregistering(id, result)])
  {
  }

  lemma UnregisterUnlists(st: Sup, tid: Tid, id: RunId, result: RunResult)
    requires id in st.local && Has(st, tid, Unregistering(id, result))
    ensures Enabled(st, Unregister(tid))
    ensures Apply(st, Unregister(tid))
         == st.(local := st.local[id := st.local[id].(registered := false)], tasks := st.tasks[tid := Releasing(id, result)])
  {
  }

  /** The state a finish leaves before it gives the capacity back. */
  function Recorded(st: Sup, tid: Tid, id: RunId, result: RunResult): Sup
    requires id in st.table.rows && id in st.local
  {
    var was := st.table.rows[id];
    st.(table := st.table.(rows := st.table.rows[id := NextRow(was, Finished, result.cleanup, Some(result))]),
        local := st.local[id := st.local[id].(slot := Some(View(Finished, was.revision + 1, Some(result))), registered := false)],
        tasks := st.tasks[tid := Releasing(id, result)])
  }

  lemma EnterThenStore(st: Sup, tid: Tid, id: RunId, result: RunResult, row: Row, l: Local) returns (two: Sup)
    requires Has(st, tid, Finishing(id, Live, result)) && id in st.local && st.local[id] == l
    requires id in st.table.rows && st.table.rows[id] == row
    requires l.slot == Some(View(row.phase, row.revision, row.result)) && row.phase != Finished
    ensures After(st, EnterFinish(tid), Store(tid), two)
    ensures two == st.(table := Recorded(st, tid, id, result).table,
                       local := st.local[id := l.(slot := Some(View(Finished, row.revision + 1, Some(result))))],
                       tasks := st.tasks[tid := Unregistering(id, result)])
  {
    EnterShows(st, tid, id, result, row, l);
    var one := Apply(st, EnterFinish(tid));
    StoreStores(one, tid, id, result);
    two := Apply(one, Store(tid));
    assert two.tasks == st.tasks[tid := Unregistering(id, result)];
  }

  lemma ThenUnregister(st: Sup, tid: Tid, id: RunId, result: RunResult, two: Sup, l: Local)
    requires id in st.table.rows && id in st.local && l == st.local[id].(slot := l.slot)
    requires l.slot == Some(View(Finished, st.table.rows[id].revision + 1, Some(result)))
    requires two == st.(table := Recorded(st, tid, id, result).table, local := st.local[id := l],
                        tasks := st.tasks[tid := Unregistering(id, result)])
    ensures Enabled(two, Unregister(tid)) && Apply(two, Unregister(tid)) == Recorded(st, tid, id, result)
  {
    UnregisterUnlists(two, tid, id, result);
    assert two.tasks[tid := Releasing(id, result)] == st.tasks[tid := Releasing(id, result)];
    assert two.local[id := l.(registered := false)] == st.local[id := l.(registered := false)];
  }

  lemma FinishRuns(st: Sup, tid: Tid, id: RunId, result: RunResult, row: Row, l: Local)
    requires Has(st, tid, Finishing(id, Live, result)) && id in st.local && st.local[id] == l
    requires id in st.table.rows && st.table.rows[id] == row
    requires l.slot == Some(View(row.phase, row.revision, row.result)) && row.phase != Finished
    ensures IsRun(st, [EnterFinish(tid), Store(tid), Unregister(tid)])
    ensures RunAll(st, [EnterFinish(tid), Store(tid), Unregister(tid)]) == Recorded(st, tid, id, result)
  {
    var two := EnterThenStore(st, tid, id, result, row, l);
    ThenUnregister(st, tid, id, result, two, l.(slot := Some(View(Finished, row.revision + 1, Some(result)))));
    RunThree(st, EnterFinish(tid), Store(tid), Unregister(tid), two, Recorded(st, tid, id, result));
  }

  /** A finish shows its result in the slot, stores the same in the row, and unlists the run. */
  lemma FinishRecords(st: Sup, tid: Tid, id: RunId, result: RunResult)
    requires Inv(st) && Has(st, tid, Finishing(id, Live, result))
    ensures id in st.table.rows && id in st.local
    ensures IsRun(st, [EnterFinish(tid), Store(tid), Unregister(tid)])
    ensures RunAll(st, [EnterFinish(tid), Store(tid), Unregister(tid)]) == Recorded(st, tid, id, result)
  {
    Holds(st, tid, id);
    FinisherSees(id, st.tasks[tid], st.table.rows[id], st.local[id], id in Queue(st), id in Slots(st), id in Held(st));
    FinishRuns(st, tid, id, result, st.table.rows[id], st.local[id]);
  }

  /**
   Then the capacity comes back, or is held after a cleanup that was not
   complete; whoever is admitted for it is to be started by the same thread.
   */
  lemma FinishReleases(st: Sup, tid: Tid, id: RunId, result: RunResult, now: nat)
    requires Inv(st) && Has(st, tid, Releasing(id, result))
    ensures IsRun(st, [ReleaseSlot(tid, now)])
    ensures var t := RunAll(st, [ReleaseSlot(tid, now)]);
            var (sched, ids) := S.Release(st.sched, id, result.cleanup != Complete, now);
            && t.sched == sched && t.table == st.table && t.local.Keys == st.local.Keys
            && t.tasks == (if ids == [] then st.tasks - {tid} else st.tasks[tid := Spawning(ids, false)])
            && forall x :: x in st.local ==>
                 t.local[x] == if x in ids then st.local[x].(place := With(tid), admitted := true)
                               else if x == id then st.local[x].(place := Done) else st.local[x]
  {
    Holds(st, tid, id);
    ReleaseEffect(st, tid, now);
    var ids := S.Release(st.sched, id, result.cleanup != Complete, now).1;
    assert id !in Elements(ids);
    ReleasePasses(st, tid, id, result, now);
  }

  lemma ReleasePasses(st: Sup, tid: Tid, id: RunId, result: RunResult, now: nat)
    requires Has(st, tid, Releasing(id, result)) && id in st.local
    requires id !in S.Release(st.sched, id, result.cleanup != Complete, now).1
    ensures IsRun(st, [ReleaseSlot(tid, now)])
    ensures var t := RunAll(st, [ReleaseSlot(tid, now)]);
            var (sched, ids) := S.Release(st.sched, id, result.cleanup != Complete, now);
            && t.sched == sched && t.table == st.table && t.local.Keys == st.local.Keys
            && t.tasks == (if ids == [] then st.tasks - {tid} else st.tasks[tid := Spawning(ids, false)])
            && forall x :: x in st.local ==>
                 t.local[x] == if x in ids then st.local[x].(place := With(tid), admitted := true)
                               else if x == id then st.local[x].(place := Done) else st.local[x]
  {
    RunOne(st, ReleaseSlot(tid, now), Apply(st, ReleaseSlot(tid, now)));
  }

  // -------------------------------------------------------------------- start

  /** A new run is stored and registered, queued at revision 0, before it is submitted. */
  lemma StartRegisters(st: Sup, tid: Tid, requestId: string, fingerprint: string, request: Request, now: nat)
    requires Keyed(st) && tid !in st.tasks
    requires forall x :: x in st.table.rows && st.table.rows[x].requestId == requestId ==> st.table.rows[x].createdAt + 86_400 < now
    ensures var evs, id := [Insert(tid, requestId, fingerprint, request, now), Register(tid)], st.table.nextId;
            && IsRun(st, evs)
            && RunAll(st, evs)
               == st.(table := Table(st.table.rows[id := Row(requestId, fingerprint, now, Queued, Pending, 0, None)], id + 1),
                      local := st.local[id := Local(Some(View(Queued, 0, None)), true, false, With(tid), false, 0, None)],
                      tasks := st.tasks[tid := Registered(id, request)])
  {
    var id := st.table.nextId;
    CreatesIffNoneRecent(st.table, requestId, fingerprint, now);
    var insert := Insert(tid, requestId, fingerprint, request, now);
    var one := Apply(st, insert);
    assert one.tasks == st.tasks[tid := Inserted(id, request)];
    assert one.local == st.local[id := Local(None, false, false, With(tid), false, 0, None)];
    RunBoth(st, insert, Register(tid), Apply(one, Register(tid)));
  }

  /** The verdict of the scheduler decides: a worker is to be started, the run waits, or it is finished as refused. */
  lemma StartSubmits(st: Sup, tid: Tid, id: RunId, request: Request, now: nat, refusal: RunResult)
    requires Inv(st) && Has(st, tid, Registered(id, request))
    requires refusal.outcome == SpawnFailed && refusal.cleanup == Complete
    ensures id in st.local && IsRun(st, [SubmitRun(tid, now, refusal)])
    ensures var t := RunAll(st, [SubmitRun(tid, now, refusal)]);
            var (sched, answer) := S.Submit(st.sched, id, request.project, request.memory, request.timeout, now);
            match answer
            case Start(_) =>
              t == st.(sched := sched, local := st.local[id := st.local[id].(admitted := true)],
                       tasks := st.tasks[tid := Spawning([id], true)])
            case Waiting(_) =>
              t == st.(sched := sched, local := st.local[id := st.local[id].(place := InQueue)], tasks := st.tasks - {tid})
            case Rejected(_) =>
              t == st.(tasks := st.tasks[tid := Finishing(id, Live, refusal)])
  {
    Holds(st, tid, id);
    SubmitAnswers(st.sched, id, request.project, request.memory, request.timeout, now);
    RunOne(st, SubmitRun(tid, now, refusal), Apply(st, SubmitRun(tid, now, refusal)));
  }

  /** An admitted run gets one worker, and the others wait for their turn. */
  lemma WorkerStarts(st: Sup, tid: Tid, ids: seq<RunId>, w: Tid)
    requires Inv(st) && ids != [] && Has(st, tid, Spawning(ids, false)) && w !in st.tasks
    ensures ids[0] in st.local && IsRun(st, [LookUp(tid), Spawn(tid, w)])
    ensures var l := st.local[ids[0]];
            var rest := if ids[1..] == [] then st.tasks - {tid} else st.tasks[tid := Spawning(ids[1..], false)];
            RunAll(st, [LookUp(tid), Spawn(tid, w)])
            == st.(local := st.local[ids[0] := l.(place := With(w), workers := l.workers + 1)],
                   tasks := rest[w := Worker(ids[0], Begin)])
  {
    SpawningIsRegistered(st, tid);
    assert ids[0] in Owned(st.tasks[tid]);
    Holds(st, tid, ids[0]);
    LookThenSpawn(st, tid, ids, w);
  }

  lemma LookThenSpawn(st: Sup, tid: Tid, ids: seq<RunId>, w: Tid)
    requires ids != [] && Has(st, tid, Spawning(ids, false)) && w !in st.tasks
    requires ids[0] in st.local && st.local[ids[0]].registered
    ensures IsRun(st, [LookUp(tid), Spawn(tid, w)])
    ensures var l := st.local[ids[0]];
            var rest := if ids[1..] == [] then st.tasks - {tid} else st.tasks[tid := Spawning(ids[1..], false)];
            RunAll(st, [LookUp(tid), Spawn(tid, w)])
            == st.(local := st.local[ids[0] := l.(place := With(w), workers := l.workers + 1)],
                   tasks := rest[w := Worker(ids[0], Begin)])
  {
    var mid := Put(st, tid, Spawning(ids, true));
    assert Apply(st, LookUp(tid)) == mid;
    assert mid.tasks - {tid} == st.tasks - {tid};
    assert mid.tasks[tid := Spawning(ids[1..], false)] == st.tasks[tid := Spawning(ids[1..], false)];
    RunBoth(st, LookUp(tid), Spawn(tid, w), Apply(mid, Spawn(tid, w)));
  }

  // ------------------------------------------------------------- queue ticker

  /** A tick takes the requests past their deadline, all at once, and the first of them is finished as timed out. */
  lemma TickExpires(st: Sup, tid: Tid, now: nat)
    requires Inv(st) && tid !in st.tasks
    ensures IsRun(st, [Tick(tid, now)])
    ensures var t := RunAll(st, [Tick(tid, now)]);
            var (sched, ids) := S.Expire(st.sched, now);
            && t.sched == sched && t.table == st.table && t.local.Keys == st.local.Keys
            && t.tasks == (if ids == [] then st.tasks else st.tasks[tid := Expiring(ids)])
            && forall x :: x in st.local ==>
                 t.local[x] == if x in ids then st.local[x].(place := With(tid)) else st.local[x]
  {
    RunOne(st, Tick(tid, now), Apply(st, Tick(tid, now)));
    assert st.tasks - {tid} == st.tasks;
  }

  lemma ExpiredIsFinished(st: Sup, tid: Tid, ids: seq<RunId>, f: Tid, result: RunResult)
    requires Inv(st) && ids != [] && Has(st, tid, Expiring(ids)) && f !in st.tasks
    requires result.outcome == TimedOut && result.cleanup == Complete
    ensures ids[0] in st.local && IsRun(st, [ExpireNext(tid, f, result)])
    ensures var rest := if ids[1..] == [] then st.tasks - {tid} else st.tasks[tid := Expiring(ids[1..])];
            RunAll(st, [ExpireNext(tid, f, result)])
            == st.(local := st.local[ids[0] := st.local[ids[0]].(place := With(f))],
                   tasks := rest[f := Finishing(ids[0], Live, result)])
  {
    assert ids[0] in Owned(st.tasks[tid]);
    Holds(st, tid, ids[0]);
    RunOne(st, ExpireNext(tid, f, result), Apply(st, ExpireNext(tid, f, result)));
  }

  /** New limits replace the old ones and move nobody. */
  lemma LimitsChange(st: Sup, limits: S.Limits)
    ensures IsRun(st, [ChangeLimits(limits)])
    ensures RunAll(st, [ChangeLimits(limits)])
         == st.(sched := S.State(limits, st.sched.running, st.sched.queue, st.sched.held))
  {
    RunOne(st, ChangeLimits(limits), Apply(st, ChangeLimits(limits)));
  }
}
