/**
 What `get` returns over time. Reads of one run never go back, and a result
 once returned is returned for ever, even while the run moves from its live
 slot to storage. The one thing callers have to respect is not to cancel a
 run before `start` has registered it; SupervisorCancels.dfy shows that this
 is exactly what it takes.
 */
module SupervisorReads {
  import opened Base
  import opened RunTableSpec
  import opened SchedulerIds
  import opened SupervisorSpec
  import opened SupervisorInv
  import opened SupervisorSteps
  import opened SupervisorHistory
  import S = SchedulerSpec

  /**
   A cancel names a run that `start` has registered, a finished one, or one
   that was dropped from the table: the id is known, and no `start` is still
   between inserting the run and registering it.
   */
  ghost predicate Careful(st: Sup, ev: Event) {
    ev.CancelCall? ==>
      && ev.id < st.table.nextId
      && (ev.id in st.table.rows ==> At(st, ev.id).slot.Some? || st.table.rows[ev.id].phase == Finished)
  }

  ghost predicate IsCarefulRun(st: Sup, evs: seq<Event>)
    decreases |evs|
  {
    evs == [] || (Enabled(st, evs[0]) && Careful(st, evs[0]) && IsCarefulRun(Apply(st, evs[0]), evs[1..]))
  }

  /** What a read started now would find first. */
  function Current(row: Row, l: Local): View {
    if l.registered && l.slot.Some? then l.slot.value else RowView(row)
  }

  /** The live slot of a run is never behind what was stored or shown of it. */
  ghost predicate Attached(row: Row, l: Local) {
    && (l.slot.Some? ==>
          if l.registered then Advances(RowView(row), l.slot.value) else l.slot.value == RowView(row))
    && (l.published.Some? ==> Advances(l.published.value, Current(row, l)))
  }

  ghost predicate Floor(floor: Option<View>, v: View) {
    floor.Some? ==> Advances(floor.value, v)
  }

  /** What is known about the run a task names. */
  ghost predicate Sees(task: Task, row: Row, l: Local) {
    match task
    case Finishing(_, ref, _) => ref.Live?
    case Storing(_, revision, result) => l.slot == Some(View(Finished, revision, Some(result)))
    case CancelMissed(_) => row.phase == Finished
    case CancelLoaded(_, ref) => ref.Copy? ==> ref.view.phase == Finished
    case Cancelling(_, ref) => ref.Live?
    case Flagging(_, ref) => ref.Live?
    case GetMissed(_, floor) => Floor(floor, RowView(row))
    case GetAgain(_, floor) => Floor(floor, RowView(row))
    case GetLoaded(_, ref, floor) =>
      && (ref.Live? ==> l.slot.Some?)
      && Floor(floor, Deref(l, ref)) && Advances(Deref(l, ref), Current(row, l))
    case _ => true
  }

  /** The run a call names, where the claim is about that run. */
  function Subject(task: Task): Option<RunId> {
    match task
    case Finishing(id, _, _) => Some(id)
    case Storing(id, _, _) => Some(id)
    case CancelMissed(id) => Some(id)
    case CancelLoaded(id, _) => Some(id)
    case Cancelling(id, _) => Some(id)
    case Flagging(id, _) => Some(id)
    case GetMissed(id, _) => Some(id)
    case GetAgain(id, _) => Some(id)
    case GetLoaded(id, _, _) => Some(id)
    case _ => None
  }

  /** A call for a run that is not stored has nothing to go back to. */
  ghost predicate SeesNothing(task: Task, nextId: RunId) {
    match task
    case GetMissed(_, floor) => floor.None?
    case GetAgain(_, floor) => floor.None?
    case CancelMissed(id) => id < nextId
    case _ => false
  }

  ghost predicate SeesAs(st: Sup, task: Task) {
    var s := Subject(task);
    s.Some? ==>
      if s.value in st.table.rows && s.value in st.local
      then Sees(task, st.table.rows[s.value], st.local[s.value])
      else SeesNothing(task, st.table.nextId)
  }

  ghost predicate TaskSees(st: Sup, tid: Tid)
    requires tid in st.tasks
  {
    SeesAs(st, st.tasks[tid])
  }

  ghost predicate RunAttached(st: Sup, id: RunId) {
    id in st.table.rows && id in st.local && Attached(st.table.rows[id], st.local[id])
  }

  ghost predicate ReadInv(st: Sup) {
    && Inv(st)
    && (forall id {:trigger RunAttached(st, id)} :: id in st.table.rows ==> RunAttached(st, id))
    && forall tid {:trigger TaskSees(st, tid)} :: tid in st.tasks ==> TaskSees(st, tid)
  }

  // ------------------------------------------------------------ frame lemmas

  /** If memory and storage move forward together, old knowledge stays true. */
  lemma SeesForward(task: Task, row: Row, l: Local, row': Row, l': Local)
    requires Sees(task, row, l) && !task.Finishing? && !task.Storing?
    requires Advances(RowView(row), RowView(row')) && Advances(Current(row, l), Current(row', l'))
    requires row.phase == Finished ==> row' == row
    requires l.slot.Some? ==> l'.slot.Some? && Advances(l.slot.value, l'.slot.value)
    requires l.slot.Some? ==> Advances(l'.slot.value, Current(row', l'))
    ensures Sees(task, row', l')
  {
  }

  lemma AttachedCurrent(row: Row, l: Local)
    requires Attached(row, l)
    ensures l.slot.Some? ==> Advances(l.slot.value, Current(row, l))
    ensures Advances(RowView(row), Current(row, l))
  {
  }

  /** Where `Current` comes from does not matter: it only moves forward. */
  ghost predicate CurrentForward(st: Sup, t: Sup, id: RunId) {
    && id in st.table.rows && id in st.local && id in t.table.rows && id in t.local
    && Advances(Current(st.table.rows[id], st.local[id]), Current(t.table.rows[id], t.local[id]))
  }

  /** What every step is known to do: keep the invariant and move runs forward. */
  ghost predicate Stepped(st: Sup, t: Sup) {
    && Inv(t) && AddsNew(st, t)
    && forall id {:trigger Forward(st, t, id)} :: id in st.table.rows ==> Forward(st, t, id)
  }

  lemma StepFacts(st: Sup, ev: Event)
    requires Inv(st) && Enabled(st, ev)
    ensures Stepped(st, Apply(st, ev))
  {
    StepKeepsInv(st, ev);
    RowsStay(st, ev);
    forall id | id in st.table.rows ensures Forward(st, Apply(st, ev), id) {
      StepGoesForward(st, ev, id);
    }
  }

  /** One step, given what it does to the runs and to the tasks it touches. */
  lemma ReadStep(st: Sup, t: Sup, tids: set<Tid>)
    requires ReadInv(st) && Stepped(st, t)
    requires forall tid: Tid {:trigger SameTask(st, t, tid)} :: tid !in tids ==> SameTask(st, t, tid)
    requires forall id {:trigger CurrentForward(st, t, id)} :: id in st.table.rows ==> CurrentForward(st, t, id)
    requires forall id {:trigger RunAttached(t, id)} :: id in t.table.rows ==> RunAttached(t, id)
    requires forall tid {:trigger TaskSees(t, tid)} :: tid in tids && tid in t.tasks ==> TaskSees(t, tid)
    requires forall tid, id :: tid in st.tasks && tid !in tids && id in Owned(st.tasks[tid]) ==>
               id in t.local && id in st.local && t.local[id].slot == st.local[id].slot
    ensures ReadInv(t)
  {
    forall tid | tid in t.tasks ensures TaskSees(t, tid) {
      if tid !in tids {
        assert SameTask(st, t, tid) && TaskSees(st, tid);
        OldTaskSees(st, t, tid);
      }
    }
  }

  lemma OldTaskSees(st: Sup, t: Sup, tid: Tid)
    requires ReadInv(st) && Stepped(st, t) && tid in st.tasks
    requires tid in t.tasks && t.tasks[tid] == st.tasks[tid]
    requires forall id {:trigger CurrentForward(st, t, id)} :: id in st.table.rows ==> CurrentForward(st, t, id)
    requires forall id {:trigger RunAttached(t, id)} :: id in t.table.rows ==> RunAttached(t, id)
    requires forall id :: id in Owned(st.tasks[tid]) ==>
               id in t.local && id in st.local && t.local[id].slot == st.local[id].slot
    ensures TaskSees(t, tid)
  {
    var s := Subject(st.tasks[tid]);
    assert TaskSees(st, tid);
    if s.Some? {
      var id := s.value;
      if id in st.table.rows {
        assert RunOk(st, id) && RunAttached(st, id);
        assert Forward(st, t, id) && CurrentForward(st, t, id) && RunAttached(t, id);
        if st.tasks[tid].Storing? {
          assert id in Owned(st.tasks[tid]);
        } else if !st.tasks[tid].Finishing? {
          AttachedCurrent(t.table.rows[id], t.local[id]);
          SeesForward(st.tasks[tid], st.table.rows[id], st.local[id], t.table.rows[id], t.local[id]);
        }
      }
    }
  }

  /** What `ReadStep` wants to know of a step of one task. */
  ghost predicate ReadShape(st: Sup, t: Sup, tid: Tid) {
    && (forall x: Tid {:trigger SameTask(st, t, x)} :: x !in {tid} ==> SameTask(st, t, x))
    && (forall id {:trigger CurrentForward(st, t, id)} :: id in st.table.rows ==> CurrentForward(st, t, id))
    && (forall id {:trigger RunAttached(t, id)} :: id in t.table.rows ==> RunAttached(t, id))
    && (tid in t.tasks ==> TaskSees(t, tid))
    && (forall x, id :: x in st.tasks && x !in {tid} && id in Owned(st.tasks[x]) ==>
          id in t.local && id in st.local && t.local[id].slot == st.local[id].slot)
  }

  lemma ShapedStep(st: Sup, t: Sup, tid: Tid)
    requires ReadInv(st) && Stepped(st, t) && ReadShape(st, t, tid)
    ensures ReadInv(t)
  {
    ReadStep(st, t, {tid});
  }

  // ---------------------------------------------- steps that show nothing new

  ghost predicate SameReads(st: Sup, t: Sup, id: RunId) {
    && id in st.table.rows && id in st.local && id in t.table.rows && id in t.local
    && t.table.rows[id] == st.table.rows[id]
    && t.local[id].slot == st.local[id].slot && t.local[id].registered == st.local[id].registered
    && t.local[id].published == st.local[id].published
  }

  lemma OwnedAreKnown(st: Sup)
    requires Inv(st)
    ensures forall tid, id :: tid in st.tasks && id in Owned(st.tasks[tid]) ==> id in st.local
  {
    forall tid, id | tid in st.tasks && id in Owned(st.tasks[tid]) ensures id in st.local {
      Holds(st, tid, id);
    }
  }

  /** A step that leaves rows, slots and the registry alone. */
  lemma QuietStep(st: Sup, t: Sup, tids: set<Tid>)
    requires ReadInv(st) && Stepped(st, t)
    requires t.table == st.table
    requires forall id {:trigger SameReads(st, t, id)} :: id in st.table.rows ==> SameReads(st, t, id)
    requires forall tid: Tid {:trigger SameTask(st, t, tid)} :: tid !in tids ==> SameTask(st, t, tid)
    requires forall tid {:trigger TaskSees(t, tid)} :: tid in tids && tid in t.tasks ==> TaskSees(t, tid)
    ensures ReadInv(t)
  {
    forall id | id in st.table.rows ensures CurrentForward(st, t, id) && RunAttached(t, id) {
      assert SameReads(st, t, id) && RunAttached(st, id);
    }
    forall tid, id | tid in st.tasks && tid !in tids && id in Owned(st.tasks[tid])
      ensures id in t.local && id in st.local && t.local[id].slot == st.local[id].slot
    {
      Holds(st, tid, id);
      assert SameReads(st, t, id);
    }
    ReadStep(st, t, tids);
  }

  /** Only one task changed, and no run that was there looks any different. */
  ghost predicate Quiet(st: Sup, t: Sup, tid: Tid) {
    && t.table == st.table
    && (forall id {:trigger SameReads(st, t, id)} :: id in st.table.rows ==> SameReads(st, t, id))
    && (forall x: Tid {:trigger SameTask(st, t, x)} :: x != tid ==> SameTask(st, t, x))
  }

  lemma StartedIsQuiet(st: Sup, tid: Tid, id: RunId, sched: S.State)
    requires st.table.rows.Keys == st.local.Keys && id in st.local
    ensures Quiet(st, Started(st, tid, id, sched), tid) && Quiet(st, Enqueued(st, tid, id, sched), tid)
  {
  }

  lemma TakenIsQuiet(st: Sup, tid: Tid, task: Task, sched: S.State)
    requires st.table.rows.Keys == st.local.Keys && task.Finishing? && task.id in st.local
    ensures Quiet(st, Taken(st, tid, task, sched), tid)
  {
  }

  lemma ReleasedIsQuiet(st: Sup, tid: Tid, id: RunId, sched: S.State, ids: seq<RunId>)
    requires st.table.rows.Keys == st.local.Keys && id in st.local
    ensures Quiet(st, Released(st, tid, id, sched, ids), tid)
  {
  }

  lemma TickedIsQuiet(st: Sup, tid: Tid, sched: S.State, ids: seq<RunId>)
    requires st.table.rows.Keys == st.local.Keys
    ensures var t := Ticked(st, tid, sched, ids);
            Quiet(st, t, tid) && (tid in t.tasks ==> TaskSees(t, tid))
  {
  }

  /** A step like that keeps the invariant if its one task sees nothing wrong. */
  lemma QuietKeeps(st: Sup, t: Sup, tid: Tid)
    requires ReadInv(st) && Stepped(st, t) && Quiet(st, t, tid)
    requires tid in t.tasks ==> TaskSees(t, tid)
    ensures ReadInv(t)
  {
    QuietStep(st, t, {tid});
  }

  /** A call that only looks goes on as `next`, or ends. */
  lemma LookKeeps(st: Sup, t: Sup, tid: Tid, next: Option<Task>)
    requires ReadInv(st) && Stepped(st, t) && t == PutOrDrop(st, tid, next)
    requires next.Some? ==> SeesAs(st, next.value)
    ensures ReadInv(t)
  {
    LookIsQuiet(st, tid, next);
    QuietKeeps(st, t, tid);
  }

  lemma LookReads(st: Sup, ev: Event, tid: Tid, next: Option<Task>)
    requires ReadInv(st) && Enabled(st, ev) && Apply(st, ev) == PutOrDrop(st, tid, next)
    requires next.Some? ==> SeesAs(st, next.value)
    ensures ReadInv(Apply(st, ev))
  {
    StepFacts(st, ev);
    LookKeeps(st, Apply(st, ev), tid, next);
  }

  lemma QuietReads(st: Sup, ev: Event, tid: Tid)
    requires ReadInv(st) && Enabled(st, ev) && Quiet(st, Apply(st, ev), tid)
    requires tid in Apply(st, ev).tasks ==> TaskSees(Apply(st, ev), tid)
    ensures ReadInv(Apply(st, ev))
  {
    StepFacts(st, ev);
    QuietKeeps(st, Apply(st, ev), tid);
  }

  lemma LookIsQuiet(st: Sup, tid: Tid, next: Option<Task>)
    requires st.table.rows.Keys == st.local.Keys && (next.Some? ==> SeesAs(st, next.value))
    ensures var t := PutOrDrop(st, tid, next);
            Quiet(st, t, tid) && (tid in t.tasks ==> TaskSees(t, tid))
  {
  }

  lemma SubmitSees(st: Sup, tid: Tid, now: nat, refusal: RunResult)
    requires st.table.rows.Keys == st.local.Keys
    requires tid in st.tasks && st.tasks[tid].Registered? && st.tasks[tid].id in st.local
    ensures var t := DoSubmit(st, tid, now, refusal);
            Quiet(st, t, tid) && (tid in t.tasks ==> TaskSees(t, tid))
  {
    var id, rq := st.tasks[tid].id, st.tasks[tid].request;
    var (sched, decision) := S.Submit(st.sched, id, rq.project, rq.memory, rq.timeout, now);
    StartedIsQuiet(st, tid, id, sched);
  }

  lemma ReadsOfSubmit(st: Sup, ev: Event)
    requires ReadInv(st) && Enabled(st, ev) && ev.SubmitRun?
    ensures ReadInv(Apply(st, ev))
  {
    Holds(st, ev.tid, st.tasks[ev.tid].id);
    SubmitSees(st, ev.tid, ev.now, ev.refusal);
    QuietReads(st, ev, ev.tid);
  }

  lemma ReadsOfLookUp(st: Sup, ev: Event)
    requires ReadInv(st) && Enabled(st, ev) && ev.LookUp?
    ensures ReadInv(Apply(st, ev))
  {
    var task := st.tasks[ev.tid];
    var next := if At(st, task.ids[0]).registered then Some(Spawning(task.ids, true)) else Spawnings(task.ids[1..]);
    LookReads(st, ev, ev.tid, next);
  }

  lemma ReadsOfConclude(st: Sup, ev: Event)
    requires ReadInv(st) && Enabled(st, ev) && ev.Conclude?
    ensures ReadInv(Apply(st, ev))
  {
    Holds(st, ev.tid, st.tasks[ev.tid].id);
    LookReads(st, ev, ev.tid, Some(Finishing(st.tasks[ev.tid].id, Live, ev.result)));
  }

  lemma ReadsOfPoll(st: Sup, ev: Event)
    requires ReadInv(st) && Enabled(st, ev) && ev.Poll?
    ensures ReadInv(Apply(st, ev))
  {
    var id := st.tasks[ev.tid].id;
    Holds(st, ev.tid, id);
    LookReads(st, ev, ev.tid, Some(if At(st, id).cancel then Finishing(id, Live, ev.result) else Worker(id, Cleared)));
  }

  lemma ReadsOfLimits(st: Sup, ev: Event)
    requires ReadInv(st) && Enabled(st, ev) && ev.ChangeLimits?
    ensures ReadInv(Apply(st, ev))
  {
    StepFacts(st, ev);
    forall x | x in st.table.rows ensures SameReads(st, Apply(st, ev), x) {
      assert RunOk(st, x);
    }
    QuietStep(st, Apply(st, ev), {});
  }

  lemma ReadsOfSpawn(st: Sup, ev: Event)
    requires ReadInv(st) && Enabled(st, ev) && ev.Spawn?
    ensures ReadInv(Apply(st, ev))
  {
    StepFacts(st, ev);
    Holds(st, ev.tid, st.tasks[ev.tid].ids[0]);
    forall x | x in st.table.rows ensures SameReads(st, Apply(st, ev), x) {
      assert RunOk(st, x);
    }
    QuietStep(st, Apply(st, ev), {ev.tid, ev.worker});
  }

  lemma ReadsOfExpireNext(st: Sup, ev: Event)
    requires ReadInv(st) && Enabled(st, ev) && ev.ExpireNext?
    ensures ReadInv(Apply(st, ev))
  {
    StepFacts(st, ev);
    Holds(st, ev.tid, st.tasks[ev.tid].ids[0]);
    forall x | x in st.table.rows ensures SameReads(st, Apply(st, ev), x) {
      assert RunOk(st, x);
    }
    QuietStep(st, Apply(st, ev), {ev.tid, ev.finisher});
  }

  lemma ReadsOfTick(st: Sup, ev: Event)
    requires ReadInv(st) && Enabled(st, ev) && ev.Tick?
    ensures ReadInv(Apply(st, ev))
  {
    var (sched, ids) := S.Expire(st.sched, ev.now);
    TickedIsQuiet(st, ev.tid, sched, ids);
    QuietReads(st, ev, ev.tid);
  }

  lemma ReleaseSees(st: Sup, tid: Tid, now: nat)
    requires st.table.rows.Keys == st.local.Keys
    requires tid in st.tasks && st.tasks[tid].Releasing? && st.tasks[tid].id in st.local
    ensures var t := DoRelease(st, tid, now);
            Quiet(st, t, tid) && (tid in t.tasks ==> TaskSees(t, tid))
  {
    var (sched, ids) := S.Release(st.sched, st.tasks[tid].id, st.tasks[tid].result.cleanup != Complete, now);
    ReleasedIsQuiet(st, tid, st.tasks[tid].id, sched, ids);
  }

  lemma ReadsOfRelease(st: Sup, ev: Event)
    requires ReadInv(st) && Enabled(st, ev) && ev.ReleaseSlot?
    ensures ReadInv(Apply(st, ev))
  {
    Holds(st, ev.tid, st.tasks[ev.tid].id);
    ReleaseSees(st, ev.tid, ev.now);
    QuietReads(st, ev, ev.tid);
  }

  lemma InsertForward(st: Sup, tid: Tid, requestId: string, fingerprint: string, request: Request, now: nat)
    requires st.table.rows.Keys == st.local.Keys && st.table.nextId !in st.table.rows
    requires forall x {:trigger RunAttached(st, x)} :: x in st.table.rows ==> RunAttached(st, x)
    ensures var t := DoInsert(st, tid, requestId, fingerprint, request, now);
            && (forall x {:trigger CurrentForward(st, t, x)} :: x in st.table.rows ==> CurrentForward(st, t, x))
            && (forall x {:trigger RunAttached(t, x)} :: x in t.table.rows ==> RunAttached(t, x))
            && (forall x :: x in st.local ==> x in t.local && t.local[x].slot == st.local[x].slot)
  {
    var t := DoInsert(st, tid, requestId, fingerprint, request, now);
    forall x | x in st.table.rows ensures CurrentForward(st, t, x) && RunAttached(t, x) {
      assert RunAttached(st, x);
    }
  }

  lemma InsertTask(st: Sup, tid: Tid, requestId: string, fingerprint: string, request: Request, now: nat)
    requires tid !in st.tasks
    ensures var t := DoInsert(st, tid, requestId, fingerprint, request, now);
            && (tid in t.tasks ==> TaskSees(t, tid))
            && (forall x: Tid {:trigger SameTask(st, t, x)} :: x != tid ==> SameTask(st, t, x))
  {
  }

  lemma ReadsOfInsert(st: Sup, ev: Event)
    requires ReadInv(st) && Enabled(st, ev) && ev.Insert?
    ensures ReadInv(Apply(st, ev))
  {
    StepFacts(st, ev);
    assert st.table.nextId !in st.table.rows;
    InsertForward(st, ev.tid, ev.requestId, ev.fingerprint, ev.request, ev.now);
    InsertTask(st, ev.tid, ev.requestId, ev.fingerprint, ev.request, ev.now);
    OwnedAreKnown(st);
    ReadStep(st, Apply(st, ev), {ev.tid});
  }

  // -------------------------------------------------------------------- calls

  /** A run that was registered and is not any more has its result stored. */
  lemma UnlistedIsFinished(st: Sup, id: RunId)
    requires Inv(st) && id in st.table.rows && st.local[id].slot.Some? && !st.local[id].registered
    ensures st.table.rows[id].phase == Finished
  {
    assert RunOk(st, id);
  }

  lemma RegisteredHasSlot(st: Sup, id: RunId)
    requires Inv(st) && id in st.table.rows && st.local[id].registered
    ensures st.local[id].slot.Some?
  {
    assert RunOk(st, id);
  }

  lemma ReadsOfCancelCall(st: Sup, ev: Event)
    requires ReadInv(st) && Enabled(st, ev) && Careful(st, ev) && ev.CancelCall?
    ensures ReadInv(Apply(st, ev))
  {
    if ev.id in st.table.rows && !st.local[ev.id].registered && st.local[ev.id].slot.Some? {
      UnlistedIsFinished(st, ev.id);
    }
    var next := if At(st, ev.id).registered then CancelLoaded(ev.id, Live) else CancelMissed(ev.id);
    LookReads(st, ev, ev.tid, Some(next));
  }

  lemma ReadsOfCancelRead(st: Sup, ev: Event)
    requires ReadInv(st) && Enabled(st, ev) && ev.CancelRead?
    ensures ReadInv(Apply(st, ev))
  {
    assert TaskSees(st, ev.tid);
    var id := st.tasks[ev.tid].id;
    LookReads(st, ev, ev.tid,
              if id in st.table.rows then Some(CancelLoaded(id, Copy(RowView(st.table.rows[id])))) else None);
  }

  lemma ReadsOfCancelCheck(st: Sup, ev: Event)
    requires ReadInv(st) && Enabled(st, ev) && ev.CancelCheck?
    ensures ReadInv(Apply(st, ev))
  {
    assert TaskSees(st, ev.tid);
    var task := st.tasks[ev.tid];
    LookReads(st, ev, ev.tid, CancelNext(task, Deref(At(st, task.id), task.ref).phase));
  }

  /** What it found in the queue is a run it may name, and it holds its slot. */
  lemma CancelTakeSees(st: Sup, tid: Tid, result: RunResult)
    requires Keyed(st) && tid in st.tasks && st.tasks[tid].Cancelling? && TaskSees(st, tid)
    ensures var t := DoCancelTake(st, tid, result);
            Quiet(st, t, tid) && (tid in t.tasks ==> TaskSees(t, tid))
  {
    var task := st.tasks[tid];
    var (sched, found) := S.CancelQueued(st.sched, task.id);
    CancelFoundIsQueued(st.sched.queue, task.id);
    if found {
      TakenIsQuiet(st, tid, Finishing(task.id, task.ref, result), sched);
    }
  }

  lemma {:induction false} CancelFoundIsQueued(queue: seq<S.Queued>, id: RunId)
    ensures |S.DropQueued(queue, id)| != |queue| ==> id in S.QueueIds(queue)
  {
    if queue != [] && queue[0].id != id {
      CancelFoundIsQueued(queue[1..], id);
    }
  }

  lemma ReadsOfCancelTake(st: Sup, ev: Event)
    requires ReadInv(st) && Enabled(st, ev) && ev.CancelTake?
    ensures ReadInv(Apply(st, ev))
  {
    assert TaskSees(st, ev.tid) && TaskWf(st, ev.tid);
    CancelTakeSees(st, ev.tid, ev.result);
    QuietReads(st, ev, ev.tid);
  }

  lemma FlagIsQuiet(st: Sup, tid: Tid)
    requires st.table.rows.Keys == st.local.Keys && tid in st.tasks && st.tasks[tid].Flagging?
    ensures Quiet(st, DoCancelFlag(st, tid), tid) && tid !in DoCancelFlag(st, tid).tasks
  {
  }

  lemma ReadsOfCancelFlag(st: Sup, ev: Event)
    requires ReadInv(st) && Enabled(st, ev) && ev.CancelFlag?
    ensures ReadInv(Apply(st, ev))
  {
    FlagIsQuiet(st, ev.tid);
    QuietReads(st, ev, ev.tid);
  }

  lemma ReadsOfGetCall(st: Sup, ev: Event)
    requires ReadInv(st) && Enabled(st, ev) && ev.GetCall?
    ensures ReadInv(Apply(st, ev))
  {
    var l := At(st, ev.id);
    if ev.id in st.table.rows {
      assert RunAttached(st, ev.id);
      AttachedCurrent(st.table.rows[ev.id], st.local[ev.id]);
      if st.local[ev.id].registered {
        RegisteredHasSlot(st, ev.id);
      }
    }
    var next := if l.registered then GetLoaded(ev.id, Live, l.published) else GetMissed(ev.id, l.published);
    LookReads(st, ev, ev.tid, Some(next));
  }

  lemma ReadsOfGetRead(st: Sup, ev: Event)
    requires ReadInv(st) && Enabled(st, ev) && ev.GetRead?
    ensures ReadInv(Apply(st, ev))
  {
    var task := st.tasks[ev.tid];
    var id := task.id;
    assert TaskSees(st, ev.tid);
    if id in st.table.rows {
      assert RunAttached(st, id);
      AttachedCurrent(st.table.rows[id], st.local[id]);
    }
    LookReads(st, ev, ev.tid, GetNext(task, if id in st.table.rows then Some(RowView(st.table.rows[id])) else None));
  }

  lemma ReturnForward(st: Sup, tid: Tid)
    requires st.table.rows.Keys == st.local.Keys
    requires tid in st.tasks && st.tasks[tid].GetLoaded? && TaskSees(st, tid)
    requires forall x {:trigger RunAttached(st, x)} :: x in st.table.rows ==> RunAttached(st, x)
    ensures var t := DoGetReturn(st, tid);
            && (forall x {:trigger CurrentForward(st, t, x)} {:trigger RunAttached(t, x)} :: x in st.table.rows ==>
                  CurrentForward(st, t, x) && RunAttached(t, x))
            && (forall x :: x in st.local ==> x in t.local && t.local[x].slot == st.local[x].slot)
  {
    var t := DoGetReturn(st, tid);
    forall x | x in st.table.rows ensures CurrentForward(st, t, x) && RunAttached(t, x) {
      assert RunAttached(st, x);
    }
  }

  lemma ReturnShape(st: Sup, t: Sup, tid: Tid)
    requires ReadInv(st) && tid in st.tasks && st.tasks[tid].GetLoaded? && TaskSees(st, tid) && t == DoGetReturn(st, tid)
    ensures ReadShape(st, t, tid)
  {
    ReturnForward(st, tid);
    OwnedAreKnown(st);
  }

  lemma ReadsOfReturn(st: Sup, ev: Event)
    requires ReadInv(st) && Enabled(st, ev) && ev.GetReturn?
    ensures ReadInv(Apply(st, ev))
  {
    StepFacts(st, ev);
    assert TaskSees(st, ev.tid);
    var t := DoGetReturn(st, ev.tid);
    assert Apply(st, ev) == t;
    ReturnShape(st, t, ev.tid);
    ShapedStep(st, t, ev.tid);
  }

  // ---------------------------------------- steps that change one run's state

  /** The four places where a run's state becomes visible. */
  lemma AttachedMoves(id: RunId, task: Task, row: Row, l: Local, q: bool, r: bool, h: bool)
    requires PlaceOk(id, row, l, Some(task), q, r, h) && l.place.With? && Attached(row, l) && Sees(task, row, l)
    ensures task.Inserted? ==> var l' := l.(slot := Some(FRESH), registered := true);
              Attached(row, l') && Advances(Current(row, l), Current(row, l'))
    ensures task.Finishing? ==> var l' := Ended(task, l);
              && Attached(row, l') && Advances(Current(row, l), Current(row, l'))
              && l'.slot == Some(View(Finished, Deref(l, task.ref).revision + 1, Some(task.result)))
    ensures task.Storing? ==> var row' := row.(phase := Finished, cleanup := task.result.cleanup,
                                               revision := task.revision, result := Some(task.result));
              Attached(row', l) && Advances(Current(row, l), Current(row', l))
    ensures task.Unregistering? ==> var l' := l.(registered := false);
              Attached(row, l') && Advances(Current(row, l), Current(row, l'))
  {
  }

  lemma AttachedWork(id: RunId, task: Task, phase: Phase, row: Row, l: Local, q: bool, r: bool, h: bool)
    requires PlaceOk(id, row, l, Some(task), q, r, h) && l.place.With? && Attached(row, l) && task.Worker? && task.id == id
    ensures CanMove(task.at, phase) ==> var v := Deref(l, Live);
              var l' := l.(slot := Some(View(phase, v.revision + 1, v.result)));
              Attached(row, l') && Advances(Current(row, l), Current(row, l'))
    ensures task.at.Wrote? ==> var row' := row.(phase := task.at.phase, cleanup := Pending, revision := task.at.revision);
              Attached(row', l) && Advances(Current(row, l), Current(row', l))
  {
    if CanMove(task.at, phase) {
      MovePlace(id, task, phase, row, l, q, r, h);
    }
  }

  lemma MovedForward(st: Sup, tid: Tid, task: Task, id: RunId, row: Row, l: Local)
    requires st.table.rows.Keys == st.local.Keys && id in st.local
    requires forall x {:trigger RunAttached(st, x)} :: x in st.table.rows ==> RunAttached(st, x)
    requires Attached(row, l) && Advances(Current(st.table.rows[id], st.local[id]), Current(row, l))
    ensures var t := Moved(st, tid, task, id, row, l);
            forall x {:trigger CurrentForward(st, t, x)} {:trigger RunAttached(t, x)} :: x in st.table.rows ==>
              CurrentForward(st, t, x) && RunAttached(t, x)
  {
    var t := Moved(st, tid, task, id, row, l);
    forall x | x in st.table.rows ensures CurrentForward(st, t, x) && RunAttached(t, x) {
      assert RunAttached(st, x);
    }
  }

  lemma MovedFrame(st: Sup, tid: Tid, task: Task, id: RunId, row: Row, l: Local)
    requires id in st.table.rows && id in st.local
    requires Subject(task).Some? ==> Subject(task) == Some(id) && Sees(task, row, l)
    ensures var t := Moved(st, tid, task, id, row, l);
            && TaskSees(t, tid) && t.table.rows.Keys == st.table.rows.Keys && t.local == st.local[id := l]
            && (forall x: Tid {:trigger SameTask(st, t, x)} :: x !in {tid} ==> SameTask(st, t, x))
  {
  }

  /** No other task is responsible for the run that this one holds. */
  lemma OthersKeepSlots(st: Sup, tid: Tid, id: RunId, l: Local)
    requires Inv(st) && tid in st.tasks && id in Owned(st.tasks[tid])
    ensures forall other, x :: other in st.tasks && other !in {tid} && x in Owned(st.tasks[other]) ==>
              x in st.local && st.local[id := l][x].slot == st.local[x].slot
  {
    Holds(st, tid, id);
    forall other, x | other in st.tasks && other !in {tid} && x in Owned(st.tasks[other])
      ensures x in st.local && st.local[id := l][x].slot == st.local[x].slot
    {
      Holds(st, other, x);
    }
  }

  lemma MovedShape(st: Sup, t: Sup, tid: Tid, task: Task, id: RunId, row: Row, l: Local)
    requires ReadInv(st) && t == Moved(st, tid, task, id, row, l)
    requires tid in st.tasks && Owned(st.tasks[tid]) == {id} && id in st.table.rows && id in st.local
    requires Attached(row, l) && Advances(Current(st.table.rows[id], st.local[id]), Current(row, l))
    requires Subject(task).Some? ==> Subject(task) == Some(id) && Sees(task, row, l)
    ensures ReadShape(st, t, tid)
  {
    MovedForward(st, tid, task, id, row, l);
    OthersKeepSlots(st, tid, id, l);
    MovedFrame(st, tid, task, id, row, l);
  }

  /** A step that is `Moved` for one run shows what the lemma above says. */
  lemma MovedKeeps(st: Sup, t: Sup, tid: Tid, task: Task, id: RunId, row: Row, l: Local)
    requires ReadInv(st) && Stepped(st, t) && t == Moved(st, tid, task, id, row, l)
    requires tid in st.tasks && Owned(st.tasks[tid]) == {id} && id in st.table.rows && id in st.local
    requires Attached(row, l) && Advances(Current(st.table.rows[id], st.local[id]), Current(row, l))
    requires Subject(task).Some? ==> Subject(task) == Some(id) && Sees(task, row, l)
    ensures ReadInv(t)
  {
    MovedShape(st, t, tid, task, id, row, l);
    ShapedStep(st, t, tid);
  }

  lemma MovedReads(st: Sup, ev: Event, tid: Tid, task: Task, id: RunId, row: Row, l: Local)
    requires ReadInv(st) && Enabled(st, ev) && Apply(st, ev) == Moved(st, tid, task, id, row, l)
    requires tid in st.tasks && Owned(st.tasks[tid]) == {id} && id in st.table.rows && id in st.local
    requires Attached(row, l) && Advances(Current(st.table.rows[id], st.local[id]), Current(row, l))
    requires Subject(task).Some? ==> Subject(task) == Some(id) && Sees(task, row, l)
    ensures ReadInv(Apply(st, ev))
  {
    StepFacts(st, ev);
    MovedKeeps(st, Apply(st, ev), tid, task, id, row, l);
  }

  lemma ReadsOfRegister(st: Sup, ev: Event)
    requires ReadInv(st) && Enabled(st, ev) && (ev.Register? || ev.Unregister?)
    ensures ReadInv(Apply(st, ev))
  {
    var task := st.tasks[ev.tid];
    var id := task.id;
    Holds(st, ev.tid, id);
    var row, l := st.table.rows[id], st.local[id];
    assert RunAttached(st, id) && Attached(row, l) && TaskSees(st, ev.tid);
    AttachedMoves(id, task, row, l, id in Queue(st), id in Slots(st), id in Held(st));
    assert st.table.rows[id := row] == st.table.rows;
    if ev.Register? {
      MovedReads(st, ev, ev.tid, Registered(id, task.request), id, row, l.(slot := Some(FRESH), registered := true));
    } else {
      MovedReads(st, ev, ev.tid, Releasing(id, task.result), id, row, l.(registered := false));
    }
  }

  lemma ReadsOfFinish(st: Sup, ev: Event)
    requires ReadInv(st) && Enabled(st, ev) && (ev.EnterFinish? || ev.Store?)
    ensures ReadInv(Apply(st, ev))
  {
    var task := st.tasks[ev.tid];
    var id := task.id;
    Holds(st, ev.tid, id);
    var row, l := st.table.rows[id], st.local[id];
    var q, r, h := id in Queue(st), id in Slots(st), id in Held(st);
    assert RunAttached(st, id) && TaskSees(st, ev.tid);
    AttachedMoves(id, task, row, l, q, r, h);
    if ev.EnterFinish? {
      EnterFinishPlace(id, task, row, l, q, r, h);
      EnterFinishIsMoved(st, ev.tid);
      MovedReads(st, ev, ev.tid, Storing(id, Deref(l, task.ref).revision + 1, task.result), id, row, Ended(task, l));
    } else {
      assert st.local[id := l] == st.local;
      MovedReads(st, ev, ev.tid, Unregistering(id, task.result), id,
                 row.(phase := Finished, cleanup := task.result.cleanup, revision := task.revision, result := Some(task.result)), l);
    }
  }

  lemma ReadsOfMove(st: Sup, ev: Event)
    requires ReadInv(st) && Enabled(st, ev) && ev.Move?
    ensures ReadInv(Apply(st, ev))
  {
    var task := st.tasks[ev.tid];
    var id := task.id;
    Holds(st, ev.tid, id);
    var row, l := st.table.rows[id], st.local[id];
    assert RunAttached(st, id);
    AttachedWork(id, task, ev.phase, row, l, id in Queue(st), id in Slots(st), id in Held(st));
    MovePlace(id, task, ev.phase, row, l, id in Queue(st), id in Slots(st), id in Held(st));
    MoveIsMoved(st, ev.tid, ev.phase);
    var v := Deref(l, Live);
    MovedReads(st, ev, ev.tid, Worker(id, Wrote(ev.phase, v.revision + 1)), id, row, l.(slot := Some(View(ev.phase, v.revision + 1, v.result))));
  }

  lemma ReadsOfWrite(st: Sup, ev: Event)
    requires ReadInv(st) && Enabled(st, ev) && ev.Write?
    ensures ReadInv(Apply(st, ev))
  {
    var task := st.tasks[ev.tid];
    var id := task.id;
    Holds(st, ev.tid, id);
    var row, l := st.table.rows[id], st.local[id];
    assert RunAttached(st, id);
    AttachedWork(id, task, Starting, row, l, id in Queue(st), id in Slots(st), id in Held(st));
    WritePlace(id, task, row, l, id in Queue(st), id in Slots(st), id in Held(st));
    assert st.local[id := l] == st.local;
    MovedReads(st, ev, ev.tid, Worker(id, In(task.at.phase)), id,
               row.(phase := task.at.phase, cleanup := Pending, revision := task.at.revision), l);
  }

  lemma StepKeepsReads(st: Sup, ev: Event)
    requires ReadInv(st) && Enabled(st, ev) && Careful(st, ev)
    ensures ReadInv(Apply(st, ev))
  {
    match ev
    case Insert(_, _, _, _, _) => ReadsOfInsert(st, ev);
    case Register(_) => ReadsOfRegister(st, ev);
    case SubmitRun(_, _, _) => ReadsOfSubmit(st, ev);
    case LookUp(_) => ReadsOfLookUp(st, ev);
    case Spawn(_, _) => ReadsOfSpawn(st, ev);
    case Tick(_, _) => ReadsOfTick(st, ev);
    case ExpireNext(_, _, _) => ReadsOfExpireNext(st, ev);
    case EnterFinish(_) => ReadsOfFinish(st, ev);
    case Store(_) => ReadsOfFinish(st, ev);
    case Unregister(_) => ReadsOfRegister(st, ev);
    case ReleaseSlot(_, _) => ReadsOfRelease(st, ev);
    case Move(_, _) => ReadsOfMove(st, ev);
    case Write(_) => ReadsOfWrite(st, ev);
    case Poll(_, _) => ReadsOfPoll(st, ev);
    case Conclude(_, _) => ReadsOfConclude(st, ev);
    case CancelCall(_, _) => ReadsOfCancelCall(st, ev);
    case CancelRead(_) => ReadsOfCancelRead(st, ev);
    case CancelCheck(_) => ReadsOfCancelCheck(st, ev);
    case CancelTake(_, _) => ReadsOfCancelTake(st, ev);
    case CancelFlag(_) => ReadsOfCancelFlag(st, ev);
    case GetCall(_, _) => ReadsOfGetCall(st, ev);
    case GetRead(_) => ReadsOfGetRead(st, ev);
    case GetReturn(_) => ReadsOfReturn(st, ev);
    case ChangeLimits(_) => ReadsOfLimits(st, ev);
  }

  lemma {:induction false} RunKeepsReads(st: Sup, evs: seq<Event>)
    requires ReadInv(st) && IsCarefulRun(st, evs)
    ensures IsRun(st, evs) && ReadInv(RunAll(st, evs))
    decreases |evs|
  {
    if evs != [] {
      StepKeepsReads(st, evs[0]);
      RunKeepsReads(Apply(st, evs[0]), evs[1..]);
    }
  }

  lemma InitReads(st: Sup)
    requires Init(st)
    ensures ReadInv(st)
  {
    InitKeeps(st);
  }

  /** No call about the run is to return less than what was returned before it began. */
  ghost predicate ReadsForward(st: Sup, id: RunId) {
    forall tid :: tid in st.tasks && st.tasks[tid].GetLoaded? && st.tasks[tid].id == id && st.tasks[tid].floor.Some? ==>
      var floor, shown := st.tasks[tid].floor.value, Deref(At(st, id), st.tasks[tid].ref);
      Advances(floor, shown) && (floor.phase == Finished ==> shown == floor)
  }

  lemma ReadsAreForward(st: Sup, id: RunId)
    requires ReadInv(st)
    ensures ReadsForward(st, id)
  {
    forall tid | tid in st.tasks && st.tasks[tid].GetLoaded? && st.tasks[tid].id == id && st.tasks[tid].floor.Some?
      ensures Advances(st.tasks[tid].floor.value, Deref(At(st, id), st.tasks[tid].ref))
    {
      assert TaskSees(st, tid);
    }
  }

  /**
   Reads never go back. `floor` is the latest view any call had returned when
   this call began; whenever the call returns, its view is that one or a later
   revision in a later phase. Once a call has returned a finished run, every
   call begun afterwards returns that very result.
   */
  lemma ReadsNeverGoBack(st: Sup, evs: seq<Event>, id: RunId)
    requires Init(st) && IsCarefulRun(st, evs)
    ensures IsRun(st, evs) && ReadsForward(RunAll(st, evs), id)
  {
    InitReads(st);
    RunKeepsReads(st, evs);
    ReadsAreForward(RunAll(st, evs), id);
  }
}
