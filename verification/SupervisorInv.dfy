/**
 One inductive invariant of the supervisor: every run that was accepted and
 has not finished is in exactly one place, and memory, row, registry and
 scheduler agree with that place. It holds in every interleaving.
 */
module SupervisorInv {
  import opened Base
  import opened RunTableSpec
  import opened SchedulerIds
  import opened SupervisorSpec
  import S = SchedulerSpec

  /** The runs a task is responsible for. */
  function Owned(task: Task): set<RunId> {
    match task
    case Inserted(id, _) => {id}
    case Registered(id, _) => {id}
    case Spawning(ids, _) => Elements(ids)
    case Expiring(ids) => Elements(ids)
    case Finishing(id, _, _) => {id}
    case Storing(id, _, _) => {id}
    case Unregistering(id, _) => {id}
    case Releasing(id, _) => {id}
    case Worker(id, _) => {id}
    case _ => {}
  }

  function Queue(st: Sup): set<RunId> { S.QueueIds(st.sched.queue) }
  function Slots(st: Sup): set<RunId> { S.RunningIds(st.sched.running) }
  function Held(st: Sup): set<RunId> { S.RunningIds(st.sched.held) }

  ghost predicate RowOk(row: Row) {
    && (row.phase == Queued ==> row.revision == 0)
    && (row.phase == Finished <==> row.result.Some?)
  }

  /** Nothing has happened to the run yet, in its row and in memory. */
  ghost predicate Untouched(row: Row, l: Local) {
    RowView(row) == FRESH && l.registered && l.slot == Some(FRESH)
  }

  /** A run inside `finish`: its capacity, its workers and its cleanup agree. */
  ghost predicate Concluding(l: Local, result: RunResult) {
    && result.cleanup != Pending
    && (!l.admitted ==> l.workers == 0 && result.cleanup == Complete)
    && (l.admitted ==> l.workers == 1)
  }

  /** A run cancelled through a read-only copy: its live slot never heard of it. */
  ghost predicate Detached(row: Row, l: Local) {
    l.slot == Some(FRESH) && row.revision == 1 && !l.admitted
  }

  /** What a task that is responsible for a run may rely on. */
  ghost predicate TaskOk(task: Task, row: Row, l: Local) {
    match task
    case Inserted(_, _) => RowView(row) == FRESH && l.slot.None? && !l.registered && !l.admitted && l.workers == 0
    case Registered(_, _) => Untouched(row, l) && !l.admitted && l.workers == 0
    case Spawning(_, _) => Untouched(row, l) && l.admitted && l.workers == 0
    case Expiring(_) => Untouched(row, l) && !l.admitted && l.workers == 0
    case Worker(_, at) =>
      && l.registered && l.slot.Some? && l.admitted && l.workers == 1
      && row.phase != Finished && row.result.None?
      && (match at
          case Begin => Untouched(row, l)
          case Wrote(phase, revision) =>
            && l.slot.value == View(phase, revision, None) && row.revision == revision - 1
            && Rank(row.phase) < Rank(phase) < Rank(Finished)
          case In(phase) => l.slot.value == RowView(row) && row.phase == phase && phase != Queued
          case Cleared => l.slot.value == RowView(row) && row.phase == Starting)
    case Finishing(_, ref, result) =>
      && l.registered && row.phase != Finished && l.slot == Some(RowView(row))
      && (ref.Copy? ==> ref.view == FRESH && Untouched(row, l) && !l.admitted)
      && Concluding(l, result)
    case Storing(_, revision, result) =>
      && l.registered && row.phase != Finished && revision == row.revision + 1
      && (l.slot == Some(View(Finished, revision, Some(result))) || (Untouched(row, l) && !l.admitted))
      && Concluding(l, result)
    case Unregistering(_, result) =>
      && l.registered && row.phase == Finished && row.result == Some(result)
      && (l.slot == Some(RowView(row)) || Detached(row, l))
      && Concluding(l, result)
    case Releasing(_, result) =>
      && !l.registered && row.phase == Finished && row.result == Some(result)
      && (l.slot == Some(RowView(row)) || Detached(row, l))
      && Concluding(l, result)
    case _ => false
  }

  /**
   The one place a run is in. `task` is the task that holds it, if any; the
   three flags say where the scheduler has it.
   */
  ghost predicate PlaceOk(id: RunId, row: Row, l: Local, task: Option<Task>, queued: bool, running: bool, held: bool) {
    && RowOk(row)
    && match l.place
       case InQueue => Untouched(row, l) && queued && !running && !held && !l.admitted && l.workers == 0
       case Done =>
         && row.phase == Finished && row.result.Some? && !l.registered && !queued && !running
         && (held <==> l.admitted && row.result.value.cleanup != Complete)
         && l.workers == (if l.admitted then 1 else 0)
         && (l.slot == None || l.slot == Some(RowView(row)) || Detached(row, l))
       case With(_) =>
         && task.Some? && id in Owned(task.value)
         && !queued && !held && (running <==> l.admitted)
         && TaskOk(task.value, row, l)
  }

  function Holder(st: Sup, l: Local): Option<Task> {
    if l.place.With? && l.place.tid in st.tasks then Some(st.tasks[l.place.tid]) else None
  }

  ghost predicate RunOk(st: Sup, id: RunId) {
    && id in st.table.rows && id in st.local
    && PlaceOk(id, st.table.rows[id], st.local[id], Holder(st, st.local[id]),
               id in Queue(st), id in Slots(st), id in Held(st))
  }

  /** What holds of a task by itself. */
  ghost predicate TaskShape(task: Task) {
    match task
    case Spawning(ids, _) => Distinct(ids)
    case Expiring(ids) => Distinct(ids)
    case CancelLoaded(id, ref) => ref.Copy? && ref.view.phase == Queued ==> ref.view == FRESH
    case Cancelling(id, ref) => ref.Copy? ==> ref.view == FRESH
    case _ => true
  }

  ghost predicate TaskWf(st: Sup, tid: Tid)
    requires tid in st.tasks
  {
    && TaskShape(st.tasks[tid])
    && forall id :: id in Owned(st.tasks[tid]) ==> id in st.local && st.local[id].place == With(tid)
  }

  ghost predicate Keyed(st: Sup) {
    && Separated(st.table) && Tidy(st.sched)
    && st.local.Keys == st.table.rows.Keys
    && Queue(st) + Slots(st) + Held(st) <= st.table.rows.Keys
  }

  ghost predicate Inv(st: Sup) {
    && Keyed(st)
    && (forall id {:trigger RunOk(st, id)} :: id in st.table.rows ==> RunOk(st, id))
    && forall tid {:trigger TaskWf(st, tid)} :: tid in st.tasks ==> TaskWf(st, tid)
  }

  lemma InitKeeps(st: Sup)
    requires Init(st)
    ensures Inv(st)
  {
  }
}
