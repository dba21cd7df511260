/**
 The run supervisor as a concurrent protocol. A state holds what the locks
 guard (scheduler, registry, slots, durable rows) and every pending piece of
 work of every thread; a step is one critical section. All interleavings are
 allowed: the order in which one thread does its own work is a special case.
 */
module SupervisorSpec {
  import opened Base
  import opened RunTableSpec
  import opened SchedulerIds
  import S = SchedulerSpec

  type Tid = nat

  /** What a run looks like: in memory, in its row, or to a caller. */
  datatype View = View(phase: Phase, revision: int, result: Option<RunResult>)

  const FRESH: View := View(Queued, 0, None)

  function RowView(row: Row): View {
    View(row.phase, row.revision, row.result)
  }

  /** The live slot, or a read-only one rebuilt from the row. */
  datatype Ref = Live | Copy(view: View)

  /** Where a worker is: not begun, between memory and row, settled, or cleared to spawn. */
  datatype Pc = Begin | Wrote(phase: Phase, revision: int) | In(phase: Phase) | Cleared

  datatype Request = Request(project: S.Project, memory: U64, timeout: Option<nat>)

  /** A pending piece of work. The first nine kinds are responsible for a run. */
  datatype Task =
    | Inserted(id: RunId, request: Request)
    | Registered(id: RunId, request: Request)
    | Spawning(ids: seq<RunId>, found: bool)
    | Expiring(ids: seq<RunId>)
    | Finishing(id: RunId, ref: Ref, result: RunResult)
    | Storing(id: RunId, revision: int, result: RunResult)
    | Unregistering(id: RunId, result: RunResult)
    | Releasing(id: RunId, result: RunResult)
    | Worker(id: RunId, at: Pc)
    | CancelMissed(id: RunId)
    | CancelLoaded(id: RunId, ref: Ref)
    | Cancelling(id: RunId, ref: Ref)
    | Flagging(id: RunId, ref: Ref)
    | GetMissed(id: RunId, floor: Option<View>)
    | GetAgain(id: RunId, floor: Option<View>)
    | GetLoaded(id: RunId, ref: Ref, floor: Option<View>)

  /** Bookkeeping for the proofs: who is responsible for a run. No step reads it. */
  datatype Place = With(tid: Tid) | InQueue | Done

  /**
   One run in memory: its slot, if this supervisor made one, whether the
   registry lists it, the cancel flag of the slot, and what has happened to
   it so far. The last four fields are history: no step decides anything by
   them.
   */
  datatype Local = Local(
    slot: Option<View>, registered: bool, cancel: bool,
    place: Place, admitted: bool, workers: nat, published: Option<View>)

  datatype Sup = Sup(
    sched: S.State,
    table: Table,
    local: map<RunId, Local>,
    tasks: map<Tid, Task>)

  datatype Event =
    | Insert(tid: Tid, requestId: string, fingerprint: string, request: Request, now: nat)
    | Register(tid: Tid)
    | SubmitRun(tid: Tid, now: nat, refusal: RunResult)
    | LookUp(tid: Tid)
    | Spawn(tid: Tid, worker: Tid)
    | Tick(tid: Tid, now: nat)
    | ExpireNext(tid: Tid, finisher: Tid, result: RunResult)
    | EnterFinish(tid: Tid)
    | Store(tid: Tid)
    | Unregister(tid: Tid)
    | ReleaseSlot(tid: Tid, now: nat)
    | Move(tid: Tid, phase: Phase)
    | Write(tid: Tid)
    | Poll(tid: Tid, result: RunResult)
    | Conclude(tid: Tid, result: RunResult)
    | CancelCall(tid: Tid, id: RunId)
    | CancelRead(tid: Tid)
    | CancelCheck(tid: Tid)
    | CancelTake(tid: Tid, result: RunResult)
    | CancelFlag(tid: Tid)
    | GetCall(tid: Tid, id: RunId)
    | GetRead(tid: Tid)
    | GetReturn(tid: Tid)
    | ChangeLimits(limits: S.Limits)

  // Three kinds of steps: runs come, wait and go; work on one run; calls and limits.

  predicate Starts(ev: Event) {
    ev.Insert? || ev.Register? || ev.SubmitRun? || ev.LookUp? || ev.Spawn? || ev.Tick? || ev.ExpireNext? || ev.ReleaseSlot?
  }

  predicate Works(ev: Event) {
    ev.EnterFinish? || ev.Store? || ev.Unregister? || ev.Move? || ev.Write? || ev.Poll? || ev.Conclude?
  }

  predicate Calls(ev: Event) {
    !Starts(ev) && !Works(ev)
  }

  // ------------------------------------------------------------------ helpers

  function PlaceAll(local: map<RunId, Local>, ids: seq<RunId>, p: Place): map<RunId, Local> {
    map id | id in local :: if id in ids then local[id].(place := p) else local[id]
  }

  function AdmitAll(local: map<RunId, Local>, ids: seq<RunId>, p: Place): map<RunId, Local> {
    map id | id in local :: if id in ids then local[id].(place := p, admitted := true) else local[id]
  }

  const UNKNOWN: Local := Local(None, false, false, Done, false, 0, None)

  function At(st: Sup, id: RunId): Local {
    if id in st.local then st.local[id] else UNKNOWN
  }

  function Deref(l: Local, ref: Ref): View {
    match ref
    case Live => if l.slot.Some? then l.slot.value else FRESH
    case Copy(view) => view
  }

  /** The task of `tid` is replaced, or ends when nothing is left to do. */
  function Put(st: Sup, tid: Tid, task: Task): Sup {
    st.(tasks := st.tasks[tid := task])
  }

  function Note(st: Sup, id: RunId, l: Local): Sup {
    st.(local := st.local[id := l])
  }

  function Drop(st: Sup, tid: Tid): Sup {
    st.(tasks := st.tasks - {tid})
  }

  /** The head of a list goes to a task of its own; the rest stays with `tid`. */
  function Split(st: Sup, tid: Tid, rest: Option<Task>, forked: Tid, task: Task, id: RunId, l: Local): Sup {
    var tasks := if rest.None? then st.tasks - {tid} else st.tasks[tid := rest.value];
    st.(local := st.local[id := l], tasks := tasks[forked := task])
  }

  function Spawnings(ids: seq<RunId>): Option<Task> {
    if ids == [] then None else Some(Spawning(ids, false))
  }

  function Expirings(ids: seq<RunId>): Option<Task> {
    if ids == [] then None else Some(Expiring(ids))
  }

  function PutOrDrop(st: Sup, tid: Tid, task: Option<Task>): Sup {
    if task.None? then Drop(st, tid) else Put(st, tid, task.value)
  }

  /** Phases a worker may move to from where it is. */
  predicate CanMove(at: Pc, phase: Phase) {
    match at
    case Begin => phase == Starting
    case Cleared => phase == Running
    case In(p) => p == Running && phase == Stopping
    case Wrote(_, _) => false
  }

  /** How a worker may end: only a stopped group can be less than complete. */
  predicate CanConclude(at: Pc, result: RunResult) {
    match at
    case Cleared => result.cleanup == Complete
    case In(p) =>
      && (p == Running || p == Stopping)
      && result.cleanup != Pending
      && (p != Stopping ==> result.cleanup == Complete)
    case _ => false
  }

  // -------------------------------------------------------------------- steps

  predicate Enabled(st: Sup, ev: Event) {
    match ev
    case Insert(tid, _, _, _, _) => tid !in st.tasks
    case Register(tid) => tid in st.tasks && st.tasks[tid].Inserted?
    case SubmitRun(tid, _, refusal) =>
      tid in st.tasks && st.tasks[tid].Registered? && refusal.outcome == SpawnFailed && refusal.cleanup == Complete
    case LookUp(tid) => tid in st.tasks && st.tasks[tid].Spawning? && !st.tasks[tid].found && st.tasks[tid].ids != []
    case Spawn(tid, worker) =>
      tid in st.tasks && st.tasks[tid].Spawning? && st.tasks[tid].found && st.tasks[tid].ids != [] && worker !in st.tasks
    case Tick(tid, _) => tid !in st.tasks
    case ExpireNext(tid, finisher, result) =>
      && tid in st.tasks && st.tasks[tid].Expiring? && st.tasks[tid].ids != [] && finisher !in st.tasks
      && result.outcome == TimedOut && result.cleanup == Complete
    case EnterFinish(tid) => tid in st.tasks && st.tasks[tid].Finishing?
    case Store(tid) => tid in st.tasks && st.tasks[tid].Storing?
    case Unregister(tid) => tid in st.tasks && st.tasks[tid].Unregistering?
    case ReleaseSlot(tid, _) => tid in st.tasks && st.tasks[tid].Releasing?
    case Move(tid, phase) => tid in st.tasks && st.tasks[tid].Worker? && CanMove(st.tasks[tid].at, phase)
    case Write(tid) => tid in st.tasks && st.tasks[tid].Worker? && st.tasks[tid].at.Wrote?
    case Poll(tid, result) =>
      && tid in st.tasks && st.tasks[tid].Worker? && st.tasks[tid].at == In(Starting)
      && result.outcome == Cancelled && result.cleanup == Complete
    case Conclude(tid, result) => tid in st.tasks && st.tasks[tid].Worker? && CanConclude(st.tasks[tid].at, result)
    case CancelCall(tid, _) => tid !in st.tasks
    case CancelRead(tid) => tid in st.tasks && st.tasks[tid].CancelMissed?
    case CancelCheck(tid) => tid in st.tasks && st.tasks[tid].CancelLoaded?
    case CancelTake(tid, result) =>
      tid in st.tasks && st.tasks[tid].Cancelling? && result.outcome == Cancelled && result.cleanup == Complete
    case CancelFlag(tid) => tid in st.tasks && st.tasks[tid].Flagging?
    case GetCall(tid, _) => tid !in st.tasks
    case GetRead(tid) => tid in st.tasks && (st.tasks[tid].GetMissed? || st.tasks[tid].GetAgain?)
    case GetReturn(tid) => tid in st.tasks && st.tasks[tid].GetLoaded?
    case ChangeLimits(_) => true
  }

  /** `start`: the row is inserted, or an earlier run is met and nothing happens. */
  function DoInsert(st: Sup, tid: Tid, requestId: string, fingerprint: string, request: Request, now: nat): Sup {
    var (table, r) := InsertRun(st.table, requestId, fingerprint, now);
    match r
    case Created(id) =>
      Note(Put(st, tid, Inserted(id, request)).(table := table), id, UNKNOWN.(place := With(tid)))
    case Existing(_) => st
    case Conflict(_) => st
  }

  function DoRegister(st: Sup, tid: Tid): Sup
    requires tid in st.tasks && st.tasks[tid].Inserted?
  {
    var task := st.tasks[tid];
    Note(Put(st, tid, Registered(task.id, task.request)), task.id,
         At(st, task.id).(slot := Some(FRESH), registered := true))
  }

  /** `admit`: start now, wait, or be refused and finished. */
  function DoSubmit(st: Sup, tid: Tid, now: nat, refusal: RunResult): Sup
    requires tid in st.tasks && st.tasks[tid].Registered?
  {
    var id, rq := st.tasks[tid].id, st.tasks[tid].request;
    var (sched, decision) := S.Submit(st.sched, id, rq.project, rq.memory, rq.timeout, now);
    match decision
    case Start(_) => Started(st, tid, id, sched)
    case Waiting(_) => Enqueued(st, tid, id, sched)
    case Rejected(_) => Put(st, tid, Finishing(id, Live, refusal)).(sched := sched)
  }

  function Started(st: Sup, tid: Tid, id: RunId, sched: S.State): Sup {
    Note(Put(st, tid, Spawning([id], true)).(sched := sched), id, At(st, id).(admitted := true))
  }

  function Enqueued(st: Sup, tid: Tid, id: RunId, sched: S.State): Sup {
    Note(Drop(st, tid).(sched := sched), id, At(st, id).(place := InQueue))
  }

  /** A run not found in the registry is skipped: it would never get a worker. */
  function DoLookUp(st: Sup, tid: Tid): Sup
    requires tid in st.tasks && st.tasks[tid].Spawning? && st.tasks[tid].ids != []
  {
    var ids := st.tasks[tid].ids;
    if At(st, ids[0]).registered then Put(st, tid, Spawning(ids, true))
    else PutOrDrop(st, tid, Spawnings(ids[1..]))
  }

  function DoSpawn(st: Sup, tid: Tid, worker: Tid): Sup
    requires tid in st.tasks && st.tasks[tid].Spawning? && st.tasks[tid].ids != []
  {
    var id := st.tasks[tid].ids[0];
    var l := At(st, id);
    Split(st, tid, Spawnings(st.tasks[tid].ids[1..]), worker, Worker(id, Begin), id,
          l.(place := With(worker), workers := l.workers + 1))
  }

  /** The queue ticker collects what has waited too long. */
  function DoTick(st: Sup, tid: Tid, now: nat): Sup {
    var (sched, ids) := S.Expire(st.sched, now);
    Ticked(st, tid, sched, ids)
  }

  function Ticked(st: Sup, tid: Tid, sched: S.State, ids: seq<RunId>): Sup {
    PutOrDrop(st, tid, Expirings(ids)).(sched := sched, local := PlaceAll(st.local, ids, With(tid)))
  }

  function DoExpireNext(st: Sup, tid: Tid, finisher: Tid, result: RunResult): Sup
    requires tid in st.tasks && st.tasks[tid].Expiring? && st.tasks[tid].ids != []
  {
    var id := st.tasks[tid].ids[0];
    var rest := Expirings(st.tasks[tid].ids[1..]);
    var l := At(st, id);
    if l.registered && Deref(l, Live).phase != Finished then
      Split(st, tid, rest, finisher, Finishing(id, Live, result), id, l.(place := With(finisher)))
    else PutOrDrop(st, tid, rest)
  }

  /** The first part of `finish`: the slot becomes terminal, once. */
  function DoEnterFinish(st: Sup, tid: Tid): Sup
    requires tid in st.tasks && st.tasks[tid].Finishing?
  {
    var task := st.tasks[tid];
    var l := At(st, task.id);
    var v := Deref(l, task.ref);
    if v.phase == Finished then Drop(st, tid)
    else
      var next := Put(st, tid, Storing(task.id, v.revision + 1, task.result));
      if task.ref.Live? then
        Note(next, task.id, l.(slot := Some(View(Finished, v.revision + 1, Some(task.result)))))
      else next
  }

  function DoStore(st: Sup, tid: Tid): Sup
    requires tid in st.tasks && st.tasks[tid].Storing?
  {
    var task := st.tasks[tid];
    Put(st, tid, Unregistering(task.id, task.result)).(table := Finish(st.table, task.id, task.revision, task.result).0)
  }

  function DoUnregister(st: Sup, tid: Tid): Sup
    requires tid in st.tasks && st.tasks[tid].Unregistering?
  {
    var task := st.tasks[tid];
    Note(Put(st, tid, Releasing(task.id, task.result)), task.id, At(st, task.id).(registered := false))
  }

  /** The capacity comes back, or stays held after an incomplete cleanup. */
  function DoRelease(st: Sup, tid: Tid, now: nat): Sup
    requires tid in st.tasks && st.tasks[tid].Releasing?
  {
    var id, hold := st.tasks[tid].id, st.tasks[tid].result.cleanup != Complete;
    var (sched, ids) := S.Release(st.sched, id, hold, now);
    Released(st, tid, id, sched, ids)
  }

  function Released(st: Sup, tid: Tid, id: RunId, sched: S.State, ids: seq<RunId>): Sup {
    var done := st.local[id := At(st, id).(place := Done)];
    PutOrDrop(st, tid, Spawnings(ids)).(sched := sched, local := AdmitAll(done, ids, With(tid)))
  }

  /** The memory half of `transition`. */
  function DoMove(st: Sup, tid: Tid, phase: Phase): Sup
    requires tid in st.tasks && st.tasks[tid].Worker?
  {
    var id := st.tasks[tid].id;
    var l := At(st, id);
    var v := Deref(l, Live);
    if v.phase == Finished then
      // Superseded: never spawn; a later transition that fails is ignored.
      if phase == Starting then Drop(st, tid) else Put(st, tid, Worker(id, In(phase)))
    else
      Note(Put(st, tid, Worker(id, Wrote(phase, v.revision + 1))), id,
           l.(slot := Some(View(phase, v.revision + 1, v.result))))
  }

  /** The durable half of `transition`. */
  function DoWrite(st: Sup, tid: Tid): Sup
    requires tid in st.tasks && st.tasks[tid].Worker? && st.tasks[tid].at.Wrote?
  {
    var id, at := st.tasks[tid].id, st.tasks[tid].at;
    var (table, changed) := Transition(st.table, id, at.revision, at.phase, Pending);
    if !changed && at.phase == Starting then Drop(st, tid).(table := table)
    else Put(st, tid, Worker(id, In(at.phase))).(table := table)
  }

  /** A finished run is left alone, a queued one is taken out, others are asked to stop. */
  function CancelNext(task: Task, phase: Phase): Option<Task>
    requires task.CancelLoaded?
  {
    if phase == Finished then None
    else if phase == Queued then Some(Cancelling(task.id, task.ref))
    else Some(Flagging(task.id, task.ref))
  }

  /** The one look at the cancel flag before the command is spawned. */
  function DoPoll(st: Sup, tid: Tid, result: RunResult): Sup
    requires tid in st.tasks && st.tasks[tid].Worker?
  {
    var id := st.tasks[tid].id;
    Put(st, tid, if At(st, id).cancel then Finishing(id, Live, result) else Worker(id, Cleared))
  }

  function DoCancelTake(st: Sup, tid: Tid, result: RunResult): Sup
    requires tid in st.tasks && st.tasks[tid].Cancelling?
  {
    var task := st.tasks[tid];
    var (sched, found) := S.CancelQueued(st.sched, task.id);
    if found then Taken(st, tid, Finishing(task.id, task.ref, result), sched)
    else Put(st, tid, Flagging(task.id, task.ref)).(sched := sched)
  }

  /** The flag of the slot the call has; nobody else ever sees that of a copy. */
  function DoCancelFlag(st: Sup, tid: Tid): Sup
    requires tid in st.tasks && st.tasks[tid].Flagging?
  {
    var task := st.tasks[tid];
    if task.ref.Live? && task.id in st.local
    then Note(Drop(st, tid), task.id, st.local[task.id].(cancel := true))
    else Drop(st, tid)
  }

  function Taken(st: Sup, tid: Tid, task: Task, sched: S.State): Sup
    requires task.Finishing?
  {
    Note(Put(st, tid, task).(sched := sched), task.id, At(st, task.id).(place := With(tid)))
  }

  /** A call that finds neither slot nor row looks for the row once more. */
  function GetNext(task: Task, row: Option<View>): Option<Task>
    requires task.GetMissed? || task.GetAgain?
  {
    if row.Some? then Some(GetLoaded(task.id, Copy(row.value), task.floor))
    else if task.GetMissed? then Some(GetAgain(task.id, task.floor))
    else None
  }

  /** The call returns a view; `published` remembers the latest one returned. */
  function DoGetReturn(st: Sup, tid: Tid): Sup
    requires tid in st.tasks && st.tasks[tid].GetLoaded?
  {
    var task := st.tasks[tid];
    var l := At(st, task.id);
    var v := Deref(l, task.ref);
    if task.id !in st.local || (l.published.Some? && l.published.value.revision > v.revision) then Drop(st, tid)
    else Note(Drop(st, tid), task.id, l.(published := Some(v)))
  }

  function Apply(st: Sup, ev: Event): Sup
    requires Enabled(st, ev)
  {
    match ev
    case Insert(tid, requestId, fingerprint, request, now) => DoInsert(st, tid, requestId, fingerprint, request, now)
    case Register(tid) => DoRegister(st, tid)
    case SubmitRun(tid, now, refusal) => DoSubmit(st, tid, now, refusal)
    case LookUp(tid) => DoLookUp(st, tid)
    case Spawn(tid, worker) => DoSpawn(st, tid, worker)
    case Tick(tid, now) => DoTick(st, tid, now)
    case ExpireNext(tid, finisher, result) => DoExpireNext(st, tid, finisher, result)
    case EnterFinish(tid) => DoEnterFinish(st, tid)
    case Store(tid) => DoStore(st, tid)
    case Unregister(tid) => DoUnregister(st, tid)
    case ReleaseSlot(tid, now) => DoRelease(st, tid, now)
    case Move(tid, phase) => DoMove(st, tid, phase)
    case Write(tid) => DoWrite(st, tid)
    case Poll(tid, result) => DoPoll(st, tid, result)
    case Conclude(tid, result) => Put(st, tid, Finishing(st.tasks[tid].id, Live, result))
    case CancelCall(tid, id) =>
      if At(st, id).registered then Put(st, tid, CancelLoaded(id, Live)) else Put(st, tid, CancelMissed(id))
    case CancelRead(tid) =>
      var id := st.tasks[tid].id;
      if id in st.table.rows then Put(st, tid, CancelLoaded(id, Copy(RowView(st.table.rows[id])))) else Drop(st, tid)
    case CancelCheck(tid) =>
      var task := st.tasks[tid];
      PutOrDrop(st, tid, CancelNext(task, Deref(At(st, task.id), task.ref).phase))
    case CancelTake(tid, result) => DoCancelTake(st, tid, result)
    case CancelFlag(tid) => DoCancelFlag(st, tid)
    case GetCall(tid, id) =>
      var l := At(st, id);
      if l.registered then Put(st, tid, GetLoaded(id, Live, l.published))
      else Put(st, tid, GetMissed(id, l.published))
    case GetRead(tid) =>
      var task := st.tasks[tid];
      PutOrDrop(st, tid, GetNext(task, if task.id in st.table.rows then Some(RowView(st.table.rows[task.id])) else None))
    case GetReturn(tid) => DoGetReturn(st, tid)
    case ChangeLimits(limits) => st.(sched := S.SetLimits(st.sched, limits))
  }

  /** A supervisor that has just recovered: every stored run is finished. */
  ghost predicate Init(st: Sup) {
    && st.sched == S.New(st.sched.limits)
    && Separated(st.table) && st.tasks == map[]
    && (forall id :: id in st.table.rows ==> st.table.rows[id].phase == Finished && st.table.rows[id].result.Some?)
    && st.local == (map id | id in st.table.rows :: UNKNOWN)
  }

  ghost predicate IsRun(st: Sup, evs: seq<Event>)
    decreases |evs|
  {
    evs == [] || (Enabled(st, evs[0]) && IsRun(Apply(st, evs[0]), evs[1..]))
  }

  ghost function RunAll(st: Sup, evs: seq<Event>): Sup
    requires IsRun(st, evs)
    decreases |evs|
  {
    if evs == [] then st else RunAll(Apply(st, evs[0]), evs[1..])
  }
}
