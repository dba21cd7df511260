/**
 Admission control as a pure state machine: what each operation of the
 scheduler does to the limits, the running slots, the queue and the
 reservations held back after an incomplete cleanup.

 The class in Scheduler.dfy is proved to do exactly this, step by step; the
 properties of whole runs are proved here and in SchedulerOrder.dfy.
 */
module SchedulerSpec {
  import opened Base

  type Project = string

  datatype Limits = Limits(
    maxParallel: nat,
    maxPerProject: nat,
    maxQueued: nat,
    queueTimeout: nat,
    memoryBudget: U64,
    starvationAfter: nat)

  datatype Running = Running(id: RunId, project: Project, memory: U64)
  datatype Queued = Queued(id: RunId, project: Project, memory: U64, enqueuedAt: nat, deadline: nat)

  datatype RejectReason = Impossible(requested: U64, budget: U64) | QueueFull(maxQueued: nat)
  datatype Admission = Start(memory: U64) | Waiting(position: nat) | Rejected(reason: RejectReason)

  datatype State = State(limits: Limits, running: seq<Running>, queue: seq<Queued>, held: seq<Running>)

  function New(limits: Limits): State {
    State(limits, [], [], [])
  }

  // ---------------------------------------------------------------- capacity

  /** The exact (unbounded) sum of the reservations of `rs`. */
  function RawSum(rs: seq<Running>): nat {
    if rs == [] then 0 else rs[0].memory + RawSum(rs[1..])
  }

  function RawReserved(s: State): nat {
    RawSum(s.running) + RawSum(s.held)
  }

  /** What the u64 arithmetic of the source computes for that sum. */
  function Reserved(s: State): U64 {
    RawReserved(s) % WORD
  }

  function CountProject(rs: seq<Running>, project: Project): nat {
    if rs == [] then 0
    else (if rs[0].project == project then 1 else 0) + CountProject(rs[1..], project)
  }

  function SlotsFree(s: State): nat {
    SatSub(s.limits.maxParallel, |s.running|)
  }

  function ProjectSlotsFree(s: State, project: Project): nat {
    SatSub(s.limits.maxPerProject, CountProject(s.running, project))
  }

  predicate MemoryFits(s: State, memory: U64) {
    (Reserved(s) + memory) % WORD <= s.limits.memoryBudget
  }

  predicate CanAdmit(s: State, project: Project, memory: U64) {
    SlotsFree(s) > 0 && ProjectSlotsFree(s, project) > 0 && MemoryFits(s, memory)
  }

  // -------------------------------------------------------------- operations

  function Submit(s: State, id: RunId, project: Project, memory: U64, timeout: Option<nat>, now: nat): (State, Admission)
  {
    if memory > s.limits.memoryBudget then
      (s, Rejected(Impossible(memory, s.limits.memoryBudget)))
    else if CanAdmit(s, project, memory) then
      (s.(running := s.running + [Running(id, project, memory)]), Start(memory))
    else if |s.queue| >= s.limits.maxQueued then
      (s, Rejected(QueueFull(s.limits.maxQueued)))
    else
      var wait := if timeout.Some? then timeout.value else s.limits.queueTimeout;
      (s.(queue := s.queue + [Queued(id, project, memory, now, now + wait)]), Waiting(|s.queue| + 1))
  }

  /** Could this queued request be admitted, a global slot being free? */
  predicate Fits(s: State, q: Queued) {
    ProjectSlotsFree(s, q.project) > 0 && MemoryFits(s, q.memory)
  }

  predicate Starved(s: State, q: Queued, now: nat) {
    SatSub(now, q.enqueuedAt) >= s.limits.starvationAfter
  }

  predicate IdleProject(s: State, q: Queued) {
    ProjectSlotsFree(s, q.project) == s.limits.maxPerProject
  }

  /** The first index whose request satisfies `p`. */
  function FindFirst(queue: seq<Queued>, p: Queued -> bool): (r: Option<nat>)
    ensures r.None? ==> forall k :: 0 <= k < |queue| ==> !p(queue[k])
    ensures r.Some? ==> r.value < |queue| && p(queue[r.value]) && forall k :: 0 <= k < r.value ==> !p(queue[k])
  {
    if queue == [] then None
    else if p(queue[0]) then Some(0)
    else
      var rest := FindFirst(queue[1..], p);
      if rest.None? then None else Some(rest.value + 1)
  }

  /** The first index, among those satisfying `p`, of the smallest arrival time. */
  function OldestWhere(queue: seq<Queued>, p: Queued -> bool): (r: Option<nat>)
    ensures r.None? ==> forall k :: 0 <= k < |queue| ==> !p(queue[k])
    ensures r.Some? ==>
              && r.value < |queue|
              && p(queue[r.value])
              && (forall k :: 0 <= k < |queue| && p(queue[k]) ==> queue[r.value].enqueuedAt <= queue[k].enqueuedAt)
              && (forall k :: 0 <= k < r.value && p(queue[k]) ==> queue[r.value].enqueuedAt < queue[k].enqueuedAt)
  {
    if queue == [] then None
    else
      var rest := OldestWhere(queue[1..], p);
      if p(queue[0]) && (rest.None? || queue[0].enqueuedAt <= queue[1..][rest.value].enqueuedAt) then Some(0)
      else if rest.None? then None
      else Some(rest.value + 1)
  }

  /** Three tiers: a starved request, then one of an idle project, then any. */
  function CandidateIndex(s: State, now: nat): (r: Option<nat>)
    ensures r.Some? ==> r.value < |s.queue| && SlotsFree(s) > 0 && Fits(s, s.queue[r.value])
    ensures r.None? <==> SlotsFree(s) == 0 || forall k :: 0 <= k < |s.queue| ==> !Fits(s, s.queue[k])
  {
    if SlotsFree(s) == 0 then None
    else
      var starved := FindFirst(s.queue, (q: Queued) => Fits(s, q) && Starved(s, q, now));
      if starved.Some? then starved
      else
        var idle := OldestWhere(s.queue, (q: Queued) => Fits(s, q) && IdleProject(s, q));
        if idle.Some? then idle
        else OldestWhere(s.queue, (q: Queued) => Fits(s, q))
  }

  /** Move the request at `index` from the queue to the running slots. */
  function AdmitAt(s: State, index: nat): State
    requires index < |s.queue|
  {
    var q := s.queue[index];
    s.(queue := s.queue[..index] + s.queue[index + 1..],
       running := s.running + [Running(q.id, q.project, q.memory)])
  }

  /** Admit until no queued request fits; the ids are in admission order. */
  function Drain(s: State, now: nat): (State, seq<RunId>)
    decreases |s.queue|
  {
    var c := CandidateIndex(s, now);
    if c.None? then (s, [])
    else
      var (t, ids) := Drain(AdmitAt(s, c.value), now);
      (t, [s.queue[c.value].id] + ids)
  }

  function Without(rs: seq<Running>, id: RunId): (r: seq<Running>)
    ensures |r| <= |rs|
    ensures forall x :: x in r <==> x in rs && x.id != id
  {
    if rs == [] then []
    else (if rs[0].id == id then [] else [rs[0]]) + Without(rs[1..], id)
  }

  function FindRunning(rs: seq<Running>, id: RunId): (r: Option<Running>)
    ensures r.Some? ==> r.value in rs && r.value.id == id
    ensures r.None? ==> forall x :: x in rs ==> x.id != id
  {
    if rs == [] then None
    else if rs[0].id == id then Some(rs[0])
    else FindRunning(rs[1..], id)
  }

  /** The running slot is given back, and its reservation kept if `hold`. */
  function FreeSlot(s: State, id: RunId, hold: bool): State {
    var kept := if hold then FindRunning(s.running, id) else None;
    s.(running := Without(s.running, id),
       held := if kept.Some? then s.held + [kept.value] else s.held)
  }

  function Release(s: State, id: RunId, hold: bool, now: nat): (State, seq<RunId>) {
    var freed := FreeSlot(s, id, hold);
    if |freed.running| == |s.running| then (freed, []) else Drain(freed, now)
  }

  function DropQueued(queue: seq<Queued>, id: RunId): (r: seq<Queued>)
    ensures |r| <= |queue|
    ensures forall q :: q in r <==> q in queue && q.id != id
  {
    if queue == [] then []
    else (if queue[0].id == id then [] else [queue[0]]) + DropQueued(queue[1..], id)
  }

  function CancelQueued(s: State, id: RunId): (State, bool) {
    var rest := DropQueued(s.queue, id);
    (s.(queue := rest), |rest| != |s.queue|)
  }

  function Live(queue: seq<Queued>, now: nat): (r: seq<Queued>)
    ensures |r| <= |queue|
    ensures forall q :: q in r <==> q in queue && now < q.deadline
  {
    if queue == [] then []
    else (if now >= queue[0].deadline then [] else [queue[0]]) + Live(queue[1..], now)
  }

  function Expired(queue: seq<Queued>, now: nat): (r: seq<RunId>)
    ensures forall id :: id in r <==> exists q :: q in queue && q.id == id && now >= q.deadline
  {
    if queue == [] then []
    else
      assert queue == [queue[0]] + queue[1..];
      (if now >= queue[0].deadline then [queue[0].id] else []) + Expired(queue[1..], now)
  }

  function Expire(s: State, now: nat): (State, seq<RunId>) {
    (s.(queue := Live(s.queue, now)), Expired(s.queue, now))
  }

  function SetLimits(s: State, limits: Limits): State {
    s.(limits := limits)
  }

  function RunningIds(rs: seq<Running>): set<RunId> {
    set r | r in rs :: r.id
  }

  function QueueIds(queue: seq<Queued>): set<RunId> {
    set q | q in queue :: q.id
  }

  /** Why a queued request is still waiting, as clients are told. */
  datatype WaitReason = ProjectAtLimit | AllSlotsBusy | WaitingForMemory

  function Reason(s: State, q: Queued): WaitReason {
    if ProjectSlotsFree(s, q.project) == 0 then ProjectAtLimit
    else if SlotsFree(s) == 0 then AllSlotsBusy
    else WaitingForMemory
  }

  // -------------------------------------------------------------- whole runs

  datatype Op =
    | SubmitOp(id: RunId, project: Project, memory: U64, timeout: Option<nat>, now: nat)
    | ReleaseOp(id: RunId, hold: bool, now: nat)
    | CancelOp(id: RunId)
    | ExpireOp(now: nat)
    | SetLimitsOp(limits: Limits)

  function Step(s: State, op: Op): State {
    match op
    case SubmitOp(id, project, memory, timeout, now) => Submit(s, id, project, memory, timeout, now).0
    case ReleaseOp(id, hold, now) => Release(s, id, hold, now).0
    case CancelOp(id) => CancelQueued(s, id).0
    case ExpireOp(now) => Expire(s, now).0
    case SetLimitsOp(limits) => SetLimits(s, limits)
  }

  function Run(s: State, ops: seq<Op>): State
    decreases |ops|
  {
    if ops == [] then s else Run(Step(s, ops[0]), ops[1..])
  }
}
