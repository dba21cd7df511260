/**
 What a cancel does to a run that is not in the queue: it sets the flag of the
 slot it has. On the live slot the worker sees it before it spawns the
 command; on a copy nobody ever does.
 */
module SupervisorFlags {
  import opened Base
  import opened RunTableSpec
  import opened SchedulerIds
  import opened SchedulerEffects
  import opened SupervisorSpec
  import opened SupervisorInv
  import opened SupervisorSteps
  import opened SupervisorHistory
  import opened SupervisorReads
  import opened SupervisorRace
  import opened SupervisorCancels
  import opened SupervisorDismissal
  import S = SchedulerSpec

  // -------------------------------------------------- a flag that is set in time

  predicate Spawnless(phase: Phase) {
    phase != Running && phase != Stopping
  }

  /** Where a worker is that has not passed its look at the flag. */
  predicate BeforePoll(at: Pc) {
    match at
    case Begin => true
    case Wrote(phase, _) => phase == Starting
    case In(phase) => phase == Starting
    case Cleared => false
  }

  /** The command of the run was not spawned, and no worker is cleared to do it. */
  ghost predicate Unspawned(st: Sup, id: RunId) {
    ViewsSpawnless(st, id) && forall tid :: tid in st.tasks ==> WorkerWaits(st, tid, id)
  }

  ghost predicate Flagged(st: Sup, id: RunId) {
    id in st.local && st.local[id].cancel
  }

  /** Calls, and changes of limits, touch no row, no slot and no worker. */
  lemma CallsLeaveRuns(st: Sup, ev: Event, id: RunId)
    requires Enabled(st, ev) && Calls(ev) && id in st.local
    ensures var t := Apply(st, ev);
            t.table == st.table && id in t.local && t.local[id].slot == st.local[id].slot
            && (st.local[id].cancel ==> t.local[id].cancel)
  {
  }

  lemma CallsLeaveWorkers(st: Sup, ev: Event, id: RunId, tid: Tid)
    requires Enabled(st, ev) && Calls(ev) && WorkerWaits(st, tid, id)
    ensures WorkerWaits(Apply(st, ev), tid, id)
  {
  }

  lemma FlagStaysInStart(st: Sup, ev: Event, id: RunId)
    requires Enabled(st, ev) && Starts(ev) && Flagged(st, id) && id != st.table.nextId
    ensures Flagged(Apply(st, ev), id)
  {
  }

  lemma FlagStaysInWork(st: Sup, ev: Event, id: RunId)
    requires Enabled(st, ev) && Works(ev) && Flagged(st, id)
    ensures Flagged(Apply(st, ev), id)
  {
  }

  lemma FlagStays(st: Sup, ev: Event, id: RunId)
    requires Inv(st) && Enabled(st, ev) && Flagged(st, id)
    ensures Flagged(Apply(st, ev), id)
  {
    assert st.table.nextId !in st.table.rows;
    if Starts(ev) {
      FlagStaysInStart(st, ev, id);
    } else if Works(ev) {
      FlagStaysInWork(st, ev, id);
    } else {
      CallsLeaveRuns(st, ev, id);
    }
  }

  ghost predicate ViewsSpawnless(st: Sup, id: RunId) {
    && id in st.table.rows && id in st.local && Spawnless(st.table.rows[id].phase)
    && (st.local[id].slot.Some? ==> Spawnless(st.local[id].slot.value.phase))
  }

  ghost predicate WorkerWaits(st: Sup, tid: Tid, id: RunId) {
    tid in st.tasks && st.tasks[tid].Worker? && st.tasks[tid].id == id ==> BeforePoll(st.tasks[tid].at)
  }

  lemma ViewsStayInStart(st: Sup, ev: Event, id: RunId)
    requires Enabled(st, ev) && Starts(ev) && ViewsSpawnless(st, id) && id != st.table.nextId
    ensures ViewsSpawnless(Apply(st, ev), id)
  {
  }

  lemma ViewsStayInWork(st: Sup, ev: Event, id: RunId)
    requires Enabled(st, ev) && Works(ev) && ViewsSpawnless(st, id) && WorkerWaits(st, ev.tid, id)
    ensures ViewsSpawnless(Apply(st, ev), id)
  {
  }

  lemma ViewsStay(st: Sup, ev: Event, id: RunId)
    requires Inv(st) && Enabled(st, ev) && Unspawned(st, id)
    ensures ViewsSpawnless(Apply(st, ev), id)
  {
    assert st.table.nextId !in st.table.rows;
    if Starts(ev) {
      ViewsStayInStart(st, ev, id);
    } else if Works(ev) {
      ViewsStayInWork(st, ev, id);
    } else {
      CallsLeaveRuns(st, ev, id);
    }
  }

  lemma WorkersStayInStart(st: Sup, ev: Event, id: RunId, tid: Tid)
    requires Enabled(st, ev) && Starts(ev) && WorkerWaits(st, tid, id)
    ensures WorkerWaits(Apply(st, ev), tid, id)
  {
  }

  lemma WorkersStayInWork(st: Sup, ev: Event, id: RunId, tid: Tid)
    requires Enabled(st, ev) && Works(ev) && WorkerWaits(st, tid, id) && Flagged(st, id)
    ensures WorkerWaits(Apply(st, ev), tid, id)
  {
  }

  lemma WorkersStay(st: Sup, ev: Event, id: RunId, tid: Tid)
    requires Inv(st) && Enabled(st, ev) && Flagged(st, id) && Unspawned(st, id)
    ensures WorkerWaits(Apply(st, ev), tid, id)
  {
    if Starts(ev) {
      WorkersStayInStart(st, ev, id, tid);
    } else if Works(ev) {
      WorkersStayInWork(st, ev, id, tid);
    } else {
      CallsLeaveWorkers(st, ev, id, tid);
    }
  }

  lemma StepStaysUnspawned(st: Sup, ev: Event, id: RunId)
    requires Inv(st) && Enabled(st, ev) && Flagged(st, id) && Unspawned(st, id)
    ensures Unspawned(Apply(st, ev), id)
  {
    ViewsStay(st, ev, id);
    forall tid | tid in Apply(st, ev).tasks ensures WorkerWaits(Apply(st, ev), tid, id) {
      WorkersStay(st, ev, id, tid);
    }
  }

  lemma {:induction false} RunStaysUnspawned(st: Sup, evs: seq<Event>, id: RunId)
    requires Inv(st) && IsRun(st, evs) && Flagged(st, id) && Unspawned(st, id)
    ensures Flagged(RunAll(st, evs), id) && Unspawned(RunAll(st, evs), id)
    decreases |evs|
  {
    if evs != [] {
      StepKeepsInv(st, evs[0]);
      FlagStays(st, evs[0], id);
      StepStaysUnspawned(st, evs[0], id);
      RunStaysUnspawned(Apply(st, evs[0]), evs[1..], id);
    }
  }

  /**
   A flag set on the live slot before the worker looks at it is never missed:
   in no continuation is the command spawned.
   */
  lemma FlaggedNeverSpawns(st: Sup, c: Tid, evs: seq<Event>, id: RunId)
    requires Inv(st) && Has(st, c, Flagging(id, Live)) && Unspawned(st, id)
    requires IsRun(Apply(st, CancelFlag(c)), evs)
    ensures Unspawned(RunAll(Apply(st, CancelFlag(c)), evs), id)
  {
    var s := Apply(st, CancelFlag(c));
    StepKeepsInv(st, CancelFlag(c));
    ViewsStay(st, CancelFlag(c), id);
    forall tid | tid in s.tasks ensures WorkerWaits(s, tid, id) {
      CallsLeaveWorkers(st, CancelFlag(c), id, tid);
    }
    RunStaysUnspawned(s, evs, id);
  }

  /**
   A careful cancel of a queued run takes effect: either it takes the run out
   of the queue, and no worker is ever started for it, or it goes on to set the
   flag of the live slot.
   */
  lemma CancelTakesEffect(st: Sup, c: Tid, result: RunResult, evs: seq<Event>)
    requires ReadInv(st) && Enabled(st, CancelTake(c, result)) && IsRun(Apply(st, CancelTake(c, result)), evs)
    ensures var id := st.tasks[c].id;
            var s, t := Apply(st, CancelTake(c, result)), RunAll(Apply(st, CancelTake(c, result)), evs);
            if id in Queue(st) then id in t.local && t.local[id].workers == 0
            else Has(s, c, Flagging(id, Live))
  {
    var id := st.tasks[c].id;
    assert TaskSees(st, c);
    CancelMoves(st.sched, id);
    if id in Queue(st) {
      DismissedNeverRuns(st, CancelTake(c, result), evs, id);
    }
  }

  // ------------------------------------------------------------ a lost cancel

  /** The cancel of a copy, from the loaded copy up to its flag. */
  lemma CopyIsAsked(st: Sup, c: Tid, id: RunId)
    requires id !in Queue(st) && Has(st, c, CancelLoaded(id, Copy(FRESH)))
    ensures After(st, CancelCheck(c), CancelTake(c, CANCELLED), Put(st, c, Flagging(id, Copy(FRESH))))
  {
    NobodyTaken(st.sched.queue, id);
    var s1 := Apply(st, CancelCheck(c));
    assert s1 == Put(st, c, Cancelling(id, Copy(FRESH)));
    var s2 := Apply(s1, CancelTake(c, CANCELLED));
    assert s2.tasks == st.tasks[c := Flagging(id, Copy(FRESH))];
  }

  function LostCancel(c: Tid, id: RunId): seq<Event> {
    [CancelCall(c, id), CancelRead(c)] + ([CancelCheck(c), CancelTake(c, CANCELLED)] + [CancelFlag(c)])
  }

  lemma CopyIsLoaded(st: Sup, c: Tid, id: RunId)
    requires c !in st.tasks && id in st.table.rows && RowView(st.table.rows[id]) == FRESH && !At(st, id).registered
    ensures After(st, CancelCall(c, id), CancelRead(c), Put(st, c, CancelLoaded(id, Copy(FRESH))))
  {
    var s1 := Apply(st, CancelCall(c, id));
    assert s1 == Put(st, c, CancelMissed(id));
  }

  lemma CopyIsDropped(st: Sup, c: Tid, id: RunId, last: Sup)
    requires c !in st.tasks && last == Put(st, c, Flagging(id, Copy(FRESH)))
    ensures Enabled(last, CancelFlag(c)) && Apply(last, CancelFlag(c)) == st
  {
    assert Drop(last, c).tasks == st.tasks;
  }

  /**
   A cancel of a run that `start` has inserted and not registered can be lost
   without a trace: the state after the whole call is the state before it.
   */
  lemma EarlyCancelIsLost(st: Sup, c: Tid, id: RunId)
    requires Inv(st) && c !in st.tasks && id in st.table.rows && !Careful(st, CancelCall(c, id))
    ensures IsRun(st, LostCancel(c, id)) && RunAll(st, LostCancel(c, id)) == st
  {
    assert RunOk(st, id);
    CopyIsLoaded(st, c, id);
    var s := Put(st, c, CancelLoaded(id, Copy(FRESH)));
    CopyIsAsked(s, c, id);
    var last := Put(s, c, Flagging(id, Copy(FRESH)));
    assert last == Put(st, c, Flagging(id, Copy(FRESH)));
    CopyIsDropped(st, c, id, last);
    RunCons(last, CancelFlag(c), []);
    RunTwo(s, CancelCheck(c), CancelTake(c, CANCELLED), last, [CancelFlag(c)]);
    RunTwo(st, CancelCall(c, id), CancelRead(c), s, [CancelCheck(c), CancelTake(c, CANCELLED)] + [CancelFlag(c)]);
  }

  /** Whoever is about to set the flag of the run has its live slot. */
  ghost predicate FlagsLive(st: Sup, id: RunId) {
    forall tid :: tid in st.tasks && st.tasks[tid].Flagging? && st.tasks[tid].id == id ==> st.tasks[tid].ref.Live?
  }

  ghost predicate NeverLost(st: Sup, id: RunId) {
    forall evs :: IsRun(st, evs) && IsCarefulRun(st, evs) ==> FlagsLive(RunAll(st, evs), id)
  }

  lemma ReadersFlagLive(st: Sup, id: RunId)
    requires ReadInv(st)
    ensures FlagsLive(st, id)
  {
    forall tid | tid in st.tasks && st.tasks[tid].Flagging? && st.tasks[tid].id == id ensures st.tasks[tid].ref.Live? {
      assert TaskSees(st, tid);
    }
  }

  lemma UnlistedFlagsCopy(st: Sup, c: Tid, id: RunId, h: Tid, request: Request, l: Local) returns (t: Sup)
    requires Inv(st) && Unlisted(st, c, id, h, request, l)
    ensures Reaches(st, t) && !FlagsLive(t, id)
  {
    Holds(st, h, id);
    ReachesNext(st, CancelRead(c));
    var s := Put(st, c, CancelLoaded(id, Copy(FRESH)));
    assert Apply(st, CancelRead(c)) == s;
    CopyIsAsked(s, c, id);
    t := Put(s, c, Flagging(id, Copy(FRESH)));
    ReachesThen(st, s, CancelCheck(c));
    ReachesThen(st, Apply(s, CancelCheck(c)), CancelTake(c, CANCELLED));
    assert Has(t, c, Flagging(id, Copy(FRESH)));
  }

  /** A cancel always reaches the live slot if and only if it is careful. */
  lemma CancelIsNeverLostIff(st: Sup, c: Tid, id: RunId)
    requires ReadInv(st) && c !in st.tasks
    ensures NeverLost(Apply(st, CancelCall(c, id)), id) <==> Careful(st, CancelCall(c, id))
  {
    var call := CancelCall(c, id);
    var s := Apply(st, call);
    if Careful(st, call) {
      StepKeepsReads(st, call);
      forall evs | IsRun(s, evs) && IsCarefulRun(s, evs) ensures FlagsLive(RunAll(s, evs), id) {
        RunKeepsReads(s, evs);
        ReadersFlagLive(RunAll(s, evs), id);
      }
    } else {
      var u, h, request, l := CarelessIsUnlisted(st, c, id);
      var t := UnlistedFlagsCopy(u, c, id, h, request, l);
      ReachesOn(s, u, t);
      var evs :| IsPlainRun(s, evs) && RunAll(s, evs) == t;
      PlainIsCareful(s, evs);
    }
  }
}
