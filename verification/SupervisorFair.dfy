/**
 Fairness of the whole supervisor: in every interleaving each run is submitted
 to the scheduler at most once, so the scheduler's history of requests is a
 legal one and no waiting run of a project is overtaken by a later one that
 asks for at least as much.
 */
module SupervisorFair {
  import opened Base
  import opened RunTableSpec
  import opened SupervisorSpec
  import opened SupervisorInv
  import opened SupervisorSteps
  import opened SupervisorHistory
  import opened SupervisorCaps
  import C = SchedulerCaps
  import O = SchedulerOrder
  import S = SchedulerSpec

  /** The clock does not go back between critical sections; limits do not loosen. */
  ghost predicate Orderly(st: Sup, ev: Event, clock: nat) {
    match ev
    case SubmitRun(_, now, _) => now >= clock
    case Tick(_, now) => now >= clock
    case ReleaseSlot(_, now) => now >= clock
    case ChangeLimits(limits) => C.NotLoosened(st.sched.limits, limits)
    case _ => true
  }

  function TimeOf(ev: Event, clock: nat): nat {
    match ev
    case SubmitRun(_, now, _) => now
    case Tick(_, now) => now
    case ReleaseSlot(_, now) => now
    case _ => clock
  }

  ghost predicate OrderlyRun(st: Sup, evs: seq<Event>, clock: nat)
    requires IsRun(st, evs)
    decreases |evs|
  {
    evs == [] || (Orderly(st, evs[0], clock) && OrderlyRun(Apply(st, evs[0]), evs[1..], TimeOf(evs[0], clock)))
  }

  // ------------------------------------------------------- submitted only once

  /** The run is not submitted yet. */
  predicate Early(task: Task) {
    task.Inserted? || task.Registered?
  }

  function RunOf(task: Task): RunId
    requires Early(task)
  {
    task.id
  }

  /** The history is the one of this state, and early runs are not in it. */
  ghost predicate Numbered(st: Sup, h: O.History) {
    && h.s == st.sched
    && h.arrivals.Keys <= st.table.rows.Keys
    && forall tid :: tid in st.tasks && Early(st.tasks[tid]) ==> RunOf(st.tasks[tid]) !in h.arrivals
  }

  /** Where an early task of the next state comes from. */
  ghost predicate Comes(st: Sup, ev: Event, t: Sup, tid: Tid) {
    tid in t.tasks && Early(t.tasks[tid]) ==>
      || (ev.Insert? && RunOf(t.tasks[tid]) == st.table.nextId)
      || (&& tid in st.tasks && Early(st.tasks[tid]) && RunOf(t.tasks[tid]) == RunOf(st.tasks[tid])
          && (ev.SubmitRun? ==> tid != ev.tid))
  }

  lemma EarlyTasksOfStart(st: Sup, ev: Event, tid: Tid)
    requires Enabled(st, ev) && (ev.Insert? || ev.Register? || ev.SubmitRun?)
    ensures Comes(st, ev, Apply(st, ev), tid)
  {
  }

  lemma EarlyTasksCome(st: Sup, ev: Event, tid: Tid)
    requires Enabled(st, ev)
    ensures Comes(st, ev, Apply(st, ev), tid)
  {
    if ev.Insert? || ev.Register? || ev.SubmitRun? {
      EarlyTasksOfStart(st, ev, tid);
    }
  }

  /** The history of at most one operation. */
  lemma OneOperation(h: O.History, ops: seq<S.Op>)
    requires |ops| <= 1
    ensures O.RunHistory(h, ops) == if ops == [] then h else O.Next(h, ops[0])
    ensures O.LegalRun(h, ops) <==> ops == [] || O.Legal(h, ops[0])
  {
    assert ops != [] ==> ops[1..] == [];
  }

  lemma EarlyAreUnrecorded(st: Sup, ev: Event, h: O.History, n: O.History, tid: Tid)
    requires Inv(st) && Numbered(st, h) && Enabled(st, ev)
    requires tid in Apply(st, ev).tasks && Early(Apply(st, ev).tasks[tid])
    requires n.arrivals.Keys == h.arrivals.Keys + if ev.SubmitRun? then {st.tasks[ev.tid].id} else {}
    ensures RunOf(Apply(st, ev).tasks[tid]) !in n.arrivals
  {
    EarlyTasksCome(st, ev, tid);
    var id := RunOf(Apply(st, ev).tasks[tid]);
    assert st.table.nextId !in st.table.rows;
    if ev.SubmitRun? && id == st.tasks[ev.tid].id {
      assert WorksOn(st, tid, id) && WorksOn(st, ev.tid, id);
      OneHolder(st, tid, ev.tid, id);
    }
  }

  /** What a critical section adds to the history. */
  lemma StepAdds(st: Sup, ev: Event, h: O.History)
    requires h.s == st.sched && Enabled(st, ev) && Orderly(st, ev, h.clock)
    requires ev.SubmitRun? ==> st.tasks[ev.tid].id !in h.arrivals
    ensures O.LegalRun(h, OpsOf(st, ev))
    ensures var n := O.RunHistory(h, OpsOf(st, ev));
            && n.s == S.Run(st.sched, OpsOf(st, ev)) && n.clock == TimeOf(ev, h.clock)
            && n.arrivals.Keys == h.arrivals.Keys + if ev.SubmitRun? then {st.tasks[ev.tid].id} else {}
  {
    var ops := OpsOf(st, ev);
    OneOperation(h, ops);
    if ops != [] {
      assert ops == [ops[0]];
      RunOne(st.sched, ops[0]);
    }
  }

  lemma StepIsLegal(st: Sup, ev: Event, h: O.History)
    requires Inv(st) && Numbered(st, h) && Enabled(st, ev) && Orderly(st, ev, h.clock)
    ensures O.LegalRun(h, OpsOf(st, ev))
    ensures var n := O.RunHistory(h, OpsOf(st, ev));
            Numbered(Apply(st, ev), n) && n.clock == TimeOf(ev, h.clock)
  {
    StepDrivesScheduler(st, ev);
    StepAdds(st, ev, h);
    StepNumbers(st, ev, h, O.RunHistory(h, OpsOf(st, ev)));
  }

  lemma StepNumbers(st: Sup, ev: Event, h: O.History, n: O.History)
    requires Inv(st) && Numbered(st, h) && Enabled(st, ev) && n.s == Apply(st, ev).sched
    requires n.arrivals.Keys == h.arrivals.Keys + if ev.SubmitRun? then {st.tasks[ev.tid].id} else {}
    ensures Numbered(Apply(st, ev), n)
  {
    var t := Apply(st, ev);
    forall tid | tid in t.tasks && Early(t.tasks[tid]) ensures RunOf(t.tasks[tid]) !in n.arrivals {
      EarlyAreUnrecorded(st, ev, h, n, tid);
    }
    RowsStay(st, ev);
    if ev.SubmitRun? {
      Holds(st, ev.tid, st.tasks[ev.tid].id);
    }
  }

  lemma {:induction false} RunIsLegal(st: Sup, evs: seq<Event>, h: O.History)
    requires Inv(st) && Numbered(st, h) && IsRun(st, evs) && OrderlyRun(st, evs, h.clock)
    ensures O.LegalRun(h, OpsOfRun(st, evs))
    ensures Numbered(RunAll(st, evs), O.RunHistory(h, OpsOfRun(st, evs)))
    decreases |evs|
  {
    if evs != [] {
      var mid := Apply(st, evs[0]);
      var ops := OpsOf(st, evs[0]);
      StepIsLegal(st, evs[0], h);
      StepKeepsInv(st, evs[0]);
      RunIsLegal(mid, evs[1..], O.RunHistory(h, ops));
      O.HistoriesJoin(h, ops, OpsOfRun(mid, evs[1..]));
    }
  }

  /**
   No overtaking in any interleaving of the supervisor's threads: while a run
   waits in the queue, no run of its project that was submitted later and asks
   for at least as much memory has ever been admitted.
   */
  lemma NoOvertakingInEveryInterleaving(st: Sup, evs: seq<Event>, first: S.Queued)
    requires Init(st) && IsRun(st, evs) && OrderlyRun(st, evs, 0)
    requires st.sched.limits.memoryBudget <= C.HALF || st.sched.limits.memoryBudget == WORD - 1
    requires first in RunAll(st, evs).sched.queue
    ensures O.LegalRun(O.Begin(st.sched.limits), OpsOfRun(st, evs))
    ensures var h := O.RunHistory(O.Begin(st.sched.limits), OpsOfRun(st, evs));
            h.s == RunAll(st, evs).sched && O.NotOvertaken(h, first)
  {
    InitKeeps(st);
    RunIsLegal(st, evs, O.Begin(st.sched.limits));
    O.NoOvertaking(st.sched.limits, OpsOfRun(st, evs), first);
  }
}
