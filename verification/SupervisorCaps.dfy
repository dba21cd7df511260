/**
 The supervisor drives its scheduler only through the scheduler's own
 operations, so what holds of every run of the scheduler holds in every
 interleaving of the supervisor's threads.
 */
module SupervisorCaps {
  import opened Base
  import opened RunTableSpec
  import opened SchedulerIds
  import opened SupervisorSpec
  import opened SupervisorInv
  import opened SupervisorSteps
  import opened SupervisorHistory
  import C = SchedulerCaps
  import S = SchedulerSpec

  /** The scheduler operation inside a critical section, if there is one. */
  function OpsOf(st: Sup, ev: Event): seq<S.Op>
    requires Enabled(st, ev)
  {
    match ev
    case SubmitRun(tid, now, _) =>
      var task := st.tasks[tid];
      [S.SubmitOp(task.id, task.request.project, task.request.memory, task.request.timeout, now)]
    case Tick(_, now) => [S.ExpireOp(now)]
    case ReleaseSlot(tid, now) =>
      [S.ReleaseOp(st.tasks[tid].id, st.tasks[tid].result.cleanup != Complete, now)]
    case CancelTake(tid, _) => [S.CancelOp(st.tasks[tid].id)]
    case ChangeLimits(limits) => [S.SetLimitsOp(limits)]
    case _ => []
  }

  ghost function OpsOfRun(st: Sup, evs: seq<Event>): seq<S.Op>
    requires IsRun(st, evs)
    decreases |evs|
  {
    if evs == [] then [] else OpsOf(st, evs[0]) + OpsOfRun(Apply(st, evs[0]), evs[1..])
  }

  lemma RunOne(s: S.State, op: S.Op)
    ensures S.Run(s, [op]) == S.Step(s, op)
  {
    assert [op][1..] == [];
  }

  lemma StepDrivesScheduler(st: Sup, ev: Event)
    requires Enabled(st, ev)
    ensures Apply(st, ev).sched == S.Run(st.sched, OpsOf(st, ev))
  {
    var ops := OpsOf(st, ev);
    if ops != [] {
      RunOne(st.sched, ops[0]);
      assert ops == [ops[0]];
    }
  }

  lemma {:induction false} RunJoins(s: S.State, a: seq<S.Op>, b: seq<S.Op>)
    ensures S.Run(s, a + b) == S.Run(S.Run(s, a), b)
    decreases |a|
  {
    if a == [] {
      assert a + b == b;
    } else {
      RunJoins(S.Step(s, a[0]), a[1..], b);
      assert (a + b)[1..] == a[1..] + b;
    }
  }

  /** Every interleaving shows the scheduler one sequence of its operations. */
  lemma {:induction false} RunDrivesScheduler(st: Sup, evs: seq<Event>)
    requires IsRun(st, evs)
    ensures RunAll(st, evs).sched == S.Run(st.sched, OpsOfRun(st, evs))
    ensures forall op :: op in OpsOfRun(st, evs) && op.SetLimitsOp? ==>
              exists k :: 0 <= k < |evs| && evs[k] == ChangeLimits(op.limits)
    decreases |evs|
  {
    if evs != [] {
      var mid := Apply(st, evs[0]);
      StepDrivesScheduler(st, evs[0]);
      RunDrivesScheduler(mid, evs[1..]);
      RunJoins(st.sched, OpsOf(st, evs[0]), OpsOfRun(mid, evs[1..]));
      forall op | op in OpsOfRun(st, evs) && op.SetLimitsOp?
        ensures exists k :: 0 <= k < |evs| && evs[k] == ChangeLimits(op.limits)
      {
        if op in OpsOf(st, evs[0]) {
          assert evs[0] == ChangeLimits(op.limits);
        } else {
          var k :| 0 <= k < |evs[1..]| && evs[1..][k] == ChangeLimits(op.limits);
          assert evs[k + 1] == ChangeLimits(op.limits);
        }
      }
    }
  }

  /** The limits in force at the start and every later change of them. */
  ghost predicate EveryLimit(limits: S.Limits, evs: seq<Event>, ok: S.Limits -> bool) {
    ok(limits) && forall k :: 0 <= k < |evs| && evs[k].ChangeLimits? ==> ok(evs[k].limits)
  }

  /**
   The caps hold in every interleaving, at the loosest values they ever had:
   the two counts without any condition on memory, and the budget when it was
   never above half a word.
   */
  lemma CapsHoldInEveryInterleaving(st: Sup, evs: seq<Event>, top: S.Limits, p: S.Project)
    requires Init(st) && IsRun(st, evs)
    requires EveryLimit(st.sched.limits, evs,
                        (l: S.Limits) => l.maxParallel <= top.maxParallel && l.maxPerProject <= top.maxPerProject)
    ensures var t := RunAll(st, evs).sched;
            && |t.running| <= top.maxParallel
            && S.CountProject(t.running, p) <= top.maxPerProject
            && (top.memoryBudget <= C.HALF
                && EveryLimit(st.sched.limits, evs, (l: S.Limits) => l.memoryBudget <= top.memoryBudget) ==>
                  S.Reserved(t) == S.RawReserved(t) <= top.memoryBudget)
  {
    RunDrivesScheduler(st, evs);
    var limits, ops := st.sched.limits, OpsOfRun(st, evs);
    assert forall k :: 0 <= k < |ops| ==> ops[k] in ops;
    C.RunRespectsLoosestCounts(S.New(limits), ops, top, p);
    if top.memoryBudget <= C.HALF
       && EveryLimit(st.sched.limits, evs, (l: S.Limits) => l.memoryBudget <= top.memoryBudget) {
      C.RunRespectsLoosestBudget(S.New(limits), ops, top.memoryBudget);
    }
  }

  /**
   No run waits for ever on nothing: with limits left alone, once no thread has
   anything left to do and no reservation is held, every accepted run has
   finished.
   */
  lemma QuietMeansFinished(st: Sup, evs: seq<Event>)
    requires Init(st) && IsRun(st, evs)
    requires st.sched.limits.maxParallel >= 1 && st.sched.limits.maxPerProject >= 1
    requires forall k :: 0 <= k < |evs| ==> !evs[k].ChangeLimits?
    requires RunAll(st, evs).tasks == map[] && RunAll(st, evs).sched.held == []
    ensures forall id :: id in RunAll(st, evs).table.rows ==> RunAll(st, evs).table.rows[id].phase == Finished
  {
    RunDrivesScheduler(st, evs);
    var ops, t := OpsOfRun(st, evs), RunAll(st, evs);
    assert forall k :: 0 <= k < |ops| ==> ops[k] in ops;
    InitKeeps(st);
    RunKeepsInv(st, evs);
    NobodyRuns(t);
    C.NoStuckQueue(st.sched.limits, ops);
    forall id | id in t.table.rows ensures t.table.rows[id].phase == Finished {
      NothingIsLost(t, id);
    }
  }

  lemma NobodyRuns(st: Sup)
    requires Inv(st) && st.tasks == map[]
    ensures st.sched.running == []
  {
    forall id | id in st.table.rows ensures id !in Slots(st) {
      assert RunOk(st, id);
    }
    assert st.sched.running != [] ==> st.sched.running[0].id in Slots(st);
  }
}
