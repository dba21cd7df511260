/**
 A crash at any step: whatever the threads were doing, what is left is the
 table, and the recovery of the next supervisor turns it into a state from
 which everything starts again.
 */
module SupervisorRecovery {
  import opened Base
  import opened RunTableSpec
  import opened SupervisorSpec
  import opened SupervisorInv
  import opened SupervisorSteps
  import S = SchedulerSpec

  /** A supervisor started on a table: nothing running, queued, held or pending. */
  function Restarted(table: Table, limits: S.Limits): Sup {
    Sup(S.New(limits), table, map id | id in table.rows :: UNKNOWN, map[])
  }

  ghost predicate AllFinished(t: Table) {
    forall id :: id in t.rows ==> t.rows[id].phase == Finished && t.rows[id].result.Some?
  }

  lemma RecoveredIsSeparated(t: Table, u: Table)
    requires Separated(t) && RecoveredFrom(t, u, Unfinished(t))
    ensures Separated(u)
  {
    forall id | id in t.rows ensures u.rows[id].requestId == t.rows[id].requestId && u.rows[id].createdAt == t.rows[id].createdAt {
    }
  }

  lemma RestartedIsInit(u: Table, limits: S.Limits)
    requires Separated(u) && AllFinished(u)
    ensures Init(Restarted(u, limits))
  {
  }

  lemma PrunedIsInit(u: Table, before: nat, limits: S.Limits)
    requires Separated(u) && AllFinished(u)
    ensures Init(Restarted(Prune(u, before).0, limits))
  {
    var p := Prune(u, before).0;
    assert Separated(p) && AllFinished(p);
    RestartedIsInit(p, limits);
  }

  /**
   From the table of any state of the protocol, recovery and pruning lead to an
   initial state, in which the invariant holds again. Results recorded before
   the crash are the ones found after it, and every other run ends as lost.
   */
  lemma RecoveryRestarts(st: Sup, u: Table, before: nat, limits: S.Limits)
    requires Inv(st) && RecoveredFrom(st.table, u, Unfinished(st.table))
    ensures Init(Restarted(u, limits)) && Init(Restarted(Prune(u, before).0, limits))
    ensures forall id :: id in st.table.rows ==>
              if st.table.rows[id].phase == Finished then u.rows[id] == st.table.rows[id]
              else u.rows[id].result.Some? && u.rows[id].result.value.outcome == SupervisorLost
  {
    forall id | id in u.rows ensures u.rows[id].phase == Finished && u.rows[id].result.Some? {
      assert RunOk(st, id);
    }
    RecoveredIsSeparated(st.table, u);
    RestartedIsInit(u, limits);
    PrunedIsInit(u, before, limits);
  }

  /**
   A crash inside the recovery pass, after the runs in `done`: the next pass
   leaves what one uninterrupted pass promises.
   */
  lemma InterruptedRecovery(t: Table, u: Table, v: Table, done: set<RunId>)
    requires done <= Unfinished(t)
    requires RecoveredFrom(t, u, done) && RecoveredFrom(u, v, Unfinished(u))
    ensures RecoveredFrom(t, v, Unfinished(t))
  {
    forall id | id in t.rows ensures id in Unfinished(u) <==> id in Unfinished(t) && id !in done {
    }
  }

  /** A crash after any interleaving, and any interleaving after the restart. */
  lemma CrashSafety(st: Sup, evs: seq<Event>, u: Table, before: nat, limits: S.Limits, more: seq<Event>)
    requires Init(st) && IsRun(st, evs)
    requires RecoveredFrom(RunAll(st, evs).table, u, Unfinished(RunAll(st, evs).table))
    requires IsRun(Restarted(Prune(u, before).0, limits), more)
    ensures Inv(RunAll(Restarted(Prune(u, before).0, limits), more))
  {
    InitKeeps(st);
    RunKeepsInv(st, evs);
    RecoveryRestarts(RunAll(st, evs), u, before, limits);
    InitKeeps(Restarted(Prune(u, before).0, limits));
    RunKeepsInv(Restarted(Prune(u, before).0, limits), more);
  }
}
