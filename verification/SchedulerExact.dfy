/**
 For which budgets the scheduler keeps its promises. The reservations are
 summed in a machine word; this module says, over all runs with fixed limits,
 exactly for which budgets the memory cap holds, no work is left undone and
 nobody of a project is overtaken.
 */
module SchedulerExact {
  import opened Base
  import opened SchedulerSpec
  import opened SchedulerCaps
  import opened SchedulerOrder
  import B = SchedulerBypass

  // ------------------------------------------------------------------ the runs

  lemma SumOfOne(r: Running, p: Project)
    ensures RawSum([r]) == r.memory && CountProject([r], p) == (if r.project == p then 1 else 0)
  {
    assert [r][1..] == [];
  }

  /** A run that reserved all of `memory` has left it behind. */
  function Held(limits: Limits, memory: U64): State {
    State(limits, [], [], [Running(1, "a", memory)])
  }

  function Leaving(memory: U64): seq<Op> {
    [SubmitOp(1, "a", memory, None, 0), ReleaseOp(1, true, 0)]
  }

  predicate Roomy(limits: Limits) {
    limits.maxParallel >= 1 && limits.maxPerProject >= 1
  }

  lemma LeavesHeld(limits: Limits, memory: U64)
    requires Roomy(limits) && memory <= limits.memoryBudget
    ensures Step(New(limits), Leaving(memory)[0]) == State(limits, [Running(1, "a", memory)], [], [])
    ensures Step(State(limits, [Running(1, "a", memory)], [], []), Leaving(memory)[1]) == Held(limits, memory)
    ensures Run(New(limits), Leaving(memory)) == Held(limits, memory)
  {
    var r := Running(1, "a", memory);
    SumOfOne(r, "a");
    var one, two := Leaving(memory)[0], Leaving(memory)[1];
    assert Step(New(limits), one) == State(limits, [r], [], []);
    var s := State(limits, [r], [], []);
    assert Without([r], 1) == [] && FindRunning([r], 1) == Some(r);
    assert FreeSlot(s, 1, true) == Held(limits, memory);
    assert Drain(Held(limits, memory), 0) == (Held(limits, memory), []);
    B.RunNext(New(limits), [], one);
    B.RunNext(New(limits), [one], two);
    assert [] + [one] == [one] && [one] + [two] == Leaving(memory);
  }

  // ---------------------------------------------------------------- the budget

  ghost predicate BudgetHolds(limits: Limits) {
    forall ops :: FixedLimits(ops) ==> RawReserved(Run(New(limits), ops)) <= limits.memoryBudget
  }

  /** What is left of the word starts beside it, and the sum is the whole word. */
  lemma WholeWordStarts(limits: Limits)
    requires Roomy(limits) && limits.memoryBudget > HALF
    ensures var rest := WORD - limits.memoryBudget;
            var t := Step(Held(limits, limits.memoryBudget), SubmitOp(3, "a", rest, None, 0));
            t.running == [Running(3, "a", rest)] && RawReserved(t) == WORD
  {
    var rest := WORD - limits.memoryBudget;
    SumOfOne(Running(1, "a", limits.memoryBudget), "a");
    SumOfOne(Running(3, "a", rest), "a");
    var s := Held(limits, limits.memoryBudget);
    assert RawReserved(s) == limits.memoryBudget && Reserved(s) == limits.memoryBudget;
    assert (Reserved(s) + rest) % WORD == 0;
    assert s.running + [Running(3, "a", rest)] == [Running(3, "a", rest)];
  }

  /** The reserved memory stays within the budget in every run if and only if that is at most half a word. */
  lemma BudgetHoldsIff(limits: Limits)
    requires Roomy(limits)
    ensures BudgetHolds(limits) <==> limits.memoryBudget <= HALF
  {
    if limits.memoryBudget <= HALF {
      forall ops | FixedLimits(ops) ensures RawReserved(Run(New(limits), ops)) <= limits.memoryBudget {
        RunRespectsLoosestBudget(New(limits), ops, limits.memoryBudget);
      }
    } else {
      var b := limits.memoryBudget;
      var last := SubmitOp(3, "a", WORD - b, None, 0);
      LeavesHeld(limits, b);
      WholeWordStarts(limits);
      B.RunNext(New(limits), Leaving(b), last);
      assert FixedLimits(Leaving(b) + [last]);
    }
  }

  // ------------------------------------------------------------------ the work

  /** Nobody ever waits who could be admitted. */
  ghost predicate WorkIsConserved(limits: Limits) {
    forall ops :: FixedLimits(ops) ==> Waits(Run(New(limits), ops))
  }

  /** Budgets under which no sum is mistaken: none wraps, or everything fits. */
  predicate SteadyBudget(limits: Limits) {
    limits.memoryBudget <= HALF || limits.memoryBudget == WORD - 1
  }

  /** A start takes the only slot there is, or there never is one, or nobody may wait. */
  predicate NoRoomToSpare(limits: Limits) {
    limits.maxParallel <= 1 || limits.maxPerProject == 0 || limits.maxQueued == 0
  }

  lemma {:induction false} FixedNeverLoosens(limits: Limits, ops: seq<Op>)
    requires FixedLimits(ops)
    ensures NeverLoosens(limits, ops)
    decreases |ops|
  {
    if ops != [] {
      assert forall k :: 0 <= k < |ops[1..]| ==> ops[1..][k] == ops[k + 1];
      FixedNeverLoosens(limits, ops[1..]);
    }
  }

  lemma OneSlotStepWaits(s: State, op: Op)
    requires Waits(s) && !op.SetLimitsOp? && (s.limits.maxParallel <= 1 || s.limits.maxPerProject == 0)
    ensures Waits(Step(s, op))
  {
    if op.ReleaseOp? {
      ReleaseConservesWork(s, op.id, op.hold, op.now);
    } else if op.SubmitOp? {
      forall q | q in Step(s, op).queue ensures !CanAdmit(Step(s, op), q.project, q.memory) {
      }
    }
  }

  lemma {:induction false} OneSlotRunWaits(s: State, ops: seq<Op>)
    requires Waits(s) && FixedLimits(ops) && (s.limits.maxParallel <= 1 || s.limits.maxPerProject == 0)
    ensures Waits(Run(s, ops))
    decreases |ops|
  {
    if ops != [] {
      OneSlotStepWaits(s, ops[0]);
      StepLimits(s, ops[0]);
      assert forall k :: 0 <= k < |ops[1..]| ==> ops[1..][k] == ops[k + 1];
      OneSlotRunWaits(Step(s, ops[0]), ops[1..]);
    }
  }

  /** The run in which a small start makes room for a large request that waits. */
  function Waking(limits: Limits): seq<Op>
    requires limits.memoryBudget >= 1
  {
    Leaving(limits.memoryBudget - 1)
    + [SubmitOp(2, "b", WORD - limits.memoryBudget, None, 0), SubmitOp(3, "a", 1, None, 0)]
  }

  function LastInLine(limits: Limits, project: Project, memory: U64): Queued {
    Queued(2, project, memory, 0, limits.queueTimeout)
  }

  lemma LargeOneWaits(limits: Limits)
    requires HALF < limits.memoryBudget < WORD - 1 && limits.maxQueued >= 1
    ensures var rest := WORD - limits.memoryBudget;
            Step(Held(limits, limits.memoryBudget - 1), SubmitOp(2, "b", rest, None, 0))
            == Held(limits, limits.memoryBudget - 1).(queue := [LastInLine(limits, "b", rest)])
  {
    SumOfOne(Running(1, "a", limits.memoryBudget - 1), "a");
  }

  lemma SmallOneWakesIt(limits: Limits)
    requires HALF < limits.memoryBudget < WORD - 1 && limits.maxParallel >= 2 && limits.maxPerProject >= 1
    ensures var q := LastInLine(limits, "b", WORD - limits.memoryBudget);
            var t := Step(Held(limits, limits.memoryBudget - 1).(queue := [q]), SubmitOp(3, "a", 1, None, 0));
            t.queue == [q] && CanAdmit(t, q.project, q.memory)
  {
    var b := limits.memoryBudget;
    var s := Held(limits, b - 1).(queue := [LastInLine(limits, "b", WORD - b)]);
    SumOfOne(Running(1, "a", b - 1), "a");
    SumOfOne(Running(3, "a", 1), "b");
    assert s.running + [Running(3, "a", 1)] == [Running(3, "a", 1)];
    var t := Step(s, SubmitOp(3, "a", 1, None, 0));
    assert t.running == [Running(3, "a", 1)] && RawReserved(t) == b;
    assert (b + (WORD - b)) % WORD == 0;
  }

  /** Two operations more at the end of a run. */
  lemma RunTwoMore(s: State, ops: seq<Op>, a: Op, b: Op)
    ensures Run(s, ops + [a, b]) == Step(Step(Run(s, ops), a), b)
  {
    B.RunNext(s, ops, a);
    B.RunNext(s, ops + [a], b);
    assert ops + [a] + [b] == ops + [a, b];
  }

  lemma WakingEnds(limits: Limits)
    requires HALF < limits.memoryBudget < WORD - 1
    requires limits.maxParallel >= 2 && limits.maxPerProject >= 1 && limits.maxQueued >= 1
    ensures var q := LastInLine(limits, "b", WORD - limits.memoryBudget);
            var t := Run(New(limits), Waking(limits));
            t.queue == [q] && CanAdmit(t, q.project, q.memory)
  {
    var b := limits.memoryBudget;
    LeavesHeld(limits, b - 1);
    LargeOneWaits(limits);
    SmallOneWakesIt(limits);
    var first, second := SubmitOp(2, "b", WORD - b, None, 0), SubmitOp(3, "a", 1, None, 0);
    RunTwoMore(New(limits), Leaving(b - 1), first, second);
    assert Run(New(limits), Waking(limits)) == Step(Step(Held(limits, b - 1), first), second);
  }

  lemma WakingWakes(limits: Limits)
    requires HALF < limits.memoryBudget < WORD - 1
    requires limits.maxParallel >= 2 && limits.maxPerProject >= 1 && limits.maxQueued >= 1
    ensures FixedLimits(Waking(limits)) && !Waits(Run(New(limits), Waking(limits)))
  {
    WakingEnds(limits);
    var t := Run(New(limits), Waking(limits));
    assert t.queue[0] in t.queue;
  }

  /**
   Work is conserved in every run with fixed limits if and only if the budget
   is steady, or there is no room to spare.
   */
  lemma WorkIsConservedIff(limits: Limits)
    ensures WorkIsConserved(limits) <==> SteadyBudget(limits) || NoRoomToSpare(limits)
  {
    if SteadyBudget(limits) || NoRoomToSpare(limits) {
      forall ops | FixedLimits(ops) ensures Waits(Run(New(limits), ops)) {
        if SteadyBudget(limits) {
          FixedNeverLoosens(limits, ops);
          RunConservesWork(New(limits), ops);
        } else if limits.maxQueued == 0 {
          QueueStaysBounded(New(limits), ops, 0);
        } else {
          OneSlotRunWaits(New(limits), ops);
        }
      }
    } else {
      WakingWakes(limits);
    }
  }

  // ----------------------------------------------------------------- the order

  /** While a request waits, nobody of its project who came later and asks for as much is admitted. */
  ghost predicate OrderHolds(limits: Limits) {
    forall ops, first ::
      FixedLimits(ops) && LegalRun(Begin(limits), ops) && first in RunHistory(Begin(limits), ops).s.queue
      ==> NotOvertaken(RunHistory(Begin(limits), ops), first)
  }

  lemma {:induction false} HistoryRuns(h: History, ops: seq<Op>)
    ensures RunHistory(h, ops).s == Run(h.s, ops)
    decreases |ops|
  {
    if ops != [] {
      HistoryRuns(Next(h, ops[0]), ops[1..]);
    }
  }

  function Overtaking(limits: Limits): seq<Op>
    requires limits.memoryBudget >= 1
  {
    Leaving(limits.memoryBudget)
    + [SubmitOp(2, "a", 1, None, 0), SubmitOp(3, "a", WORD - limits.memoryBudget, None, 0)]
  }

  /** The same run, with its record after each half. */
  function LeftHistory(limits: Limits): History {
    History(Held(limits, limits.memoryBudget), map[1 := Arrival(0, "a", limits.memoryBudget)], {1}, 0)
  }

  lemma LeavesHistory(limits: Limits)
    requires Roomy(limits)
    ensures LegalRun(Begin(limits), Leaving(limits.memoryBudget))
    ensures RunHistory(Begin(limits), Leaving(limits.memoryBudget)) == LeftHistory(limits)
  {
    var b := limits.memoryBudget;
    var one, two := Leaving(b)[0], Leaving(b)[1];
    LeavesHeld(limits, b);
    var r := Running(1, "a", b);
    assert r in [r] && RunningIds([r]) == {1} && RunningIds([]) == {};
    var h := Next(Begin(limits), one);
    assert h == History(State(limits, [r], [], []), map[1 := Arrival(0, "a", b)], {1}, 0);
    assert Next(h, two) == LeftHistory(limits);
    B.TwoOperations(Begin(limits), one, two, []);
    assert [one, two] + [] == Leaving(b);
  }

  /** One more byte has to wait, and the rest of the word, submitted after it, starts. */
  lemma OvertakingStates(limits: Limits)
    requires Roomy(limits) && HALF < limits.memoryBudget < WORD - 1 && limits.maxQueued >= 1
    ensures var b := limits.memoryBudget;
            var waiting := Held(limits, b).(queue := [LastInLine(limits, "a", 1)]);
            && Step(Held(limits, b), SubmitOp(2, "a", 1, None, 0)) == waiting
            && Step(waiting, SubmitOp(3, "a", WORD - b, None, 0)) == waiting.(running := [Running(3, "a", WORD - b)])
  {
    var b := limits.memoryBudget;
    SumOfOne(Running(1, "a", b), "a");
    var waiting := Held(limits, b).(queue := [LastInLine(limits, "a", 1)]);
    assert Reserved(waiting) == b && (b + (WORD - b)) % WORD == 0;
    assert CanAdmit(waiting, "a", WORD - b);
    assert waiting.running + [Running(3, "a", WORD - b)] == [Running(3, "a", WORD - b)];
  }

  lemma OvertakingNext(limits: Limits)
    requires Roomy(limits) && HALF < limits.memoryBudget < WORD - 1 && limits.maxQueued >= 1
    ensures var b, first := limits.memoryBudget, LastInLine(limits, "a", 1);
            var two, three := SubmitOp(2, "a", 1, None, 0), SubmitOp(3, "a", WORD - b, None, 0);
            var h := Next(LeftHistory(limits), two);
            && Legal(LeftHistory(limits), two) && Legal(h, three)
            && first in Next(h, three).s.queue && !NotOvertaken(Next(h, three), first)
  {
    var b := limits.memoryBudget;
    OvertakingStates(limits);
    var h := Next(LeftHistory(limits), SubmitOp(2, "a", 1, None, 0));
    assert h.arrivals == map[1 := Arrival(0, "a", b), 2 := Arrival(1, "a", 1)] && |h.arrivals| == 2;
    var n := Next(h, SubmitOp(3, "a", WORD - b, None, 0));
    assert n.arrivals[3] == Arrival(2, "a", WORD - b) && n.s.running[0] in n.s.running && 3 in n.admitted;
  }

  lemma OvertakingOvertakes(limits: Limits)
    requires Roomy(limits) && HALF < limits.memoryBudget < WORD - 1 && limits.maxQueued >= 1
    ensures LegalRun(Begin(limits), Overtaking(limits))
    ensures var h := RunHistory(Begin(limits), Overtaking(limits)); var first := LastInLine(limits, "a", 1);
            first in h.s.queue && !NotOvertaken(h, first)
  {
    var two, three := SubmitOp(2, "a", 1, None, 0), SubmitOp(3, "a", WORD - limits.memoryBudget, None, 0);
    LeavesHistory(limits);
    OvertakingNext(limits);
    B.TwoOperations(LeftHistory(limits), two, three, []);
    assert [two, three] + [] == [two, three];
    HistoriesJoin(Begin(limits), Leaving(limits.memoryBudget), [two, three]);
  }

  /**
   No project's order is broken in any legal run with fixed limits if and only
   if the budget is steady, or nobody may wait.
   */
  lemma OrderHoldsIff(limits: Limits)
    requires Roomy(limits)
    ensures OrderHolds(limits) <==> SteadyBudget(limits) || limits.maxQueued == 0
  {
    if SteadyBudget(limits) || limits.maxQueued == 0 {
      forall ops, first | FixedLimits(ops) && LegalRun(Begin(limits), ops) && first in RunHistory(Begin(limits), ops).s.queue
        ensures NotOvertaken(RunHistory(Begin(limits), ops), first)
      {
        HistoryRuns(Begin(limits), ops);
        if limits.maxQueued == 0 {
          QueueStaysBounded(New(limits), ops, 0);
        } else {
          NoOvertaking(limits, ops, first);
        }
      }
    } else {
      OvertakingOvertakes(limits);
      assert FixedLimits(Overtaking(limits));
    }
  }
}
