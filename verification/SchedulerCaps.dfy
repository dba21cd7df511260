/**
 What the scheduler guarantees about its three caps and about work
 conservation, for arbitrary sequences of operations.
 */
module SchedulerCaps {
  import opened Base
  import opened SchedulerSpec

  /** Half of the largest u64. */
  const HALF: int := 0x7FFF_FFFF_FFFF_FFFF

  /** Every budget and reservation seen so far is at most half a word. */
  ghost predicate Bounded(s: State) {
    && s.limits.memoryBudget <= HALF
    && RawReserved(s) <= HALF
    && forall q :: q in s.queue ==> q.memory <= HALF
  }

  /** No queued request could be admitted right now. */
  ghost predicate Waits(s: State) {
    forall q :: q in s.queue ==> !CanAdmit(s, q.project, q.memory)
  }

  /** No cap that can bind is raised: a slot is free only below both counts, and memory only with a free slot. */
  predicate KeepsWaiting(old_: Limits, new_: Limits) {
    && (new_.maxParallel <= old_.maxParallel || new_.maxPerProject == 0)
    && (new_.maxPerProject <= old_.maxPerProject || new_.maxParallel <= old_.maxPerProject)
    && (new_.memoryBudget <= old_.memoryBudget || new_.maxParallel == 0 || new_.maxPerProject == 0)
  }

  /** The memory test never mistakes one request for a smaller one: no sum wraps, or everything fits. */
  ghost predicate Steady(s: State) {
    Bounded(s) || s.limits.memoryBudget == WORD - 1
  }

  /** Limits that let nothing in that had to wait, and a budget of the same kind. */
  predicate NotLoosened(old_: Limits, new_: Limits) {
    && KeepsWaiting(old_, new_)
    && ((old_.memoryBudget <= HALF && new_.memoryBudget <= HALF) || old_.memoryBudget == new_.memoryBudget == WORD - 1)
  }

  // ------------------------------------------------------------ u64 overflow

  /**
   The admission test adds two u64 values. For a request that passed the
   "larger than the whole budget" check it agrees with the exact sum if and
   only if that sum fits a word; once it wraps, the request is always let in.
   */
  lemma AdmissionExactIffNoWrap(s: State, memory: U64)
    requires RawReserved(s) < WORD
    requires memory <= s.limits.memoryBudget
    ensures (MemoryFits(s, memory) <==> RawReserved(s) + memory <= s.limits.memoryBudget)
       <==> RawReserved(s) + memory < WORD
  {
    var raw := RawReserved(s);
    assert Reserved(s) == raw;
    if raw + memory >= WORD {
      assert (raw + memory) % WORD == raw + memory - WORD;
    }
  }

  /** Under a budget of 2^64 - 1 a run that takes all of it starts, and one more byte is let in. */
  lemma WrappedAdmissionExample()
    ensures var s := Run(New(Limits(4, 2, 32, 600, WORD - 1, 60)), [SubmitOp(1, "a", WORD - 1, None, 0)]);
            && s.running == [Running(1, "a", WORD - 1)]
            && Submit(s, 2, "b", 1, None, 0).1.Start? && RawReserved(s) + 1 > s.limits.memoryBudget
  {
    var first, op := New(Limits(4, 2, 32, 600, WORD - 1, 60)), SubmitOp(1, "a", WORD - 1, None, 0);
    var s := Step(first, op);
    assert s.running == [Running(1, "a", WORD - 1)];
    assert [op][1..] == [] && Run(first, [op]) == s;
    assert RawSum(s.running) == WORD - 1;
    assert CountProject(s.running, "b") == 0;
  }

  lemma NoWrap(s: State, memory: U64)
    requires Bounded(s) && memory <= HALF
    ensures Reserved(s) == RawReserved(s)
    ensures MemoryFits(s, memory) <==> RawReserved(s) + memory <= s.limits.memoryBudget
  {
  }

  // ------------------------------------------------------- sums over the slots

  lemma {:induction false} RawSumAppend(rs: seq<Running>, r: Running)
    ensures RawSum(rs + [r]) == RawSum(rs) + r.memory
  {
    if rs == [] {
      assert rs + [r] == [r];
    } else {
      assert (rs + [r])[1..] == rs[1..] + [r];
      RawSumAppend(rs[1..], r);
    }
  }

  lemma {:induction false} CountAppend(rs: seq<Running>, r: Running, p: Project)
    ensures CountProject(rs + [r], p) == CountProject(rs, p) + if r.project == p then 1 else 0
  {
    if rs == [] {
      assert rs + [r] == [r];
    } else {
      assert (rs + [r])[1..] == rs[1..] + [r];
      CountAppend(rs[1..], r, p);
    }
  }

  lemma {:induction false} WithoutShrinks(rs: seq<Running>, id: RunId, p: Project)
    ensures CountProject(Without(rs, id), p) <= CountProject(rs, p)
    ensures RawSum(Without(rs, id)) <= RawSum(rs)
    ensures FindRunning(rs, id).Some? ==> RawSum(Without(rs, id)) + FindRunning(rs, id).value.memory <= RawSum(rs)
    ensures |Without(rs, id)| == |rs| ==> Without(rs, id) == rs && FindRunning(rs, id).None?
  {
    if rs != [] {
      WithoutShrinks(rs[1..], id, p);
      var rest := Without(rs[1..], id);
      assert Without(rs, id) == if rs[0].id == id then rest else [rs[0]] + rest;
      if rs[0].id != id {
        assert ([rs[0]] + rest)[1..] == rest;
      }
    }
  }

  lemma FreeSlotShrinks(s: State, id: RunId, hold: bool, p: Project)
    ensures var t := FreeSlot(s, id, hold);
            && t.limits == s.limits && t.queue == s.queue
            && |t.running| <= |s.running|
            && CountProject(t.running, p) <= CountProject(s.running, p)
            && RawReserved(t) <= RawReserved(s)
            && (|t.running| == |s.running| ==> t == s)
  {
    WithoutShrinks(s.running, id, p);
    var kept := FindRunning(s.running, id);
    if hold && kept.Some? {
      RawSumAppend(s.held, kept.value);
    }
  }

  /** Admitting one fitting request keeps both counts within their caps, whatever the memory. */
  lemma AdmitAtCounts(s: State, i: nat, p: Project)
    requires i < |s.queue| && SlotsFree(s) > 0 && Fits(s, s.queue[i])
    ensures var t := AdmitAt(s, i); var q := s.queue[i];
            && t.limits == s.limits && t.held == s.held && s.running <= t.running
            && |t.running| == |s.running| + 1 <= s.limits.maxParallel
            && CountProject(t.running, p) == CountProject(s.running, p) + (if q.project == p then 1 else 0)
            && (q.project == p ==> CountProject(t.running, p) <= s.limits.maxPerProject)
  {
    var q := s.queue[i];
    CountAppend(s.running, Running(q.id, q.project, q.memory), p);
  }

  /** And, where no sum wraps, the memory within the budget. */
  lemma AdmitAtEffect(s: State, i: nat)
    requires Bounded(s) && i < |s.queue|
    requires SlotsFree(s) > 0 && Fits(s, s.queue[i])
    ensures var t := AdmitAt(s, i);
            && Bounded(t) && t.limits == s.limits && t.held == s.held
            && RawReserved(t) == RawReserved(s) + s.queue[i].memory <= s.limits.memoryBudget
  {
    var q := s.queue[i];
    assert q in s.queue;
    NoWrap(s, q.memory);
    RawSumAppend(s.running, Running(q.id, q.project, q.memory));
  }

  // -------------------------------------------------------------------- drain

  lemma {:induction false} DrainCounts(s: State, now: nat, p: Project)
    ensures var t := Drain(s, now).0;
            && t.limits == s.limits && t.held == s.held
            && s.running <= t.running
            && |t.running| <= Max(|s.running|, s.limits.maxParallel)
            && CountProject(t.running, p) <= Max(CountProject(s.running, p), s.limits.maxPerProject)
            && (t.running != s.running ==> |t.running| <= s.limits.maxParallel)
            && ((exists k :: |s.running| <= k < |t.running| && t.running[k].project == p) ==>
                  CountProject(t.running, p) <= s.limits.maxPerProject)
    decreases |s.queue|
  {
    var c := CandidateIndex(s, now);
    if c.Some? {
      AdmitAtCounts(s, c.value, p);
      DrainCounts(AdmitAt(s, c.value), now, p);
    }
  }

  lemma {:induction false} DrainEffect(s: State, now: nat)
    requires Bounded(s)
    ensures var t := Drain(s, now).0;
            && Bounded(t) && t.limits == s.limits
            && RawReserved(t) <= Max(RawReserved(s), s.limits.memoryBudget)
            && (t.running != s.running ==> RawReserved(t) <= s.limits.memoryBudget)
    decreases |s.queue|
  {
    var c := CandidateIndex(s, now);
    if c.Some? {
      AdmitAtEffect(s, c.value);
      DrainEffect(AdmitAt(s, c.value), now);
    }
  }

  lemma {:induction false} DrainLeavesNothingFitting(s: State, now: nat)
    ensures Waits(Drain(s, now).0)
    ensures forall q :: q in Drain(s, now).0.queue ==> q in s.queue
    decreases |s.queue|
  {
    var c := CandidateIndex(s, now);
    if c.None? {
      forall q | q in s.queue ensures !CanAdmit(s, q.project, q.memory) {
        var k :| 0 <= k < |s.queue| && s.queue[k] == q;
        assert SlotsFree(s) == 0 || !Fits(s, s.queue[k]);
      }
    } else {
      DrainLeavesNothingFitting(AdmitAt(s, c.value), now);
    }
  }

  // ------------------------------------------------------------------- bounded

  lemma StepKeepsBounded(s: State, op: Op)
    requires Bounded(s)
    requires op.SetLimitsOp? ==> op.limits.memoryBudget <= HALF
    ensures Bounded(Step(s, op))
  {
    match op
    case SubmitOp(id, project, memory, timeout, now) =>
      if memory <= s.limits.memoryBudget {
        NoWrap(s, memory);
        RawSumAppend(s.running, Running(id, project, memory));
      }
    case ReleaseOp(id, hold, now) =>
      FreeSlotShrinks(s, id, hold, "");
      DrainEffect(FreeSlot(s, id, hold), now);
    case CancelOp(id) =>
    case ExpireOp(now) =>
    case SetLimitsOp(limits) =>
  }

  lemma StepKeepsSteady(s: State, op: Op)
    requires Steady(s) && (op.SetLimitsOp? ==> NotLoosened(s.limits, op.limits))
    ensures Steady(Step(s, op))
  {
    StepLimits(s, op);
    if Bounded(s) {
      StepKeepsBounded(s, op);
    }
  }

  // ---------------------------------------------------------------------- caps

  /** A request starts only inside both counts, and inside the budget where no sum wraps. */
  lemma SubmitStarts(s: State, id: RunId, project: Project, memory: U64, timeout: Option<nat>, now: nat, p: Project)
    ensures var (t, decision) := Submit(s, id, project, memory, timeout, now);
            && t.limits == s.limits && t.held == s.held
            && (if decision.Start? then t.running == s.running + [Running(id, project, memory)] else t.running == s.running)
            && (decision.Start? ==> |t.running| <= s.limits.maxParallel)
            && (decision.Start? && project == p ==> CountProject(t.running, p) <= s.limits.maxPerProject)
            && (project != p ==> CountProject(t.running, p) == CountProject(s.running, p))
            && (decision.Start? && Bounded(s) ==> RawReserved(t) <= s.limits.memoryBudget)
  {
    if memory <= s.limits.memoryBudget {
      RawSumAppend(s.running, Running(id, project, memory));
      CountAppend(s.running, Running(id, project, memory), p);
      if Bounded(s) {
        NoWrap(s, memory);
      }
    }
  }

  /**
   No operation but a change of limits ever enlarges an exceedance of the two
   counts; nor of the budget, where no sum wraps.
   */
  lemma StepRespectsCaps(s: State, op: Op, p: Project)
    requires !op.SetLimitsOp?
    ensures var t := Step(s, op);
            && t.limits == s.limits
            && |t.running| <= Max(|s.running|, s.limits.maxParallel)
            && CountProject(t.running, p) <= Max(CountProject(s.running, p), s.limits.maxPerProject)
            && (Bounded(s) ==> RawReserved(t) <= Max(RawReserved(s), s.limits.memoryBudget))
  {
    if op.SubmitOp? {
      SubmitStarts(s, op.id, op.project, op.memory, op.timeout, op.now, p);
    } else if op.ReleaseOp? {
      var f := FreeSlot(s, op.id, op.hold);
      FreeSlotShrinks(s, op.id, op.hold, p);
      DrainCounts(f, op.now, p);
      if Bounded(s) {
        DrainEffect(f, op.now);
      }
    }
  }

  lemma ReleaseAdmitsWithinLimits(s: State, id: RunId, hold: bool, now: nat, r: Running)
    requires r in Release(s, id, hold, now).0.running && r !in s.running
    ensures var t := Release(s, id, hold, now).0;
            && |t.running| <= t.limits.maxParallel
            && CountProject(t.running, r.project) <= t.limits.maxPerProject
            && (Bounded(s) ==> RawReserved(t) <= t.limits.memoryBudget)
  {
    var f := FreeSlot(s, id, hold);
    FreeSlotShrinks(s, id, hold, r.project);
    assert r !in f.running;
    var t := Drain(f, now).0;
    DrainCounts(f, now, r.project);
    if Bounded(s) {
      DrainEffect(f, now);
    }
    var k :| 0 <= k < |t.running| && t.running[k] == r;
    assert k >= |f.running|;
  }

  /**
   Whatever the limits were before, a step that admits a run `r` leaves the
   global count and the count of r's project within the limits in force; and
   the reserved memory too, where no sum wraps.
   */
  lemma AdmittingStepIsWithinLimits(s: State, op: Op, r: Running)
    requires r in Step(s, op).running && r !in s.running
    ensures var t := Step(s, op);
            && |t.running| <= t.limits.maxParallel
            && CountProject(t.running, r.project) <= t.limits.maxPerProject
            && (Bounded(s) ==> Reserved(t) == RawReserved(t) <= t.limits.memoryBudget)
  {
    if op.SubmitOp? {
      SubmitStarts(s, op.id, op.project, op.memory, op.timeout, op.now, r.project);
    } else if op.ReleaseOp? {
      ReleaseAdmitsWithinLimits(s, op.id, op.hold, op.now, r);
    }
    if Bounded(s) && !op.SetLimitsOp? {
      StepKeepsBounded(s, op);
      NoWrap(Step(s, op), 0);
    }
  }

  /** Every budget set along the way is at most half a word. */
  ghost predicate BudgetsHalved(ops: seq<Op>) {
    forall k :: 0 <= k < |ops| && ops[k].SetLimitsOp? ==> ops[k].limits.memoryBudget <= HALF
  }

  /** Slots and project slots that never exceed those of `top`. */
  ghost predicate CountsBelow(limits: Limits, ops: seq<Op>, top: Limits) {
    && limits.maxParallel <= top.maxParallel && limits.maxPerProject <= top.maxPerProject
    && forall k :: 0 <= k < |ops| && ops[k].SetLimitsOp? ==>
         ops[k].limits.maxParallel <= top.maxParallel && ops[k].limits.maxPerProject <= top.maxPerProject
  }

  /** Budgets that never exceed `most`. */
  ghost predicate BudgetsBelow(limits: Limits, ops: seq<Op>, most: int) {
    limits.memoryBudget <= most && forall k :: 0 <= k < |ops| && ops[k].SetLimitsOp? ==> ops[k].limits.memoryBudget <= most
  }

  lemma {:induction false} RunKeepsBounded(s: State, ops: seq<Op>)
    requires Bounded(s) && BudgetsHalved(ops)
    ensures Bounded(Run(s, ops))
    decreases |ops|
  {
    if ops != [] {
      StepKeepsBounded(s, ops[0]);
      assert forall k :: 0 <= k < |ops[1..]| ==> ops[1..][k] == ops[k + 1];
      RunKeepsBounded(Step(s, ops[0]), ops[1..]);
    }
  }

  /**
   In every run the two counts never exceed the loosest values they ever had,
   whatever the budgets are and whether or not their sums wrap.
   */
  lemma {:induction false} RunRespectsLoosestCounts(s: State, ops: seq<Op>, top: Limits, p: Project)
    requires CountsBelow(s.limits, ops, top)
    requires |s.running| <= top.maxParallel && CountProject(s.running, p) <= top.maxPerProject
    ensures var t := Run(s, ops);
            |t.running| <= top.maxParallel && CountProject(t.running, p) <= top.maxPerProject
    decreases |ops|
  {
    if ops != [] {
      if !ops[0].SetLimitsOp? {
        StepRespectsCaps(s, ops[0], p);
      }
      assert forall k :: 0 <= k < |ops[1..]| ==> ops[1..][k] == ops[k + 1];
      RunRespectsLoosestCounts(Step(s, ops[0]), ops[1..], top, p);
    }
  }

  /** And with budgets of at most half a word the reserved memory never exceeds the loosest of them. */
  lemma {:induction false} RunRespectsLoosestBudget(s: State, ops: seq<Op>, most: int)
    requires Bounded(s) && BudgetsBelow(s.limits, ops, most) && most <= HALF && RawReserved(s) <= most
    ensures var t := Run(s, ops);
            Reserved(t) == RawReserved(t) <= most
    decreases |ops|
  {
    if ops == [] {
      NoWrap(s, 0);
    } else {
      StepKeepsBounded(s, ops[0]);
      if !ops[0].SetLimitsOp? {
        StepRespectsCaps(s, ops[0], "");
      }
      assert forall k :: 0 <= k < |ops[1..]| ==> ops[1..][k] == ops[k + 1];
      RunRespectsLoosestBudget(Step(s, ops[0]), ops[1..], most);
    }
  }

  // --------------------------------------------------------- work conservation

  /** Less capacity (more reserved, limits not loosened) never makes anything fit. */
  lemma TighterAdmitsLess(s: State, t: State, p: Project, memory: U64)
    requires KeepsWaiting(s.limits, t.limits)
    requires |t.running| >= |s.running| && CountProject(t.running, p) >= CountProject(s.running, p)
    requires (Bounded(s) && Bounded(t) && memory <= HALF && RawReserved(t) >= RawReserved(s))
          || (RawReserved(t) == RawReserved(s)) || s.limits.memoryBudget == WORD - 1
    ensures CanAdmit(t, p, memory) ==> CanAdmit(s, p, memory)
  {
    if Bounded(s) && Bounded(t) && memory <= HALF {
      NoWrap(s, memory);
      NoWrap(t, memory);
    }
    CountIsBelow(t.running, p);
  }

  lemma {:induction false} CountIsBelow(rs: seq<Running>, p: Project)
    ensures CountProject(rs, p) <= |rs|
  {
    if rs != [] {
      CountIsBelow(rs[1..], p);
    }
  }

  /** A release that gives a slot back leaves nothing that could run. */
  lemma ReleaseConservesWork(s: State, id: RunId, hold: bool, now: nat)
    ensures Waits(s) || (exists r :: r in s.running && r.id == id) ==> Waits(Release(s, id, hold, now).0)
  {
    var f := FreeSlot(s, id, hold);
    FreeSlotShrinks(s, id, hold, "");
    if |f.running| != |s.running| {
      DrainLeavesNothingFitting(f, now);
    }
  }

  /** Work conservation is kept by every operation that raises no cap that can bind. */
  lemma StepConservesWork(s: State, op: Op)
    requires Steady(s) && Waits(s)
    requires op.SetLimitsOp? ==> NotLoosened(s.limits, op.limits)
    ensures Waits(Step(s, op))
  {
    var t := Step(s, op);
    if Bounded(s) {
      StepKeepsBounded(s, op);
    }
    if op.ReleaseOp? {
      ReleaseConservesWork(s, op.id, op.hold, op.now);
    } else {
      forall q | q in t.queue ensures !CanAdmit(t, q.project, q.memory) {
        if op.SubmitOp? && op.memory <= s.limits.memoryBudget {
          RawSumAppend(s.running, Running(op.id, op.project, op.memory));
          CountAppend(s.running, Running(op.id, op.project, op.memory), q.project);
        }
        TighterAdmitsLess(s, t, q.project, q.memory);
      }
    }
  }

  /** Runs of one project, with no memory reserved. */
  function Crowded(n: nat): (r: seq<Running>)
    ensures |r| == n && RawSum(r) == 0 && CountProject(r, "p") == n && CountProject(r, "q") == 0
  {
    if n == 0 then []
    else
      assert ([Running(n, "p", 0)] + Crowded(n - 1))[1..] == Crowded(n - 1);
      [Running(n, "p", 0)] + Crowded(n - 1)
  }

  /** A state that waits under the old limits and not under the new ones. */
  function Woken(old_: Limits, new_: Limits): State {
    if old_.maxParallel < new_.maxParallel && new_.maxPerProject > 0 then
      State(old_, Crowded(old_.maxParallel), [Queued(0, "q", 0, 0, 0)], [])
    else if old_.maxPerProject < new_.maxPerProject && old_.maxPerProject < new_.maxParallel then
      State(old_, Crowded(old_.maxPerProject), [Queued(0, "p", 0, 0, 0)], [])
    else
      State(old_, [], [Queued(0, "q", 1, 0, 0)], [Running(1, "p", old_.memoryBudget)])
  }

  lemma WokenWakes(old_: Limits, new_: Limits)
    requires !KeepsWaiting(old_, new_)
    ensures var s := Woken(old_, new_);
            && s.limits == old_ && Waits(s) && |s.queue| == 1 && s.queue[0].memory <= new_.memoryBudget
            && CanAdmit(SetLimits(s, new_), s.queue[0].project, s.queue[0].memory)
  {
    var s := Woken(old_, new_);
    var q := s.queue[0];
    assert s.held != [] ==> s.held[1..] == [] && RawSum(s.held) == old_.memoryBudget;
    assert !CanAdmit(s, q.project, q.memory);
  }

  ghost predicate StaysWaiting(old_: Limits, new_: Limits) {
    forall s: State :: s.limits == old_ && Waits(s) ==> Waits(SetLimits(s, new_))
  }

  /**
   The exact condition on a change of limits, for every budget and every state:
   it wakes nobody if and only if no cap that can bind is raised.
   */
  lemma LimitsKeepWaitingIff(old_: Limits, new_: Limits)
    ensures StaysWaiting(old_, new_) <==> KeepsWaiting(old_, new_)
  {
    if KeepsWaiting(old_, new_) {
      forall s: State, q | s.limits == old_ && Waits(s) && q in s.queue
        ensures !CanAdmit(SetLimits(s, new_), q.project, q.memory)
      {
        TighterAdmitsLess(s, SetLimits(s, new_), q.project, q.memory);
      }
    } else {
      WokenWakes(old_, new_);
      var s := Woken(old_, new_);
      assert s.queue[0] in s.queue;
    }
  }

  /** No change of limits lets anything in that had to wait under the ones before it. */
  ghost predicate NeverLoosens(limits: Limits, ops: seq<Op>)
    decreases |ops|
  {
    ops == [] ||
    (if ops[0].SetLimitsOp?
     then NotLoosened(limits, ops[0].limits) && NeverLoosens(ops[0].limits, ops[1..])
     else NeverLoosens(limits, ops[1..]))
  }

  lemma {:induction false} DrainKeepsLimits(s: State, now: nat)
    ensures Drain(s, now).0.limits == s.limits
    decreases |s.queue|
  {
    var c := CandidateIndex(s, now);
    if c.Some? {
      DrainKeepsLimits(AdmitAt(s, c.value), now);
    }
  }

  lemma StepLimits(s: State, op: Op)
    ensures Step(s, op).limits == if op.SetLimitsOp? then op.limits else s.limits
  {
    if op.ReleaseOp? {
      DrainKeepsLimits(FreeSlot(s, op.id, op.hold), op.now);
    }
  }

  lemma {:induction false} RunConservesWork(s: State, ops: seq<Op>)
    requires Steady(s) && Waits(s) && NeverLoosens(s.limits, ops)
    ensures Steady(Run(s, ops)) && Waits(Run(s, ops))
    decreases |ops|
  {
    if ops != [] {
      StepKeepsSteady(s, ops[0]);
      StepConservesWork(s, ops[0]);
      StepLimits(s, ops[0]);
      RunConservesWork(Step(s, ops[0]), ops[1..]);
    }
  }

  /** The reason given for a waiting request names a cap that is exhausted. */
  ghost predicate ReasonTrue(s: State, reason: WaitReason, project: Project, memory: U64) {
    match reason
    case ProjectAtLimit => CountProject(s.running, project) >= s.limits.maxPerProject
    case AllSlotsBusy => |s.running| >= s.limits.maxParallel
    case WaitingForMemory => RawReserved(s) + memory > s.limits.memoryBudget
  }

  /** Room under all three caps, in exact arithmetic. */
  predicate Room(s: State, project: Project, memory: nat) {
    && |s.running| < s.limits.maxParallel
    && CountProject(s.running, project) < s.limits.maxPerProject
    && RawReserved(s) + memory <= s.limits.memoryBudget
  }

  /**
   In any state, a reported reason is true exactly when there is no room for
   the request; and where no sum wraps, that is when it could not be admitted.
   */
  lemma ReportedReasonIsTrueIff(s: State, q: Queued)
    ensures ReasonTrue(s, Reason(s, q), q.project, q.memory) <==> !Room(s, q.project, q.memory)
    ensures Bounded(s) && q in s.queue ==> (Room(s, q.project, q.memory) <==> CanAdmit(s, q.project, q.memory))
  {
    if Bounded(s) && q in s.queue {
      NoWrap(s, q.memory);
    }
  }

  /** So with limits never loosened every reported reason is true. */
  lemma ReportedReasonIsTrue(s: State, ops: seq<Op>, q: Queued)
    requires Steady(s) && Waits(s) && NeverLoosens(s.limits, ops) && q in Run(s, ops).queue
    ensures ReasonTrue(Run(s, ops), Reason(Run(s, ops), q), q.project, q.memory)
  {
    RunConservesWork(s, ops);
    ReportedReasonIsTrueIff(Run(s, ops), q);
    assert !CanAdmit(Run(s, ops), q.project, q.memory);
  }

  ghost predicate Idle(s: State) {
    s.running == [] && s.held == []
  }

  /** With nothing running and nothing held, only oversized requests wait, whatever the budget. */
  lemma IdleQueueIsOversized(s: State, q: Queued)
    requires Waits(s) && Idle(s) && q in s.queue
    requires s.limits.maxParallel >= 1 && s.limits.maxPerProject >= 1
    ensures q.memory > s.limits.memoryBudget
  {
    assert !CanAdmit(s, q.project, q.memory);
  }

  ghost predicate FixedLimits(ops: seq<Op>) {
    forall k :: 0 <= k < |ops| ==> !ops[k].SetLimitsOp?
  }

  ghost predicate QueueWithinBudget(s: State) {
    forall q :: q in s.queue ==> q.memory <= s.limits.memoryBudget
  }

  /** Nobody waits for nothing, and nobody waits who could never run. */
  ghost predicate Unstuck(s: State) {
    QueueWithinBudget(s) && (Idle(s) ==> s.queue == [])
  }

  lemma ReleaseKeepsUnstuck(s: State, id: RunId, hold: bool, now: nat)
    requires Unstuck(s) && s.limits.maxParallel >= 1 && s.limits.maxPerProject >= 1
    ensures Unstuck(Release(s, id, hold, now).0)
  {
    var f := FreeSlot(s, id, hold);
    FreeSlotShrinks(s, id, hold, "");
    if |f.running| != |s.running| {
      var t := Drain(f, now).0;
      DrainLeavesNothingFitting(f, now);
      DrainKeepsLimits(f, now);
      if Idle(t) && t.queue != [] {
        IdleQueueIsOversized(t, t.queue[0]);
      }
    }
  }

  lemma StepKeepsUnstuck(s: State, op: Op)
    requires Unstuck(s) && !op.SetLimitsOp? && s.limits.maxParallel >= 1 && s.limits.maxPerProject >= 1
    ensures Unstuck(Step(s, op))
  {
    if op.ReleaseOp? {
      ReleaseKeepsUnstuck(s, op.id, op.hold, op.now);
    } else {
      assert forall q :: q in Step(s, op).queue ==>
        q in s.queue || (op.SubmitOp? && q.memory == op.memory <= s.limits.memoryBudget);
    }
  }

  lemma {:induction false} RunKeepsUnstuck(s: State, ops: seq<Op>)
    requires Unstuck(s) && FixedLimits(ops) && s.limits.maxParallel >= 1 && s.limits.maxPerProject >= 1
    ensures Unstuck(Run(s, ops))
    decreases |ops|
  {
    if ops != [] {
      StepKeepsUnstuck(s, ops[0]);
      StepLimits(s, ops[0]);
      assert forall k :: 0 <= k < |ops[1..]| ==> ops[1..][k] == ops[k + 1];
      RunKeepsUnstuck(Step(s, ops[0]), ops[1..]);
    }
  }

  /**
   No stuck queue: from a fresh scheduler with fixed limits, after any
   operations at all, nothing running and nothing held means nobody waits;
   with every budget, also where sums of reservations wrap.
   */
  lemma NoStuckQueue(limits: Limits, ops: seq<Op>)
    requires limits.maxParallel >= 1 && limits.maxPerProject >= 1 && FixedLimits(ops)
    ensures var t := Run(New(limits), ops);
            t.running == [] && t.held == [] ==> t.queue == []
  {
    RunKeepsUnstuck(New(limits), ops);
  }

  // ------------------------------------------------------ verdicts and waiting

  /**
   The verdict of a submit in exact terms: impossible requests first, then a
   start exactly when all three caps have room, then the bound of the queue.
   A request that waits is last in line, for its own timeout or the default.
   */
  lemma SubmitVerdict(s: State, id: RunId, project: Project, memory: U64, timeout: Option<nat>, now: nat)
    requires Bounded(s)
    ensures var (t, decision) := Submit(s, id, project, memory, timeout, now);
            var room := Room(s, project, memory);
            && (decision.Start? <==> room)
            && (decision.Rejected? && decision.reason.Impossible? <==> memory > s.limits.memoryBudget)
            && (decision.Rejected? && decision.reason.QueueFull? <==>
                  !room && memory <= s.limits.memoryBudget && |s.queue| >= s.limits.maxQueued)
            && (decision.Waiting? ==>
                  && decision.position == |t.queue| == |s.queue| + 1
                  && t.queue[|s.queue|].id == id && t.queue[|s.queue|].enqueuedAt == now
                  && t.queue[|s.queue|].deadline
                     == now + if timeout.Some? then timeout.value else s.limits.queueTimeout)
  {
    if memory <= s.limits.memoryBudget {
      NoWrap(s, memory);
    }
  }

  lemma {:induction false} DrainShortensQueue(s: State, now: nat)
    ensures |Drain(s, now).0.queue| + |Drain(s, now).1| == |s.queue|
    decreases |s.queue|
  {
    var c := CandidateIndex(s, now);
    if c.Some? {
      DrainShortensQueue(AdmitAt(s, c.value), now);
    }
  }

  lemma StepBoundsQueue(s: State, op: Op)
    ensures |Step(s, op).queue| <= Max(|s.queue|, s.limits.maxQueued)
  {
    if op.ReleaseOp? {
      DrainShortensQueue(FreeSlot(s, op.id, op.hold), op.now);
    }
  }

  /** The queue never grows beyond the largest bound that was ever set. */
  lemma {:induction false} QueueStaysBounded(s: State, ops: seq<Op>, most: nat)
    requires |s.queue| <= most && s.limits.maxQueued <= most
    requires forall k :: 0 <= k < |ops| && ops[k].SetLimitsOp? ==> ops[k].limits.maxQueued <= most
    ensures |Run(s, ops).queue| <= most
    decreases |ops|
  {
    if ops != [] {
      StepBoundsQueue(s, ops[0]);
      StepLimits(s, ops[0]);
      assert forall k :: 0 <= k < |ops[1..]| ==> ops[1..][k] == ops[k + 1];
      QueueStaysBounded(Step(s, ops[0]), ops[1..], most);
    }
  }

  /** One run fills the only slot, another waits, and the limit is raised. */
  function RaisedRun(): seq<Op> {
    [SubmitOp(1, "a", 100, None, 0), SubmitOp(2, "b", 100, None, 0),
     SetLimitsOp(Limits(2, 1, 32, 600, 1000, 60))]
  }

  lemma RaisedRunEnds()
    ensures Run(New(Limits(1, 1, 32, 600, 1000, 60)), RaisedRun())
         == State(Limits(2, 1, 32, 600, 1000, 60), [Running(1, "a", 100)], [Queued(2, "b", 100, 0, 600)], [])
  {
    var low := Limits(1, 1, 32, 600, 1000, 60);
    var one, two, raise := RaisedRun()[0], RaisedRun()[1], RaisedRun()[2];
    var s1 := Step(New(low), one);
    assert s1.running == [Running(1, "a", 100)];
    var s2 := Step(s1, two);
    assert s2.queue == [Queued(2, "b", 100, 0, 600)];
    var s3 := Step(s2, raise);
    assert Run(s3, []) == s3;
    assert Run(s2, [raise]) == s3;
    assert [two, raise][1..] == [raise] && Run(s1, [two, raise]) == s3;
    assert RaisedRun()[1..] == [two, raise] && Run(New(low), RaisedRun()) == s3;
  }

  /** Raising a cap admits nobody by itself: the queued run fits and waits. */
  lemma RaisingLimitsAdmitsNobody()
    ensures var s := Run(New(Limits(1, 1, 32, 600, 1000, 60)), RaisedRun());
            |s.queue| == 1 && CanAdmit(s, s.queue[0].project, s.queue[0].memory) && !Waits(s)
  {
    RaisedRunEnds();
    var s := Run(New(Limits(1, 1, 32, 600, 1000, 60)), RaisedRun());
    assert CountProject(s.running, "b") == 0 && RawSum(s.running) == 100;
    assert s.queue[0] in s.queue;
  }

  /** And it is told to wait for memory, of which nine tenths are free. */
  lemma RaisingLimitsMisreports()
    ensures var s := Run(New(Limits(1, 1, 32, 600, 1000, 60)), RaisedRun());
            && |s.queue| == 1 && Reason(s, s.queue[0]) == WaitingForMemory
            && RawReserved(s) + s.queue[0].memory <= s.limits.memoryBudget
  {
    RaisedRunEnds();
    var s := Run(New(Limits(1, 1, 32, 600, 1000, 60)), RaisedRun());
    assert CountProject(s.running, "b") == 0 && RawSum(s.running) == 100;
  }
}
