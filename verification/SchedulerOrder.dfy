/**
 In which order requests are admitted: the simple rule behind the three
 tiers, and the absence of overtaking over whole runs.
 */
module SchedulerOrder {
  import opened Base
  import opened SchedulerSpec
  import opened SchedulerCaps

  /** Requests stand in the queue in the order of their arrival times. */
  ghost predicate TimeOrdered(queue: seq<Queued>) {
    forall a, b :: 0 <= a < b < |queue| ==> queue[a].enqueuedAt <= queue[b].enqueuedAt
  }

  // --------------------------------------------------------------- the rule

  /**
   The rule in one breath: take the first request that fits, unless it is not
   starved and a fitting request of an idle project exists: then take the
   first of those.
   */
  function SimpleRule(s: State, now: nat): Option<nat> {
    if SlotsFree(s) == 0 then None
    else
      var first := FindFirst(s.queue, (q: Queued) => Fits(s, q));
      if first.None? || Starved(s, s.queue[first.value], now) then first
      else
        var idle := FindFirst(s.queue, (q: Queued) => Fits(s, q) && CountProject(s.running, q.project) == 0);
        if idle.Some? then idle else first
  }

  /** For a request that fits, "all project slots free" means none is taken. */
  lemma IdleMeansNothingRunning(s: State, q: Queued)
    requires Fits(s, q)
    ensures IdleProject(s, q) <==> CountProject(s.running, q.project) == 0
  {
  }

  /** In arrival order the oldest waiting of an idle project is the first one. */
  lemma OldestIdleIsFirst(s: State)
    requires TimeOrdered(s.queue)
    ensures OldestWhere(s.queue, (q: Queued) => Fits(s, q) && IdleProject(s, q))
         == FindFirst(s.queue, (q: Queued) => Fits(s, q) && CountProject(s.running, q.project) == 0)
  {
    forall q: Queued | Fits(s, q) ensures IdleProject(s, q) <==> CountProject(s.running, q.project) == 0 {
      IdleMeansNothingRunning(s, q);
    }
  }

  lemma OldestFitIsFirst(s: State)
    requires TimeOrdered(s.queue)
    ensures OldestWhere(s.queue, (q: Queued) => Fits(s, q)) == FindFirst(s.queue, (q: Queued) => Fits(s, q))
  {
  }

  /** If any request that fits is starved, so is the first that fits. */
  lemma StarvedFitIsFirst(s: State, now: nat)
    requires TimeOrdered(s.queue)
    ensures var starved := FindFirst(s.queue, (q: Queued) => Fits(s, q) && Starved(s, q, now));
            var first := FindFirst(s.queue, (q: Queued) => Fits(s, q));
            && (starved.Some? ==> starved == first)
            && (starved.None? ==> first.Some? ==> !Starved(s, s.queue[first.value], now))
  {
    var starved := FindFirst(s.queue, (q: Queued) => Fits(s, q) && Starved(s, q, now));
    if starved.Some? {
      var first := FindFirst(s.queue, (q: Queued) => Fits(s, q));
      assert first.Some? && first.value <= starved.value;
      assert Starved(s, s.queue[first.value], now);
    }
  }

  /** On a queue in arrival order the three tiers are exactly that rule. */
  lemma CandidateIsSimpleRule(s: State, now: nat)
    requires TimeOrdered(s.queue)
    ensures CandidateIndex(s, now) == SimpleRule(s, now)
  {
    if SlotsFree(s) > 0 {
      StarvedFitIsFirst(s, now);
      OldestIdleIsFirst(s);
      OldestFitIsFirst(s);
    }
  }

  /** Room for a queued request, with the sum of the reservations taken modulo a word. */
  ghost predicate HasRoom(s: State, q: Queued) {
    CountProject(s.running, q.project) < s.limits.maxPerProject && (RawReserved(s) + q.memory) % WORD <= s.limits.memoryBudget
  }

  /** The first request in line that has room, and the first such one of a project with nothing running. */
  ghost predicate FirstWithRoom(s: State, i: nat) {
    i < |s.queue| && HasRoom(s, s.queue[i]) && forall k :: 0 <= k < i ==> !HasRoom(s, s.queue[k])
  }

  ghost predicate FirstIdleWithRoom(s: State, i: nat) {
    && i < |s.queue| && HasRoom(s, s.queue[i]) && CountProject(s.running, s.queue[i].project) == 0
    && forall k :: 0 <= k < i && CountProject(s.running, s.queue[k].project) == 0 ==> !HasRoom(s, s.queue[k])
  }

  lemma RoomIsFit(s: State)
    ensures forall q: Queued :: HasRoom(s, q) <==> Fits(s, q)
  {
    forall q: Queued ensures HasRoom(s, q) <==> Fits(s, q) {
      AddMod(RawReserved(s), q.memory);
    }
  }

  lemma FirstFitAnswers(s: State, i: nat)
    requires i < |s.queue|
    ensures FindFirst(s.queue, (q: Queued) => Fits(s, q)) == Some(i) <==> FirstWithRoom(s, i)
  {
    RoomIsFit(s);
  }

  lemma FirstIdleFitAnswers(s: State, i: nat)
    requires i < |s.queue|
    ensures FindFirst(s.queue, (q: Queued) => Fits(s, q) && CountProject(s.running, q.project) == 0) == Some(i)
       <==> FirstIdleWithRoom(s, i)
  {
    RoomIsFit(s);
  }

  /** It has waited for the starvation time. */
  ghost predicate HasStarved(s: State, now: nat, i: nat)
    requires i < |s.queue|
  {
    s.limits.starvationAfter == 0 || s.queue[i].enqueuedAt + s.limits.starvationAfter <= now
  }

  /**
   Who is chosen, said of the queue, the clock and the slots themselves: the
   first with room if it has starved or nobody with room has an idle project;
   else the first of those.
   */
  lemma CandidateAnswers(s: State, now: nat, i: nat)
    requires TimeOrdered(s.queue) && |s.running| < s.limits.maxParallel && i < |s.queue|
    ensures CandidateIndex(s, now) == Some(i) <==>
              || (FirstWithRoom(s, i) && (HasStarved(s, now, i) || !exists k: nat :: FirstIdleWithRoom(s, k)))
              || (FirstIdleWithRoom(s, i) && exists f: nat :: FirstWithRoom(s, f) && !HasStarved(s, now, f))
  {
    CandidateIsSimpleRule(s, now);
    var first := FindFirst(s.queue, (q: Queued) => Fits(s, q));
    var idle := FindFirst(s.queue, (q: Queued) => Fits(s, q) && CountProject(s.running, q.project) == 0);
    forall k: nat | k < |s.queue|
      ensures first == Some(k) <==> FirstWithRoom(s, k)
      ensures idle == Some(k) <==> FirstIdleWithRoom(s, k)
    {
      FirstFitAnswers(s, k);
      FirstIdleFitAnswers(s, k);
    }
    assert first.Some? ==> first.value < |s.queue| && (Starved(s, s.queue[first.value], now) <==> HasStarved(s, now, first.value));
    assert idle.Some? ==> FirstIdleWithRoom(s, idle.value);
    assert SimpleRule(s, now) == if first.None? || Starved(s, s.queue[first.value], now) || idle.None? then first else idle;
  }

  /**
   What being passed over means: the earlier request that fits is not starved,
   its project is busy, and the winner's project has nothing running.
   */
  lemma BypassNeedsIdleProject(s: State, now: nat, i: nat)
    requires TimeOrdered(s.queue) && CandidateIndex(s, now).Some?
    requires i < CandidateIndex(s, now).value && Fits(s, s.queue[i])
    ensures var q := s.queue[i]; var w := s.queue[CandidateIndex(s, now).value];
            && SatSub(now, q.enqueuedAt) < s.limits.starvationAfter
            && CountProject(s.running, w.project) == 0
            && CountProject(s.running, q.project) > 0
  {
    CandidateIsSimpleRule(s, now);
    var c := CandidateIndex(s, now).value;
    var first := FindFirst(s.queue, (q: Queued) => Fits(s, q));
    assert first.Some? && first.value <= i;
    assert s.queue[first.value].enqueuedAt <= s.queue[i].enqueuedAt;
    IdleMeansNothingRunning(s, s.queue[i]);
  }

  /**
   A starved request is the next one chosen if and only if it fits and no
   starved request before it does; the documentation promises it the slot
   without that condition.
   */
  lemma StarvedWinsIffFits(s: State, now: nat, i: nat)
    requires SlotsFree(s) > 0 && i < |s.queue| && Starved(s, s.queue[i], now)
    ensures CandidateIndex(s, now) == Some(i)
       <==> Fits(s, s.queue[i]) && forall k :: 0 <= k < i && Starved(s, s.queue[k], now) ==> !Fits(s, s.queue[k])
  {
  }

  /** In arrival order everything before it is starved too, so it must be the first to fit. */
  lemma StarvedWinsIffFirstToFit(s: State, now: nat, i: nat)
    requires TimeOrdered(s.queue) && SlotsFree(s) > 0 && i < |s.queue|
    requires Starved(s, s.queue[i], now)
    ensures CandidateIndex(s, now) == Some(i)
       <==> Fits(s, s.queue[i]) && forall k :: 0 <= k < i ==> !Fits(s, s.queue[k])
  {
    StarvedWinsIffFits(s, now, i);
    forall k | 0 <= k < i ensures Starved(s, s.queue[k], now) {
      assert s.queue[k].enqueuedAt <= s.queue[i].enqueuedAt;
    }
  }

  /**
   Inside one project an earlier request is passed over exactly when it alone
   does not fit the memory budget.
   */
  lemma SameProjectBypassIffTooBig(s: State, now: nat, i: nat)
    requires TimeOrdered(s.queue) && Bounded(s) && CandidateIndex(s, now).Some?
    requires i <= CandidateIndex(s, now).value
    requires s.queue[i].project == s.queue[CandidateIndex(s, now).value].project
    ensures i < CandidateIndex(s, now).value
       <==> RawReserved(s) + s.queue[i].memory > s.limits.memoryBudget
    ensures RawReserved(s) + s.queue[CandidateIndex(s, now).value].memory <= s.limits.memoryBudget
  {
    var c := CandidateIndex(s, now).value;
    assert s.queue[i] in s.queue && s.queue[c] in s.queue;
    NoWrap(s, s.queue[i].memory);
    NoWrap(s, s.queue[c].memory);
    if i < c && Fits(s, s.queue[i]) {
      BypassNeedsIdleProject(s, now, i);
    }
  }

  // ----------------------------------------------------------- whole histories

  /** What a request asked for and how many requests came before it. */
  datatype Arrival = Arrival(rank: nat, project: Project, memory: U64)

  /** A scheduler with the record of every request and every admission. */
  datatype History = History(s: State, arrivals: map<RunId, Arrival>, admitted: set<RunId>, clock: nat)

  function Begin(limits: Limits): History {
    History(New(limits), map[], {}, 0)
  }

  function Time(h: History, op: Op): nat {
    match op
    case SubmitOp(_, _, _, _, now) => now
    case ReleaseOp(_, _, now) => now
    case ExpireOp(now) => now
    case CancelOp(_) => h.clock
    case SetLimitsOp(_) => h.clock
  }

  function Next(h: History, op: Op): History {
    var t := Step(h.s, op);
    History(t,
            if op.SubmitOp? then h.arrivals[op.id := Arrival(|h.arrivals|, op.project, op.memory)] else h.arrivals,
            h.admitted + RunningIds(t.running),
            Time(h, op))
  }

  /** Ids are fresh, logical time does not go back, limits do not loosen. */
  ghost predicate Legal(h: History, op: Op) {
    && Time(h, op) >= h.clock
    && (op.SubmitOp? ==> op.id !in h.arrivals)
    && (op.SetLimitsOp? ==> NotLoosened(h.s.limits, op.limits))
  }

  ghost predicate LegalRun(h: History, ops: seq<Op>)
    decreases |ops|
  {
    ops == [] || (Legal(h, ops[0]) && LegalRun(Next(h, ops[0]), ops[1..]))
  }

  function RunHistory(h: History, ops: seq<Op>): History
    decreases |ops|
  {
    if ops == [] then h else RunHistory(Next(h, ops[0]), ops[1..])
  }

  /**
   While `first` waits, no later request of its project that asks for at
   least as much memory has been admitted.
   */
  ghost predicate NotOvertaken(h: History, first: Queued) {
    first.id in h.arrivals &&
    forall later :: later in h.arrivals
                 && h.arrivals[later].rank > h.arrivals[first.id].rank
                 && h.arrivals[later].project == first.project
                 && h.arrivals[later].memory >= first.memory
             ==> later !in h.admitted
  }

  /** The queue lists recorded requests, oldest first, none of them admitted. */
  ghost predicate Recorded(h: History) {
    && Ranked(h.arrivals)
    && QueueRecorded(h.s.queue, h.arrivals)
    && AdmittedRecorded(h)
    && forall q :: q in h.s.queue ==> q.id !in h.admitted && q.enqueuedAt <= h.clock
  }

  ghost predicate Ranked(arrivals: map<RunId, Arrival>) {
    && (forall id :: id in arrivals ==> arrivals[id].rank < |arrivals|)
    && forall a, b :: a in arrivals && b in arrivals && a != b ==> arrivals[a].rank != arrivals[b].rank
  }

  ghost predicate AdmittedRecorded(h: History) {
    RunningIds(h.s.running) <= h.admitted <= h.arrivals.Keys
  }

  ghost predicate QueueRecorded(queue: seq<Queued>, arrivals: map<RunId, Arrival>) {
    && TimeOrdered(queue)
    && (forall q :: q in queue ==>
          q.id in arrivals && arrivals[q.id].project == q.project && arrivals[q.id].memory == q.memory)
    && (forall a, b :: 0 <= a < b < |queue| ==>
          queue[a].id in arrivals && queue[b].id in arrivals && arrivals[queue[a].id].rank < arrivals[queue[b].id].rank)
  }

  ghost predicate Fair(h: History) {
    && Steady(h.s) && Waits(h.s) && Recorded(h)
    && forall q :: q in h.s.queue ==> NotOvertaken(h, q)
  }

  // ------------------------------------------------------------- sub-queues

  lemma {:induction false} DropKeepsRecorded(queue: seq<Queued>, id: RunId, arrivals: map<RunId, Arrival>)
    requires QueueRecorded(queue, arrivals)
    ensures QueueRecorded(DropQueued(queue, id), arrivals)
  {
    if queue != [] {
      TailRecorded(queue, arrivals);
      DropKeepsRecorded(queue[1..], id, arrivals);
      FilterKeepsRecorded(queue, DropQueued(queue[1..], id), DropQueued(queue, id), arrivals);
    }
  }

  lemma {:induction false} LiveKeepsRecorded(queue: seq<Queued>, now: nat, arrivals: map<RunId, Arrival>)
    requires QueueRecorded(queue, arrivals)
    ensures QueueRecorded(Live(queue, now), arrivals)
  {
    if queue != [] {
      TailRecorded(queue, arrivals);
      LiveKeepsRecorded(queue[1..], now, arrivals);
      FilterKeepsRecorded(queue, Live(queue[1..], now), Live(queue, now), arrivals);
    }
  }

  lemma TailRecorded(queue: seq<Queued>, arrivals: map<RunId, Arrival>)
    requires QueueRecorded(queue, arrivals) && queue != []
    ensures QueueRecorded(queue[1..], arrivals)
  {
    var tail := queue[1..];
    assert forall k :: 0 <= k < |tail| ==> tail[k] == queue[k + 1];
  }

  lemma ConsRecorded(queue: seq<Queued>, rest: seq<Queued>, arrivals: map<RunId, Arrival>)
    requires QueueRecorded(queue, arrivals) && queue != [] && QueueRecorded(rest, arrivals)
    requires forall q :: q in rest ==> q in queue[1..]
    ensures QueueRecorded([queue[0]] + rest, arrivals)
  {
    var all := [queue[0]] + rest;
    forall b | 0 <= b < |rest|
      ensures queue[0].enqueuedAt <= rest[b].enqueuedAt
      ensures rest[b].id in arrivals && arrivals[queue[0].id].rank < arrivals[rest[b].id].rank
    {
      assert rest[b] in queue[1..];
      var k :| 0 <= k < |queue[1..]| && queue[1..][k] == rest[b];
      assert queue[k + 1] == rest[b];
    }
    assert forall b :: 0 < b < |all| ==> all[b] == rest[b - 1];
    assert queue[0] in queue;
  }

  lemma FilterKeepsRecorded(queue: seq<Queued>, rest: seq<Queued>, all: seq<Queued>, arrivals: map<RunId, Arrival>)
    requires QueueRecorded(queue, arrivals) && queue != [] && QueueRecorded(rest, arrivals)
    requires forall q :: q in rest ==> q in queue[1..]
    requires all == rest || all == [queue[0]] + rest
    ensures QueueRecorded(all, arrivals)
  {
    ConsRecorded(queue, rest, arrivals);
  }

  lemma RemoveKeepsRecorded(queue: seq<Queued>, i: nat, arrivals: map<RunId, Arrival>)
    requires QueueRecorded(queue, arrivals) && i < |queue|
    ensures var rest := queue[..i] + queue[i + 1..];
            QueueRecorded(rest, arrivals) && (forall q :: q in rest ==> q in queue && q.id != queue[i].id)
  {
    var rest := queue[..i] + queue[i + 1..];
    assert forall k :: 0 <= k < |rest| ==> rest[k] == if k < i then queue[k] else queue[k + 1];
  }

  // ------------------------------------------------------------------- drain

  lemma PickSparesLater(s: State, now: nat, i: nat, j: nat)
    requires TimeOrdered(s.queue) && Steady(s) && i < j < |s.queue|
    requires s.queue[i].project == s.queue[j].project && s.queue[i].memory <= s.queue[j].memory
    ensures CandidateIndex(s, now) != Some(j)
  {
    if CandidateIndex(s, now) == Some(j) {
      if Bounded(s) {
        SameProjectBypassIffTooBig(s, now, i);
      } else {
        BypassNeedsIdleProject(s, now, i);
      }
    }
  }

  lemma PickKeepsLater(s: State, now: nat, arrivals: map<RunId, Arrival>, first: Queued, later: Queued)
    requires Steady(s) && QueueRecorded(s.queue, arrivals)
    requires first in s.queue && later in s.queue
    requires arrivals[first.id].rank < arrivals[later.id].rank
    requires first.project == later.project && first.memory <= later.memory
    requires CandidateIndex(s, now).Some?
    ensures later in AdmitAt(s, CandidateIndex(s, now).value).queue
  {
    var c := CandidateIndex(s, now).value;
    var i :| 0 <= i < |s.queue| && s.queue[i] == first;
    var j :| 0 <= j < |s.queue| && s.queue[j] == later;
    RankOrdersPositions(s.queue, arrivals, i, j);
    PickSparesLater(s, now, i, j);
    OthersStayQueued(s, c, j);
  }

  lemma PickKeepsRecorded(s: State, now: nat, arrivals: map<RunId, Arrival>)
    requires Steady(s) && QueueRecorded(s.queue, arrivals) && CandidateIndex(s, now).Some?
    ensures var t := AdmitAt(s, CandidateIndex(s, now).value);
            && Steady(t) && QueueRecorded(t.queue, arrivals)
            && (forall q :: q in Drain(t, now).0.queue ==> q in t.queue)
  {
    var c := CandidateIndex(s, now).value;
    if Bounded(s) {
      AdmitAtEffect(s, c);
    }
    RemoveKeepsRecorded(s.queue, c, arrivals);
    DrainLeavesNothingFitting(AdmitAt(s, c), now);
  }

  lemma RankOrdersPositions(queue: seq<Queued>, arrivals: map<RunId, Arrival>, i: nat, j: nat)
    requires QueueRecorded(queue, arrivals) && i < |queue| && j < |queue|
    requires queue[i] in queue && queue[j] in queue
    requires arrivals[queue[i].id].rank < arrivals[queue[j].id].rank
    ensures i < j
  {
  }

  lemma OthersStayQueued(s: State, c: nat, j: nat)
    requires c < |s.queue| && j < |s.queue| && c != j
    ensures s.queue[j] in AdmitAt(s, c).queue
  {
    var rest := AdmitAt(s, c).queue;
    assert rest[if j < c then j else j - 1] == s.queue[j];
  }

  lemma WaitingBlocksNewcomers(s: State, first: Queued, memory: U64)
    requires Steady(s) && Waits(s) && first in s.queue
    requires first.memory <= memory <= s.limits.memoryBudget
    ensures !CanAdmit(s, first.project, memory)
  {
    if Bounded(s) {
      NoWrap(s, first.memory);
      NoWrap(s, memory);
    }
    assert !CanAdmit(s, first.project, first.memory);
  }

  /**
   Whoever leaves the queue while it is drained was not ahead of `first` in
   the sense of NotOvertaken, if `first` is still there at the end.
   */
  lemma {:induction false} DrainDoesNotOvertake(s: State, now: nat, arrivals: map<RunId, Arrival>, first: Queued, later: Queued)
    requires Steady(s) && QueueRecorded(s.queue, arrivals)
    requires first in s.queue && later in s.queue
    requires arrivals[first.id].rank < arrivals[later.id].rank
    requires first.project == later.project && first.memory <= later.memory
    requires first in Drain(s, now).0.queue
    ensures later in Drain(s, now).0.queue
    decreases |s.queue|
  {
    var c := CandidateIndex(s, now);
    if c.Some? {
      var t := AdmitAt(s, c.value);
      PickKeepsLater(s, now, arrivals, first, later);
      PickKeepsRecorded(s, now, arrivals);
      DrainDoesNotOvertake(t, now, arrivals, first, later);
    }
  }

  /** Requests only go from the queue to the slots. */
  ghost predicate OnlyMoved(s: State, t: State) {
    && (forall q :: q in t.queue ==>
          q in s.queue && (q.id in RunningIds(t.running) ==> q.id in RunningIds(s.running)))
    && (forall r :: r in t.running ==>
          r in s.running || exists q :: q in s.queue && q !in t.queue && q.id == r.id)
  }

  lemma OneThenMoved(s: State, c: nat, t: State, arrivals: map<RunId, Arrival>)
    requires QueueRecorded(s.queue, arrivals) && c < |s.queue| && OnlyMoved(AdmitAt(s, c), t)
    ensures OnlyMoved(s, t)
  {
    var u, w := AdmitAt(s, c), s.queue[c];
    RemoveKeepsRecorded(s.queue, c, arrivals);
    assert w in s.queue && w !in t.queue;
    forall r | r in t.running ensures r in s.running || exists q :: q in s.queue && q !in t.queue && q.id == r.id {
      if r in u.running && r !in s.running {
        assert r.id == w.id;
      }
    }
  }

  /** Draining moves requests from the queue to the slots, and nothing else. */
  lemma {:induction false} DrainMoves(s: State, now: nat, arrivals: map<RunId, Arrival>)
    requires QueueRecorded(s.queue, arrivals)
    ensures QueueRecorded(Drain(s, now).0.queue, arrivals) && OnlyMoved(s, Drain(s, now).0)
    decreases |s.queue|
  {
    var c := CandidateIndex(s, now);
    if c.Some? {
      RemoveKeepsRecorded(s.queue, c.value, arrivals);
      DrainMoves(AdmitAt(s, c.value), now, arrivals);
      OneThenMoved(s, c.value, Drain(AdmitAt(s, c.value), now).0, arrivals);
    }
  }

  // -------------------------------------------------------------- preservation

  lemma SubmitKeepsFair(h: History, op: Op)
    requires Fair(h) && Legal(h, op) && op.SubmitOp?
    ensures Fair(Next(h, op))
  {
    StepKeepsSteady(h.s, op);
    StepConservesWork(h.s, op);
    SubmitKeepsRecorded(h, op);
    forall first | first in Next(h, op).s.queue ensures NotOvertaken(Next(h, op), first) {
      SubmitDoesNotOvertake(h, op, first);
    }
  }

  lemma SubmitDoesNotOvertake(h: History, op: Op, first: Queued)
    requires Fair(h) && Legal(h, op) && op.SubmitOp? && first in Next(h, op).s.queue
    ensures NotOvertaken(Next(h, op), first)
  {
    var n := Next(h, op);
    assert forall r :: r in n.s.running ==> r in h.s.running || r.id == op.id;
    if first in h.s.queue {
      assert NotOvertaken(h, first);
      if op.memory <= h.s.limits.memoryBudget && op.memory >= first.memory {
        WaitingBlocksNewcomers(h.s, first, op.memory);
      }
    } else {
      assert first.id == op.id;
    }
  }

  lemma SubmitKeepsRecorded(h: History, op: Op)
    requires Fair(h) && Legal(h, op) && op.SubmitOp?
    ensures Recorded(Next(h, op))
  {
    var n := Next(h, op);
    var s, t := h.s, n.s;
    NewcomerIsRanked(h.arrivals, op.id, op.project, op.memory);
    SubmitQueues(h, op);
    SubmitAdmits(h, op);
  }

  lemma NewcomerIsRanked(arrivals: map<RunId, Arrival>, id: RunId, project: Project, memory: U64)
    requires Ranked(arrivals) && id !in arrivals
    ensures Ranked(arrivals[id := Arrival(|arrivals|, project, memory)])
  {
    var more := arrivals[id := Arrival(|arrivals|, project, memory)];
    assert |more| == |arrivals| + 1;
  }

  lemma SubmitAdmits(h: History, op: Op)
    requires Recorded(h) && Legal(h, op) && op.SubmitOp?
    ensures AdmittedRecorded(Next(h, op))
  {
    var t := Step(h.s, op);
    assert forall r :: r in t.running ==> r in h.s.running || r.id == op.id;
  }

  lemma SubmitQueues(h: History, op: Op)
    requires Recorded(h) && Legal(h, op) && op.SubmitOp?
    ensures var n := Next(h, op);
            && QueueRecorded(n.s.queue, n.arrivals)
            && forall q :: q in n.s.queue ==> q.id !in n.admitted && q.enqueuedAt <= n.clock
  {
    var n := Next(h, op);
    var s, t := h.s, n.s;
    NewcomerKeepsRecorded(s.queue, h.arrivals, op.id, n.arrivals[op.id]);
    if |t.queue| > |s.queue| {
      AppendKeepsRecorded(s.queue, t.queue[|s.queue|], n.arrivals);
      assert t.running == s.running;
    } else {
      assert t.queue == s.queue;
      assert forall r :: r in t.running ==> r in s.running || r.id == op.id;
    }
  }

  lemma NewcomerKeepsRecorded(queue: seq<Queued>, arrivals: map<RunId, Arrival>, id: RunId, a: Arrival)
    requires QueueRecorded(queue, arrivals) && id !in arrivals
    ensures QueueRecorded(queue, arrivals[id := a])
  {
  }

  lemma AppendKeepsRecorded(queue: seq<Queued>, q: Queued, arrivals: map<RunId, Arrival>)
    requires QueueRecorded(queue, arrivals)
    requires q.id in arrivals && arrivals[q.id].project == q.project && arrivals[q.id].memory == q.memory
    requires forall x :: x in queue ==> x.enqueuedAt <= q.enqueuedAt && arrivals[x.id].rank < arrivals[q.id].rank
    ensures QueueRecorded(queue + [q], arrivals)
  {
    var all := queue + [q];
    assert forall k :: 0 <= k < |queue| ==> all[k] == queue[k] && queue[k] in queue;
  }

  lemma ReleaseKeepsFair(h: History, op: Op)
    requires Fair(h) && Legal(h, op) && op.ReleaseOp?
    ensures Fair(Next(h, op))
  {
    StepKeepsSteady(h.s, op);
    StepConservesWork(h.s, op);
    ReleaseMovesRecorded(h, op);
    forall first | first in Next(h, op).s.queue ensures NotOvertaken(Next(h, op), first) {
      ReleaseDoesNotOvertake(h, op, first);
    }
  }

  /** Whoever is new among the admitted has left the queue for it. */
  ghost predicate CameFromQueue(h: History, n: History, id: RunId) {
    exists q :: q in h.s.queue && q !in n.s.queue && q.id == id
  }

  lemma ReleaseMovesRecorded(h: History, op: Op)
    requires Fair(h) && Legal(h, op) && op.ReleaseOp?
    ensures Recorded(Next(h, op))
    ensures forall q :: q in Next(h, op).s.queue ==> q in h.s.queue
    ensures forall id :: id in Next(h, op).admitted - h.admitted ==> CameFromQueue(h, Next(h, op), id)
  {
    var n := Next(h, op);
    var f := FreeSlot(h.s, op.id, op.hold);
    FreeSlotShrinks(h.s, op.id, op.hold, "");
    assert forall r :: r in f.running ==> r in h.s.running;
    if |f.running| != |h.s.running| {
      DrainMoves(f, op.now, h.arrivals);
      forall id | id in RunningIds(n.s.running) && id !in h.admitted ensures CameFromQueue(h, n, id) {
        var r :| r in n.s.running && r.id == id;
        assert r !in h.s.running;
      }
    }
  }

  lemma FreeSlotStaysSteady(s: State, id: RunId, hold: bool)
    requires Steady(s)
    ensures var f := FreeSlot(s, id, hold);
            Steady(f) && f.queue == s.queue && (|f.running| == |s.running| ==> f == s)
  {
    FreeSlotShrinks(s, id, hold, "");
  }

  /** A request that leaves the queue in a release was not ahead of one that stays. */
  lemma ReleaseSparesLater(h: History, op: Op, first: Queued, later: Queued)
    requires Steady(h.s) && QueueRecorded(h.s.queue, h.arrivals) && op.ReleaseOp?
    requires first in Step(h.s, op).queue && first in h.s.queue && later in h.s.queue
    requires h.arrivals[first.id].rank < h.arrivals[later.id].rank
    requires first.project == later.project && first.memory <= later.memory
    ensures later in Step(h.s, op).queue
  {
    var f := FreeSlot(h.s, op.id, op.hold);
    FreeSlotStaysSteady(h.s, op.id, op.hold);
    if |f.running| != |h.s.running| {
      DrainDoesNotOvertake(f, op.now, h.arrivals, first, later);
    }
  }

  lemma ReleaseDoesNotOvertake(h: History, op: Op, first: Queued)
    requires Fair(h) && Legal(h, op) && op.ReleaseOp? && first in Next(h, op).s.queue
    ensures NotOvertaken(Next(h, op), first)
  {
    var n := Next(h, op);
    ReleaseMovesRecorded(h, op);
    assert NotOvertaken(h, first);
    forall later | later in h.arrivals
        && h.arrivals[later].rank > h.arrivals[first.id].rank
        && h.arrivals[later].project == first.project
        && h.arrivals[later].memory >= first.memory
      ensures later !in n.admitted
    {
      if later in n.admitted {
        assert CameFromQueue(h, n, later);
        var q :| q in h.s.queue && q !in n.s.queue && q.id == later;
        ReleaseSparesLater(h, op, first, q);
      }
    }
  }

  lemma OtherKeepsRecorded(h: History, op: Op)
    requires Recorded(h) && Legal(h, op) && !op.SubmitOp? && !op.ReleaseOp?
    ensures var n := Next(h, op);
            && QueueRecorded(n.s.queue, h.arrivals) && n.s.running == h.s.running && n.admitted == h.admitted
            && (forall q :: q in n.s.queue ==> q in h.s.queue) && n.arrivals == h.arrivals
  {
    match op {
      case CancelOp(id) => DropKeepsRecorded(h.s.queue, id, h.arrivals);
      case ExpireOp(now) => LiveKeepsRecorded(h.s.queue, now, h.arrivals);
      case SetLimitsOp(_) =>
    }
  }

  lemma OtherKeepsFair(h: History, op: Op)
    requires Fair(h) && Legal(h, op) && !op.SubmitOp? && !op.ReleaseOp?
    ensures Fair(Next(h, op))
  {
    var n := Next(h, op);
    StepKeepsSteady(h.s, op);
    StepConservesWork(h.s, op);
    OtherKeepsRecorded(h, op);
    forall first | first in n.s.queue ensures NotOvertaken(n, first) {
      assert first in h.s.queue && NotOvertaken(h, first);
    }
  }

  lemma StepKeepsFair(h: History, op: Op)
    requires Fair(h) && Legal(h, op)
    ensures Fair(Next(h, op))
  {
    if op.SubmitOp? {
      SubmitKeepsFair(h, op);
    } else if op.ReleaseOp? {
      ReleaseKeepsFair(h, op);
    } else {
      OtherKeepsFair(h, op);
    }
  }

  lemma {:induction false} RunKeepsFair(h: History, ops: seq<Op>)
    requires Fair(h) && LegalRun(h, ops)
    ensures Fair(RunHistory(h, ops))
    decreases |ops|
  {
    if ops != [] {
      StepKeepsFair(h, ops[0]);
      RunKeepsFair(Next(h, ops[0]), ops[1..]);
    }
  }

  lemma FirstOperation(h: History, op: Op, ops: seq<Op>, rest: seq<Op>)
    requires ops != [] && ops[0] == op && ops[1..] == rest
    ensures RunHistory(h, ops) == RunHistory(Next(h, op), rest)
    ensures LegalRun(h, ops) <==> Legal(h, op) && LegalRun(Next(h, op), rest)
  {
  }

  /** Legal histories join to legal histories. */
  lemma {:induction false} HistoriesJoin(h: History, a: seq<Op>, b: seq<Op>)
    requires LegalRun(h, a) && LegalRun(RunHistory(h, a), b)
    ensures LegalRun(h, a + b) && RunHistory(h, a + b) == RunHistory(RunHistory(h, a), b)
    decreases |a|
  {
    if a == [] {
      assert a + b == b;
    } else {
      FirstOperation(h, a[0], a, a[1..]);
      HistoriesJoin(Next(h, a[0]), a[1..], b);
      FirstOfJoined(h, a[0], a, b);
    }
  }

  lemma FirstOfJoined(h: History, op: Op, a: seq<Op>, b: seq<Op>)
    requires a != [] && a[0] == op
    ensures RunHistory(h, a + b) == RunHistory(Next(h, op), a[1..] + b)
    ensures LegalRun(h, a + b) <==> Legal(h, op) && LegalRun(Next(h, op), a[1..] + b)
  {
    assert (a + b)[1..] == a[1..] + b;
    FirstOperation(h, op, a + b, a[1..] + b);
  }

  /**
   No overtaking over whole runs: as long as a request waits, no later
   request of its project that asks for at least as much memory is admitted,
   neither straight from submission nor out of the queue. With equal
   reservations this is first come, first served within a project.
   */
  lemma NoOvertaking(limits: Limits, ops: seq<Op>, first: Queued)
    requires (limits.memoryBudget <= HALF || limits.memoryBudget == WORD - 1) && LegalRun(Begin(limits), ops)
    requires first in RunHistory(Begin(limits), ops).s.queue
    ensures NotOvertaken(RunHistory(Begin(limits), ops), first)
  {
    RunKeepsFair(Begin(limits), ops);
  }
}
