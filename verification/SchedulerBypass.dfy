/**
 How requests are passed over in runs of the scheduler: inside one project,
 and in spite of having waited past the starvation time.
 */
module SchedulerBypass {
  import opened Base
  import opened SchedulerSpec
  import opened SchedulerCaps
  import opened SchedulerOrder

  // ------------------------------------------------------ inside one project

  /**
   A newcomer starts ahead of a waiting request of its own project exactly when
   there is a slot for the project and memory for the newcomer, and no memory
   for the one that waits.
   */
  lemma DirectOvertakeIff(s: State, q: Queued, id: RunId, memory: U64, timeout: Option<nat>, now: nat)
    requires Bounded(s) && Waits(s) && q in s.queue
    ensures Submit(s, id, q.project, memory, timeout, now).1.Start?
       <==> && |s.running| < s.limits.maxParallel
            && CountProject(s.running, q.project) < s.limits.maxPerProject
            && RawReserved(s) + memory <= s.limits.memoryBudget < RawReserved(s) + q.memory
  {
    SubmitVerdict(s, id, q.project, memory, timeout, now);
    NoWrap(s, q.memory);
    assert !CanAdmit(s, q.project, q.memory);
  }

  /**
   In any state at all, a newcomer of the project and size of a waiting request
   starts ahead of it exactly when the waiting request itself could be admitted.
   */
  lemma EqualNewcomerOvertakesIff(s: State, q: Queued, id: RunId, timeout: Option<nat>, now: nat)
    requires q in s.queue && q.memory <= s.limits.memoryBudget
    ensures Submit(s, id, q.project, q.memory, timeout, now).1.Start? <==> CanAdmit(s, q.project, q.memory)
    ensures q in Submit(s, id, q.project, q.memory, timeout, now).0.queue
  {
  }

  ghost predicate Passed(s: State, q: Queued, id: RunId, timeout: Option<nat>, now: nat) {
    q in s.queue && Submit(s, id, q.project, q.memory, timeout, now).1.Start?
  }

  /** No change from the old limits to the new ones lets an equal newcomer pass one that had to wait. */
  ghost predicate KeepsOrder(old_: Limits, new_: Limits) {
    forall s: State, q, id, timeout, now :: s.limits == old_ && Waits(s) ==> !Passed(SetLimits(s, new_), q, id, timeout, now)
  }

  /** The exact condition for that, for every budget and every state, is the same. */
  lemma LimitsKeepOrderIff(old_: Limits, new_: Limits)
    ensures KeepsOrder(old_, new_) <==> KeepsWaiting(old_, new_)
  {
    if KeepsWaiting(old_, new_) {
      LimitsKeepWaitingIff(old_, new_);
      forall s: State, q, id, timeout, now | s.limits == old_ && Waits(s)
        ensures !Passed(SetLimits(s, new_), q, id, timeout, now)
      {
        assert Waits(SetLimits(s, new_));
      }
    } else {
      WokenWakes(old_, new_);
      var s := Woken(old_, new_);
      assert s.queue[0] in s.queue;
      EqualNewcomerOvertakesIff(SetLimits(s, new_), s.queue[0], 0, None, 0);
      assert Passed(SetLimits(s, new_), s.queue[0], 0, None, 0);
    }
  }

  /** A run in which a limit is raised, and an equal newcomer starts while the earlier request waits on. */
  lemma RaisedLimitsOvertake()
    ensures var s := Run(New(Limits(1, 1, 32, 600, 1000, 60)), RaisedRun());
            && s.queue == [Queued(2, "b", 100, 0, 600)]
            && Submit(s, 3, "b", 100, None, 0) == (s.(running := [Running(1, "a", 100), Running(3, "b", 100)]), Start(100))
  {
    RaisedRunEnds();
    SumsOfTwo(Running(1, "a", 100), Running(1, "a", 100), "b");
    assert [Running(1, "a", 100)] + [Running(3, "b", 100)] == [Running(1, "a", 100), Running(3, "b", 100)];
  }

  // ------------------------------------------------------------ small sums

  lemma SumsOfTwo(a: Running, b: Running, p: Project)
    ensures RawSum([a]) == a.memory && CountProject([a], p) == (if a.project == p then 1 else 0)
    ensures RawSum([a, b]) == a.memory + b.memory
    ensures CountProject([a, b], p) == (if a.project == p then 1 else 0) + (if b.project == p then 1 else 0)
  {
    RawSumAppend([a], b);
    CountAppend([a], b, p);
    assert [a] + [b] == [a, b] && [a][1..] == [];
  }

  lemma {:induction false} RunNext(s: State, ops: seq<Op>, op: Op)
    ensures Run(s, ops + [op]) == Step(Run(s, ops), op)
    decreases |ops|
  {
    if ops == [] {
      assert [] + [op] == [op] && [op][1..] == [];
    } else {
      RunNext(Step(s, ops[0]), ops[1..], op);
      assert (ops + [op])[1..] == ops[1..] + [op];
    }
  }

  // ------------------------------------------------------------- two examples

  const WIDE: Limits := Limits(4, 2, 32, 9999, 1000, 60)
  const LONG: Running := Running(1, "a", 500)
  const OTHER: Running := Running(4, "b", 500)
  const LARGE: Queued := Queued(2, "a", 900, 0, 9999)
  const SMALL: Queued := Queued(3, "a", 100, 3599, 13598)

  function LongThenLarge(): seq<Op> {
    [SubmitOp(1, "a", 500, None, 0), SubmitOp(2, "a", 900, None, 0)]
  }

  lemma LargeWaits()
    ensures Run(New(WIDE), LongThenLarge()) == State(WIDE, [LONG], [LARGE], [])
  {
    var one, two := LongThenLarge()[0], LongThenLarge()[1];
    SumsOfTwo(LONG, LONG, "a");
    assert Step(New(WIDE), one) == State(WIDE, [LONG], [], []);
    assert Step(State(WIDE, [LONG], [], []), two) == State(WIDE, [LONG], [LARGE], []);
    RunNext(New(WIDE), [], one);
    RunNext(New(WIDE), [one], two);
    assert [] + [one] == [one] && [one] + [two] == [one, two];
  }

  /** A long job, then a larger request of its project, then a small one. */
  lemma SmallerNewcomerOvertakes()
    ensures var s := Run(New(WIDE), LongThenLarge());
            && s.queue == [LARGE]
            && Submit(s, 3, "a", 100, None, 1) == (s.(running := [LONG, Running(3, "a", 100)]), Start(100))
  {
    LargeWaits();
    SumsOfTwo(LONG, LONG, "a");
    assert CanAdmit(State(WIDE, [LONG], [LARGE], []), "a", 100);
    assert [LONG] + [Running(3, "a", 100)] == [LONG, Running(3, "a", 100)];
  }

  /** Two jobs fill the memory, and both requests of the first project wait. */
  function Crowd(): seq<Op> {
    [SubmitOp(1, "a", 500, None, 0), SubmitOp(4, "b", 500, None, 0),
     SubmitOp(2, "a", 900, None, 0), SubmitOp(3, "a", 100, None, 3599)]
  }

  lemma CrowdStarts()
    ensures Step(New(WIDE), Crowd()[0]) == State(WIDE, [LONG], [], [])
    ensures Step(State(WIDE, [LONG], [], []), Crowd()[1]) == State(WIDE, [LONG, OTHER], [], [])
  {
    SumsOfTwo(LONG, OTHER, "b");
    assert [LONG] + [OTHER] == [LONG, OTHER];
  }

  lemma CrowdQueues()
    ensures Step(State(WIDE, [LONG, OTHER], [], []), Crowd()[2]) == State(WIDE, [LONG, OTHER], [LARGE], [])
    ensures Step(State(WIDE, [LONG, OTHER], [LARGE], []), Crowd()[3]) == State(WIDE, [LONG, OTHER], [LARGE, SMALL], [])
  {
    SumsOfTwo(LONG, OTHER, "a");
    assert [LARGE] + [SMALL] == [LARGE, SMALL];
  }

  lemma CrowdWaits()
    ensures Run(New(WIDE), Crowd()) == State(WIDE, [LONG, OTHER], [LARGE, SMALL], [])
  {
    var ops := Crowd();
    CrowdStarts();
    CrowdQueues();
    RunNext(New(WIDE), [], ops[0]);
    RunNext(New(WIDE), ops[..1], ops[1]);
    RunNext(New(WIDE), ops[..2], ops[2]);
    RunNext(New(WIDE), ops[..3], ops[3]);
    assert [] + [ops[0]] == ops[..1] && ops[..1] + [ops[1]] == ops[..2];
    assert ops[..2] + [ops[2]] == ops[..3] && ops[..3] + [ops[3]] == ops;
  }

  /**
   A request starved for an hour is passed over from inside the queue: when the
   second job ends, the smaller and later request of the same project is
   admitted, and the larger one goes on waiting.
   */
  lemma StarvedRequestIsBypassed()
    ensures var s := Run(New(WIDE), Crowd());
            && s.queue == [LARGE, SMALL] && Starved(s, LARGE, 3600) && 3600 < LARGE.deadline
            && Release(s, 4, false, 3600) == (State(WIDE, [LONG, Running(3, "a", 100)], [LARGE], []), [3])
  {
    CrowdWaits();
    var s := State(WIDE, [LONG, OTHER], [LARGE, SMALL], []);
    assert [LONG, OTHER][1..] == [OTHER] && [OTHER][1..] == [];
    assert Without([OTHER], 4) == [] && Without([LONG, OTHER], 4) == [LONG] + Without([OTHER], 4);
    assert FreeSlot(s, 4, false) == State(WIDE, [LONG], [LARGE, SMALL], []);
    DrainsSmall();
  }

  lemma DrainsSmall()
    ensures Drain(State(WIDE, [LONG], [LARGE, SMALL], []), 3600)
         == (State(WIDE, [LONG, Running(3, "a", 100)], [LARGE], []), [3])
  {
    var s := State(WIDE, [LONG], [LARGE, SMALL], []);
    var t := State(WIDE, [LONG, Running(3, "a", 100)], [LARGE], []);
    SumsOfTwo(LONG, Running(3, "a", 100), "a");
    assert !Fits(s, s.queue[0]) && Fits(s, s.queue[1]) && SlotsFree(s) == 3;
    assert CandidateIndex(s, 3600) == Some(1);
    assert s.queue[..1] + s.queue[2..] == [LARGE] && AdmitAt(s, 1) == t;
    assert !Fits(t, t.queue[0]);
    assert CandidateIndex(t, 3600) == None;
    assert Drain(t, 3600) == (t, []) && s.queue[1].id == 3 && [3] + [] == [3];
  }

  // ------------------------------------------------------ bypassed for ever

  const TIGHT: Limits := Limits(2, 2, 8, 600, 1000, 60)
  const BIG: Queued := Queued(0, "b", 900, 0, 600)

  /** A short job and the big request, and time until the latter is starved. */
  function Opening(): seq<Op> {
    [SubmitOp(1, "a", 500, None, 0), SubmitOp(0, "b", 900, None, 0)]
  }

  /** Each short job is there before the one before it is gone. */
  function Stream(k: nat, n: nat): seq<Op>
    decreases n
  {
    if n == 0 then []
    else [SubmitOp(k + 1, "a", 500, None, 60), ReleaseOp(k, false, 60)] + Stream(k + 1, n - 1)
  }

  /** Every later short job so far was admitted; the big one waits. */
  ghost predicate Passing(h: History, k: nat) {
    && h.s == State(TIGHT, [Running(k, "a", 500)], [BIG], [])
    && k >= 1 && h.clock <= 60 && |h.arrivals| >= 2
    && (forall id :: id in h.arrivals ==> id <= k)
    && 0 in h.arrivals && h.arrivals[0] == Arrival(1, "b", 900)
    && forall j :: 2 <= j <= k ==> j in h.admitted && j in h.arrivals && h.arrivals[j].rank > 1
  }

  lemma NewcomerStarts(h: History, k: nat)
    requires Passing(h, k)
    ensures var op := SubmitOp(k + 1, "a", 500, None, 60);
            && Legal(h, op)
            && Next(h, op).s == State(TIGHT, [Running(k, "a", 500), Running(k + 1, "a", 500)], [BIG], [])
            && Next(h, op).arrivals == h.arrivals[k + 1 := Arrival(|h.arrivals|, "a", 500)]
            && Next(h, op).admitted == h.admitted + {k, k + 1} && Next(h, op).clock == 60
  {
    var r, t := Running(k, "a", 500), Running(k + 1, "a", 500);
    SumsOfTwo(r, t, "a");
    assert CanAdmit(h.s, "a", 500);
    assert [r] + [t] == [r, t] && r in [r, t] && t in [r, t];
    assert RunningIds([r, t]) == {k, k + 1};
  }

  lemma OldOneLeaves(k: nat)
    ensures Release(State(TIGHT, [Running(k, "a", 500), Running(k + 1, "a", 500)], [BIG], []), k, false, 60)
         == (State(TIGHT, [Running(k + 1, "a", 500)], [BIG], []), [])
  {
    var r, t := Running(k, "a", 500), Running(k + 1, "a", 500);
    var s := State(TIGHT, [t], [BIG], []);
    SumsOfTwo(t, r, "b");
    assert [r, t][1..] == [t] && [t][1..] == [];
    assert Without([t], k) == [t] + Without([], k) && Without([r, t], k) == [] + Without([t], k);
    assert FreeSlot(State(TIGHT, [r, t], [BIG], []), k, false) == s;
    assert !Fits(s, s.queue[0]);
    assert CandidateIndex(s, 60) == None;
  }

  lemma OneMorePasses(h: History, k: nat)
    requires Passing(h, k)
    ensures var a, b := SubmitOp(k + 1, "a", 500, None, 60), ReleaseOp(k, false, 60);
            Legal(h, a) && Legal(Next(h, a), b) && Passing(Next(Next(h, a), b), k + 1)
  {
    NewcomerStarts(h, k);
    OldOneLeaves(k);
    var a, b := SubmitOp(k + 1, "a", 500, None, 60), ReleaseOp(k, false, 60);
    var n := Next(Next(h, a), b);
    assert n.arrivals == h.arrivals[k + 1 := Arrival(|h.arrivals|, "a", 500)];
    assert |n.arrivals| == |h.arrivals| + 1;
  }

  lemma TwoOperations(h: History, a: Op, b: Op, rest: seq<Op>)
    ensures RunHistory(h, [a, b] + rest) == RunHistory(Next(Next(h, a), b), rest)
    ensures LegalRun(h, [a, b] + rest) <==> Legal(h, a) && Legal(Next(h, a), b) && LegalRun(Next(Next(h, a), b), rest)
  {
    assert ([a, b] + rest)[1..] == [b] + rest && ([b] + rest)[1..] == rest;
    FirstOperation(h, a, [a, b] + rest, [b] + rest);
    FirstOperation(Next(h, a), b, [b] + rest, rest);
  }

  /** The history once one short job has come and the one before it has gone. */
  lemma AfterPair(h: History, k: nat, ops: seq<Op>, rest: seq<Op>) returns (m: History)
    requires Passing(h, k)
    requires ops == [SubmitOp(k + 1, "a", 500, None, 60), ReleaseOp(k, false, 60)] + rest
    ensures Passing(m, k + 1)
    ensures LegalRun(h, ops) <==> LegalRun(m, rest)
    ensures RunHistory(h, ops) == RunHistory(m, rest)
  {
    var a, b := SubmitOp(k + 1, "a", 500, None, 60), ReleaseOp(k, false, 60);
    OneMorePasses(h, k);
    TwoOperations(h, a, b, rest);
    m := Next(Next(h, a), b);
  }

  /** `last` comes out of `h` by legal operations `ops`. */
  ghost predicate IsLeg(h: History, ops: seq<Op>, last: History) {
    LegalRun(h, ops) && last == RunHistory(h, ops)
  }

  ghost predicate Leads(h: History, ops: seq<Op>, top: nat) {
    exists last :: IsLeg(h, ops, last) && Passing(last, top)
  }

  lemma EmptyLeg(h: History, k: nat)
    requires Passing(h, k)
    ensures Leads(h, [], k)
  {
    assert IsLeg(h, [], h);
  }

  lemma PairLeg(h: History, k: nat, ops: seq<Op>, rest: seq<Op>, top: nat) returns (m: History)
    requires Passing(h, k)
    requires ops == [SubmitOp(k + 1, "a", 500, None, 60), ReleaseOp(k, false, 60)] + rest
    ensures Passing(m, k + 1)
    ensures Leads(m, rest, top) ==> Leads(h, ops, top)
  {
    m := AfterPair(h, k, ops, rest);
    if last :| IsLeg(m, rest, last) && Passing(last, top) {
      assert IsLeg(h, ops, last);
    }
  }

  lemma {:induction false} StreamPasses(h: History, k: nat, n: nat, top: nat)
    requires Passing(h, k) && top == k + n
    ensures Leads(h, Stream(k, n), top)
    decreases n
  {
    if n == 0 {
      EmptyLeg(h, k);
    } else {
      var m := PairLeg(h, k, Stream(k, n), Stream(k + 1, n - 1), top);
      StreamPasses(m, k + 1, n - 1, top);
    }
  }

  lemma OpeningStates()
    ensures var a, b := Opening()[0], Opening()[1];
            && Step(New(TIGHT), a) == State(TIGHT, [Running(1, "a", 500)], [], [])
            && Step(State(TIGHT, [Running(1, "a", 500)], [], []), b) == State(TIGHT, [Running(1, "a", 500)], [BIG], [])
  {
    SumsOfTwo(Running(1, "a", 500), Running(1, "a", 500), "b");
  }

  lemma OpeningHistory()
    ensures var a, b := Opening()[0], Opening()[1];
            var h := Next(Begin(TIGHT), a);
            Legal(Begin(TIGHT), a) && Legal(h, b) && Passing(Next(h, b), 1)
  {
    OpeningStates();
    var h := Next(Begin(TIGHT), Opening()[0]);
    assert h.arrivals == map[1 := Arrival(0, "a", 500)];
    var i := Next(h, Opening()[1]);
    assert i.arrivals == map[1 := Arrival(0, "a", 500), 0 := Arrival(1, "b", 900)];
    assert |i.arrivals| == 2;
  }

  lemma OpeningPasses() returns (h: History)
    ensures LegalRun(Begin(TIGHT), Opening()) && h == RunHistory(Begin(TIGHT), Opening()) && Passing(h, 1)
  {
    OpeningHistory();
    TwoOperations(Begin(TIGHT), Opening()[0], Opening()[1], []);
    assert [Opening()[0], Opening()[1]] + [] == Opening();
    h := Next(Next(Begin(TIGHT), Opening()[0]), Opening()[1]);
  }

  /**
   A big request is bypassed for as long as a stream of small ones lasts: for
   every n there is a legal run in which it has starved, has not reached its
   deadline, still waits, and n requests submitted after it were admitted.
   */
  lemma BypassedForEver(n: nat)
    ensures var ops := Opening() + Stream(1, n);
            && LegalRun(Begin(TIGHT), ops)
            && (var h := RunHistory(Begin(TIGHT), ops);
                && h.clock <= 60 < BIG.deadline && BIG in h.s.queue && Starved(h.s, BIG, 60)
                && BIG.id in h.arrivals
                && forall j :: 2 <= j <= n + 1 ==>
                     j in h.admitted && j in h.arrivals && h.arrivals[j].rank > h.arrivals[BIG.id].rank)
  {
    var h := OpeningPasses();
    StreamPasses(h, 1, n, n + 1);
    var last :| IsLeg(h, Stream(1, n), last) && Passing(last, n + 1);
    HistoriesJoin(Begin(TIGHT), Opening(), Stream(1, n));
  }
}
