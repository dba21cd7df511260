/**
 What each operation of the scheduler answers and leaves behind, entry by
 entry and in order: said of the slots, the queue and the reservations
 themselves, for any state.
 */
module SchedulerEffects {
  import opened Base
  import opened SchedulerSpec
  import opened SchedulerIds

  // ------------------------------------------------------------------- submit

  /** Every amount in the answer, and every field of the new entry. */
  ghost predicate SubmitMeans(s: State, t: State, answer: Admission,
                              id: RunId, project: Project, memory: U64, timeout: Option<nat>, now: nat)
  {
    && t.limits == s.limits && t.held == s.held
    && match answer
       case Start(m) =>
         m == memory <= s.limits.memoryBudget && t.queue == s.queue && t.running == s.running + [Running(id, project, memory)]
       case Waiting(n) =>
         && n == |s.queue| + 1 <= s.limits.maxQueued && memory <= s.limits.memoryBudget && t.running == s.running
         && t.queue == s.queue + [Queued(id, project, memory, now,
                                         if timeout.Some? then now + timeout.value else now + s.limits.queueTimeout)]
       case Rejected(Impossible(requested, budget)) =>
         t == s && requested == memory && budget == s.limits.memoryBudget && requested > budget
       case Rejected(QueueFull(bound)) =>
         t == s && bound == s.limits.maxQueued <= |s.queue| && memory <= s.limits.memoryBudget
  }

  /** And when it starts, with the sum of the reservations taken modulo a word. */
  lemma SubmitAnswers(s: State, id: RunId, project: Project, memory: U64, timeout: Option<nat>, now: nat)
    ensures var (t, answer) := Submit(s, id, project, memory, timeout, now);
            && SubmitMeans(s, t, answer, id, project, memory, timeout, now)
            && (answer.Start? <==>
                  && memory <= s.limits.memoryBudget
                  && |s.running| < s.limits.maxParallel && CountProject(s.running, project) < s.limits.maxPerProject
                  && (RawReserved(s) + memory) % WORD <= s.limits.memoryBudget)
  {
    AddMod(RawReserved(s), memory);
  }

  // ------------------------------------------------------------------ in order

  /** The entries of `a` stand in `b` in the same order. */
  ghost predicate InOrder(a: seq<Queued>, b: seq<Queued>) {
    a == [] || (b != [] && ((a[0] == b[0] && InOrder(a[1..], b[1..])) || InOrder(a, b[1..])))
  }

  lemma {:induction false} InOrderSelf(a: seq<Queued>)
    ensures InOrder(a, a)
  {
    if a != [] {
      InOrderSelf(a[1..]);
    }
  }

  /** What stands in order without one entry stands in order with it. */
  lemma {:induction false} InOrderAfterRemoval(a: seq<Queued>, b: seq<Queued>, i: nat)
    requires i < |b| && InOrder(a, b[..i] + b[i + 1..])
    ensures InOrder(a, b)
    decreases |b|
  {
    var rest := b[..i] + b[i + 1..];
    if i == 0 {
      assert rest == b[1..];
    } else if a != [] {
      assert rest[0] == b[0] && rest[1..] == b[1..][..i - 1] + b[1..][i..];
      if a[0] == rest[0] && InOrder(a[1..], rest[1..]) {
        InOrderAfterRemoval(a[1..], b[1..], i - 1);
      } else {
        InOrderAfterRemoval(a, b[1..], i - 1);
      }
    }
  }

  // ------------------------------------------------------------------- release

  /** The slot that a queued request gets. */
  function SlotOf(q: Queued): Running {
    Running(q.id, q.project, q.memory)
  }

  ghost predicate FromQueue(queue: seq<Queued>, r: Running) {
    exists q :: q in queue && SlotOf(q) == r
  }

  /** The slots from `base` on are those of the admitted requests, in the order of the answer. */
  ghost predicate NewSlots(queue: seq<Queued>, running: seq<Running>, base: nat, ids: seq<RunId>) {
    |running| == base + |ids| &&
    forall k :: 0 <= k < |ids| ==> running[base + k].id == ids[k] && FromQueue(queue, running[base + k])
  }

  /**
   The admitted requests, in the order of the answer, are the new slots at the
   end, each with the project and memory it asked for; the others wait on in
   their order.
   */
  ghost predicate Admits(s: State, t: State, ids: seq<RunId>) {
    && t.limits == s.limits && t.held == s.held
    && s.running <= t.running && NewSlots(s.queue, t.running, |s.running|, ids)
    && |t.queue| + |ids| == |s.queue| && InOrder(t.queue, s.queue)
  }

  lemma {:induction false} DrainAdmits(s: State, now: nat)
    ensures Admits(s, Drain(s, now).0, Drain(s, now).1)
    decreases |s.queue|
  {
    var c := CandidateIndex(s, now);
    if c.None? {
      InOrderSelf(s.queue);
    } else {
      DrainAdmits(AdmitAt(s, c.value), now);
      OneMoreAdmitted(s, c.value, Drain(AdmitAt(s, c.value), now).0, Drain(AdmitAt(s, c.value), now).1);
    }
  }

  lemma OneMoreAdmitted(s: State, c: nat, t: State, rest: seq<RunId>)
    requires c < |s.queue| && Admits(AdmitAt(s, c), t, rest)
    ensures Admits(s, t, [s.queue[c].id] + rest)
  {
    var u := AdmitAt(s, c);
    InOrderAfterRemoval(t.queue, s.queue, c);
    assert |u.queue| == |s.queue| - 1 && u.running == s.running + [SlotOf(s.queue[c])];
    PrefixOfPrefix(s.running, u.running, t.running);
    OneMoreSlot(s, c, t, rest);
  }

  lemma OneMoreSlot(s: State, c: nat, t: State, rest: seq<RunId>)
    requires c < |s.queue| && Admits(AdmitAt(s, c), t, rest)
    ensures NewSlots(s.queue, t.running, |s.running|, [s.queue[c].id] + rest)
  {
    var ids := [s.queue[c].id] + rest;
    forall k | 0 <= k < |ids|
      ensures t.running[|s.running| + k].id == ids[k] && FromQueue(s.queue, t.running[|s.running| + k])
    {
      if k == 0 {
        FirstSlot(s, c, t);
      } else {
        LaterSlot(s, c, t, rest, k);
      }
    }
  }

  lemma PrefixOfPrefix(a: seq<Running>, b: seq<Running>, c: seq<Running>)
    requires a <= b <= c
    ensures a <= c
  {
  }

  lemma FirstSlot(s: State, c: nat, t: State)
    requires c < |s.queue| && AdmitAt(s, c).running <= t.running
    ensures |s.running| < |t.running| && t.running[|s.running|] == SlotOf(s.queue[c])
    ensures FromQueue(s.queue, t.running[|s.running|])
  {
    assert AdmitAt(s, c).running[|s.running|] == SlotOf(s.queue[c]) && s.queue[c] in s.queue;
  }

  lemma LaterSlot(s: State, c: nat, t: State, rest: seq<RunId>, k: nat)
    requires c < |s.queue| && Admits(AdmitAt(s, c), t, rest) && 0 < k <= |rest|
    ensures t.running[|s.running| + k].id == rest[k - 1] && FromQueue(s.queue, t.running[|s.running| + k])
  {
    var u := AdmitAt(s, c);
    assert t.running[|u.running| + (k - 1)].id == rest[k - 1];
    var p :| p in u.queue && SlotOf(p) == t.running[|u.running| + (k - 1)];
    assert p in s.queue;
  }

  /** Taking out of the tail is taking out of the whole. */
  lemma TailWithout<T>(xs: seq<T>, i: nat)
    requires 0 < i < |xs|
    ensures [xs[0]] + (xs[1..][..i - 1] + xs[1..][i..]) == xs[..i] + xs[i + 1..]
  {
  }

  lemma {:induction false} FreedSlot(rs: seq<Running>, i: nat)
    requires DistinctSlots(rs) && i < |rs|
    ensures Without(rs, rs[i].id) == rs[..i] + rs[i + 1..]
  {
    HeadSlot(rs);
    if i == 0 {
      NothingRemoved(rs[1..], rs[0].id);
    } else {
      FreedSlot(rs[1..], i - 1);
      TailWithout(rs, i);
    }
  }

  lemma FoundSlot(rs: seq<Running>, i: nat)
    requires DistinctSlots(rs) && i < |rs|
    ensures FindRunning(rs, rs[i].id) == Some(rs[i])
  {
    assert rs[i] in rs;
  }

  /**
   The slot of the run is given back, all of it and no other; its reservation
   stays behind exactly when asked; then waiting requests are admitted.
   */
  lemma ReleaseAnswers(s: State, i: nat, hold: bool, now: nat)
    requires DistinctSlots(s.running) && i < |s.running|
    ensures var (t, ids) := Release(s, s.running[i].id, hold, now);
            var freed := s.(running := s.running[..i] + s.running[i + 1..],
                            held := s.held + if hold then [s.running[i]] else []);
            Admits(freed, t, ids)
  {
    FreedSlot(s.running, i);
    FoundSlot(s.running, i);
    var freed := s.(running := s.running[..i] + s.running[i + 1..], held := s.held + if hold then [s.running[i]] else []);
    assert FreeSlot(s, s.running[i].id, hold) == freed;
    DrainAdmits(freed, now);
  }

  // --------------------------------------------------------- cancel and expire

  lemma {:induction false} TakenOut(queue: seq<Queued>, i: nat)
    requires DistinctQueue(queue) && i < |queue|
    ensures DropQueued(queue, queue[i].id) == queue[..i] + queue[i + 1..]
  {
    HeadQueued(queue);
    if i == 0 {
      NobodyTaken(queue[1..], queue[0].id);
    } else {
      TakenOut(queue[1..], i - 1);
      TailWithout(queue, i);
    }
  }

  lemma {:induction false} NobodyTaken(queue: seq<Queued>, id: RunId)
    requires id !in QueueIds(queue)
    ensures DropQueued(queue, id) == queue
  {
    if queue != [] {
      assert queue == [queue[0]] + queue[1..] && queue[0] in queue;
      assert forall q :: q in queue[1..] ==> q in queue;
      NobodyTaken(queue[1..], id);
    }
  }

  /** A request that waits is taken out, and that is said; any other id changes nothing, and that is said. */
  lemma CancelAnswers(s: State, id: RunId)
    requires DistinctQueue(s.queue)
    ensures id !in QueueIds(s.queue) ==> CancelQueued(s, id) == (s, false)
    ensures forall i :: 0 <= i < |s.queue| && s.queue[i].id == id ==>
              CancelQueued(s, id) == (s.(queue := s.queue[..i] + s.queue[i + 1..]), true)
  {
    if id !in QueueIds(s.queue) {
      NobodyTaken(s.queue, id);
    }
    forall i | 0 <= i < |s.queue| && s.queue[i].id == id
      ensures CancelQueued(s, id) == (s.(queue := s.queue[..i] + s.queue[i + 1..]), true)
    {
      TakenOut(s.queue, i);
    }
  }

  /** The requests past their deadline leave, are answered in their order, and the others wait on in theirs. */
  lemma {:induction false} ExpireSplits(queue: seq<Queued>, now: nat) returns (gone: seq<Queued>)
    ensures InOrder(gone, queue) && InOrder(Live(queue, now), queue) && |gone| + |Live(queue, now)| == |queue|
    ensures forall q :: q in gone ==> now >= q.deadline
    ensures forall q :: q in Live(queue, now) ==> now < q.deadline
    ensures |gone| == |Expired(queue, now)| && forall k :: 0 <= k < |gone| ==> gone[k].id == Expired(queue, now)[k]
  {
    if queue == [] {
      gone := [];
    } else {
      var rest := ExpireSplits(queue[1..], now);
      gone := if now >= queue[0].deadline then [queue[0]] + rest else rest;
      OneSplit(queue, now, rest);
    }
  }

  lemma OneSplit(queue: seq<Queued>, now: nat, rest: seq<Queued>)
    requires queue != []
    ensures now >= queue[0].deadline ==>
              && ([queue[0]] + rest)[1..] == rest && Expired(queue, now) == [queue[0].id] + Expired(queue[1..], now)
              && Live(queue, now) == Live(queue[1..], now)
    ensures now < queue[0].deadline ==>
              && Live(queue, now) == [queue[0]] + Live(queue[1..], now) && Live(queue, now)[1..] == Live(queue[1..], now)
              && Expired(queue, now) == Expired(queue[1..], now)
  {
  }

  lemma ExpireAnswers(s: State, now: nat) returns (gone: seq<Queued>)
    ensures var (t, ids) := Expire(s, now);
            && t == s.(queue := t.queue) && |gone| == |ids| && |gone| + |t.queue| == |s.queue|
            && InOrder(t.queue, s.queue) && (forall q :: q in t.queue ==> now < q.deadline)
            && InOrder(gone, s.queue) && (forall q :: q in gone ==> now >= q.deadline)
            && forall k :: 0 <= k < |ids| ==> ids[k] == gone[k].id
  {
    gone := ExpireSplits(s.queue, now);
  }

  // -------------------------------------------------------------------- reasons

  /** The project is named first, then the slots; memory only when both have room. */
  lemma ReasonNames(s: State, q: Queued)
    ensures Reason(s, q) == ProjectAtLimit <==> CountProject(s.running, q.project) >= s.limits.maxPerProject
    ensures Reason(s, q) == AllSlotsBusy <==>
              CountProject(s.running, q.project) < s.limits.maxPerProject && |s.running| >= s.limits.maxParallel
    ensures Reason(s, q) == WaitingForMemory <==>
              CountProject(s.running, q.project) < s.limits.maxPerProject && |s.running| < s.limits.maxParallel
  {
  }

  // ---------------------------------------------------------------------- sums

  /** The sums and counts do not depend on the order, and each entry is in them once. */
  lemma {:induction false} SumsSplit(a: seq<Running>, b: seq<Running>, p: Project)
    ensures RawSum(a + b) == RawSum(a) + RawSum(b) && CountProject(a + b, p) == CountProject(a, p) + CountProject(b, p)
    ensures |b| == 1 ==> RawSum(b) == b[0].memory && CountProject(b, p) == (if b[0].project == p then 1 else 0)
    ensures b == [] ==> RawSum(b) == 0 && CountProject(b, p) == 0
    decreases |a|
  {
    if a == [] {
      assert a + b == b;
    } else {
      SumsSplit(a[1..], b, p);
      assert (a + b)[1..] == a[1..] + b;
    }
  }
}
