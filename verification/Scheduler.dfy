/**
 The scheduler as the object the supervisor keeps behind its lock: four
 fields, edited in place. Every method is proved to take exactly the step of
 SchedulerSpec, so the properties of whole runs hold of this object.
 */
module SchedulerObject {
  import opened Base
  import opened SchedulerSpec
  import opened SchedulerCaps
  import opened SchedulerEffects

  /** One line of the queue as clients see it. */
  datatype QueueEntry = QueueEntry(id: RunId, project: Project, position: nat, waited: nat, memory: U64, reason: WaitReason)

  ghost predicate DrainedSoFar(start: State, mid: State, now: nat, admitted: seq<RunId>) {
    Drain(start, now) == (Drain(mid, now).0, admitted + Drain(mid, now).1)
  }

  lemma Untouched(start: State, now: nat)
    ensures DrainedSoFar(start, start, now, [])
  {
    assert [] + Drain(start, now).1 == Drain(start, now).1;
  }

  lemma PickedOne(start: State, mid: State, now: nat, admitted: seq<RunId>)
    requires DrainedSoFar(start, mid, now, admitted)
    ensures var c := CandidateIndex(mid, now);
            c.Some? ==> DrainedSoFar(start, AdmitAt(mid, c.value), now, admitted + [mid.queue[c.value].id])
  {
    var c := CandidateIndex(mid, now);
    if c.Some? {
      DrainOnce(mid, now, c.value);
      Regroup(admitted, mid.queue[c.value].id, Drain(AdmitAt(mid, c.value), now).1);
    }
  }

  lemma DrainOnce(s: State, now: nat, c: nat)
    requires CandidateIndex(s, now) == Some(c)
    ensures var rest := Drain(AdmitAt(s, c), now);
            Drain(s, now) == (rest.0, [s.queue[c].id] + rest.1)
  {
  }

  lemma Regroup(front: seq<RunId>, id: RunId, rest: seq<RunId>)
    ensures front + ([id] + rest) == (front + [id]) + rest
  {
  }

  lemma DropStep(queue: seq<Queued>, i: nat, id: RunId, kept: seq<Queued>)
    requires i < |queue|
    ensures kept + DropQueued(queue[i..], id)
         == (if queue[i].id == id then kept else kept + [queue[i]]) + DropQueued(queue[i + 1..], id)
  {
    assert queue[i..][0] == queue[i] && queue[i..][1..] == queue[i + 1..];
    assert DropQueued(queue[i..], id)
        == (if queue[i].id == id then [] else [queue[i]]) + DropQueued(queue[i + 1..], id);
  }

  lemma LiveStep(queue: seq<Queued>, i: nat, now: nat, kept: seq<Queued>)
    requires i < |queue|
    ensures kept + Live(queue[i..], now)
         == (if now >= queue[i].deadline then kept else kept + [queue[i]]) + Live(queue[i + 1..], now)
  {
    assert queue[i..][0] == queue[i] && queue[i..][1..] == queue[i + 1..];
    assert Live(queue[i..], now)
        == (if now >= queue[i].deadline then [] else [queue[i]]) + Live(queue[i + 1..], now);
  }

  lemma ExpiredStep(queue: seq<Queued>, i: nat, now: nat, expired: seq<RunId>)
    requires i < |queue|
    ensures expired + Expired(queue[i..], now)
         == (if now >= queue[i].deadline then expired + [queue[i].id] else expired) + Expired(queue[i + 1..], now)
  {
    assert queue[i..][0] == queue[i] && queue[i..][1..] == queue[i + 1..];
    assert Expired(queue[i..], now)
        == (if now >= queue[i].deadline then [queue[i].id] else []) + Expired(queue[i + 1..], now);
  }

  class Scheduler {
    var limits: Limits
    var running: seq<Running>
    var queue: seq<Queued>
    var held: seq<Running>

    ghost function Abs(): State
      reads this
    {
      State(limits, running, queue, held)
    }

    constructor (limits: Limits)
      ensures Abs() == New(limits)
      ensures this.limits == limits && running == [] && queue == [] && held == []
    {
      this.limits := limits;
      running, queue, held := [], [], [];
    }

    method SetLimits(limits: Limits)
      modifies this
      ensures Abs() == SchedulerSpec.SetLimits(old(Abs()), limits)
      ensures this.limits == limits && running == old(running) && queue == old(queue) && held == old(held)
    {
      this.limits := limits;
    }

    method Reserved() returns (total: U64)
      ensures total == SchedulerSpec.Reserved(Abs())
    {
      var sum := 0;
      for i := 0 to |running|
        invariant sum == RawSum(running[..i]) % WORD
      {
        assert running[..i + 1] == running[..i] + [running[i]];
        RawSumAppend(running[..i], running[i]);
        AddMod(RawSum(running[..i]), running[i].memory);
        sum := (sum + running[i].memory) % WORD;
      }
      assert running[..|running|] == running;
      for i := 0 to |held|
        invariant sum == (RawSum(running) + RawSum(held[..i])) % WORD
      {
        assert held[..i + 1] == held[..i] + [held[i]];
        RawSumAppend(held[..i], held[i]);
        AddMod(RawSum(running) + RawSum(held[..i]), held[i].memory);
        sum := (sum + held[i].memory) % WORD;
      }
      assert held[..|held|] == held;
      total := sum;
    }

    method Submit(id: RunId, project: Project, memory: U64, timeout: Option<nat>, now: nat) returns (decision: Admission)
      modifies this
      ensures (Abs(), decision) == SchedulerSpec.Submit(old(Abs()), id, project, memory, timeout, now)
      ensures SubmitMeans(old(Abs()), Abs(), decision, id, project, memory, timeout, now)
    {
      if memory > limits.memoryBudget {
        return Rejected(Impossible(memory, limits.memoryBudget));
      }
      var reserved := Reserved();
      if SatSub(limits.maxParallel, |running|) > 0
        && SatSub(limits.maxPerProject, CountProject(running, project)) > 0
        && (reserved + memory) % WORD <= limits.memoryBudget
      {
        running := running + [Running(id, project, memory)];
        return Start(memory);
      }
      if |queue| >= limits.maxQueued {
        return Rejected(QueueFull(limits.maxQueued));
      }
      var wait := if timeout.Some? then timeout.value else limits.queueTimeout;
      queue := queue + [Queued(id, project, memory, now, now + wait)];
      return Waiting(|queue|);
    }

    /** Pick and admit one queued request that fits, or nothing. */
    method PickNext(now: nat) returns (next: Option<RunId>)
      modifies this
      ensures next.None? <==> CandidateIndex(old(Abs()), now).None?
      ensures next.None? ==> Abs() == old(Abs())
      ensures next.Some? ==>
                var c := CandidateIndex(old(Abs()), now).value;
                next.value == old(queue)[c].id && Abs() == AdmitAt(old(Abs()), c)
    {
      var index := CandidateIndex(State(limits, running, queue, held), now);
      if index.None? {
        return None;
      }
      var q := queue[index.value];
      queue := queue[..index.value] + queue[index.value + 1..];
      running := running + [Running(q.id, q.project, q.memory)];
      return Some(q.id);
    }

    /** The draining loop of `Release`. */
    method AdmitWaiting(now: nat) returns (admitted: seq<RunId>)
      modifies this
      ensures (Abs(), admitted) == Drain(old(Abs()), now)
    {
      admitted := [];
      ghost var freed := Abs();
      Untouched(freed, now);
      var next := PickNext(now);
      ghost var pending := if next.Some? then [next.value] else [];
      PickedOne(freed, freed, now, []);
      while next.Some?
        invariant pending == if next.Some? then [next.value] else []
        invariant DrainedSoFar(freed, Abs(), now, admitted + pending)
        invariant next.None? ==> CandidateIndex(Abs(), now).None?
        decreases |queue| + if next.Some? then 1 else 0
      {
        admitted := admitted + [next.value];
        PickedOne(freed, Abs(), now, admitted);
        next := PickNext(now);
        pending := if next.Some? then [next.value] else [];
        assert next.None? ==> admitted + pending == admitted;
      }
      assert admitted + pending == admitted && admitted + [] == admitted;
    }

    /** Give a slot back and admit whoever fits, in admission order. */
    method Release(id: RunId, hold: bool, now: nat) returns (admitted: seq<RunId>)
      modifies this
      ensures (Abs(), admitted) == SchedulerSpec.Release(old(Abs()), id, hold, now)
    {
      var kept := if hold then FindRunning(running, id) else None;
      var before := |running|;
      running := Without(running, id);
      if kept.Some? {
        held := held + [kept.value];
      }
      admitted := [];
      if |running| == before {
        return;
      }
      admitted := AdmitWaiting(now);
    }

    /** Drop a request that never started: everything else is retained, in order. */
    method CancelQueued(id: RunId) returns (found: bool)
      modifies this
      ensures (Abs(), found) == SchedulerSpec.CancelQueued(old(Abs()), id)
    {
      var kept := [];
      var i := 0;
      while i < |queue|
        invariant 0 <= i <= |queue| && Abs() == old(Abs())
        invariant kept + DropQueued(queue[i..], id) == DropQueued(queue, id)
      {
        DropStep(queue, i, id, kept);
        if queue[i].id != id {
          kept := kept + [queue[i]];
        }
        i := i + 1;
      }
      assert kept + [] == kept;
      found := |kept| != |queue|;
      queue := kept;
    }

    /** Take the requests whose deadline has passed out of the queue. */
    method Expire(now: nat) returns (expired: seq<RunId>)
      modifies this
      ensures (Abs(), expired) == SchedulerSpec.Expire(old(Abs()), now)
    {
      var kept := [];
      expired := [];
      var i := 0;
      while i < |queue|
        invariant 0 <= i <= |queue| && Abs() == old(Abs())
        invariant kept + Live(queue[i..], now) == Live(queue, now)
        invariant expired + Expired(queue[i..], now) == Expired(queue, now)
      {
        LiveStep(queue, i, now, kept);
        ExpiredStep(queue, i, now, expired);
        if now >= queue[i].deadline {
          expired := expired + [queue[i].id];
        } else {
          kept := kept + [queue[i]];
        }
        i := i + 1;
      }
      assert kept + [] == kept && expired + [] == expired;
      queue := kept;
    }

    /**
     The queue with a position, a wait and a reason for each entry. A reason
     names a cap that is really exhausted unless the request could run now.
     */
    method QueueEntries(now: nat) returns (entries: seq<QueueEntry>)
      ensures |entries| == |queue|
      ensures forall k :: 0 <= k < |queue| ==>
                entries[k] == QueueEntry(queue[k].id, queue[k].project, k + 1, SatSub(now, queue[k].enqueuedAt),
                                         queue[k].memory, Reason(Abs(), queue[k]))
      ensures forall k :: 0 <= k < |queue| ==>
                (ReasonTrue(Abs(), entries[k].reason, entries[k].project, entries[k].memory)
                 <==> !Room(Abs(), queue[k].project, queue[k].memory))
    {
      entries := [];
      for i := 0 to |queue|
        invariant |entries| == i
        invariant forall k :: 0 <= k < i ==>
                    entries[k] == QueueEntry(queue[k].id, queue[k].project, k + 1, SatSub(now, queue[k].enqueuedAt),
                                             queue[k].memory, Reason(Abs(), queue[k]))
      {
        var q := queue[i];
        var reason :=
          if SatSub(limits.maxPerProject, CountProject(running, q.project)) == 0 then ProjectAtLimit
          else if SatSub(limits.maxParallel, |running|) == 0 then AllSlotsBusy
          else WaitingForMemory;
        entries := entries + [QueueEntry(q.id, q.project, i + 1, SatSub(now, q.enqueuedAt), q.memory, reason)];
      }
      forall k | 0 <= k < |queue| {
        ReportedReasonIsTrueIff(Abs(), queue[k]);
      }
    }
  }
}
