/**
 Where the ids go: each operation moves ids between the queue, the running
 slots and the held reservations, and never duplicates or loses one.
 */
module SchedulerIds {
  import opened Base
  import opened SchedulerSpec

  ghost predicate DistinctQueue(queue: seq<Queued>) {
    forall a, b :: 0 <= a < b < |queue| ==> queue[a].id != queue[b].id
  }

  ghost predicate DistinctSlots(rs: seq<Running>) {
    forall a, b :: 0 <= a < b < |rs| ==> rs[a].id != rs[b].id
  }

  /** Every id is in at most one entry of one of the three places. */
  ghost predicate Tidy(s: State) {
    && DistinctQueue(s.queue) && DistinctSlots(s.running) && DistinctSlots(s.held)
    && QueueIds(s.queue) !! RunningIds(s.running)
    && QueueIds(s.queue) !! RunningIds(s.held)
    && RunningIds(s.running) !! RunningIds(s.held)
  }

  ghost predicate Absent(s: State, id: RunId) {
    id !in QueueIds(s.queue) && id !in RunningIds(s.running) && id !in RunningIds(s.held)
  }

  lemma SubmitMoves(s: State, id: RunId, project: Project, memory: U64, timeout: Option<nat>, now: nat)
    requires Tidy(s) && Absent(s, id)
    ensures var (t, decision) := Submit(s, id, project, memory, timeout, now);
            && Tidy(t) && t.held == s.held
            && match decision
               case Start(_) => t.queue == s.queue && RunningIds(t.running) == RunningIds(s.running) + {id}
               case Waiting(_) => t.running == s.running && QueueIds(t.queue) == QueueIds(s.queue) + {id}
               case Rejected(_) => t == s
  {
    var (t, decision) := Submit(s, id, project, memory, timeout, now);
    if decision.Start? {
      var r := Running(id, project, memory);
      assert t.running == s.running + [r];
      forall x | x in s.running ensures x.id in RunningIds(s.running) {
      }
      SlotsAppend(s.running, r);
    } else if decision.Waiting? {
      var q := t.queue[|s.queue|];
      assert t.queue == s.queue + [q];
      QueueAppend(s.queue, q);
    }
  }

  lemma SlotsAppend(rs: seq<Running>, r: Running)
    requires DistinctSlots(rs) && r.id !in RunningIds(rs)
    ensures DistinctSlots(rs + [r]) && RunningIds(rs + [r]) == RunningIds(rs) + {r.id}
  {
    var all := rs + [r];
    forall k | 0 <= k < |rs| ensures all[k].id in RunningIds(rs) {
      assert all[k] in rs;
    }
    assert forall x :: x in all <==> x in rs || x == r;
  }

  lemma QueueAppend(queue: seq<Queued>, q: Queued)
    requires DistinctQueue(queue) && q.id !in QueueIds(queue)
    ensures DistinctQueue(queue + [q]) && QueueIds(queue + [q]) == QueueIds(queue) + {q.id}
  {
    var all := queue + [q];
    forall k | 0 <= k < |queue| ensures all[k].id in QueueIds(queue) {
      assert all[k] in queue;
    }
    assert forall x :: x in all <==> x in queue || x == q;
  }

  lemma QueueRemove(queue: seq<Queued>, i: nat)
    requires DistinctQueue(queue) && i < |queue|
    ensures var rest := queue[..i] + queue[i + 1..];
            DistinctQueue(rest) && QueueIds(rest) == QueueIds(queue) - {queue[i].id}
  {
    var rest := queue[..i] + queue[i + 1..];
    assert forall k :: 0 <= k < |rest| ==> rest[k] == if k < i then queue[k] else queue[k + 1];
    RestKeeps(queue, rest, i);
    SameIds(queue, rest, queue[i].id);
  }

  lemma RestKeeps(queue: seq<Queued>, rest: seq<Queued>, i: nat)
    requires DistinctQueue(queue) && i < |queue| && rest == queue[..i] + queue[i + 1..]
    ensures forall q :: q in queue && q.id != queue[i].id ==> q in rest
    ensures forall k :: 0 <= k < |rest| ==> rest[k] in queue && rest[k].id != queue[i].id
  {
    forall q | q in queue && q.id != queue[i].id ensures q in rest {
      var k :| 0 <= k < |queue| && queue[k] == q;
      if k < i {
        assert rest[k] == q;
      } else {
        assert rest[k - 1] == q;
      }
    }
    forall k | 0 <= k < |rest| ensures rest[k] in queue && rest[k].id != queue[i].id {
      assert rest[k] == queue[if k < i then k else k + 1];
    }
  }

  lemma SameIds(queue: seq<Queued>, rest: seq<Queued>, id: RunId)
    requires forall q :: q in queue && q.id != id ==> q in rest
    requires forall k :: 0 <= k < |rest| ==> rest[k] in queue && rest[k].id != id
    ensures QueueIds(rest) == QueueIds(queue) - {id}
  {
  }

  lemma AdmitMoves(s: State, i: nat)
    requires Tidy(s) && i < |s.queue|
    ensures var t := AdmitAt(s, i); var id := s.queue[i].id;
            && Tidy(t) && t.held == s.held
            && id in QueueIds(s.queue)
            && QueueIds(t.queue) == QueueIds(s.queue) - {id}
            && RunningIds(t.running) == RunningIds(s.running) + {id}
  {
    var q := s.queue[i];
    assert q in s.queue;
    QueueRemove(s.queue, i);
    SlotsAppend(s.running, Running(q.id, q.project, q.memory));
  }

  lemma {:induction false} DrainMovesIds(s: State, now: nat)
    requires Tidy(s)
    ensures var (t, out) := Drain(s, now);
            && Tidy(t) && t.held == s.held
            && Distinct(out) && Elements(out) <= QueueIds(s.queue)
            && QueueIds(t.queue) == QueueIds(s.queue) - Elements(out)
            && RunningIds(t.running) == RunningIds(s.running) + Elements(out)
    decreases |s.queue|
  {
    var c := CandidateIndex(s, now);
    if c.Some? {
      var id := s.queue[c.value].id;
      var u := AdmitAt(s, c.value);
      AdmitMoves(s, c.value);
      DrainMovesIds(u, now);
      var (t, rest) := Drain(u, now);
      ConsDistinct(id, rest);
    }
  }

  lemma ConsDistinct(id: RunId, rest: seq<RunId>)
    requires Distinct(rest) && id !in Elements(rest)
    ensures Distinct([id] + rest) && Elements([id] + rest) == {id} + Elements(rest)
  {
    var all := [id] + rest;
    assert forall k :: 0 < k < |all| ==> all[k] == rest[k - 1] && all[k] in Elements(rest);
  }

  lemma HeadSlot(rs: seq<Running>)
    requires DistinctSlots(rs) && rs != []
    ensures DistinctSlots(rs[1..]) && rs[0].id !in RunningIds(rs[1..])
    ensures RunningIds(rs) == {rs[0].id} + RunningIds(rs[1..])
  {
    assert rs == [rs[0]] + rs[1..];
    assert forall k :: 0 <= k < |rs[1..]| ==> rs[1..][k] == rs[k + 1];
  }

  lemma ConsSlot(r: Running, rest: seq<Running>)
    requires DistinctSlots(rest) && r.id !in RunningIds(rest)
    ensures DistinctSlots([r] + rest) && RunningIds([r] + rest) == {r.id} + RunningIds(rest)
  {
    var all := [r] + rest;
    assert forall k :: 0 < k < |all| ==> all[k] == rest[k - 1] && all[k] in rest && all[k].id in RunningIds(rest);
  }

  lemma {:induction false} WithoutMoves(rs: seq<Running>, id: RunId)
    requires DistinctSlots(rs)
    ensures DistinctSlots(Without(rs, id)) && RunningIds(Without(rs, id)) == RunningIds(rs) - {id}
    ensures id in RunningIds(rs) <==> |Without(rs, id)| != |rs|
    ensures id in RunningIds(rs) <==> FindRunning(rs, id).Some?
  {
    if rs != [] {
      HeadSlot(rs);
      WithoutMoves(rs[1..], id);
      if rs[0].id != id {
        ConsSlot(rs[0], Without(rs[1..], id));
      }
    }
  }

  lemma FreeSlotMoves(s: State, id: RunId, hold: bool)
    requires Tidy(s) && id !in QueueIds(s.queue) && id !in RunningIds(s.held)
    ensures var t := FreeSlot(s, id, hold);
            && Tidy(t) && t.queue == s.queue
            && RunningIds(t.running) == RunningIds(s.running) - {id}
            && (|t.running| == |s.running| <==> id !in RunningIds(s.running))
            && RunningIds(t.held) == RunningIds(s.held) + (if hold && id in RunningIds(s.running) then {id} else {})
  {
    WithoutMoves(s.running, id);
    var kept := FindRunning(s.running, id);
    if hold && kept.Some? {
      SlotsAppend(s.held, kept.value);
    }
  }

  lemma {:induction false} NothingRemoved(rs: seq<Running>, id: RunId)
    requires id !in RunningIds(rs)
    ensures Without(rs, id) == rs && FindRunning(rs, id).None?
  {
    if rs != [] {
      assert rs == [rs[0]] + rs[1..];
      assert rs[0] in rs;
      assert forall x :: x in rs[1..] ==> x in rs;
      NothingRemoved(rs[1..], id);
    }
  }

  /** A run that holds no slot leaves everything as it was when it finishes. */
  lemma ReleaseWithoutSlot(s: State, id: RunId, hold: bool, now: nat)
    requires id !in RunningIds(s.running)
    ensures Release(s, id, hold, now) == (s, [])
  {
    NothingRemoved(s.running, id);
  }

  lemma ReleaseMoves(s: State, id: RunId, hold: bool, now: nat)
    requires Tidy(s) && id in RunningIds(s.running)
    ensures var (t, out) := Release(s, id, hold, now);
            && Tidy(t)
            && Distinct(out) && Elements(out) <= QueueIds(s.queue)
            && QueueIds(t.queue) == QueueIds(s.queue) - Elements(out)
            && RunningIds(t.running) == RunningIds(s.running) - {id} + Elements(out)
            && RunningIds(t.held) == RunningIds(s.held) + (if hold then {id} else {})
  {
    FreeSlotMoves(s, id, hold);
    DrainMovesIds(FreeSlot(s, id, hold), now);
  }

  lemma HeadQueued(queue: seq<Queued>)
    requires DistinctQueue(queue) && queue != []
    ensures DistinctQueue(queue[1..]) && queue[0].id !in QueueIds(queue[1..])
    ensures QueueIds(queue) == {queue[0].id} + QueueIds(queue[1..])
  {
    assert queue == [queue[0]] + queue[1..];
    assert forall k :: 0 <= k < |queue[1..]| ==> queue[1..][k] == queue[k + 1];
  }

  lemma ConsQueued(q: Queued, rest: seq<Queued>)
    requires DistinctQueue(rest) && q.id !in QueueIds(rest)
    ensures DistinctQueue([q] + rest) && QueueIds([q] + rest) == {q.id} + QueueIds(rest)
  {
    var all := [q] + rest;
    assert forall k :: 0 < k < |all| ==> all[k] == rest[k - 1] && all[k] in rest && all[k].id in QueueIds(rest);
  }

  lemma {:induction false} DropMoves(queue: seq<Queued>, id: RunId)
    requires DistinctQueue(queue)
    ensures DistinctQueue(DropQueued(queue, id)) && QueueIds(DropQueued(queue, id)) == QueueIds(queue) - {id}
    ensures id in QueueIds(queue) <==> |DropQueued(queue, id)| != |queue|
  {
    if queue != [] {
      HeadQueued(queue);
      DropMoves(queue[1..], id);
      if queue[0].id != id {
        ConsQueued(queue[0], DropQueued(queue[1..], id));
      }
    }
  }

  lemma CancelMoves(s: State, id: RunId)
    requires Tidy(s)
    ensures var (t, found) := CancelQueued(s, id);
            && Tidy(t) && t.running == s.running && t.held == s.held
            && QueueIds(t.queue) == QueueIds(s.queue) - {id}
            && (found <==> id in QueueIds(s.queue))
  {
    DropMoves(s.queue, id);
  }

  lemma {:induction false} LiveMoves(queue: seq<Queued>, now: nat)
    requires DistinctQueue(queue)
    ensures DistinctQueue(Live(queue, now)) && Distinct(Expired(queue, now))
    ensures QueueIds(Live(queue, now)) == QueueIds(queue) - Elements(Expired(queue, now))
    ensures Elements(Expired(queue, now)) <= QueueIds(queue)
  {
    if queue != [] {
      HeadQueued(queue);
      LiveMoves(queue[1..], now);
      if now >= queue[0].deadline {
        ConsDistinct(queue[0].id, Expired(queue[1..], now));
        assert Live(queue, now) == Live(queue[1..], now);
      } else {
        ConsQueued(queue[0], Live(queue[1..], now));
        assert Expired(queue, now) == Expired(queue[1..], now);
      }
    }
  }

  lemma ExpireMoves(s: State, now: nat)
    requires Tidy(s)
    ensures var (t, out) := Expire(s, now);
            && Tidy(t) && t.running == s.running && t.held == s.held
            && Distinct(out) && Elements(out) <= QueueIds(s.queue)
            && QueueIds(t.queue) == QueueIds(s.queue) - Elements(out)
  {
    LiveMoves(s.queue, now);
  }
}
