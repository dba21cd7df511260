/**
 The durable table of managed runs: insertion with request-id deduplication,
 guarded state changes, the recovery pass and pruning.

 RunTableSpec says what each statement does to the rows; RunStoreObject is
 the store that edits them in place.
 */
module RunTableSpec {
  import opened Base

  datatype Phase = Queued | Starting | Running | Stopping | Finished
  datatype Outcome = Exited | Signaled | TimedOut | Cancelled | SpawnFailed | SupervisorLost | ResourceLimit
  datatype Cleanup = Pending | Complete | Incomplete | Unknown

  datatype RunResult = RunResult(
    outcome: Outcome, exitCode: Option<int>, signal: Option<int>,
    startedAt: Option<nat>, finishedAt: nat, durationMs: nat,
    cleanup: Cleanup, detail: Option<string>)

  datatype Row = Row(
    requestId: string, fingerprint: string, createdAt: nat,
    phase: Phase, cleanup: Cleanup, revision: int, result: Option<RunResult>)

  /** The rows, and the next id of the AUTOINCREMENT key. */
  datatype Table = Table(rows: map<RunId, Row>, nextId: nat)

  datatype Insert = Created(id: RunId) | Existing(id: RunId) | Conflict(id: RunId)

  /** A day, in seconds: how long a request id deduplicates. */
  const WINDOW: nat := 24 * 60 * 60

  function Rank(p: Phase): nat {
    match p
    case Queued => 0
    case Starting => 1
    case Running => 2
    case Stopping => 3
    case Finished => 4
  }

  /** A run of this request id, created at or after `from`. */
  predicate Recent(rows: map<RunId, Row>, id: RunId, requestId: string, from: nat) {
    id in rows && rows[id].requestId == requestId && rows[id].createdAt >= from
  }

  /** `ORDER BY run_id DESC LIMIT 1` over the ids below `bound`. */
  function Latest(rows: map<RunId, Row>, requestId: string, from: nat, bound: nat): (r: Option<RunId>)
    ensures r.None? ==> forall id: RunId :: id < bound ==> !Recent(rows, id, requestId, from)
    ensures r.Some? ==> r.value < bound && Recent(rows, r.value, requestId, from)
    ensures r.Some? ==> forall id: RunId :: r.value < id < bound ==> !Recent(rows, id, requestId, from)
  {
    if bound == 0 then None
    else if Recent(rows, bound - 1, requestId, from) then Some(bound - 1)
    else Latest(rows, requestId, from, bound - 1)
  }

  function InsertRun(t: Table, requestId: string, fingerprint: string, now: nat): (Table, Insert) {
    var found := Latest(t.rows, requestId, SatSub(now, WINDOW), t.nextId);
    if found.Some? then
      (t, if t.rows[found.value].fingerprint == fingerprint then Existing(found.value) else Conflict(found.value))
    else
      (Table(t.rows[t.nextId := Row(requestId, fingerprint, now, Queued, Pending, 0, None)], t.nextId + 1),
       Created(t.nextId))
  }

  /** A write with a stale revision changes nothing. */
  function Transition(t: Table, id: RunId, revision: int, phase: Phase, cleanup: Cleanup): (Table, bool) {
    if id in t.rows && t.rows[id].revision < revision then
      (t.(rows := t.rows[id := t.rows[id].(phase := phase, cleanup := cleanup, revision := revision)]), true)
    else (t, false)
  }

  /** Only the first caller finishes a run. */
  function Finish(t: Table, id: RunId, revision: int, result: RunResult): (Table, bool) {
    if id in t.rows && t.rows[id].phase != Finished then
      (t.(rows := t.rows[id := t.rows[id].(phase := Finished, cleanup := result.cleanup,
                                           revision := revision, result := Some(result))]), true)
    else (t, false)
  }

  function Unfinished(t: Table): set<RunId> {
    set id | id in t.rows && t.rows[id].phase != Finished
  }

  function Prune(t: Table, before: nat): (Table, set<RunId>) {
    var old_ := set id | id in t.rows && t.rows[id].phase == Finished && t.rows[id].createdAt < before;
    (t.(rows := t.rows - old_), old_)
  }

  // -------------------------------------------------------------- request ids

  /** AUTOINCREMENT: ids are never reused. */
  ghost predicate KeysBelow(t: Table) {
    forall id :: id in t.rows ==> id < t.nextId
  }

  /** Runs of one request id are more than a day apart, in id order. */
  ghost predicate Separated(t: Table) {
    && KeysBelow(t)
    && forall a, b :: a in t.rows && b in t.rows && a < b && t.rows[a].requestId == t.rows[b].requestId ==>
         t.rows[a].createdAt + WINDOW < t.rows[b].createdAt
  }

  /** Deduplication survives any clock value, also one that went backwards. */
  lemma InsertKeepsSeparated(t: Table, requestId: string, fingerprint: string, now: nat)
    requires Separated(t)
    ensures Separated(InsertRun(t, requestId, fingerprint, now).0)
  {
    var from := SatSub(now, WINDOW);
    if Latest(t.rows, requestId, from, t.nextId).None? {
      forall a | a in t.rows && t.rows[a].requestId == requestId
        ensures t.rows[a].createdAt + WINDOW < now
      {
        assert !Recent(t.rows, a, requestId, from);
      }
    }
  }

  lemma UpdatesKeepSeparated(t: Table, id: RunId, revision: int, phase: Phase, result: RunResult, before: nat)
    requires Separated(t)
    ensures Separated(Transition(t, id, revision, phase, result.cleanup).0)
    ensures Separated(Finish(t, id, revision, result).0)
    ensures Separated(Prune(t, before).0)
  {
  }

  /**
   A new run is created exactly when no run of that id is recent; otherwise the
   table stays as it is, and the latest recent run is met, with its fingerprint
   deciding between a repeat and a conflict.
   */
  lemma CreatesIffNoneRecent(t: Table, requestId: string, fingerprint: string, now: nat)
    requires KeysBelow(t)
    ensures InsertRun(t, requestId, fingerprint, now).1.Created?
       <==> forall id :: id in t.rows && t.rows[id].requestId == requestId
                     ==> t.rows[id].createdAt + 86_400 < now
    ensures var (u, r) := InsertRun(t, requestId, fingerprint, now);
            if r.Created? then
              && r.id == t.nextId && r.id !in t.rows && u.nextId == t.nextId + 1
              && u.rows == t.rows[r.id := Row(requestId, fingerprint, now, Queued, Pending, 0, None)]
            else
              && u == t && r.id in t.rows && t.rows[r.id].requestId == requestId && t.rows[r.id].createdAt + 86_400 >= now
              && (forall id :: id in t.rows && t.rows[id].requestId == requestId && t.rows[id].createdAt + 86_400 >= now
                    ==> id <= r.id)
              && (r.Existing? <==> t.rows[r.id].fingerprint == fingerprint)
  {
    var from := SatSub(now, WINDOW);
    if Latest(t.rows, requestId, from, t.nextId).None? {
      forall id | id in t.rows && t.rows[id].requestId == requestId ensures t.rows[id].createdAt < from {
        assert !Recent(t.rows, id, requestId, from);
      }
    } else {
      forall id | id in t.rows && t.rows[id].requestId == requestId && t.rows[id].createdAt + 86_400 >= now
        ensures id <= Latest(t.rows, requestId, from, t.nextId).value
      {
        assert Recent(t.rows, id, requestId, from);
      }
    }
  }

  /**
   A repeat within the day of the latest run of its request id meets that very
   run, whatever the clock did since: the same command gets its id back,
   another command is refused, and the table does not change.
   */
  lemma RepeatMeetsTheRun(t: Table, id: RunId, fingerprint: string, now: nat)
    requires Separated(t) && id in t.rows
    requires now <= t.rows[id].createdAt + 86_400
    requires forall x :: x in t.rows && t.rows[x].requestId == t.rows[id].requestId ==> x <= id
    ensures InsertRun(t, t.rows[id].requestId, fingerprint, now)
         == (t, if t.rows[id].fingerprint == fingerprint then Existing(id) else Conflict(id))
  {
    var from := SatSub(now, WINDOW);
    assert Recent(t.rows, id, t.rows[id].requestId, from);
    var found := Latest(t.rows, t.rows[id].requestId, from, t.nextId);
    assert found.Some? && !(found.value < id) && !(id < found.value);
  }

  // ------------------------------------------------------------------ recovery

  /** What the recovery pass leaves: every unfinished row ended as lost. */
  ghost predicate RecoveredFrom(t: Table, u: Table, ids: set<RunId>) {
    && u.rows.Keys == t.rows.Keys && u.nextId == t.nextId
    && forall id :: id in t.rows ==>
         var a, b := t.rows[id], u.rows[id];
         if id in ids then
           && b.phase == Finished && b.revision == a.revision + 1
           && b.result.Some? && b.result.value.outcome == SupervisorLost
           && b.requestId == a.requestId && b.createdAt == a.createdAt && b.fingerprint == a.fingerprint
         else b == a
  }
}

module RunStoreObject {
  import opened Base
  import opened RunTableSpec

  /** What a restarted supervisor can tell about a run's processes. */
  datatype Leftover = Leftover(sameBoot: bool, survivors: nat)

  /** Complete only with proof that nothing survived; unknown after a reboot. */
  ghost predicate ReportsLeftover(rows: map<RunId, Row>, id: RunId, leftovers: map<RunId, Leftover>, now: nat) {
    var seen := if id in leftovers then leftovers[id] else Leftover(false, 0);
    && id in rows && rows[id].result.Some? && rows[id].cleanup == rows[id].result.value.cleanup
    && rows[id].result.value.finishedAt == now && rows[id].result.value.durationMs == 0
    && rows[id].result.value.exitCode == None && rows[id].result.value.signal == None && rows[id].result.value.startedAt == None
    && (rows[id].result.value.cleanup == Complete <==> seen.sameBoot && seen.survivors == 0)
    && (rows[id].result.value.cleanup == Incomplete <==> seen.sameBoot && seen.survivors > 0)
    && (rows[id].result.value.cleanup == Unknown <==> !seen.sameBoot)
  }

  class RunStore {
    var rows: map<RunId, Row>
    var nextId: nat

    ghost function Abs(): Table
      reads this
    {
      Table(rows, nextId)
    }

    constructor ()
      ensures Abs() == Table(map[], 1) && Separated(Abs())
    {
      rows, nextId := map[], 1;
    }

    /** Create a run, or resolve a repeated request id. */
    method Insert(requestId: string, fingerprint: string, now: nat) returns (r: Insert)
      modifies this
      ensures (Abs(), r) == InsertRun(old(Abs()), requestId, fingerprint, now)
      ensures old(Separated(Abs())) ==> Separated(Abs())
    {
      if Separated(Abs()) {
        InsertKeepsSeparated(Abs(), requestId, fingerprint, now);
      }
      var found := Latest(rows, requestId, SatSub(now, WINDOW), nextId);
      if found.Some? {
        var id := found.value;
        return if rows[id].fingerprint == fingerprint then Existing(id) else Conflict(id);
      }
      r := Created(nextId);
      rows := rows[nextId := Row(requestId, fingerprint, now, Queued, Pending, 0, None)];
      nextId := nextId + 1;
    }

    /** No revision ever falls, and a stale write changes nothing. */
    method Transition(id: RunId, revision: int, phase: Phase, cleanup: Cleanup) returns (changed: bool)
      modifies this
      ensures rows.Keys == old(rows).Keys && forall x :: x in rows ==> rows[x].revision >= old(rows)[x].revision
      ensures !changed ==> Abs() == old(Abs())
      ensures forall x :: x in rows && rows[x].revision == old(rows)[x].revision ==> rows[x] == old(rows)[x]
      ensures changed <==> id in old(rows) && old(rows)[id].revision < revision
      ensures nextId == old(nextId) && forall x :: x in rows && x != id ==> rows[x] == old(rows)[x]
      ensures changed ==> var was := old(rows)[id];
                rows[id] == Row(was.requestId, was.fingerprint, was.createdAt, phase, cleanup, revision, was.result)
      ensures (Abs(), changed) == RunTableSpec.Transition(old(Abs()), id, revision, phase, cleanup)
    {
      changed := id in rows && rows[id].revision < revision;
      if changed {
        rows := rows[id := rows[id].(phase := phase, cleanup := cleanup, revision := revision)];
      }
    }

    /** A finished run keeps its row for good, and no other row moves. */
    method Finish(id: RunId, revision: int, result: RunResult) returns (changed: bool)
      modifies this
      ensures rows.Keys == old(rows).Keys
      ensures forall x :: x in rows && (x != id || old(rows)[x].phase == Finished) ==> rows[x] == old(rows)[x]
      ensures id in rows ==> rows[id].phase == Finished
      ensures changed <==> id in old(rows) && old(rows)[id].phase != Finished
      ensures changed ==> var was := old(rows)[id];
                rows[id] == Row(was.requestId, was.fingerprint, was.createdAt,
                                Finished, result.cleanup, revision, Some(result))
      ensures nextId == old(nextId) && (!changed ==> rows == old(rows))
      ensures (Abs(), changed) == RunTableSpec.Finish(old(Abs()), id, revision, result)
    {
      changed := id in rows && rows[id].phase != Finished;
      if changed {
        rows := rows[id := rows[id].(phase := Finished, cleanup := result.cleanup,
                                     revision := revision, result := Some(result))];
      }
    }

    /**
     Finish what a dead supervisor left behind. A run that had finished keeps
     its result; every other one ends as lost, never with a guessed exit.
     */
    method Recover(leftovers: map<RunId, Leftover>, now: nat)
      requires KeysBelow(Abs())
      modifies this
      ensures RecoveredFrom(old(Abs()), Abs(), Unfinished(old(Abs())))
      ensures Unfinished(Abs()) == {}
      ensures forall id :: id in Unfinished(old(Abs())) ==> ReportsLeftover(rows, id, leftovers, now)
    {
      ghost var before := Abs();
      for id := 0 to nextId
        invariant nextId == before.nextId
        invariant RecoveredFrom(before, Abs(), set x | x in Unfinished(before) && x < id)
        invariant forall x :: x in Unfinished(before) && x < id ==> ReportsLeftover(rows, x, leftovers, now)
      {
        if id in rows && rows[id].phase != Finished {
          RecoverOne(id, leftovers, now);
        }
      }
      assert Unfinished(before) == set x | x in Unfinished(before) && x < nextId;
    }

    method RecoverOne(id: RunId, leftovers: map<RunId, Leftover>, now: nat)
      requires id in rows && rows[id].phase != Finished
      modifies this
      ensures nextId == old(nextId) && rows.Keys == old(rows).Keys
      ensures forall x :: x in rows && x != id ==> rows[x] == old(rows)[x]
      ensures RecoveredFrom(old(Abs()), Abs(), {id}) && ReportsLeftover(rows, id, leftovers, now)
    {
      var seen := if id in leftovers then leftovers[id] else Leftover(false, 0);
      var cleanup := if !seen.sameBoot then Unknown else if seen.survivors == 0 then Complete else Incomplete;
      var result := RunResult(SupervisorLost, None, None, None, now, 0, cleanup, None);
      var _ := Finish(id, rows[id].revision + 1, result);
    }

    method Prune(before: nat) returns (dropped: set<RunId>)
      modifies this
      ensures (Abs(), dropped) == RunTableSpec.Prune(old(Abs()), before)
      ensures forall x :: x in dropped <==>
                x in old(rows) && old(rows)[x].phase == Finished && old(rows)[x].createdAt < before
      ensures forall x :: x in old(rows) && x !in dropped ==> x in rows && rows[x] == old(rows)[x]
      ensures rows.Keys == old(rows).Keys - dropped && nextId == old(nextId)
      ensures forall id :: id in Unfinished(old(Abs())) ==> id in Abs().rows && Abs().rows[id] == old(Abs()).rows[id]
    {
      dropped := set id | id in rows && rows[id].phase == Finished && rows[id].createdAt < before;
      rows := rows - dropped;
    }
  }
}
