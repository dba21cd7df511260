/**
 The provenance tables: which agent session each observed process came from.
 Sessions own resources through exact edges, resources have member processes,
 and a garbage collection drops what is old. Its purpose is never to lose the
 origin of a process that is still alive.
 */
module ProvenanceSpec {
  import opened Base

  /** One process invocation; a reused pid has another start time. */
  datatype Identity = Identity(boot: nat, pid: nat, startTime: nat)

  type SessionId = nat
  type ResourceId = nat
  type Member = (ResourceId, Identity)
  type VendorKey = (string, string)

  datatype Session = Session(
    root: Identity, agent: string, project: Option<string>,
    startedAt: nat, lastSeen: nat, endedAt: Option<nat>)

  datatype Resource = Resource(kind: string, root: Identity, firstSeen: nat, lastSeen: nat)

  datatype Alias = Alias(session: SessionId, startedAt: nat, endedAt: Option<nat>)

  datatype Db = Db(
    sessions: map<SessionId, Session>,
    resources: map<ResourceId, Resource>,
    members: set<Member>,
    owner: map<ResourceId, SessionId>,
    aliases: map<VendorKey, Alias>)

  const EMPTY: Db := Db(map[], map[], {}, map[], map[])

  /** What one observation pass found. */
  datatype Seen = Seen(id: SessionId, root: Identity, agent: string, project: Option<string>,
                       startedAt: nat, endedAt: Option<nat>)
  datatype Owned = Owned(resource: ResourceId, kind: string, root: Identity,
                         members: seq<Identity>, session: SessionId)

  // --------------------------------------------------------------- one pass

  /** A known session keeps its root; its project is not forgotten. */
  function PutSession(db: Db, s: Seen, now: nat): Db {
    var row :=
      if s.id in db.sessions then
        var old_ := db.sessions[s.id];
        old_.(lastSeen := now, endedAt := s.endedAt, project := if s.project.Some? then s.project else old_.project)
      else Session(s.root, s.agent, s.project, s.startedAt, now, s.endedAt);
    db.(sessions := db.sessions[s.id := row])
  }

  function PutSessions(db: Db, ss: seq<Seen>, now: nat): Db
    decreases |ss|
  {
    if ss == [] then db else PutSessions(PutSession(db, ss[0], now), ss[1..], now)
  }

  /** The members are replaced, the owner is overwritten, the root stays. */
  function PutOwned(db: Db, o: Owned, now: nat): Db {
    var row :=
      if o.resource in db.resources then db.resources[o.resource].(lastSeen := now)
      else Resource(o.kind, o.root, now, now);
    db.(resources := db.resources[o.resource := row],
        members := (set m | m in db.members && m.0 != o.resource) + (set x | x in o.members :: (o.resource, x)),
        owner := db.owner[o.resource := o.session])
  }

  function PutAllOwned(db: Db, os: seq<Owned>, now: nat): Db
    decreases |os|
  {
    if os == [] then db else PutAllOwned(PutOwned(db, os[0], now), os[1..], now)
  }

  /** A member listed twice violates a key, and the whole pass is rolled back. */
  predicate Insertable(os: seq<Owned>) {
    forall k :: 0 <= k < |os| ==> Distinct(os[k].members)
  }

  function Apply(db: Db, ss: seq<Seen>, os: seq<Owned>, now: nat): Db {
    if Insertable(os) then PutAllOwned(PutSessions(db, ss, now), os, now) else db
  }

  // ------------------------------------------------------ the other statements

  function Absent(db: Db, liveRoots: set<Identity>): set<SessionId> {
    set s | s in db.sessions && db.sessions[s].endedAt.None? && db.sessions[s].root !in liveRoots
  }

  function EndAbsent(db: Db, liveRoots: set<Identity>, now: nat): Db {
    db.(sessions := map s | s in db.sessions ::
          if s in Absent(db, liveRoots) then db.sessions[s].(endedAt := Some(now)) else db.sessions[s])
  }

  function Ensure(db: Db, id: SessionId, root: Identity, agent: string, now: nat): Db {
    if id in db.sessions then db
    else db.(sessions := db.sessions[id := Session(root, agent, None, root.startTime, now, None)])
  }

  function RegisterAlias(db: Db, id: SessionId, key: VendorKey, now: nat): Db {
    db.(aliases := db.aliases[key := Alias(id, now, None)])
  }

  function LiveResources(db: Db, live: set<Identity>): set<ResourceId> {
    (set r | r in db.resources && db.resources[r].root in live) + (set m | m in db.members && m.1 in live :: m.0)
  }

  function Protected(db: Db, live: set<Identity>): set<SessionId> {
    set r | r in db.owner && r in LiveResources(db, live) :: db.owner[r]
  }

  function Candidates(db: Db, cutoff: nat): set<SessionId> {
    set s | s in db.sessions && db.sessions[s].endedAt.Some? && db.sessions[s].endedAt.value < cutoff
  }

  /** The deletes of the collection, in their order. */
  function DropSessions(db: Db, doomed: set<SessionId>): Db {
    db.(sessions := db.sessions - doomed,
        owner := map r | r in db.owner && db.owner[r] !in doomed :: db.owner[r])
  }

  function DropOrphans(db: Db, cutoff: nat): Db {
    db.(resources := map r | r in db.resources && (r in db.owner || db.resources[r].lastSeen >= cutoff)
          :: db.resources[r])
  }

  function DropDangling(db: Db): Db {
    db.(members := (set m | m in db.members && m.0 in db.resources),
        aliases := map k | k in db.aliases && db.aliases[k].session in db.sessions :: db.aliases[k])
  }

  function Gc(db: Db, retention: nat, now: nat, live: set<Identity>): Db {
    var cutoff := SatSub(now, retention);
    var doomed := Candidates(db, cutoff) - Protected(db, live);
    DropDangling(DropOrphans(DropSessions(db, doomed), cutoff))
  }

  // ------------------------------------------------------------------ lookups

  /** The resources that contain exactly this invocation. */
  function Containing(db: Db, id: Identity): set<ResourceId> {
    (set m | m in db.members && m.1 == id :: m.0) + (set r | r in db.resources && db.resources[r].root == id)
  }

  /** The sessions that own one of them. */
  function Owners(db: Db, id: Identity): set<SessionId> {
    set r | r in Containing(db, id) && r in db.owner :: db.owner[r]
  }

  datatype Explanation = Explanation(resource: ResourceId, owner: SessionId, session: Session)
  datatype Answer = Unknown | Found(explanation: Explanation) | MissingSession

  // -------------------------------------------------------------- whole runs

  datatype Op =
    | ApplyOp(sessions: seq<Seen>, owned: seq<Owned>, now: nat)
    | EndAbsentOp(liveRoots: set<Identity>, now: nat)
    | EnsureOp(id: SessionId, root: Identity, agent: string, now: nat)
    | AliasOp(id: SessionId, key: VendorKey, now: nat)
    | GcOp(retention: nat, now: nat, live: set<Identity>)

  function Step(db: Db, op: Op): Db {
    match op
    case ApplyOp(ss, os, now) => Apply(db, ss, os, now)
    case EndAbsentOp(liveRoots, now) => EndAbsent(db, liveRoots, now)
    case EnsureOp(id, root, agent, now) => Ensure(db, id, root, agent, now)
    case AliasOp(id, key, now) => RegisterAlias(db, id, key, now)
    case GcOp(retention, now, live) => Gc(db, retention, now, live)
  }

  function Run(db: Db, ops: seq<Op>): Db
    decreases |ops|
  {
    if ops == [] then db else Run(Step(db, ops[0]), ops[1..])
  }

  // -------------------------------------------------------- referential integrity

  /** Edges point to stored rows, and members to stored resources. */
  ghost predicate Integrity(db: Db) {
    && (forall r :: r in db.owner ==> r in db.resources && db.owner[r] in db.sessions)
    && (forall m :: m in db.members ==> m.0 in db.resources)
  }

  /** A pass names as owners only sessions it brings, or that are stored. */
  ghost predicate Supplied(db: Db, op: Op) {
    op.ApplyOp? ==>
      forall k :: 0 <= k < |op.owned| ==>
        op.owned[k].session in db.sessions || exists j :: 0 <= j < |op.sessions| && op.sessions[j].id == op.owned[k].session
  }

  ghost predicate IsRun(db: Db, ops: seq<Op>)
    decreases |ops|
  {
    ops == [] || (Supplied(db, ops[0]) && IsRun(Step(db, ops[0]), ops[1..]))
  }

  lemma {:induction false} PutSessionsStores(db: Db, ss: seq<Seen>, now: nat)
    ensures var t := PutSessions(db, ss, now);
            && t == db.(sessions := t.sessions)
            && (forall s :: s in t.sessions <==> s in db.sessions || exists j :: 0 <= j < |ss| && ss[j].id == s)
    decreases |ss|
  {
    if ss != [] {
      PutSessionsStores(PutSession(db, ss[0], now), ss[1..], now);
      var t := PutSessions(db, ss, now);
      forall s | exists j :: 0 <= j < |ss| && ss[j].id == s ensures s in t.sessions {
        var j :| 0 <= j < |ss| && ss[j].id == s;
        assert j > 0 ==> ss[1..][j - 1].id == s;
      }
    }
  }

  lemma {:induction false} PutOwnedKeepsIntegrity(db: Db, os: seq<Owned>, now: nat)
    requires Integrity(db) && forall k :: 0 <= k < |os| ==> os[k].session in db.sessions
    ensures Integrity(PutAllOwned(db, os, now))
    decreases |os|
  {
    if os != [] {
      PutOwnedKeepsIntegrity(PutOwned(db, os[0], now), os[1..], now);
    }
  }

  lemma StepKeepsIntegrity(db: Db, op: Op)
    requires Integrity(db) && Supplied(db, op)
    ensures Integrity(Step(db, op))
  {
    match op
    case ApplyOp(ss, os, now) =>
      if Insertable(os) {
        PutSessionsStores(db, ss, now);
        PutOwnedKeepsIntegrity(PutSessions(db, ss, now), os, now);
      }
    case EndAbsentOp(_, _) =>
    case EnsureOp(_, _, _, _) =>
    case AliasOp(_, _, _) =>
    case GcOp(retention, now, live) => GcKeepsIntegrity(db, retention, now, live);
  }

  lemma GcKeepsIntegrity(db: Db, retention: nat, now: nat, live: set<Identity>)
    requires Integrity(db)
    ensures Integrity(Gc(db, retention, now, live))
  {
  }

  /** Integrity over any sequence of operations, in any order. */
  lemma {:induction false} RunKeepsIntegrity(db: Db, ops: seq<Op>)
    requires Integrity(db) && IsRun(db, ops)
    ensures Integrity(Run(db, ops))
    decreases |ops|
  {
    if ops != [] {
      StepKeepsIntegrity(db, ops[0]);
      RunKeepsIntegrity(Step(db, ops[0]), ops[1..]);
    }
  }

  /** After a collection nothing dangles, not even an alias. */
  lemma GcLeavesNothingDangling(db: Db, retention: nat, now: nat, live: set<Identity>)
    ensures var t := Gc(db, retention, now, live);
            && (forall m :: m in t.members ==> m.0 in t.resources)
            && (forall k :: k in t.aliases ==> t.aliases[k].session in t.sessions)
  {
  }

  // -------------------------------------------------------- what is collected

  lemma ProtectedOwnsLive(db: Db, live: set<Identity>, s: SessionId)
    ensures s in Protected(db, live) <==> exists id :: id in live && s in Owners(db, id)
  {
    if s in Protected(db, live) {
      var r :| r in db.owner && r in LiveResources(db, live) && db.owner[r] == s;
      if r in db.resources && db.resources[r].root in live {
        var id := db.resources[r].root;
        assert r in Containing(db, id) && s in Owners(db, id);
      } else {
        var m :| m in db.members && m.1 in live && m.0 == r;
        assert r in Containing(db, m.1) && s in Owners(db, m.1);
      }
    }
    if id :| id in live && s in Owners(db, id) {
      var r :| r in Containing(db, id) && r in db.owner && db.owner[r] == s;
      assert r in LiveResources(db, live);
    }
  }

  /**
   A session is collected exactly when it ended before the cutoff and owns no
   live process; its edges go with it and no other edge does.
   */
  lemma SessionIsCollectedIff(db: Db, retention: nat, now: nat, live: set<Identity>, s: SessionId)
    requires s in db.sessions
    ensures var t := Gc(db, retention, now, live);
            s !in t.sessions <==>
              && db.sessions[s].endedAt.Some? && db.sessions[s].endedAt.value < SatSub(now, retention)
              && forall id :: id in live ==> s !in Owners(db, id)
    ensures var t := Gc(db, retention, now, live);
            && (s in t.sessions ==> t.sessions[s] == db.sessions[s])
            && forall r :: r in db.owner && db.owner[r] == s ==> (r in t.owner <==> s in t.sessions)
  {
    ProtectedOwnsLive(db, live, s);
  }

  /** A resource goes exactly when it is old and no session is left to own it. */
  lemma ResourceIsCollectedIff(db: Db, retention: nat, now: nat, live: set<Identity>, r: ResourceId)
    requires Integrity(db) && r in db.resources
    ensures var t := Gc(db, retention, now, live);
            r !in t.resources <==>
              && db.resources[r].lastSeen < SatSub(now, retention)
              && (r in db.owner ==> db.owner[r] !in t.sessions)
  {
  }

  lemma LiveOwnerStays(db: Db, retention: nat, now: nat, live: set<Identity>, id: Identity, r: ResourceId)
    requires Integrity(db) && id in live && r in Containing(db, id) && r in db.owner
    ensures var t := Gc(db, retention, now, live);
            r in t.owner && t.owner[r] == db.owner[r] && r in Containing(t, id)
  {
    assert r in LiveResources(db, live);
    assert db.owner[r] in Protected(db, live);
    var t := Gc(db, retention, now, live);
    assert r in t.owner && r in t.resources && t.resources[r] == db.resources[r];
  }

  /**
   The purpose of the collection: whatever the retention and the clock, a live
   process has the same owning sessions after it as before, and all of them
   are still stored.
   */
  lemma GcKeepsLiveOrigins(db: Db, retention: nat, now: nat, live: set<Identity>, id: Identity)
    requires Integrity(db) && id in live
    ensures var t := Gc(db, retention, now, live);
            Owners(t, id) == Owners(db, id) && forall s :: s in Owners(db, id) ==> s in t.sessions
  {
    var t := Gc(db, retention, now, live);
    forall s | s in Owners(db, id) ensures s in Owners(t, id) && s in t.sessions {
      var r :| r in Containing(db, id) && r in db.owner && db.owner[r] == s;
      LiveOwnerStays(db, retention, now, live, id, r);
      GcKeepsIntegrity(db, retention, now, live);
    }
    forall s | s in Owners(t, id) ensures s in Owners(db, id) {
      var r :| r in Containing(t, id) && r in t.owner && t.owner[r] == s;
      assert r in Containing(db, id);
    }
  }

  lemma NoCandidateIsLeft(db: Db, retention: nat, now: nat, live: set<Identity>)
    requires Integrity(db)
    ensures var t := Gc(db, retention, now, live);
            Candidates(t, SatSub(now, retention)) <= Protected(t, live)
  {
    var t := Gc(db, retention, now, live);
    var cutoff := SatSub(now, retention);
    forall s | s in Candidates(t, cutoff) ensures s in Protected(t, live) {
      assert s in Candidates(db, cutoff) && s in Protected(db, live);
      ProtectedOwnsLive(db, live, s);
      var id :| id in live && s in Owners(db, id);
      GcKeepsLiveOrigins(db, retention, now, live, id);
      ProtectedOwnsLive(t, live, s);
    }
  }

  lemma NothingToDrop(db: Db, retention: nat, now: nat, live: set<Identity>)
    ensures var t := Gc(db, retention, now, live);
            DropSessions(t, {}) == t && DropOrphans(t, SatSub(now, retention)) == t && DropDangling(t) == t
  {
  }

  /** A second collection at the same time finds nothing to do. */
  lemma GcIsIdempotent(db: Db, retention: nat, now: nat, live: set<Identity>)
    requires Integrity(db)
    ensures var t := Gc(db, retention, now, live);
            Gc(t, retention, now, live) == t
  {
    var t := Gc(db, retention, now, live);
    NoCandidateIsLeft(db, retention, now, live);
    NothingToDrop(db, retention, now, live);
    assert Candidates(t, SatSub(now, retention)) - Protected(t, live) == {};
  }

  // ------------------------------------------------------------ explanations

  /** An answer the two lookups can give: each picks a row on its own. */
  ghost predicate MayAnswer(db: Db, id: Identity, a: Answer) {
    match a
    case Unknown => Owners(db, id) == {}
    case Found(e) =>
      && e.owner in Owners(db, id) && e.resource in Containing(db, id)
      && e.owner in db.sessions && e.session == db.sessions[e.owner]
    case MissingSession => exists s :: s in Owners(db, id) && s !in db.sessions
  }

  /** The missing-session error is never reached in any run from an empty store. */
  lemma ExplainNeverMissesSession(ops: seq<Op>, id: Identity)
    requires IsRun(EMPTY, ops)
    ensures !MayAnswer(Run(EMPTY, ops), id, MissingSession)
  {
    RunKeepsIntegrity(EMPTY, ops);
  }

  /**
   An explanation always names a resource of the session it names exactly
   when the process is in no unowned resource and in none of a second session.
   */
  lemma ExplanationFitsIff(db: Db, id: Identity)
    requires Integrity(db) && Owners(db, id) != {}
    ensures (forall e :: MayAnswer(db, id, Found(e)) ==> e.resource in db.owner && db.owner[e.resource] == e.owner)
       <==> (forall r, q :: r in Containing(db, id) && q in Containing(db, id) ==>
               r in db.owner && q in db.owner && db.owner[r] == db.owner[q])
  {
    if forall e :: MayAnswer(db, id, Found(e)) ==> e.resource in db.owner && db.owner[e.resource] == e.owner {
      forall r | r in Containing(db, id) ensures r in db.owner && Owners(db, id) == {db.owner[r]} {
        forall s | s in Owners(db, id) ensures r in db.owner && db.owner[r] == s {
          assert MayAnswer(db, id, Found(Explanation(r, s, db.sessions[s])));
        }
        var some :| some in Owners(db, id);
      }
    }
  }

  /** One pass: two sessions; the process is the root of a resource of the second and in one of the first. */
  function MixedPass(id: Identity, other: Identity): Op {
    ApplyOp([Seen(1, other, "a", None, 0, None), Seen(2, id, "b", None, 0, None)],
            [Owned(10, "k", id, [], 2), Owned(20, "k", other, [id], 1)], 0)
  }

  lemma MixedTables(id: Identity, other: Identity)
    ensures Apply(EMPTY, MixedPass(id, other).sessions, MixedPass(id, other).owned, 0)
         == Db(map[1 := Session(other, "a", None, 0, 0, None), 2 := Session(id, "b", None, 0, 0, None)],
               map[10 := Resource("k", id, 0, 0), 20 := Resource("k", other, 0, 0)],
               {(20, id)}, map[10 := 2, 20 := 1], map[])
  {
    var ss, os := MixedPass(id, other).sessions, MixedPass(id, other).owned;
    var one := PutSession(EMPTY, ss[0], 0);
    assert PutSessions(PutSession(one, ss[1], 0), ss[2..], 0) == PutSession(one, ss[1], 0);
    assert ss[1..][1..] == ss[2..] && PutSessions(one, ss[1..], 0) == PutSession(one, ss[1], 0);
    var first := PutOwned(PutSessions(EMPTY, ss, 0), os[0], 0);
    var last := PutOwned(first, os[1], 0);
    assert PutAllOwned(last, os[2..], 0) == last && os[1..][1..] == os[2..];
    assert PutAllOwned(first, os[1..], 0) == last;
    assert last.members == {(20, id)};
  }

  /**
   After that pass on an empty store, the smallest owner and the smallest
   resource do not belong together.
   */
  lemma ExplanationCanMix(id: Identity, other: Identity)
    ensures IsRun(EMPTY, [MixedPass(id, other)])
    ensures var db := Run(EMPTY, [MixedPass(id, other)]);
            && 1 in db.sessions && 10 in db.owner && db.owner[10] != 1
            && MayAnswer(db, id, Found(Explanation(10, 1, db.sessions[1])))
  {
    var op := MixedPass(id, other);
    MixedTables(id, other);
    var db := Step(EMPTY, op);
    assert op.sessions[0].id == 1 && op.sessions[1].id == 2 && Supplied(EMPTY, op);
    assert [op][1..] == [] && Run(EMPTY, [op]) == Run(db, []) && IsRun(db, []);
    assert (20, id) in db.members && 20 in Containing(db, id) && 10 in Containing(db, id);
    assert db.owner[20] in Owners(db, id);
  }

  // ------------------------------------------------- the last word of a pass

  lemma {:induction false} PassLeavesOthers(db: Db, os: seq<Owned>, now: nat, r: ResourceId)
    requires forall k :: 0 <= k < |os| ==> os[k].resource != r
    ensures var t := PutAllOwned(db, os, now);
            && (r in t.resources <==> r in db.resources) && (r in t.resources ==> t.resources[r] == db.resources[r])
            && (r in t.owner <==> r in db.owner) && (r in t.owner ==> t.owner[r] == db.owner[r])
            && (forall x :: (r, x) in t.members <==> (r, x) in db.members)
    decreases |os|
  {
    if os != [] {
      PassLeavesOthers(PutOwned(db, os[0], now), os[1..], now, r);
    }
  }

  /**
   After a pass, each resource has exactly the members and the owner of its
   last mention; a known resource keeps its root and first sighting.
   */
  lemma {:induction false} LastMentionCounts(db: Db, os: seq<Owned>, now: nat, k: nat)
    requires k < |os| && forall j :: k < j < |os| ==> os[j].resource != os[k].resource
    ensures var t := PutAllOwned(db, os, now);
            var r := os[k].resource;
            && r in t.owner && t.owner[r] == os[k].session
            && (forall x :: (r, x) in t.members <==> x in os[k].members)
            && r in t.resources && t.resources[r].lastSeen == now
            && (r in db.resources ==> t.resources[r] == db.resources[r].(lastSeen := now))
    decreases |os|
  {
    var mid := PutOwned(db, os[0], now);
    if k == 0 {
      PassLeavesOthers(mid, os[1..], now, os[0].resource);
      forall x ensures (os[0].resource, x) in mid.members <==> x in os[0].members {
      }
    } else {
      LastMentionCounts(mid, os[1..], now, k - 1);
    }
  }

  // ------------------------------------------------------- origins over runs

  /** The operation may not speak of the process, and sees it alive. */
  ghost predicate LeavesAlone(op: Op, id: Identity, where_: set<ResourceId>) {
    match op
    case ApplyOp(_, os, _) =>
      forall k :: 0 <= k < |os| ==> os[k].resource !in where_ && os[k].root != id && id !in os[k].members
    case GcOp(_, _, live) => id in live
    case _ => true
  }

  lemma {:induction false} PassKeepsOrigin(db: Db, os: seq<Owned>, now: nat, id: Identity)
    requires forall k :: 0 <= k < |os| ==>
               os[k].resource !in Containing(db, id) && os[k].root != id && id !in os[k].members
    ensures var t := PutAllOwned(db, os, now);
            Containing(t, id) == Containing(db, id) && Owners(t, id) == Owners(db, id)
    decreases |os|
  {
    if os != [] {
      var mid := PutOwned(db, os[0], now);
      assert Containing(mid, id) == Containing(db, id) by {
        forall m | m in db.members && m.1 == id ensures m in mid.members {
          assert m.0 in Containing(db, id);
        }
        forall m | m in mid.members && m.1 == id ensures m in db.members {
        }
      }
      assert Owners(mid, id) == Owners(db, id);
      PassKeepsOrigin(mid, os[1..], now, id);
    }
  }

  lemma StepKeepsOrigin(db: Db, op: Op, id: Identity, where_: set<ResourceId>)
    requires Integrity(db) && Supplied(db, op) && Containing(db, id) <= where_ && LeavesAlone(op, id, where_)
    ensures var t := Step(db, op);
            Containing(t, id) <= where_ && Owners(t, id) == Owners(db, id)
  {
    match op
    case ApplyOp(ss, os, now) =>
      if Insertable(os) {
        PutSessionsStores(db, ss, now);
        var mid := PutSessions(db, ss, now);
        assert Containing(mid, id) == Containing(db, id) && Owners(mid, id) == Owners(db, id);
        PassKeepsOrigin(mid, os, now, id);
      }
    case EndAbsentOp(_, _) =>
    case EnsureOp(_, _, _, _) =>
    case AliasOp(_, _, _) =>
    case GcOp(retention, now, live) => GcKeepsLiveOrigins(db, retention, now, live, id);
  }

  /**
   A survived orphan keeps its origin for ever: over any run in which no pass
   speaks of the process again and every collection sees it alive, its owning
   sessions stay the same and stay stored, however old they become.
   */
  lemma {:induction false} OriginSurvives(db: Db, ops: seq<Op>, id: Identity, where_: set<ResourceId>)
    requires Integrity(db) && IsRun(db, ops) && Containing(db, id) <= where_
    requires forall k :: 0 <= k < |ops| ==> LeavesAlone(ops[k], id, where_)
    ensures var t := Run(db, ops);
            Owners(t, id) == Owners(db, id) && forall s :: s in Owners(db, id) ==> s in t.sessions
    decreases |ops|
  {
    if ops != [] {
      assert LeavesAlone(ops[0], id, where_);
      StepKeepsOrigin(db, ops[0], id, where_);
      StepKeepsIntegrity(db, ops[0]);
      OriginSurvives(Step(db, ops[0]), ops[1..], id, where_);
    }
  }

  // -------------------------------------------------------------- session ends

  /**
   Afterwards exactly the sessions whose root is alive are active, and a
   session that had ended before keeps the time at which it was first missed.
   */
  lemma EndAbsentEndsOnce(db: Db, liveRoots: set<Identity>, now: nat, s: SessionId)
    requires s in db.sessions
    ensures var t := EndAbsent(db, liveRoots, now);
            && t.sessions.Keys == db.sessions.Keys
            && (t.sessions[s].endedAt.None? <==> db.sessions[s].endedAt.None? && db.sessions[s].root in liveRoots)
            && (db.sessions[s].endedAt.Some? ==> t.sessions[s] == db.sessions[s])
            && (t.sessions[s].endedAt.Some? && db.sessions[s].endedAt.None? ==> t.sessions[s].endedAt == Some(now))
  {
  }
}
