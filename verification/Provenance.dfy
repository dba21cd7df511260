/** The provenance store as the object that edits its tables, loop by loop. */
module ProvenanceObject {
  import opened Base
  import opened ProvenanceSpec
  import opened ProvenanceEffects

  class RuntimeStore {
    var sessions: map<SessionId, Session>
    var resources: map<ResourceId, Resource>
    var members: set<Member>
    var owner: map<ResourceId, SessionId>
    var aliases: map<VendorKey, Alias>

    constructor ()
      ensures Value() == EMPTY
    {
      sessions, resources, members, owner, aliases := map[], map[], {}, map[], map[];
    }

    function Value(): Db
      reads this
    {
      Db(sessions, resources, members, owner, aliases)
    }

    /** The changes of a transaction that failed are undone. */
    method Rollback(db: Db)
      modifies this
      ensures Value() == db
    {
      sessions, resources, members, owner, aliases := db.sessions, db.resources, db.members, db.owner, db.aliases;
    }

    /** One pass: all of its sessions, then all of its resources, or nothing. */
    method ApplyOwnership(seen: seq<Seen>, owned: seq<Owned>, now: nat) returns (ok: bool)
      modifies this
      ensures Value() == Apply(old(Value()), seen, owned, now)
      ensures ok <==> NoneTwice(owned)
      ensures if ok then PassMeans(old(Value()), Value(), seen, owned, now) else Value() == old(Value())
    {
      PassAnswers(Value(), seen, owned, now);
      var before := Value();
      var i := 0;
      while i < |seen|
        invariant 0 <= i <= |seen|
        invariant PutSessions(Value(), seen[i..], now) == PutSessions(before, seen, now)
      {
        UpsertSession(seen[i], now);
        assert seen[i..][1..] == seen[i + 1..];
        i := i + 1;
      }
      assert seen[i..] == [] && owned[0..] == owned;
      ghost var mid := Value();
      i := 0;
      while i < |owned|
        invariant 0 <= i <= |owned|
        invariant PutAllOwned(Value(), owned[i..], now) == PutAllOwned(mid, owned, now)
        invariant forall k :: 0 <= k < i ==> Distinct(owned[k].members)
      {
        ok := UpsertOwned(owned[i], now);
        if !ok {
          Rollback(before);
          return;
        }
        assert owned[i..][1..] == owned[i + 1..];
        i := i + 1;
      }
      assert owned[i..] == [];
      ok := true;
    }

    method UpsertSession(s: Seen, now: nat)
      modifies this`sessions
      ensures Value() == PutSession(old(Value()), s, now)
    {
      if s.id in sessions {
        var row := sessions[s.id];
        var project := if s.project.Some? then s.project else row.project;
        sessions := sessions[s.id := row.(lastSeen := now, endedAt := s.endedAt, project := project)];
      } else {
        sessions := sessions[s.id := Session(s.root, s.agent, s.project, s.startedAt, now, s.endedAt)];
      }
    }

    /** Fails at the first member that is listed twice. */
    method UpsertOwned(o: Owned, now: nat) returns (ok: bool)
      modifies this
      ensures ok <==> Distinct(o.members)
      ensures ok ==> Value() == PutOwned(old(Value()), o, now)
    {
      if o.resource in resources {
        resources := resources[o.resource := resources[o.resource].(lastSeen := now)];
      } else {
        resources := resources[o.resource := Resource(o.kind, o.root, now, now)];
      }
      members := set m | m in members && m.0 != o.resource;
      ok := InsertMembers(o.resource, o.members);
      if ok {
        owner := owner[o.resource := o.session];
      }
    }

    method InsertMembers(r: ResourceId, ids: seq<Identity>) returns (ok: bool)
      requires forall m :: m in members ==> m.0 != r
      modifies this`members
      ensures ok <==> Distinct(ids)
      ensures ok ==> members == old(members) + set x | x in ids :: (r, x)
    {
      ghost var others := members;
      var i := 0;
      while i < |ids|
        invariant 0 <= i <= |ids|
        invariant members == others + set x | x in ids[..i] :: (r, x)
        invariant Distinct(ids[..i])
      {
        if (r, ids[i]) in members {
          ghost var j :| 0 <= j < i && ids[..i][j] == ids[i];
          return false;
        }
        assert ids[..i + 1] == ids[..i] + [ids[i]];
        assert ids[i] !in ids[..i];
        members := members + {(r, ids[i])};
        i := i + 1;
      }
      assert ids[..i] == ids;
      ok := true;
    }

    /** Active sessions whose root was not observed have ended now. */
    method EndAbsentSessions(liveRoots: set<Identity>, now: nat)
      modifies this`sessions
      ensures Value() == EndAbsent(old(Value()), liveRoots, now)
    {
      ghost var was := Value();
      var active := set s | s in sessions && sessions[s].endedAt.None?;
      var todo := active;
      while todo != {}
        invariant todo <= active && EndedSoFar(was, sessions, active - todo, liveRoots, now)
        decreases |todo|
      {
        var s :| s in todo;
        todo := todo - {s};
        if sessions[s].root !in liveRoots {
          sessions := sessions[s := sessions[s].(endedAt := Some(now))];
        }
      }
      AllEnded(was, sessions, active, liveRoots, now);
    }

    method EnsureSession(id: SessionId, root: Identity, agent: string, now: nat)
      modifies this`sessions
      ensures Value() == Ensure(old(Value()), id, root, agent, now)
    {
      if id !in sessions {
        sessions := sessions[id := Session(root, agent, None, root.startTime, now, None)];
      }
    }

    method Register(id: SessionId, key: VendorKey, now: nat)
      modifies this`aliases
      ensures Value() == RegisterAlias(old(Value()), id, key, now)
    {
      aliases := aliases[key := Alias(id, now, None)];
    }

    /** The scan of the resources, by their roots. */
    method FindLiveRoots(live: set<Identity>) returns (found: set<ResourceId>)
      ensures found == set r | r in resources && resources[r].root in live
    {
      found := {};
      var rows := resources.Keys;
      while rows != {}
        invariant rows <= resources.Keys
        invariant found == set r | r in resources.Keys - rows && resources[r].root in live
        decreases |rows|
      {
        var r :| r in rows;
        rows := rows - {r};
        if resources[r].root in live {
          found := found + {r};
        }
      }
    }

    /** The scan of the members. */
    method FindLiveMembers(live: set<Identity>) returns (found: set<ResourceId>)
      ensures found == set m | m in members && m.1 in live :: m.0
    {
      found := {};
      var links := members;
      while links != {}
        invariant links <= members
        invariant found == set m | m in members - links && m.1 in live :: m.0
        decreases |links|
      {
        var m :| m in links;
        links := links - {m};
        if m.1 in live {
          found := found + {m.0};
        }
      }
      assert members - links == members;
    }

    /** The resources with a live root or member: one scan of each table. */
    method FindLive(live: set<Identity>) returns (found: set<ResourceId>)
      ensures found == LiveResources(Value(), live)
    {
      var roots := FindLiveRoots(live);
      var parts := FindLiveMembers(live);
      found := roots + parts;
    }

    /** Sessions referenced by a live resource: one scan of the edges. */
    method FindProtected(live: set<Identity>) returns (kept: set<SessionId>)
      ensures kept == Protected(Value(), live)
    {
      var liveResources := FindLive(live);
      kept := {};
      var edges := owner.Keys;
      while edges != {}
        invariant edges <= owner.Keys
        invariant kept == set r | r in owner.Keys - edges && r in liveResources :: owner[r]
        decreases |edges|
      {
        var r :| r in edges;
        edges := edges - {r};
        if r in liveResources {
          kept := kept + {owner[r]};
        }
      }
    }

    /** The candidates that are not protected, one delete after the other. */
    method DeleteSessions(candidates: set<SessionId>, kept: set<SessionId>)
      modifies this`sessions, this`owner
      ensures Value() == DropSessions(old(Value()), candidates - kept)
    {
      ghost var was := Value();
      var todo := candidates;
      DropNone(was);
      assert (candidates - todo) - kept == {};
      while todo != {}
        invariant todo <= candidates
        invariant Value() == DropSessions(was, (candidates - todo) - kept)
        decreases |todo|
      {
        var s :| s in todo;
        ghost var doomed := (candidates - todo) - kept;
        todo := todo - {s};
        if s !in kept {
          DeleteSession(s);
          DropMore(was, doomed, s);
          assert (candidates - todo) - kept == doomed + {s};
        } else {
          assert (candidates - todo) - kept == doomed;
        }
      }
      assert candidates - {} == candidates;
    }

    /** Deletes what is old, in stages, keeping the origin of every live process. */
    method CollectGarbage(retention: nat, now: nat, live: set<Identity>)
      modifies this
      ensures Value() == Gc(old(Value()), retention, now, live)
    {
      var cutoff := SatSub(now, retention);
      var kept := FindProtected(live);
      var candidates := set s | s in sessions && sessions[s].endedAt.Some? && sessions[s].endedAt.value < cutoff;
      DeleteSessions(candidates, kept);
      resources := map r | r in resources && (r in owner || resources[r].lastSeen >= cutoff) :: resources[r];
      members := set m | m in members && m.0 in resources;
      aliases := map k | k in aliases && aliases[k].session in sessions :: aliases[k];
    }

    /** One session and the edges to it. */
    method DeleteSession(s: SessionId)
      modifies this`sessions, this`owner
      ensures Value() == DropSessions(old(Value()), {s})
    {
      sessions := sessions - {s};
      owner := map r | r in owner && owner[r] != s :: owner[r];
    }

    /** Any session that owns a resource with this very invocation in it. */
    method OwningSession(id: Identity) returns (s: Option<SessionId>)
      ensures s.None? <==> Owners(Value(), id) == {}
      ensures s.Some? ==> s.value in Owners(Value(), id)
    {
      var owners := Owners(Value(), id);
      if owners == {} {
        return None;
      }
      var pick :| pick in owners;
      return Some(pick);
    }

    method ExplainProcess(id: Identity) returns (a: Answer)
      ensures MayAnswer(Value(), id, a)
      ensures Integrity(Value()) ==> !a.MissingSession?
    {
      var s := OwningSession(id);
      if s.None? {
        return Unknown;
      }
      var containing := Containing(Value(), id);
      assert containing != {};
      var r :| r in containing;
      if s.value !in sessions {
        return MissingSession;
      }
      return Found(Explanation(r, s.value, sessions[s.value]));
    }
  }

  /** The sessions in `seen` have been looked at, and the absent ones ended. */
  ghost predicate EndedSoFar(was: Db, sessions: map<SessionId, Session>, seen: set<SessionId>,
                             liveRoots: set<Identity>, now: nat) {
    && sessions.Keys == was.sessions.Keys
    && forall s :: s in sessions ==>
         sessions[s] == if s in seen && s in Absent(was, liveRoots)
                        then was.sessions[s].(endedAt := Some(now)) else was.sessions[s]
  }

  lemma AllEnded(was: Db, sessions: map<SessionId, Session>, active: set<SessionId>, liveRoots: set<Identity>, now: nat)
    requires EndedSoFar(was, sessions, active - {}, liveRoots, now) && Absent(was, liveRoots) <= active
    ensures was.(sessions := sessions) == EndAbsent(was, liveRoots, now)
  {
  }

  lemma DropNone(db: Db)
    ensures DropSessions(db, {}) == db
  {
    assert db.sessions - {} == db.sessions;
  }

  lemma DropMore(db: Db, doomed: set<SessionId>, s: SessionId)
    ensures DropSessions(DropSessions(db, doomed), {s}) == DropSessions(db, doomed + {s})
  {
    assert (db.sessions - doomed) - {s} == db.sessions - (doomed + {s});
  }
}
