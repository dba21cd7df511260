/**
 What each statement of the provenance store leaves in the tables, row by row
 and column by column.
 */
module ProvenanceEffects {
  import opened Base
  import opened ProvenanceSpec

  // ------------------------------------------------------- sessions of a pass

  ghost predicate Mentions(ss: seq<Seen>, id: SessionId) {
    exists j :: 0 <= j < |ss| && ss[j].id == id
  }

  ghost predicate FirstMention(ss: seq<Seen>, id: SessionId, f: nat) {
    f < |ss| && ss[f].id == id && forall j :: 0 <= j < f ==> ss[j].id != id
  }

  ghost predicate LastMention(ss: seq<Seen>, id: SessionId, k: nat) {
    k < |ss| && ss[k].id == id && forall j :: k < j < |ss| ==> ss[j].id != id
  }

  /** The last mention of a session that brings a project. */
  ghost predicate LastProject(ss: seq<Seen>, id: SessionId, p: nat) {
    p < |ss| && ss[p].id == id && ss[p].project.Some?
    && forall j :: p < j < |ss| && ss[j].id == id ==> ss[j].project.None?
  }

  ghost predicate NoProject(ss: seq<Seen>, id: SessionId) {
    forall j :: 0 <= j < |ss| && ss[j].id == id ==> ss[j].project.None?
  }

  /**
   The row of a session that a pass mentions: seen now, ended as in its last
   mention; where it comes from is what was stored, or its first mention; its
   project is the last one brought, and is not lost when none is.
   */
  ghost predicate SessionMeans(db: Db, ss: seq<Seen>, now: nat, id: SessionId, row: Session) {
    && row.lastSeen == now
    && (forall k: nat :: LastMention(ss, id, k) ==> row.endedAt == ss[k].endedAt)
    && (if id in db.sessions then
          var was := db.sessions[id];
          row.root == was.root && row.agent == was.agent && row.startedAt == was.startedAt
        else
          forall f: nat :: FirstMention(ss, id, f) ==>
            row.root == ss[f].root && row.agent == ss[f].agent && row.startedAt == ss[f].startedAt)
    && (forall p: nat :: LastProject(ss, id, p) ==> row.project == ss[p].project)
    && (NoProject(ss, id) ==> row.project == if id in db.sessions then db.sessions[id].project else None)
  }

  lemma {:induction false} UnmentionedStays(db: Db, ss: seq<Seen>, now: nat, id: SessionId)
    requires !Mentions(ss, id)
    ensures var t := PutSessions(db, ss, now);
            (id in t.sessions <==> id in db.sessions) && (id in db.sessions ==> t.sessions[id] == db.sessions[id])
    decreases |ss|
  {
    if ss != [] {
      assert forall j :: 0 <= j < |ss[1..]| ==> ss[1..][j] == ss[j + 1];
      UnmentionedStays(PutSession(db, ss[0], now), ss[1..], now, id);
    }
  }

  /** The mentions after the first one. */
  lemma TailMentions(ss: seq<Seen>)
    requires ss != []
    ensures forall j :: 0 <= j < |ss[1..]| ==> ss[1..][j] == ss[j + 1]
    ensures forall j :: 0 < j < |ss| ==> ss[1..][j - 1] == ss[j]
  {
  }

  lemma {:induction false} EndAfterPass(db: Db, ss: seq<Seen>, now: nat, id: SessionId, k: nat)
    requires LastMention(ss, id, k)
    ensures var t := PutSessions(db, ss, now);
            id in t.sessions && t.sessions[id].lastSeen == now && t.sessions[id].endedAt == ss[k].endedAt
    decreases |ss|
  {
    TailMentions(ss);
    if k == 0 {
      UnmentionedStays(PutSession(db, ss[0], now), ss[1..], now, id);
    } else {
      EndAfterPass(PutSession(db, ss[0], now), ss[1..], now, id, k - 1);
    }
  }

  lemma {:induction false} KnownOriginStays(db: Db, ss: seq<Seen>, now: nat, id: SessionId)
    requires id in db.sessions
    ensures var t, was := PutSessions(db, ss, now), db.sessions[id];
            && id in t.sessions && t.sessions[id].root == was.root
            && t.sessions[id].agent == was.agent && t.sessions[id].startedAt == was.startedAt
            && (NoProject(ss, id) ==> t.sessions[id].project == was.project)
    decreases |ss|
  {
    if ss != [] {
      TailMentions(ss);
      KnownOriginStays(PutSession(db, ss[0], now), ss[1..], now, id);
    }
  }

  lemma {:induction false} NewOrigin(db: Db, ss: seq<Seen>, now: nat, id: SessionId, f: nat)
    requires id !in db.sessions && FirstMention(ss, id, f)
    ensures var t := PutSessions(db, ss, now);
            && id in t.sessions && t.sessions[id].root == ss[f].root
            && t.sessions[id].agent == ss[f].agent && t.sessions[id].startedAt == ss[f].startedAt
            && (NoProject(ss, id) ==> t.sessions[id].project == None)
    decreases |ss|
  {
    TailMentions(ss);
    if f == 0 {
      KnownOriginStays(PutSession(db, ss[0], now), ss[1..], now, id);
    } else {
      NewOrigin(PutSession(db, ss[0], now), ss[1..], now, id, f - 1);
    }
  }

  lemma {:induction false} ProjectAfterPass(db: Db, ss: seq<Seen>, now: nat, id: SessionId, p: nat)
    requires LastProject(ss, id, p)
    ensures var t := PutSessions(db, ss, now);
            id in t.sessions && t.sessions[id].project == ss[p].project
    decreases |ss|
  {
    TailMentions(ss);
    if p == 0 {
      KnownOriginStays(PutSession(db, ss[0], now), ss[1..], now, id);
    } else {
      ProjectAfterPass(PutSession(db, ss[0], now), ss[1..], now, id, p - 1);
    }
  }

  lemma {:induction false} Ends(ss: seq<Seen>, id: SessionId) returns (f: nat, k: nat)
    requires Mentions(ss, id)
    ensures FirstMention(ss, id, f) && LastMention(ss, id, k)
    decreases |ss|
  {
    TailMentions(ss);
    if Mentions(ss[1..], id) {
      f, k := Ends(ss[1..], id);
      f, k := if ss[0].id == id then 0 else f + 1, k + 1;
    } else {
      f, k := 0, 0;
    }
  }

  lemma SessionAfterPass(db: Db, ss: seq<Seen>, now: nat, id: SessionId)
    requires Mentions(ss, id)
    ensures id in PutSessions(db, ss, now).sessions
    ensures SessionMeans(db, ss, now, id, PutSessions(db, ss, now).sessions[id])
  {
    var f, k := Ends(ss, id);
    EndAfterPass(db, ss, now, id, k);
    if id in db.sessions {
      KnownOriginStays(db, ss, now, id);
    } else {
      NewOrigin(db, ss, now, id, f);
    }
    forall p: nat | LastProject(ss, id, p) ensures PutSessions(db, ss, now).sessions[id].project == ss[p].project {
      ProjectAfterPass(db, ss, now, id, p);
    }
  }

  // ------------------------------------------------------ resources of a pass

  ghost predicate FirstOwned(os: seq<Owned>, r: ResourceId, f: nat) {
    f < |os| && os[f].resource == r && forall j :: 0 <= j < f ==> os[j].resource != r
  }

  ghost predicate LastOwned(os: seq<Owned>, r: ResourceId, k: nat) {
    k < |os| && os[k].resource == r && forall j :: k < j < |os| ==> os[j].resource != r
  }

  /** A resource that is new to the store is what its first mention says, seen first and last now. */
  lemma {:induction false} NewResource(db: Db, os: seq<Owned>, now: nat, f: nat)
    requires f < |os| && FirstOwned(os, os[f].resource, f) && os[f].resource !in db.resources
    ensures var t, r := PutAllOwned(db, os, now), os[f].resource;
            r in t.resources && t.resources[r] == Resource(os[f].kind, os[f].root, now, now)
    decreases |os|
  {
    var mid := PutOwned(db, os[0], now);
    if f == 0 {
      KnownResource(mid, os[1..], now, os[0].resource);
    } else {
      assert forall j :: 0 <= j < |os[1..]| ==> os[1..][j] == os[j + 1];
      NewResource(mid, os[1..], now, f - 1);
    }
  }

  lemma {:induction false} KnownResource(db: Db, os: seq<Owned>, now: nat, r: ResourceId)
    requires r in db.resources && db.resources[r].lastSeen == now
    ensures var t := PutAllOwned(db, os, now);
            r in t.resources && t.resources[r] == db.resources[r]
    decreases |os|
  {
    if os != [] {
      KnownResource(PutOwned(db, os[0], now), os[1..], now, r);
    }
  }

  lemma {:induction false} PassSparesSessions(db: Db, os: seq<Owned>, now: nat)
    ensures var t := PutAllOwned(db, os, now);
            t.sessions == db.sessions && t.aliases == db.aliases
    decreases |os|
  {
    if os != [] {
      PassSparesSessions(PutOwned(db, os[0], now), os[1..], now);
    }
  }

  /** All that a pass says of a resource it mentions last with `o` and first with `first`. */
  ghost predicate ResourceMeans(db: Db, t: Db, r: ResourceId, first: Owned, o: Owned, now: nat) {
    && r in t.resources && r in t.owner && t.owner[r] == o.session
    && (forall x :: (r, x) in t.members <==> x in o.members)
    && t.resources[r] == (if r in db.resources
                          then Resource(db.resources[r].kind, db.resources[r].root, db.resources[r].firstSeen, now)
                          else Resource(first.kind, first.root, now, now))
  }

  ghost predicate SameResource(db: Db, t: Db, r: ResourceId) {
    && (r in t.resources <==> r in db.resources) && (r in db.resources ==> t.resources[r] == db.resources[r])
    && (r in t.owner <==> r in db.owner) && (r in db.owner ==> t.owner[r] == db.owner[r])
    && forall x :: (r, x) in t.members <==> (r, x) in db.members
  }

  /** The whole of a pass that is not rolled back. */
  ghost predicate PassMeans(db: Db, t: Db, ss: seq<Seen>, os: seq<Owned>, now: nat) {
    && t.aliases == db.aliases
    && (forall id :: Mentions(ss, id) ==> id in t.sessions && SessionMeans(db, ss, now, id, t.sessions[id]))
    && (forall id :: !Mentions(ss, id) ==>
          (id in t.sessions <==> id in db.sessions) && (id in db.sessions ==> t.sessions[id] == db.sessions[id]))
    && (forall r, f: nat, k: nat :: FirstOwned(os, r, f) && LastOwned(os, r, k) ==> ResourceMeans(db, t, r, os[f], os[k], now))
    && (forall r :: (forall j :: 0 <= j < |os| ==> os[j].resource != r) ==> SameResource(db, t, r))
  }

  /** No member is listed twice in any of the lists. */
  ghost predicate NoneTwice(os: seq<Owned>) {
    forall k, i, j :: 0 <= k < |os| && 0 <= i < j < |os[k].members| ==> os[k].members[i] != os[k].members[j]
  }

  lemma PassAnswers(db: Db, ss: seq<Seen>, os: seq<Owned>, now: nat)
    ensures NoneTwice(os) ==> PassMeans(db, Apply(db, ss, os, now), ss, os, now)
    ensures !NoneTwice(os) ==> Apply(db, ss, os, now) == db
  {
    assert NoneTwice(os) <==> Insertable(os);
    if NoneTwice(os) {
      var mid := PutSessions(db, ss, now);
      PutSessionsStores(db, ss, now);
      PassSparesSessions(mid, os, now);
      forall id ensures Mentions(ss, id) ==> id in mid.sessions && SessionMeans(db, ss, now, id, mid.sessions[id])
        ensures !Mentions(ss, id) ==>
                  (id in mid.sessions <==> id in db.sessions) && (id in db.sessions ==> mid.sessions[id] == db.sessions[id])
      {
        if Mentions(ss, id) {
          SessionAfterPass(db, ss, now, id);
        } else {
          UnmentionedStays(db, ss, now, id);
        }
      }
      ResourcesAfterPass(db, mid, os, now);
    }
  }

  lemma ResourcesAfterPass(db: Db, mid: Db, os: seq<Owned>, now: nat)
    requires mid == db.(sessions := mid.sessions)
    ensures var t := PutAllOwned(mid, os, now);
            && (forall r, f: nat, k: nat :: FirstOwned(os, r, f) && LastOwned(os, r, k) ==> ResourceMeans(db, t, r, os[f], os[k], now))
            && (forall r :: (forall j :: 0 <= j < |os| ==> os[j].resource != r) ==> SameResource(db, t, r))
  {
    var t := PutAllOwned(mid, os, now);
    forall r, f: nat, k: nat | FirstOwned(os, r, f) && LastOwned(os, r, k) ensures ResourceMeans(db, t, r, os[f], os[k], now) {
      LastMentionCounts(mid, os, now, k);
      if r !in db.resources {
        NewResource(mid, os, now, f);
      }
    }
    forall r | forall j :: 0 <= j < |os| ==> os[j].resource != r ensures SameResource(db, t, r) {
      PassLeavesOthers(mid, os, now, r);
    }
  }

  // ---------------------------------------------------------------- collection

  /** The session owns a resource with a live process in it. */
  ghost predicate Serves(db: Db, live: set<Identity>, s: SessionId) {
    exists r, id :: id in live && r in db.owner && db.owner[r] == s
                    && ((r, id) in db.members || (r in db.resources && db.resources[r].root == id))
  }

  /** What goes and what stays, table by table; what stays is unchanged. */
  ghost predicate GcMeans(db: Db, t: Db, cutoff: int, live: set<Identity>) {
    && (forall s :: s in t.sessions <==>
          && s in db.sessions
          && (db.sessions[s].endedAt.None? || db.sessions[s].endedAt.value >= cutoff || Serves(db, live, s)))
    && (forall s :: s in t.sessions ==> t.sessions[s] == db.sessions[s])
    && (forall r :: r in t.owner <==> r in db.owner && (db.owner[r] in db.sessions ==> db.owner[r] in t.sessions))
    && (forall r :: r in t.owner ==> t.owner[r] == db.owner[r])
    && (forall r :: r in t.resources <==> r in db.resources && (r in t.owner || db.resources[r].lastSeen >= cutoff))
    && (forall r :: r in t.resources ==> t.resources[r] == db.resources[r])
    && (forall m :: m in t.members <==> m in db.members && m.0 in t.resources)
    && (forall k :: k in t.aliases <==> k in db.aliases && db.aliases[k].session in t.sessions)
    && (forall k :: k in t.aliases ==> t.aliases[k] == db.aliases[k])
  }

  lemma ServesIffProtected(db: Db, live: set<Identity>, s: SessionId)
    ensures Serves(db, live, s) <==> s in Protected(db, live)
  {
    ProtectedOwnsLive(db, live, s);
    if id :| id in live && s in Owners(db, id) {
      var r :| r in Containing(db, id) && r in db.owner && db.owner[r] == s;
      assert (r, id) in db.members || (r in db.resources && db.resources[r].root == id);
    }
    if r, id :| id in live && r in db.owner && db.owner[r] == s
                && ((r, id) in db.members || (r in db.resources && db.resources[r].root == id)) {
      assert r in Containing(db, id);
      assert s in Owners(db, id);
    }
  }

  lemma GcAnswers(db: Db, retention: nat, now: nat, live: set<Identity>)
    ensures GcMeans(db, Gc(db, retention, now, live), if now >= retention then now - retention else 0, live)
  {
    forall s ensures Serves(db, live, s) <==> s in Protected(db, live) {
      ServesIffProtected(db, live, s);
    }
  }

  // ------------------------------------------------------------ the other statements

  /** Only sessions that were active and whose root is gone are touched, and only in their end. */
  lemma EndAbsentAnswers(db: Db, liveRoots: set<Identity>, now: nat)
    ensures var t := EndAbsent(db, liveRoots, now);
            && t == db.(sessions := t.sessions) && t.sessions.Keys == db.sessions.Keys
            && forall s :: s in db.sessions ==>
                 var was := db.sessions[s];
                 t.sessions[s] == if was.endedAt.None? && was.root !in liveRoots
                                  then Session(was.root, was.agent, was.project, was.startedAt, was.lastSeen, Some(now))
                                  else was
  {
  }

  /** A session is inserted if it is not there, started when its root did; one that is there is left alone. */
  lemma EnsureAnswers(db: Db, id: SessionId, root: Identity, agent: string, now: nat)
    ensures var t := Ensure(db, id, root, agent, now);
            && t == db.(sessions := t.sessions) && t.sessions.Keys == db.sessions.Keys + {id}
            && (forall s :: s in db.sessions ==> t.sessions[s] == db.sessions[s])
            && (id !in db.sessions ==> t.sessions[id] == Session(root, agent, None, root.startTime, now, None))
  {
  }

  /** The lookups see a process as a member of a resource or as its root. */
  lemma OwnersAre(db: Db, id: Identity)
    ensures forall r :: r in Containing(db, id) <==>
              (r, id) in db.members || (r in db.resources && db.resources[r].root == id)
    ensures forall s :: s in Owners(db, id) <==>
              exists r :: r in db.owner && db.owner[r] == s
                          && ((r, id) in db.members || (r in db.resources && db.resources[r].root == id))
  {
    forall r ensures r in Containing(db, id) <==> (r, id) in db.members || (r in db.resources && db.resources[r].root == id) {
      if r in Containing(db, id) && !(r in db.resources && db.resources[r].root == id) {
        var m :| m in db.members && m.1 == id && m.0 == r;
        assert m == (r, id);
      }
    }
  }

  /** An alias is created or pointed at the session afresh; no other alias changes. */
  lemma AliasAnswers(db: Db, id: SessionId, key: VendorKey, now: nat)
    ensures var t := RegisterAlias(db, id, key, now);
            && t == db.(aliases := t.aliases) && t.aliases.Keys == db.aliases.Keys + {key}
            && t.aliases[key] == Alias(id, now, None)
            && forall k :: k in db.aliases && k != key ==> t.aliases[k] == db.aliases[k]
  {
  }
}
