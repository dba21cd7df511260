/**
 Which cancels are harmless for reads. A cancel that looks for a run before
 `start` has registered it can always make a later read show an earlier state,
 with sensible limits and without any further cancel; any other cancel never
 can.
 */
module SupervisorCancels {
  import opened Base
  import opened RunTableSpec
  import opened SchedulerIds
  import opened SupervisorSpec
  import opened SupervisorInv
  import opened SupervisorSteps
  import opened SupervisorHistory
  import opened SupervisorReads
  import opened SupervisorRace
  import C = SchedulerCaps
  import S = SchedulerSpec

  // ------------------------------------------------------ plain continuations

  /** Not a cancel call, and no limit below one slot. */
  predicate Plain(ev: Event) {
    !ev.CancelCall? && (ev.ChangeLimits? ==> ev.limits.maxParallel >= 1 && ev.limits.maxPerProject >= 1)
  }

  ghost predicate IsPlainRun(st: Sup, evs: seq<Event>) {
    IsRun(st, evs) && forall k :: 0 <= k < |evs| ==> Plain(evs[k])
  }

  /** Some plain continuation leads from `st` to `t`. */
  ghost predicate Reaches(st: Sup, t: Sup) {
    exists evs :: IsPlainRun(st, evs) && RunAll(st, evs) == t
  }

  lemma ReachesNext(st: Sup, ev: Event)
    requires Enabled(st, ev) && Plain(ev)
    ensures Reaches(st, Apply(st, ev))
  {
    RunCons(st, ev, []);
    assert [ev] + [] == [ev];
    assert IsPlainRun(st, [ev]);
  }

  lemma ReachesOn(a: Sup, b: Sup, c: Sup)
    requires Reaches(a, b) && Reaches(b, c)
    ensures Reaches(a, c)
  {
    var first :| IsPlainRun(a, first) && RunAll(a, first) == b;
    var then_ :| IsPlainRun(b, then_) && RunAll(b, then_) == c;
    RunJoin(a, first, then_);
    assert IsPlainRun(a, first + then_);
  }

  lemma ReachesThen(a: Sup, b: Sup, ev: Event)
    requires Reaches(a, b) && Enabled(b, ev) && Plain(ev)
    ensures Reaches(a, Apply(b, ev))
  {
    ReachesNext(b, ev);
    ReachesOn(a, b, Apply(b, ev));
  }

  lemma ReachesInv(a: Sup, b: Sup)
    requires Inv(a) && Reaches(a, b)
    ensures Inv(b)
  {
    var evs :| IsPlainRun(a, evs) && RunAll(a, evs) == b;
    RunKeepsInv(a, evs);
  }

  lemma {:induction false} PlainIsCareful(st: Sup, evs: seq<Event>)
    requires IsPlainRun(st, evs)
    ensures IsCarefulRun(st, evs)
    decreases |evs|
  {
    if evs != [] {
      assert Plain(evs[0]);
      assert forall k :: 0 <= k < |evs[1..]| ==> evs[1..][k] == evs[k + 1];
      PlainIsCareful(Apply(st, evs[0]), evs[1..]);
    }
  }

  // ----------------------------------------------------------- room for more

  lemma {:induction false} Above(s: set<nat>) returns (n: nat)
    ensures forall x :: x in s ==> x < n
    decreases |s|
  {
    if s == {} {
      n := 0;
    } else {
      var x :| x in s;
      var m := Above(s - {x});
      n := Max(m, x + 1);
      assert forall y :: y in s ==> y == x || y in s - {x};
    }
  }

  /** Everything that was there is still there, unchanged. */
  ghost predicate Extends(st: Sup, t: Sup) {
    && (forall id :: id in st.table.rows ==> id in t.table.rows && t.table.rows[id] == st.table.rows[id])
    && (forall id :: id in st.local ==> id in t.local && t.local[id] == st.local[id])
    && (forall tid :: tid in st.tasks ==> tid in t.tasks && t.tasks[tid] == st.tasks[tid])
  }

  ghost predicate Has(st: Sup, tid: Tid, task: Task) {
    tid in st.tasks && st.tasks[tid] == task
  }

  /** A run as a call would find it. */
  ghost predicate Shows(st: Sup, id: RunId, v: View, l: Local) {
    && id in st.table.rows && RowView(st.table.rows[id]) == v
    && id in st.local && st.local[id] == l
  }

  /** A clock value at which no stored run is recent. */
  lemma LateClock(t: Table) returns (now: nat)
    ensures forall id :: id in t.rows ==> t.rows[id].createdAt < SatSub(now, WINDOW)
  {
    var times := set id | id in t.rows :: t.rows[id].createdAt;
    var m := Above(times);
    assert forall id :: id in t.rows ==> t.rows[id].createdAt in times;
    now := m + WINDOW;
  }

  /** Another `start` can always insert its row. */
  lemma InsertOne(st: Sup, request: Request) returns (t: Sup, h: Tid)
    requires Inv(st)
    ensures Reaches(st, t) && Inv(t) && Extends(st, t) && t.sched == st.sched
    ensures h !in st.tasks && Has(t, h, Inserted(st.table.nextId, request))
    ensures t.table.nextId == st.table.nextId + 1
    ensures Shows(t, st.table.nextId, FRESH, UNKNOWN.(place := With(h)))
  {
    h := Above(st.tasks.Keys);
    assert h !in st.tasks;
    var now := LateClock(st.table);
    t := Inserting(st, h, request, now);
    ReachesNext(st, Insert(h, "", "", request, now));
    ReachesInv(st, t);
  }

  lemma Inserting(st: Sup, h: Tid, request: Request, now: nat) returns (t: Sup)
    requires Keyed(st) && h !in st.tasks
    requires forall id :: id in st.table.rows ==> st.table.rows[id].createdAt < SatSub(now, WINDOW)
    ensures t == DoInsert(st, h, "", "", request, now) && Extends(st, t) && t.sched == st.sched
    ensures Has(t, h, Inserted(st.table.nextId, request)) && t.table.nextId == st.table.nextId + 1
    ensures Shows(t, st.table.nextId, FRESH, UNKNOWN.(place := With(h)))
  {
    CreatesIffNoneRecent(st.table, "", "", now);
    t := DoInsert(st, h, "", "", request, now);
    assert st.table.nextId !in st.table.rows;
  }

  /** Starts go on until the one with the id `id` has inserted its row. */
  lemma {:induction false} InsertUntil(st: Sup, id: RunId, request: Request) returns (t: Sup, h: Tid)
    requires Inv(st) && id >= st.table.nextId
    ensures Reaches(st, t) && Inv(t) && Extends(st, t) && h !in st.tasks && Has(t, h, Inserted(id, request))
    ensures Shows(t, id, FRESH, UNKNOWN.(place := With(h)))
    decreases id - st.table.nextId
  {
    var mid, k := InsertOne(st, request);
    if id == st.table.nextId {
      t, h := mid, k;
    } else {
      t, h := InsertUntil(mid, id, request);
      ReachesOn(st, mid, t);
    }
  }

  // ------------------------------------------------------- no slot to be had

  /** No slot is free, the queue has room, and no request is above the budget. */
  ghost predicate Full(s: S.State) {
    S.SlotsFree(s) == 0 && |s.queue| < s.limits.maxQueued && s.limits.memoryBudget == WORD - 1
  }

  /** One slot more than are taken, with everything else allowed. */
  function OneMore(s: S.State): S.Limits {
    S.Limits(|s.running| + 1, |s.running| + 1, |s.queue| + 1, 60, WORD - 1, 60)
  }

  lemma LastSlot(s: S.State, id: RunId, now: nat)
    requires s.limits == OneMore(s)
    ensures var (t, decision) := S.Submit(s, id, "", 0, None, now);
            decision.Start? && Full(t)
  {
    C.CountIsBelow(s.running, "");
  }

  const NOTHING: Request := Request("", 0, None)

  /** Under such limits one more run, of no memory, takes the last slot. */
  lemma FillSlots(st: Sup) returns (t: Sup)
    requires Inv(st)
    ensures Reaches(st, t) && Inv(t) && Extends(st, t) && Full(t.sched)
  {
    var change := ChangeLimits(OneMore(st.sched));
    ReachesNext(st, change);
    var s1 := Apply(st, change);
    ReachesInv(st, s1);
    var s2, f := InsertOne(s1, NOTHING);
    ReachesOn(st, s1, s2);
    t := FillLast(s2, f, st.table.nextId);
    ReachesOn(st, s2, t);
    OldOnesStay(st, s1, s2, t, f);
  }

  /** Everything but one run and the task that has it is still there, unchanged. */
  ghost predicate ExtendsBut(st: Sup, t: Sup, f: Tid, id: RunId) {
    && (forall x :: x in st.table.rows && x != id ==> x in t.table.rows && t.table.rows[x] == st.table.rows[x])
    && (forall x :: x in st.local && x != id ==> x in t.local && t.local[x] == st.local[x])
    && (forall tid :: tid in st.tasks && tid != f ==> tid in t.tasks && t.tasks[tid] == st.tasks[tid])
  }

  lemma OldOnesStay(st: Sup, s1: Sup, s2: Sup, t: Sup, f: Tid)
    requires Keyed(st) && f !in st.tasks && Extends(s1, s2) && ExtendsBut(s2, t, f, st.table.nextId)
    requires s1.table == st.table && s1.local == st.local && s1.tasks == st.tasks
    ensures Extends(st, t)
  {
    assert st.table.nextId !in st.table.rows;
  }

  lemma FillLast(st: Sup, f: Tid, id: RunId) returns (t: Sup)
    requires Inv(st) && Has(st, f, Inserted(id, NOTHING)) && st.sched.limits == OneMore(st.sched)
    ensures Reaches(st, t) && Inv(t) && Full(t.sched)
    ensures ExtendsBut(st, t, f, id)
  {
    var s1 := Apply(st, Register(f));
    ReachesNext(st, Register(f));
    var submit := SubmitRun(f, 0, REFUSED);
    LastSlot(s1.sched, id, 0);
    assert Has(s1, f, Registered(id, NOTHING));
    t := Apply(s1, submit);
    ReachesThen(st, s1, submit);
    ReachesInv(st, t);
  }

  // ---------------------------------------------------- the run that goes back

  /** A cancel has looked in the registry, and the run is inserted but not registered. */
  ghost predicate Unlisted(st: Sup, c: Tid, id: RunId, h: Tid, request: Request, l: Local) {
    && Has(st, c, CancelMissed(id)) && Has(st, h, Inserted(id, request)) && Shows(st, id, FRESH, l)
    && l.slot.None? && !l.registered && (l.published.Some? ==> l.published.value == FRESH)
  }

  /** A cancel that is not careful comes, or its run will come, to that point. */
  lemma CarelessIsUnlisted(st: Sup, c: Tid, id: RunId) returns (t: Sup, h: Tid, request: Request, l: Local)
    requires ReadInv(st) && c !in st.tasks && !Careful(st, CancelCall(c, id))
    ensures Reaches(Apply(st, CancelCall(c, id)), t) && Inv(t) && Unlisted(t, c, id, h, request, l)
  {
    var call := CancelCall(c, id);
    StepKeepsInv(st, call);
    var s := Apply(st, call);
    if id in st.table.rows {
      assert RunOk(st, id) && RunAttached(st, id);
      l := st.local[id];
      h := l.place.tid;
      request := st.tasks[h].request;
      t := s;
      assert IsPlainRun(s, []);
    } else {
      request := NOTHING;
      assert RunOk(st, id) || id !in st.local;
      t, h := InsertUntil(s, id, request);
      l := UNKNOWN.(place := With(h));
      assert Has(t, c, s.tasks[c]);
    }
  }

  // Its legs: the calls look, the run is queued behind a full house, the cancel
  // finishes its copy, one call reads the row and the next one the live slot.

  lemma ReachesTwo(st: Sup, a: Event, b: Event, t: Sup)
    requires Inv(st) && After(st, a, b, t) && Plain(a) && Plain(b)
    ensures Reaches(st, t) && Inv(t)
  {
    ReachesNext(st, a);
    ReachesThen(st, Apply(st, a), b);
    StepKeepsInv(st, a);
    StepKeepsInv(Apply(st, a), b);
  }

  /** The tasks of other threads are as before. */
  ghost predicate Others(st: Sup, t: Sup, tid: Tid) {
    forall x :: x in st.tasks && x != tid ==> Has(t, x, st.tasks[x])
  }

  lemma CallsLook(st: Sup, c: Tid, id: RunId, l: Local, g: Tid) returns (t: Sup)
    requires Has(st, c, CancelMissed(id)) && Shows(st, id, FRESH, l) && !l.registered && g !in st.tasks
    ensures After(st, CancelRead(c), GetCall(g, id), t)
    ensures Has(t, c, CancelLoaded(id, Copy(FRESH))) && Has(t, g, GetMissed(id, l.published))
    ensures Others(st, t, c) && Shows(t, id, FRESH, l)
  {
    t := Apply(Apply(st, CancelRead(c)), GetCall(g, id));
  }

  lemma LegLooks(st: Sup, c: Tid, id: RunId, h: Tid, request: Request, l: Local) returns (t: Sup, g: Tid)
    requires Inv(st) && Unlisted(st, c, id, h, request, l)
    ensures Reaches(st, t) && Inv(t)
    ensures Has(t, c, CancelLoaded(id, Copy(FRESH))) && Has(t, g, GetMissed(id, l.published))
    ensures Has(t, h, Inserted(id, request)) && Shows(t, id, FRESH, l)
  {
    g := Above(st.tasks.Keys);
    assert g !in st.tasks;
    t := CallsLook(st, c, id, l, g);
    ReachesTwo(st, CancelRead(c), GetCall(g, id), t);
  }

  function InLine(l: Local): Local {
    l.(slot := Some(FRESH), registered := true, place := InQueue)
  }

  lemma FullHouseWaits(s: S.State, id: RunId, request: Request)
    requires Tidy(s) && Full(s) && Absent(s, id)
    ensures var (t, decision) := S.Submit(s, id, request.project, request.memory, request.timeout, 0);
            decision.Waiting? && id in S.QueueIds(t.queue)
  {
    SubmitMoves(s, id, request.project, request.memory, request.timeout, 0);
  }

  lemma RunQueues(st: Sup, id: RunId, h: Tid, request: Request, l: Local) returns (t: Sup)
    requires Tidy(st.sched) && Full(st.sched) && Absent(st.sched, id)
    requires Has(st, h, Inserted(id, request)) && Shows(st, id, FRESH, l)
    ensures After(st, Register(h), SubmitRun(h, 0, REFUSED), t)
    ensures id in Queue(t) && Shows(t, id, FRESH, InLine(l)) && Others(st, t, h)
  {
    FullHouseWaits(st.sched, id, request);
    var s1 := Apply(st, Register(h));
    assert Has(s1, h, Registered(id, request));
    t := Apply(s1, SubmitRun(h, 0, REFUSED));
  }

  /** With no slot free the run is queued; nobody else notices. */
  lemma LegWaits(st: Sup, id: RunId, h: Tid, request: Request, l: Local) returns (t: Sup)
    requires Inv(st) && Full(st.sched) && Has(st, h, Inserted(id, request)) && Shows(st, id, FRESH, l)
    ensures Reaches(st, t) && Inv(t) && id in Queue(t) && Shows(t, id, FRESH, InLine(l)) && Others(st, t, h)
  {
    Holds(st, h, id);
    t := RunQueues(st, id, h, request, l);
    ReachesTwo(st, Register(h), SubmitRun(h, 0, REFUSED), t);
  }

  lemma CancelTakes(st: Sup, c: Tid, id: RunId, l: Local) returns (t: Sup)
    requires S.CancelQueued(st.sched, id).1 && Has(st, c, CancelLoaded(id, Copy(FRESH))) && Shows(st, id, FRESH, l)
    ensures After(st, CancelCheck(c), CancelTake(c, CANCELLED), t)
    ensures Has(t, c, Finishing(id, Copy(FRESH), CANCELLED)) && Shows(t, id, FRESH, l.(place := With(c))) && Others(st, t, c)
  {
    var s1 := Apply(st, CancelCheck(c));
    assert s1 == Put(st, c, Cancelling(id, Copy(FRESH)));
    t := Apply(s1, CancelTake(c, CANCELLED));
  }

  lemma LegTakes(st: Sup, c: Tid, id: RunId, l: Local) returns (t: Sup)
    requires Inv(st) && id in Queue(st) && Has(st, c, CancelLoaded(id, Copy(FRESH))) && Shows(st, id, FRESH, l)
    ensures Reaches(st, t) && Inv(t) && Has(t, c, Finishing(id, Copy(FRESH), CANCELLED))
    ensures Shows(t, id, FRESH, l.(place := With(c))) && Others(st, t, c)
  {
    CancelMoves(st.sched, id);
    t := CancelTakes(st, c, id, l);
    ReachesTwo(st, CancelCheck(c), CancelTake(c, CANCELLED), t);
  }

  lemma ResultIsStored(st: Sup, c: Tid, id: RunId, l: Local) returns (t: Sup)
    requires Has(st, c, Finishing(id, Copy(FRESH), CANCELLED)) && Shows(st, id, FRESH, l)
    ensures After(st, EnterFinish(c), Store(c), t)
    ensures Shows(t, id, ENDED, l) && Others(st, t, c)
  {
    var s1 := Apply(st, EnterFinish(c));
    assert s1 == Put(st, c, Storing(id, 1, CANCELLED));
    t := Apply(s1, Store(c));
  }

  lemma LegStores(st: Sup, c: Tid, id: RunId, l: Local) returns (t: Sup)
    requires Inv(st) && Has(st, c, Finishing(id, Copy(FRESH), CANCELLED)) && Shows(st, id, FRESH, l)
    ensures Reaches(st, t) && Inv(t) && Shows(t, id, ENDED, l) && Others(st, t, c)
  {
    t := ResultIsStored(st, c, id, l);
    ReachesTwo(st, EnterFinish(c), Store(c), t);
  }

  lemma ReadReturns(st: Sup, g: Tid, id: RunId, floor: Option<View>, l: Local) returns (t: Sup)
    requires Has(st, g, GetMissed(id, floor)) && Shows(st, id, ENDED, l)
    requires l.published.Some? ==> l.published.value == FRESH
    ensures After(st, GetRead(g), GetReturn(g), t) && Shows(t, id, ENDED, l.(published := Some(ENDED)))
  {
    var s1 := Apply(st, GetRead(g));
    assert s1 == Put(st, g, GetLoaded(id, Copy(ENDED), floor));
    t := Apply(s1, GetReturn(g));
  }

  lemma NextReadBegins(st: Sup, id: RunId, l: Local) returns (t: Sup, later: Tid)
    requires Shows(st, id, ENDED, l) && l.registered
    ensures Reaches(st, t) && Has(t, later, GetLoaded(id, Live, l.published)) && Shows(t, id, ENDED, l)
  {
    later := Above(st.tasks.Keys);
    assert later !in st.tasks;
    t := Apply(st, GetCall(later, id));
    ReachesNext(st, GetCall(later, id));
  }

  /** One call returns the stored result, and one begun after it has the live slot. */
  lemma LegReads(st: Sup, g: Tid, id: RunId, floor: Option<View>, l: Local) returns (t: Sup)
    requires Inv(st) && Has(st, g, GetMissed(id, floor)) && Shows(st, id, ENDED, l)
    requires l.registered && l.slot == Some(FRESH) && (l.published.Some? ==> l.published.value == FRESH)
    ensures Reaches(st, t) && ShownEarlier(t, id)
  {
    var s := ReadReturns(st, g, id, floor, l);
    ReachesTwo(st, GetRead(g), GetReturn(g), s);
    var later;
    t, later := NextReadBegins(s, id, l.(published := Some(ENDED)));
    ReachesOn(st, s, t);
  }

  /** A call begun after the run was shown finished is to show it queued. */
  ghost predicate ShownEarlier(t: Sup, id: RunId) {
    exists tid :: Has(t, tid, GetLoaded(id, Live, Some(ENDED))) && Deref(At(t, id), Live) == View(Queued, 0, None)
  }

  /** Up to the point where the cancel holds the run it took out of the queue. */
  lemma UnlistedIsTaken(st: Sup, c: Tid, id: RunId, h: Tid, request: Request, l: Local) returns (t: Sup, g: Tid)
    requires Inv(st) && Unlisted(st, c, id, h, request, l)
    ensures Reaches(st, t) && Inv(t) && Has(t, c, Finishing(id, Copy(FRESH), CANCELLED))
    ensures Has(t, g, GetMissed(id, l.published)) && Shows(t, id, FRESH, InLine(l).(place := With(c)))
  {
    var s1;
    s1, g := LegLooks(st, c, id, h, request, l);
    var s2 := FillSlots(s1);
    ReachesOn(st, s1, s2);
    var s3 := LegWaits(s2, id, h, request, l);
    ReachesOn(st, s2, s3);
    t := LegTakes(s3, c, id, InLine(l));
    ReachesOn(st, s3, t);
  }

  lemma ShownEarlierIsBack(t: Sup, id: RunId)
    requires ShownEarlier(t, id)
    ensures !ReadsForward(t, id)
  {
  }

  lemma UnlistedGoesBack(st: Sup, c: Tid, id: RunId, h: Tid, request: Request, l: Local) returns (t: Sup)
    requires Inv(st) && Unlisted(st, c, id, h, request, l)
    ensures Reaches(st, t) && ShownEarlier(t, id)
  {
    var s1, g := UnlistedIsTaken(st, c, id, h, request, l);
    var at := InLine(l).(place := With(c));
    var s2 := LegStores(s1, c, id, at);
    ReachesOn(st, s1, s2);
    t := LegReads(s2, g, id, l.published, at);
    ReachesOn(st, s2, t);
  }

  // ------------------------------------------------------------- main results

  /**
   A cancel that is not careful can be followed, without any other cancel and
   with limits of at least one slot, by a call that returns the run finished at
   revision 1 and a later call that shows it queued at revision 0.
   */
  lemma CarelessReadsGoBack(st: Sup, c: Tid, id: RunId) returns (t: Sup)
    requires ReadInv(st) && c !in st.tasks && !Careful(st, CancelCall(c, id))
    ensures Reaches(Apply(st, CancelCall(c, id)), t) && ShownEarlier(t, id) && !ReadsForward(t, id)
  {
    var s, h, request, l := CarelessIsUnlisted(st, c, id);
    t := UnlistedGoesBack(s, c, id, h, request, l);
    ShownEarlierIsBack(t, id);
    ReachesOn(Apply(st, CancelCall(c, id)), s, t);
  }

  /** Whatever careful calls follow, no read of the run goes back. */
  ghost predicate Harmless(st: Sup, id: RunId) {
    forall evs :: IsRun(st, evs) && IsCarefulRun(st, evs) ==> ReadsForward(RunAll(st, evs), id)
  }

  /** The exact condition: a cancel is harmless for reads if and only if it is careful. */
  lemma CancelIsHarmlessIff(st: Sup, c: Tid, id: RunId)
    requires ReadInv(st) && c !in st.tasks
    ensures Harmless(Apply(st, CancelCall(c, id)), id) <==> Careful(st, CancelCall(c, id))
  {
    var call := CancelCall(c, id);
    var s := Apply(st, call);
    if Careful(st, call) {
      StepKeepsReads(st, call);
      forall evs | IsRun(s, evs) && IsCarefulRun(s, evs) ensures ReadsForward(RunAll(s, evs), id) {
        RunKeepsReads(s, evs);
        ReadsAreForward(RunAll(s, evs), id);
      }
    } else {
      var t := CarelessReadsGoBack(st, c, id);
      var evs :| IsPlainRun(s, evs) && RunAll(s, evs) == t;
      PlainIsCareful(s, evs);
    }
  }
}
