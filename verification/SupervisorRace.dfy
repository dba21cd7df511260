/**
 A complete interleaving in which a later read shows an earlier state: a cancel
 that reads the row before `start` has registered the run finishes a copy of
 it, and the live slot stays queued until it is unregistered.
 */
module SupervisorRace {
  import opened Base
  import opened RunTableSpec
  import opened SupervisorSpec
  import S = SchedulerSpec

  const LIMITS: S.Limits := S.Limits(1, 1, 8, 60, 100, 60)
  const ASKED: Request := Request("p", 10, None)
  const REFUSED: RunResult := RunResult(SpawnFailed, None, None, None, 0, 0, Complete, None)
  const CANCELLED: RunResult := RunResult(Cancelled, None, None, None, 0, 0, Complete, None)

  /** A first run takes the only slot. */
  function Busy(): Sup {
    Sup(S.State(LIMITS, [S.Running(0, "p", 10)], [], []),
        Table(map[0 := Row("a", "f", 0, Queued, Pending, 0, None)], 1),
        map[0 := Local(Some(FRESH), true, false, With(0), true, 0, None)],
        map[0 := Spawning([0], true)])
  }

  /** A second one waits; a cancel and a read looked before it was registered. */
  function Raced(): Sup {
    Sup(S.State(LIMITS, [S.Running(0, "p", 10)], [S.Queued(1, "p", 10, 0, 60)], []),
        Table(map[0 := Row("a", "f", 0, Queued, Pending, 0, None),
                  1 := Row("b", "f", 0, Queued, Pending, 0, None)], 2),
        map[0 := Local(Some(FRESH), true, false, With(0), true, 0, None),
            1 := Local(Some(FRESH), true, false, InQueue, false, 0, None)],
        map[0 := Spawning([0], true),
            2 := CancelLoaded(1, Copy(FRESH)),
            3 := GetMissed(1, None)])
  }

  lemma RunCons(st: Sup, ev: Event, evs: seq<Event>)
    requires Enabled(st, ev) && IsRun(Apply(st, ev), evs)
    ensures IsRun(st, [ev] + evs) && RunAll(st, [ev] + evs) == RunAll(Apply(st, ev), evs)
  {
    assert ([ev] + evs)[1..] == evs;
  }

  /** `t` comes after the two events. */
  ghost predicate After(st: Sup, a: Event, b: Event, t: Sup) {
    Enabled(st, a) && Enabled(Apply(st, a), b) && t == Apply(Apply(st, a), b)
  }

  lemma RunTwo(st: Sup, a: Event, b: Event, t: Sup, rest: seq<Event>)
    requires After(st, a, b, t) && IsRun(t, rest)
    ensures IsRun(st, [a, b] + rest) && RunAll(st, [a, b] + rest) == RunAll(t, rest)
  {
    RunCons(Apply(st, a), b, rest);
    RunCons(st, a, [b] + rest);
    assert [a] + ([b] + rest) == [a, b] + rest;
  }

  lemma RunBoth(st: Sup, a: Event, b: Event, t: Sup)
    requires After(st, a, b, t)
    ensures IsRun(st, [a, b]) && RunAll(st, [a, b]) == t
  {
    RunTwo(st, a, b, t, []);
    assert [a, b] + [] == [a, b];
  }

  lemma {:induction false} RunJoin(st: Sup, a: seq<Event>, b: seq<Event>)
    requires IsRun(st, a) && IsRun(RunAll(st, a), b)
    ensures IsRun(st, a + b) && RunAll(st, a + b) == RunAll(RunAll(st, a), b)
    decreases |a|
  {
    if a == [] {
      assert a + b == b;
    } else {
      RunJoin(Apply(st, a[0]), a[1..], b);
      RunCons(st, a[0], a[1..] + b);
      assert a + b == [a[0]] + (a[1..] + b);
    }
  }

  function Filling(): seq<Event> {
    [Insert(0, "a", "f", ASKED, 0), Register(0), SubmitRun(0, 0, REFUSED)]
  }

  lemma ReachBusy(st: Sup)
    requires st == Sup(S.New(LIMITS), Table(map[], 0), map[], map[])
    ensures IsRun(st, Filling()) && RunAll(st, Filling()) == Busy()
  {
    var s1 := Apply(st, Filling()[0]);
    assert s1.tasks == map[0 := Inserted(0, ASKED)];
    var s2 := Apply(s1, Filling()[1]);
    var s3 := Apply(s2, Filling()[2]);
    assert s3 == Busy();
    RunCons(s2, Filling()[2], []);
    RunCons(s1, Filling()[1], [Filling()[2]]);
    RunCons(st, Filling()[0], [Filling()[1], Filling()[2]]);
  }

  // A cancel and a read of the second run, before it is registered.

  function Missing(): seq<Event> {
    [Insert(1, "b", "f", ASKED, 0), CancelCall(2, 1)]
  }

  /** The second run is inserted, and these calls look for it. */
  function Looked(calls: map<Tid, Task>): Sup {
    Sup(S.State(LIMITS, [S.Running(0, "p", 10)], [], []),
        Table(map[0 := Row("a", "f", 0, Queued, Pending, 0, None),
                  1 := Row("b", "f", 0, Queued, Pending, 0, None)], 2),
        map[0 := Local(Some(FRESH), true, false, With(0), true, 0, None),
            1 := Local(None, false, false, With(1), false, 0, None)],
        map[0 := Spawning([0], true), 1 := Inserted(1, ASKED)] + calls)
  }

  const MISSED: map<Tid, Task> := map[2 := CancelMissed(1)]
  const FOUND: map<Tid, Task> := map[2 := CancelLoaded(1, Copy(FRESH)), 3 := GetMissed(1, None)]

  lemma ReachMissed()
    ensures IsRun(Busy(), Missing()) && RunAll(Busy(), Missing()) == Looked(MISSED)
  {
    ReachMissedSteps();
    RunBoth(Busy(), Missing()[0], Missing()[1], Looked(MISSED));
  }

  lemma ReachMissedSteps()
    ensures After(Busy(), Missing()[0], Missing()[1], Looked(MISSED))
  {
    assert Apply(Apply(Busy(), Missing()[0]), Missing()[1]) == Looked(MISSED);
  }

  function Looking(): seq<Event> {
    [CancelRead(2), GetCall(3, 1)]
  }

  lemma ReachLooked()
    ensures IsRun(Looked(MISSED), Looking()) && RunAll(Looked(MISSED), Looking()) == Looked(FOUND)
  {
    ReachLookedSteps();
    RunBoth(Looked(MISSED), Looking()[0], Looking()[1], Looked(FOUND));
  }

  lemma ReachLookedSteps()
    ensures After(Looked(MISSED), Looking()[0], Looking()[1], Looked(FOUND))
  {
    assert Apply(Apply(Looked(MISSED), Looking()[0]), Looking()[1]) == Looked(FOUND);
  }

  function Queueing(): seq<Event> {
    [Register(1), SubmitRun(1, 0, REFUSED)]
  }

  lemma ReachRaced()
    ensures IsRun(Looked(FOUND), Queueing()) && RunAll(Looked(FOUND), Queueing()) == Raced()
  {
    ReachRacedSteps();
    RunBoth(Looked(FOUND), Queueing()[0], Queueing()[1], Raced());
  }

  lemma ReachRacedSteps()
    ensures After(Looked(FOUND), Queueing()[0], Queueing()[1], Raced())
  {
    assert Apply(Apply(Looked(FOUND), Queueing()[0]), Queueing()[1]) == Raced();
  }

  // The cancel finishes its copy.

  function Taking(): seq<Event> {
    [CancelCheck(2), CancelTake(2, CANCELLED)]
  }

  function Withdrawn(): Sup {
    Sup(S.State(LIMITS, [S.Running(0, "p", 10)], [], []),
        Table(map[0 := Row("a", "f", 0, Queued, Pending, 0, None),
                  1 := Row("b", "f", 0, Queued, Pending, 0, None)], 2),
        map[0 := Local(Some(FRESH), true, false, With(0), true, 0, None),
            1 := Local(Some(FRESH), true, false, With(2), false, 0, None)],
        map[0 := Spawning([0], true),
            2 := Finishing(1, Copy(FRESH), CANCELLED),
            3 := GetMissed(1, None)])
  }

  lemma ReachTaken()
    ensures IsRun(Raced(), Taking()) && RunAll(Raced(), Taking()) == Withdrawn()
  {
    ReachTakenSteps();
    RunBoth(Raced(), Taking()[0], Taking()[1], Withdrawn());
  }

  lemma ReachTakenSteps()
    ensures After(Raced(), Taking()[0], Taking()[1], Withdrawn())
  {
    assert Apply(Apply(Raced(), Taking()[0]), Taking()[1]) == Withdrawn();
  }

  function Finishes(): seq<Event> {
    [EnterFinish(2), Store(2)]
  }

  function Stored(): Sup {
    Sup(S.State(LIMITS, [S.Running(0, "p", 10)], [], []),
        Table(map[0 := Row("a", "f", 0, Queued, Pending, 0, None),
                  1 := Row("b", "f", 0, Finished, Complete, 1, Some(CANCELLED))], 2),
        map[0 := Local(Some(FRESH), true, false, With(0), true, 0, None),
            1 := Local(Some(FRESH), true, false, With(2), false, 0, None)],
        map[0 := Spawning([0], true),
            2 := Unregistering(1, CANCELLED),
            3 := GetMissed(1, None)])
  }

  lemma ReachStored()
    ensures IsRun(Withdrawn(), Finishes()) && RunAll(Withdrawn(), Finishes()) == Stored()
  {
    ReachStoredSteps();
    RunBoth(Withdrawn(), Finishes()[0], Finishes()[1], Stored());
  }

  lemma ReachStoredSteps()
    ensures After(Withdrawn(), Finishes()[0], Finishes()[1], Stored())
  {
    assert Apply(Apply(Withdrawn(), Finishes()[0]), Finishes()[1]) == Stored();
  }

  function Reading(): seq<Event> {
    [GetRead(3), GetReturn(3)]
  }

  const ENDED: View := View(Finished, 1, Some(CANCELLED))

  /** The early read has returned the finished run. */
  function Shown(): Sup {
    Stored().(
      local := Stored().local[1 := Local(Some(FRESH), true, false, With(2), false, 0, Some(ENDED))],
      tasks := map[0 := Spawning([0], true), 2 := Unregistering(1, CANCELLED)])
  }

  lemma ReachShown()
    ensures IsRun(Stored(), Reading()) && RunAll(Stored(), Reading()) == Shown()
  {
    ReachShownSteps();
    RunBoth(Stored(), Reading()[0], Reading()[1], Shown());
  }

  lemma ReachShownSteps()
    ensures After(Stored(), Reading()[0], Reading()[1], Shown())
  {
    assert Apply(Apply(Stored(), Reading()[0]), Reading()[1]) == Shown();
  }

  function Again(): seq<Event> {
    [GetCall(4, 1)]
  }

  lemma ReadAgain()
    ensures IsRun(Shown(), Again())
    ensures var t := RunAll(Shown(), Again());
            && 4 in t.tasks && t.tasks[4] == GetLoaded(1, Live, Some(ENDED))
            && 1 in t.local && t.local[1].slot == Some(FRESH)
  {
    RunCons(Shown(), Again()[0], []);
  }

  /** The rest of the run, once both calls have looked and the run waits. */
  function Ending(): seq<Event> {
    Taking() + (Finishes() + (Reading() + Again()))
  }

  /** A call that began after the run was shown finished is to show it queued. */
  ghost predicate GoesBack(t: Sup) {
    && 4 in t.tasks && t.tasks[4].GetLoaded? && t.tasks[4].floor == Some(ENDED)
    && Deref(At(t, 1), t.tasks[4].ref) == View(Queued, 0, None)
  }

  lemma ReachEnd()
    ensures IsRun(Raced(), Ending()) && GoesBack(RunAll(Raced(), Ending()))
  {
    ReachTaken();
    ReachStored();
    ReachShown();
    ReadAgain();
    RunJoin(Stored(), Reading(), Again());
    RunJoin(Withdrawn(), Finishes(), Reading() + Again());
    RunJoin(Raced(), Taking(), Finishes() + (Reading() + Again()));
  }

  function Beginning(): seq<Event> {
    Filling() + (Missing() + (Looking() + Queueing()))
  }

  lemma ReachRace(st: Sup)
    requires st == Sup(S.New(LIMITS), Table(map[], 0), map[], map[])
    ensures IsRun(st, Beginning()) && RunAll(st, Beginning()) == Raced()
  {
    ReachBusy(st);
    ReachMissed();
    ReachLooked();
    ReachRaced();
    RunJoin(Looked(MISSED), Looking(), Queueing());
    RunJoin(Busy(), Missing(), Looking() + Queueing());
    RunJoin(st, Filling(), Missing() + (Looking() + Queueing()));
  }

  /**
   From an empty supervisor: one call returns the run finished at revision 1,
   and a call begun after it is about to return the run queued at revision 0.
   */
  lemma EarlyCancelReadsGoBack()
    ensures var st := Sup(S.New(LIMITS), Table(map[], 0), map[], map[]);
            var evs := Beginning() + Ending();
            Init(st) && IsRun(st, evs) && GoesBack(RunAll(st, evs))
  {
    var st := Sup(S.New(LIMITS), Table(map[], 0), map[], map[]);
    ReachRace(st);
    ReachEnd();
    RunJoin(st, Beginning(), Ending());
  }
}
