/**
 Bounded run output as a state machine: any number of sinks append to their
 own files and share one global byte budget. Taking from the budget and
 appending to the file are separate steps, because only the first is done
 under a lock; every interleaving of the drain threads is a run.
 */
module LogSpec {
  import opened Base

  type Byte = bv8

  datatype Budget = Budget(used: nat, limit: nat)

  /** Between the two halves of a write the sink holds a grant. */
  datatype Pc = Idle | Granted(buf: seq<Byte>, want: nat, granted: nat)

  /**
   One stream. `start` is what the file held when it was opened; `offered` is
   every byte handed to the sink so far and `origin` the position in `offered`
   of each byte appended. The last three are history: no step reads them.
   */
  datatype Sink = Sink(
    file: seq<Byte>, written: nat, limit: nat, truncated: bool, pc: Pc,
    start: seq<Byte>, offered: seq<Byte>, origin: seq<nat>)

  function Open(file: seq<Byte>, limit: nat): Sink {
    Sink(file, |file|, limit, |file| >= limit, Idle, file, [], [])
  }

  // ---------------------------------------------------------------- one write

  function Take(b: Budget, n: nat): (Budget, nat) {
    var granted := Min(n, SatSub(b.limit, b.used));
    (b.(used := b.used + granted), granted)
  }

  function Want(s: Sink, buf: seq<Byte>): nat {
    Min(|buf|, SatSub(s.limit, s.written))
  }

  /** The bytes are counted as offered; none of them is kept. */
  function Refuse(s: Sink, buf: seq<Byte>): Sink {
    s.(truncated := s.truncated || buf != [], offered := s.offered + buf)
  }

  /** The first `granted` bytes of `buf` are appended and the rest dropped. */
  function Append(s: Sink, buf: seq<Byte>, granted: nat): Sink
    requires granted <= |buf|
  {
    s.(file := s.file + buf[..granted],
       written := s.written + granted,
       truncated := s.truncated || granted < |buf|,
       pc := Idle,
       offered := s.offered + buf,
       origin := s.origin + seq(granted, i requires 0 <= i => |s.offered| + i))
  }

  /** A whole write, not interrupted. */
  function Write(s: Sink, b: Budget, buf: seq<Byte>): (Sink, Budget) {
    if Want(s, buf) == 0 then (Refuse(s, buf), b)
    else
      var (b', granted) := Take(b, Want(s, buf));
      (Append(s, buf, granted), b')
  }

  /** How much of a chunk both caps have room for. */
  function Room(written: nat, limit: nat, used: nat, most: nat, n: nat): nat {
    var own := if written < limit then limit - written else 0;
    var shared := if used < most then most - used else 0;
    if n <= own && n <= shared then n else if own <= shared then own else shared
  }

  /**
   A write in closed form: the head of the chunk that both caps have room for is
   appended, counted once in the stream and once in the budget, and the stream
   is marked exactly when something was left out.
   */
  lemma WriteAnswers(s: Sink, b: Budget, buf: seq<Byte>)
    ensures var (t, c) := Write(s, b, buf);
            var k := Room(s.written, s.limit, b.used, b.limit, |buf|);
            && k <= |buf| && t.file == s.file + buf[..k] && t.written == s.written + k
            && t.truncated == (s.truncated || k < |buf|) && t.limit == s.limit
            && c == Budget(b.used + k, b.limit)
  {
    if Want(s, buf) == 0 {
      assert s.file + buf[..0] == s.file;
    }
  }

  // -------------------------------------------------------------- interleaving

  datatype Sys = Sys(budget: Budget, sinks: seq<Sink>)

  datatype Event =
    | OpenSink(file: seq<Byte>, limit: nat)
    | Reserve(i: nat, buf: seq<Byte>)
    | Store(i: nat)
    | Free(n: nat)

  predicate Enabled(y: Sys, ev: Event) {
    match ev
    case OpenSink(_, _) => true
    case Reserve(i, _) => i < |y.sinks| && y.sinks[i].pc.Idle?
    case Store(i) =>
      i < |y.sinks| && y.sinks[i].pc.Granted? && y.sinks[i].pc.granted <= |y.sinks[i].pc.buf|
    case Free(_) => true
  }

  function Step(y: Sys, ev: Event): Sys
    requires Enabled(y, ev)
  {
    match ev
    case OpenSink(file, limit) => y.(sinks := y.sinks + [Open(file, limit)])
    case Reserve(i, buf) =>
      var s := y.sinks[i];
      if Want(s, buf) == 0 then y.(sinks := y.sinks[i := Refuse(s, buf)])
      else
        var (b, granted) := Take(y.budget, Want(s, buf));
        Sys(b, y.sinks[i := s.(pc := Granted(buf, Want(s, buf), granted))])
    case Store(i) =>
      var s := y.sinks[i];
      y.(sinks := y.sinks[i := Append(s, s.pc.buf, s.pc.granted)])
    case Free(n) => y.(budget := y.budget.(used := SatSub(y.budget.used, n)))
  }

  ghost predicate IsRun(y: Sys, evs: seq<Event>)
    decreases |evs|
  {
    evs == [] || (Enabled(y, evs[0]) && IsRun(Step(y, evs[0]), evs[1..]))
  }

  ghost function RunAll(y: Sys, evs: seq<Event>): Sys
    requires IsRun(y, evs)
    decreases |evs|
  {
    if evs == [] then y else RunAll(Step(y, evs[0]), evs[1..])
  }

  /** An open stream has what was in its file, counted and marked if that fills it; freed bytes leave the streams alone. */
  lemma OpenAndFree(y: Sys, file: seq<Byte>, limit: nat, n: nat)
    ensures var z := Step(y, OpenSink(file, limit));
            && z.budget == y.budget && |z.sinks| == |y.sinks| + 1 && z.sinks[..|y.sinks|] == y.sinks
            && var s := z.sinks[|y.sinks|];
               s.file == file && s.written == |file| && s.limit == limit && (s.truncated <==> |file| >= limit) && s.pc.Idle?
    ensures var z := Step(y, Free(n));
            && z.sinks == y.sinks && z.budget.limit == y.budget.limit
            && (n <= y.budget.used ==> z.budget.used + n == y.budget.used) && (n >= y.budget.used ==> z.budget.used == 0)
  {
  }

  /** Both halves together, with nothing in between, are the whole write. */
  lemma HalvesMakeAWrite(y: Sys, i: nat, buf: seq<Byte>)
    requires i < |y.sinks| && y.sinks[i].pc.Idle?
    ensures var (s, b) := Write(y.sinks[i], y.budget, buf);
            var half := Step(y, Reserve(i, buf));
            if Want(y.sinks[i], buf) == 0
            then half == Sys(b, y.sinks[i := s])
            else Enabled(half, Store(i)) && Step(half, Store(i)) == Sys(b, y.sinks[i := s])
  {
    var half := Step(y, Reserve(i, buf));
    if Want(y.sinks[i], buf) != 0 {
      assert Step(half, Store(i)).sinks == y.sinks[i := Write(y.sinks[i], y.budget, buf).0];
    }
  }

  // --------------------------------------------------------------- invariants

  /** Nothing was dropped from the middle: what is kept is the head. */
  ghost predicate Head(s: Sink) {
    forall k :: 0 <= k < |s.origin| ==> s.origin[k] == k
  }

  predicate Dropped(s: Sink) {
    |s.origin| < |s.offered|
  }

  /** What holds of one sink, whatever happens to the budget. */
  ghost predicate SinkOk(s: Sink) {
    && s.written == |s.file| && |s.file| <= Max(s.limit, |s.start|)
    && |s.file| == |s.start| + |s.origin| && s.file[..|s.start|] == s.start
    && |s.origin| <= |s.offered|
    && (forall k :: 0 <= k < |s.origin| ==>
          s.origin[k] < |s.offered| && s.file[|s.start| + k] == s.offered[s.origin[k]])
    && (s.truncated <==> Dropped(s) || |s.start| >= s.limit)
    && (s.pc.Granted? ==>
          && 0 < s.pc.want && s.pc.granted <= s.pc.want <= |s.pc.buf|
          && s.pc.want == Want(s, s.pc.buf))
  }

  /** Once a sink has dropped a byte it will not store another one. */
  ghost predicate Closed(s: Sink, b: Budget) {
    && Head(s)
    && (Dropped(s) ==> s.written >= s.limit || b.used >= b.limit)
    && (s.pc.Granted? ==>
          && (Dropped(s) ==> s.pc.granted == 0)
          && (s.pc.granted < s.pc.want ==> b.used >= b.limit))
  }

  /** Bytes appended by these sinks, and granted to them. */
  function Claimed(sinks: seq<Sink>): nat {
    if sinks == [] then 0
    else |sinks[0].origin| + (if sinks[0].pc.Granted? then sinks[0].pc.granted else 0) + Claimed(sinks[1..])
  }

  ghost predicate SinksOk(y: Sys) {
    forall i :: 0 <= i < |y.sinks| ==> SinkOk(y.sinks[i])
  }

  ghost predicate Inv(y: Sys, used: nat) {
    && SinksOk(y)
    && (forall i :: 0 <= i < |y.sinks| ==> Closed(y.sinks[i], y.budget))
    && y.budget.used == used + Claimed(y.sinks)
  }

  lemma {:induction false} ClaimedUpdate(sinks: seq<Sink>, i: nat, s: Sink)
    requires i < |sinks|
    ensures Claimed(sinks[i := s]) + Claimed([sinks[i]]) == Claimed(sinks) + Claimed([s])
  {
    if i == 0 {
      assert sinks[i := s][1..] == sinks[1..];
    } else {
      ClaimedUpdate(sinks[1..], i - 1, s);
      assert sinks[i := s][1..] == sinks[1..][i - 1 := s];
    }
  }

  lemma {:induction false} ClaimedAppend(sinks: seq<Sink>, s: Sink)
    ensures Claimed(sinks + [s]) == Claimed(sinks) + Claimed([s])
  {
    if sinks == [] {
      assert sinks + [s] == [s];
    } else {
      ClaimedAppend(sinks[1..], s);
      assert (sinks + [s])[1..] == sinks[1..] + [s];
    }
  }

  lemma AppendOk(s: Sink)
    requires SinkOk(s) && s.pc.Granted?
    ensures SinkOk(Append(s, s.pc.buf, s.pc.granted))
  {
    var t := Append(s, s.pc.buf, s.pc.granted);
    forall k | 0 <= k < |t.origin|
      ensures t.origin[k] < |t.offered| && t.file[|t.start| + k] == t.offered[t.origin[k]]
    {
      if k < |s.origin| {
        assert s.origin[k] < |s.offered|;
      }
    }
  }

  lemma AppendClosed(s: Sink, b: Budget)
    requires SinkOk(s) && s.pc.Granted? && Closed(s, b)
    ensures Closed(Append(s, s.pc.buf, s.pc.granted), b)
  {
  }

  /** The first half of a write, as it leaves the sink. */
  function Reserved(s: Sink, b: Budget, buf: seq<Byte>): Sink {
    if Want(s, buf) == 0 then Refuse(s, buf)
    else s.(pc := Granted(buf, Want(s, buf), Take(b, Want(s, buf)).1))
  }

  lemma ReservedOk(s: Sink, b: Budget, buf: seq<Byte>)
    requires SinkOk(s) && s.pc.Idle?
    ensures SinkOk(Reserved(s, b, buf))
  {
    var t := Reserved(s, b, buf);
    forall k | 0 <= k < |t.origin|
      ensures t.origin[k] < |t.offered| && t.file[|t.start| + k] == t.offered[t.origin[k]]
    {
      assert s.origin[k] < |s.offered|;
    }
  }

  lemma ReservedClosed(s: Sink, b: Budget, buf: seq<Byte>)
    requires SinkOk(s) && s.pc.Idle? && Closed(s, b)
    ensures Closed(Reserved(s, b, buf), if Want(s, buf) == 0 then b else Take(b, Want(s, buf)).0)
  {
  }

  /** A whole write keeps the sink in order. */
  lemma WriteOk(s: Sink, b: Budget, buf: seq<Byte>)
    requires SinkOk(s) && s.pc.Idle?
    ensures SinkOk(Write(s, b, buf).0)
  {
    ReservedOk(s, b, buf);
    if Want(s, buf) > 0 {
      AppendOk(Reserved(s, b, buf));
      assert Append(Reserved(s, b, buf), buf, Take(b, Want(s, buf)).1) == Write(s, b, buf).0;
    }
  }

  /** No event, not even one that gives bytes back, spoils a sink. */
  lemma StepKeepsSinks(y: Sys, ev: Event)
    requires SinksOk(y) && Enabled(y, ev)
    ensures SinksOk(Step(y, ev))
  {
    if ev.Store? {
      AppendOk(y.sinks[ev.i]);
    } else if ev.Reserve? {
      ReservedOk(y.sinks[ev.i], y.budget, ev.buf);
    }
  }

  /** One sink changes and the budget only fills up. */
  lemma OneSinkKeepsInv(y: Sys, i: nat, s: Sink, b: Budget, used: nat)
    requires Inv(y, used) && i < |y.sinks| && SinkOk(s) && Closed(s, b)
    requires b.limit == y.budget.limit && y.budget.used <= b.used
    requires b.used - y.budget.used == Claimed([s]) - Claimed([y.sinks[i]])
    ensures Inv(Sys(b, y.sinks[i := s]), used)
  {
    ClaimedUpdate(y.sinks, i, s);
  }

  lemma OpenKeepsInv(y: Sys, file: seq<Byte>, limit: nat, used: nat)
    requires Inv(y, used)
    ensures Inv(Step(y, OpenSink(file, limit)), used)
  {
    ClaimedAppend(y.sinks, Open(file, limit));
  }

  lemma ReserveKeepsInv(y: Sys, i: nat, buf: seq<Byte>, used: nat)
    requires Inv(y, used) && Enabled(y, Reserve(i, buf))
    ensures Inv(Step(y, Reserve(i, buf)), used)
  {
    ReservedOk(y.sinks[i], y.budget, buf);
    ReservedClosed(y.sinks[i], y.budget, buf);
    OneSinkKeepsInv(y, i, Reserved(y.sinks[i], y.budget, buf), Step(y, Reserve(i, buf)).budget, used);
  }

  lemma StoreKeepsInv(y: Sys, i: nat, used: nat)
    requires Inv(y, used) && Enabled(y, Store(i))
    ensures Inv(Step(y, Store(i)), used)
  {
    AppendOk(y.sinks[i]);
    AppendClosed(y.sinks[i], y.budget);
    OneSinkKeepsInv(y, i, Append(y.sinks[i], y.sinks[i].pc.buf, y.sinks[i].pc.granted), y.budget, used);
  }

  lemma StepKeepsInv(y: Sys, ev: Event, used: nat)
    requires Inv(y, used) && Enabled(y, ev) && !ev.Free?
    ensures Inv(Step(y, ev), used)
  {
    match ev
    case OpenSink(file, limit) => OpenKeepsInv(y, file, limit, used);
    case Reserve(i, buf) => ReserveKeepsInv(y, i, buf, used);
    case Store(i) => StoreKeepsInv(y, i, used);
  }

  lemma {:induction false} RunKeepsInv(y: Sys, evs: seq<Event>, used: nat)
    requires Inv(y, used) && IsRun(y, evs)
    requires forall k :: 0 <= k < |evs| ==> !evs[k].Free?
    ensures Inv(RunAll(y, evs), used)
    decreases |evs|
  {
    if evs != [] {
      StepKeepsInv(y, evs[0], used);
      RunKeepsInv(Step(y, evs[0]), evs[1..], used);
    }
  }

  lemma {:induction false} RunKeepsSinks(y: Sys, evs: seq<Event>)
    requires SinksOk(y) && IsRun(y, evs)
    ensures SinksOk(RunAll(y, evs))
    decreases |evs|
  {
    if evs != [] {
      StepKeepsSinks(y, evs[0]);
      RunKeepsSinks(Step(y, evs[0]), evs[1..]);
    }
  }

  // ------------------------------------------------------------- main results

  /**
   Head retention. With nothing given back, and any number of sinks
   interleaving on one budget, every file is its old content followed by a
   prefix of the bytes offered to its stream.
   */
  lemma FilesAreHeads(budget: Budget, evs: seq<Event>, i: nat)
    requires IsRun(Sys(budget, []), evs) && i < |RunAll(Sys(budget, []), evs).sinks|
    requires forall k :: 0 <= k < |evs| ==> !evs[k].Free?
    ensures var s := RunAll(Sys(budget, []), evs).sinks[i];
            |s.origin| <= |s.offered| && s.file == s.start + s.offered[..|s.origin|]
  {
    RunKeepsInv(Sys(budget, []), evs, budget.used);
    var y := RunAll(Sys(budget, []), evs);
    assert SinkOk(y.sinks[i]) && Closed(y.sinks[i], y.budget);
    HeadIsPrefix(y.sinks[i]);
  }

  lemma HeadIsPrefix(s: Sink)
    requires SinkOk(s) && Head(s)
    ensures s.file == s.start + s.offered[..|s.origin|]
  {
    assert s.file == s.file[..|s.start|] + s.file[|s.start|..];
    forall k | 0 <= k < |s.origin| ensures s.file[|s.start|..][k] == s.offered[..|s.origin|][k] {
      assert s.origin[k] == k;
    }
    assert s.file[|s.start|..] == s.offered[..|s.origin|];
  }

  /** A stream file never outgrows its cap, bytes given back or not. */
  lemma FilesStayWithinLimit(budget: Budget, evs: seq<Event>, i: nat)
    requires IsRun(Sys(budget, []), evs) && i < |RunAll(Sys(budget, []), evs).sinks|
    ensures var s := RunAll(Sys(budget, []), evs).sinks[i];
            |s.file| <= Max(s.limit, |s.start|)
  {
    RunKeepsSinks(Sys(budget, []), evs);
    assert SinkOk(RunAll(Sys(budget, []), evs).sinks[i]);
  }

  /** The budget counts exactly what was appended and is about to be. */
  lemma BudgetCountsBytes(budget: Budget, evs: seq<Event>)
    requires IsRun(Sys(budget, []), evs)
    requires forall k :: 0 <= k < |evs| ==> !evs[k].Free?
    ensures var y := RunAll(Sys(budget, []), evs);
            y.budget.used == budget.used + Claimed(y.sinks) && y.budget.used <= Max(budget.used, budget.limit)
  {
    RunKeepsInv(Sys(budget, []), evs, budget.used);
    BudgetIsBounded(Sys(budget, []), evs, Max(budget.used, budget.limit));
  }

  lemma {:induction false} BudgetIsBounded(y: Sys, evs: seq<Event>, most: nat)
    requires IsRun(y, evs) && y.budget.used <= most && y.budget.limit <= most
    ensures RunAll(y, evs).budget.used <= most
    decreases |evs|
  {
    if evs != [] {
      BudgetIsBounded(Step(y, evs[0]), evs[1..], most);
    }
  }

  /** A fresh stream with a positive cap is marked exactly when it lost a byte. */
  lemma TruncatedMeansLoss(budget: Budget, evs: seq<Event>, i: nat)
    requires IsRun(Sys(budget, []), evs) && i < |RunAll(Sys(budget, []), evs).sinks|
    requires var s := RunAll(Sys(budget, []), evs).sinks[i]; s.start == [] && s.limit > 0
    ensures var s := RunAll(Sys(budget, []), evs).sinks[i];
            s.truncated <==> |s.file| < |s.offered|
  {
    RunKeepsSinks(Sys(budget, []), evs);
    assert SinkOk(RunAll(Sys(budget, []), evs).sinks[i]);
  }

  // --------------------------------------------------- bytes given back (prune)

  /**
   Giving bytes back can reopen a truncated stream. A write keeps the file a
   head exactly when nothing was dropped before it or it stores nothing.
   */
  lemma WriteKeepsHeadIff(s: Sink, b: Budget, buf: seq<Byte>)
    requires SinkOk(s) && s.pc.Idle? && Head(s)
    ensures Head(Write(s, b, buf).0)
       <==> !Dropped(s) || |buf| == 0 || s.written >= s.limit || b.used >= b.limit
  {
    var t := Write(s, b, buf).0;
    if Want(s, buf) > 0 && b.used < b.limit {
      assert |t.origin| > |s.origin|;
      assert t.origin[|s.origin|] == |s.offered|;
    }
  }

  /** "ab" fills the budget, a byte is pruned elsewhere, and "c" joins the "a". */
  lemma PrunedByteReopensStream(a: Byte, b: Byte, c: Byte)
    ensures var y := Sys(Budget(0, 1), [Open([], 10)]);
            var evs := [Reserve(0, [a, b]), Store(0), Free(1), Reserve(0, [c]), Store(0)];
            && IsRun(y, evs) && |RunAll(y, evs).sinks| == 1
            && RunAll(y, evs).sinks[0].file == [a, c]
            && RunAll(y, evs).sinks[0].offered == [a, b, c]
  {
    var y := Sys(Budget(0, 1), [Open([], 10)]);
    var e1, e2, e3, e4, e5 := Reserve(0, [a, b]), Store(0), Free(1), Reserve(0, [c]), Store(0);
    var y1 := Step(y, e1);
    var y2 := Step(y1, e2);
    var y3 := Step(y2, e3);
    var y4 := Step(y3, e4);
    var y5 := Step(y4, e5);
    assert y2.sinks[0].file == [a] && y5.sinks[0].file == [a, c] && y5.sinks[0].offered == [a, b, c];
    assert IsRun(y4, [e5]) && RunAll(y4, [e5]) == y5;
    assert [e4, e5][1..] == [e5];
    assert IsRun(y3, [e4, e5]) && RunAll(y3, [e4, e5]) == y5;
    assert [e3, e4, e5][1..] == [e4, e5];
    assert IsRun(y2, [e3, e4, e5]) && RunAll(y2, [e3, e4, e5]) == y5;
    assert [e2, e3, e4, e5][1..] == [e3, e4, e5];
    assert IsRun(y1, [e2, e3, e4, e5]) && RunAll(y1, [e2, e3, e4, e5]) == y5;
    assert [e1, e2, e3, e4, e5][1..] == [e2, e3, e4, e5];
  }

  // ------------------------------------------------------------------ reading

  datatype Chunk = Chunk(data: seq<Byte>, next: nat, eof: bool)

  /** One bounded read; a file that is not there reads as finished and empty. */
  function ReadChunk(file: Option<seq<Byte>>, cursor: nat, most: nat): Chunk {
    if file.None? then Chunk([], 0, true)
    else
      var from := Min(cursor, |file.value|);
      var take := Min(|file.value| - from, most);
      Chunk(file.value[from..from + take], from + take, from + take >= |file.value|)
  }

  /** A client that reads on from where it was, while the file may grow. */
  function ReadOn(files: seq<seq<Byte>>, cursor: nat, most: nat): (seq<Byte>, nat) {
    if files == [] then ([], cursor)
    else
      var c := ReadChunk(Some(files[0]), cursor, most);
      var (rest, next) := ReadOn(files[1..], c.next, most);
      (c.data + rest, next)
  }

  ghost predicate Growing(files: seq<seq<Byte>>) {
    forall i, j :: 0 <= i <= j < |files| ==> files[i] <= files[j]
  }

  /**
   Cursors are stable: the chunks of any number of reads, taken while the file
   grows, are together the bytes of the last file between the two cursors.
   */
  lemma {:induction false} ChunksJoin(files: seq<seq<Byte>>, cursor: nat, most: nat)
    requires files != [] && Growing(files) && cursor <= |files[0]|
    ensures var (data, next) := ReadOn(files, cursor, most);
            var last := files[|files| - 1];
            cursor <= next <= |last| && data == last[cursor..next]
    decreases |files|
  {
    var c := ReadChunk(Some(files[0]), cursor, most);
    var last := files[|files| - 1];
    ChunkIsPart(files[0], last, cursor, most);
    if |files| > 1 {
      assert files[0] <= files[1];
      ChunksJoin(files[1..], c.next, most);
      PartsJoin(last, cursor, c.next, ReadOn(files[1..], c.next, most).1);
    } else {
      assert ReadOn(files[1..], c.next, most) == ([], c.next);
    }
  }

  /** A chunk of an earlier file is that part of any later one. */
  lemma ChunkIsPart(file: seq<Byte>, last: seq<Byte>, cursor: nat, most: nat)
    requires file <= last && cursor <= |file|
    ensures var c := ReadChunk(Some(file), cursor, most);
            cursor <= c.next <= |file| && c.data == last[cursor..c.next]
  {
    var c := ReadChunk(Some(file), cursor, most);
    assert last[cursor..c.next] == last[..|file|][cursor..c.next];
  }

  lemma PartsJoin(s: seq<Byte>, a: nat, b: nat, c: nat)
    requires a <= b <= c <= |s|
    ensures s[a..b] + s[b..c] == s[a..c]
  {
  }

  function Copies(file: seq<Byte>, n: nat): seq<seq<Byte>> {
    if n == 0 then [] else [file] + Copies(file, n - 1)
  }

  /** Enough reads of a finished file reach its end. */
  lemma {:induction false} ReadsReachTheEnd(file: seq<Byte>, n: nat, cursor: nat, most: nat)
    requires cursor <= |file| && most > 0 && n * most >= |file| - cursor
    ensures ReadOn(Copies(file, n), cursor, most) == (file[cursor..], |file|)
    decreases n
  {
    if n == 0 {
      assert file[cursor..] == [];
    } else {
      var c := ReadChunk(Some(file), cursor, most);
      assert Copies(file, n)[1..] == Copies(file, n - 1);
      assert (n - 1) * most == n * most - most >= |file| - c.next by {
        if c.next == |file| {
          assert (n - 1) * most >= 0;
        }
      }
      ReadsReachTheEnd(file, n - 1, c.next, most);
      assert c.data + file[c.next..] == file[cursor..];
    }
  }

  /** A read starts at the cursor or at the end, takes as much as there is up to the limit, and says where it stopped. */
  lemma ReadAnswers(file: Option<seq<Byte>>, cursor: nat, most: nat)
    ensures var c := ReadChunk(file, cursor, most);
            if file.None? then c == Chunk([], 0, true)
            else
              var start := if cursor <= |file.value| then cursor else |file.value|;
              && |c.data| <= most && c.next == start + |c.data| <= |file.value|
              && c.data == file.value[start..c.next]
              && (|c.data| < most ==> c.next == |file.value|)
              && (c.eof <==> c.next == |file.value|)
  {
  }

  /** `eof` is told exactly when the next read would have nothing to add. */
  lemma EofMeansNothingLeft(file: Option<seq<Byte>>, cursor: nat, most: nat, again: nat)
    requires again > 0
    ensures var c := ReadChunk(file, cursor, most);
            c.eof <==> ReadChunk(file, c.next, again).data == []
  {
  }

  lemma StepAppends(y: Sys, ev: Event, i: nat)
    requires Enabled(y, ev) && i < |y.sinks|
    ensures i < |Step(y, ev).sinks| && y.sinks[i].file <= Step(y, ev).sinks[i].file
  {
  }

  /** Files only grow, also when bytes are given back: cursors stay valid. */
  lemma {:induction false} FilesOnlyGrow(y: Sys, evs: seq<Event>, i: nat)
    requires IsRun(y, evs) && i < |y.sinks|
    ensures i < |RunAll(y, evs).sinks| && y.sinks[i].file <= RunAll(y, evs).sinks[i].file
    decreases |evs|
  {
    if evs != [] {
      StepAppends(y, evs[0], i);
      FilesOnlyGrow(Step(y, evs[0]), evs[1..], i);
    }
  }

  /**
   A client that reads a stream while the drain threads go on writing gets
   exactly what a single read at the end would give it, piece by piece.
   */
  lemma {:induction false} ReadsWhileWriting(y: Sys, runs: seq<seq<Event>>, i: nat, cursor: nat, most: nat)
    requires i < |y.sinks| && cursor <= |y.sinks[i].file| && AreRuns(y, runs)
    ensures var files := Snapshots(y, runs, i);
            var (data, next) := ReadOn(files, cursor, most);
            cursor <= next <= |files[|files| - 1]| && data == files[|files| - 1][cursor..next]
  {
    SnapshotsGrow(y, runs, i);
    ChunksJoin(Snapshots(y, runs, i), cursor, most);
  }

  /** The threads run for a while between any two reads. */
  ghost predicate AreRuns(y: Sys, runs: seq<seq<Event>>)
    decreases |runs|
  {
    runs == [] || (IsRun(y, runs[0]) && AreRuns(RunAll(y, runs[0]), runs[1..]))
  }

  /** The file of sink `i` at each read. */
  ghost function Snapshots(y: Sys, runs: seq<seq<Event>>, i: nat): (files: seq<seq<Byte>>)
    requires i < |y.sinks| && AreRuns(y, runs)
    ensures files != [] && files[0] == y.sinks[i].file
    decreases |runs|
  {
    if runs == [] then [y.sinks[i].file]
    else
      FilesOnlyGrow(y, runs[0], i);
      [y.sinks[i].file] + Snapshots(RunAll(y, runs[0]), runs[1..], i)
  }

  lemma {:induction false} SnapshotsGrow(y: Sys, runs: seq<seq<Event>>, i: nat)
    requires i < |y.sinks| && AreRuns(y, runs)
    ensures Growing(Snapshots(y, runs, i))
    decreases |runs|
  {
    if runs != [] {
      FilesOnlyGrow(y, runs[0], i);
      var rest := Snapshots(RunAll(y, runs[0]), runs[1..], i);
      SnapshotsGrow(RunAll(y, runs[0]), runs[1..], i);
      GrowingCons(y.sinks[i].file, rest);
    }
  }

  lemma GrowingCons(first: seq<Byte>, rest: seq<seq<Byte>>)
    requires rest != [] && Growing(rest) && first <= rest[0]
    ensures Growing([first] + rest)
  {
    forall i, j | 0 <= i <= j < |[first] + rest| ensures ([first] + rest)[i] <= ([first] + rest)[j] {
      if i == 0 && j > 0 {
        assert rest[0] <= rest[j - 1];
      } else if i > 0 {
        assert rest[i - 1] <= rest[j - 1];
      }
    }
  }
}
