/** The global budget and the log sinks as the objects that edit themselves. */
module LogObject {
  import opened Base
  import L = LogSpec

  /** Bytes on disk across all run logs, shared by every sink. */
  class GlobalBudget {
    var used: U64
    const limit: U64

    constructor (limit: U64, used: U64)
      ensures this.limit == limit && this.used == used
    {
      this.limit := limit;
      this.used := used;
    }

    function Value(): L.Budget
      reads this
    {
      L.Budget(used, limit)
    }

    /** The counter never overflows, whatever it starts from. */
    method Take(n: U64) returns (granted: U64)
      modifies this`used
      ensures (Value(), granted) == L.Take(old(Value()), n)
      ensures used == old(used) + granted && granted <= n
      ensures granted == n || used == Max(old(used), limit)
    {
      var room := SatSub(limit, used);
      granted := Min(n, room);
      used := used + granted;
    }

    method Release(n: U64)
      modifies this`used
      ensures Value() == old(Value()).(used := SatSub(old(used), n))
    {
      used := SatSub(used, n);
    }
  }

  datatype Stream = Stdout | Stderr

  /** What clients are told about the two streams of a run. */
  class LogState {
    var stdoutBytes: nat
    var stdoutTruncated: bool
    var stderrBytes: nat
    var stderrTruncated: bool

    constructor ()
      ensures Shown(Stdout) == (0, false) && Shown(Stderr) == (0, false)
    {
      stdoutBytes, stdoutTruncated, stderrBytes, stderrTruncated := 0, false, 0, false;
    }

    function Shown(stream: Stream): (nat, bool)
      reads this
    {
      if stream.Stdout? then (stdoutBytes, stdoutTruncated) else (stderrBytes, stderrTruncated)
    }
  }

  function Other(stream: Stream): Stream {
    if stream.Stdout? then Stderr else Stdout
  }

  /** The writer side of one stream. `Sink()` is its value in LogSpec. */
  class LogSink {
    var file: seq<L.Byte>
    var written: U64
    var truncated: bool
    const limit: U64
    const stream: Stream
    const state: LogState
    const budget: GlobalBudget
    ghost var start: seq<L.Byte>
    ghost var offered: seq<L.Byte>
    ghost var origin: seq<nat>

    ghost function Sink(): L.Sink
      reads this
    {
      L.Sink(file, written, limit, truncated, L.Idle, start, offered, origin)
    }

    ghost predicate Valid()
      reads this, state
    {
      L.SinkOk(Sink()) && state.Shown(stream) == (written, truncated)
    }

    /** Bytes that are already there count against the cap of the stream. */
    constructor (existing: seq<L.Byte>, stream: Stream, limit: U64, state: LogState, budget: GlobalBudget)
      requires |existing| < WORD
      modifies state
      ensures Valid() && Sink() == L.Open(existing, limit) && this.limit == limit
      ensures this.state == state && this.budget == budget && this.stream == stream
      ensures state.Shown(Other(stream)) == old(state.Shown(Other(stream)))
    {
      this.file := existing;
      this.written := |existing|;
      this.truncated := |existing| >= limit;
      this.limit := limit;
      this.stream := stream;
      this.state := state;
      this.budget := budget;
      this.start := existing;
      this.offered := [];
      this.origin := [];
      new;
      Publish();
    }

    method Publish()
      modifies state
      ensures state.Shown(stream) == (written, truncated)
      ensures state.Shown(Other(stream)) == old(state.Shown(Other(stream)))
    {
      match stream
      case Stdout =>
        state.stdoutBytes := written;
        state.stdoutTruncated := truncated;
      case Stderr =>
        state.stderrBytes := written;
        state.stderrTruncated := truncated;
    }

    /** Append what the two caps allow; the rest is dropped and marked. */
    method WriteAllBounded(buf: seq<L.Byte>)
      requires Valid() && |buf| < WORD
      modifies this, state, budget`used
      ensures Valid()
      ensures (Sink(), budget.Value()) == L.Write(old(Sink()), old(budget.Value()), buf)
      ensures state.Shown(Other(stream)) == old(state.Shown(Other(stream)))
    {
      ghost var was := Sink();
      ghost var had := budget.Value();
      var room := SatSub(limit, written);
      var want := Min(|buf|, room);
      if want == 0 {
        if buf != [] {
          truncated := true;
          offered := offered + buf;
          Publish();
        }
        assert Sink() == L.Refuse(was, buf);
        L.WriteOk(was, had, buf);
        return;
      }
      var granted := budget.Take(want);
      if granted < want {
        truncated := true;
      }
      if granted > 0 {
        file := file + buf[..granted];
        written := written + granted;
      }
      if granted < |buf| {
        truncated := true;
      }
      Record(was, buf, granted);
      Publish();
      L.WriteOk(was, had, buf);
      assert Sink() == L.Write(was, had, buf).0;
    }

    /** The history of a write. */
    ghost method Record(was: L.Sink, buf: seq<L.Byte>, granted: nat)
      requires granted <= |buf|
      requires file == was.file + buf[..granted] && written == was.written + granted && limit == was.limit
      requires truncated == (was.truncated || granted < |buf|)
      requires start == was.start && offered == was.offered && origin == was.origin
      modifies this`offered, this`origin
      ensures Sink() == L.Append(was, buf, granted)
    {
      var t := L.Append(was, buf, granted);
      offered := t.offered;
      origin := t.origin;
    }
  }

  /**
   The thread that drains a pipe: every chunk goes to the sink until the run
   is over. With the budget to itself it stores the head of the chunks, up to
   the smaller of the two caps.
   */
  method Drain(sink: LogSink, chunks: seq<seq<L.Byte>>, over: nat)
    requires sink.Valid() && sink.start == [] && sink.offered == [] && sink.limit > 0
    requires forall k :: 0 <= k < |chunks| ==> |chunks[k]| < WORD
    modifies sink, sink.state, sink.budget`used
    ensures sink.Valid()
    ensures var all := Joined(chunks[..Min(over, |chunks|)]);
            var room := Min(sink.limit, SatSub(sink.budget.limit, old(sink.budget.used)));
            sink.file == all[..Min(|all|, room)]
  {
    var i := 0;
    ghost var used := sink.budget.used;
    ghost var fed: seq<L.Byte> := [];
    while i < |chunks|
      invariant 0 <= i <= |chunks|
      invariant sink.Valid() && L.Closed(sink.Sink(), sink.budget.Value()) && sink.start == []
      invariant fed == Joined(chunks[..Min(over, i)]) && sink.offered == fed
      invariant sink.budget.used == used + |sink.origin| <= Max(used, sink.budget.limit)
    {
      if i < over {
        WriteCloses(sink.Sink(), sink.budget.Value(), chunks[i], used);
        sink.WriteAllBounded(chunks[i]);
        JoinedSnoc(chunks[..i], chunks[i]);
        assert chunks[..i + 1] == chunks[..i] + [chunks[i]];
        fed := fed + chunks[i];
      }
      i := i + 1;
    }
    KeptLength(sink.Sink(), sink.budget.Value(), used);
    assert chunks[..Min(over, |chunks|)] == chunks[..Min(over, i)];
  }

  /** A write alone with its budget leaves the sink closed or short of nothing. */
  lemma WriteCloses(s: L.Sink, b: L.Budget, buf: seq<L.Byte>, used: nat)
    requires L.SinkOk(s) && s.pc.Idle? && L.Closed(s, b) && b.used == used + |s.origin| <= Max(used, b.limit)
    ensures var (t, c) := L.Write(s, b, buf);
            L.Closed(t, c) && c.used == used + |t.origin| <= Max(used, c.limit)
            && t.offered == s.offered + buf && t.start == s.start
  {
    var r := L.Reserved(s, b, buf);
    L.ReservedOk(s, b, buf);
    L.ReservedClosed(s, b, buf);
    if r.pc.Granted? {
      L.AppendClosed(r, L.Take(b, L.Want(s, buf)).0);
    }
  }

  /** How much of a fresh stream such writes have kept. */
  lemma KeptLength(s: L.Sink, b: L.Budget, used: nat)
    requires L.SinkOk(s) && s.pc.Idle? && L.Closed(s, b) && s.start == []
    requires b.used == used + |s.origin| <= Max(used, b.limit)
    ensures s.file == s.offered[..Min(|s.offered|, Min(s.limit, SatSub(b.limit, used)))]
  {
    L.HeadIsPrefix(s);
  }

  function Joined(chunks: seq<seq<L.Byte>>): seq<L.Byte> {
    if chunks == [] then [] else chunks[0] + Joined(chunks[1..])
  }

  lemma {:induction false} JoinedSnoc(chunks: seq<seq<L.Byte>>, last: seq<L.Byte>)
    ensures Joined(chunks + [last]) == Joined(chunks) + last
  {
    if chunks == [] {
      assert chunks + [last] == [last];
      assert Joined([last]) == last + Joined([]);
    } else {
      JoinedSnoc(chunks[1..], last);
      assert (chunks + [last])[1..] == chunks[1..] + [last];
    }
  }
}
