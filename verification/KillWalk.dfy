/**
 The whole kill order, on any links: what a depth-first walk without any memory
 would put out, each pid where it comes first.
 */
module KillWalk {
  import opened Base
  import opened Items
  import opened KillOrder
  import opened KillDepth

  /**
   A pid after everything below it, child by child, as often as it is met. A
   child that is itself above is left out, so that a cycle ends.
   */
  function Expand(pid: Pid, links: Links, all: set<Pid>, above: set<Pid>): seq<Pid>
    requires Closed(links, all) && pid in all
    decreases |all - above|, 0
  {
    if pid in above then []
    else
      SmallerRest(all, above, above + {pid});
      ExpandAll(KidsOf(links, pid), links, all, above + {pid}) + [pid]
  }

  function ExpandAll(pids: seq<Pid>, links: Links, all: set<Pid>, above: set<Pid>): seq<Pid>
    requires Closed(links, all) && forall p :: p in pids ==> p in all
    decreases |all - above|, |pids|
  {
    if pids == [] then [] else Expand(pids[0], links, all, above) + ExpandAll(pids[1..], links, all, above)
  }

  /** Each pid of `xs` that `out` does not hold yet is appended, where it comes first. */
  function FirstOnes(out: seq<Pid>, xs: seq<Pid>): seq<Pid>
    decreases |xs|
  {
    if xs == [] then out else FirstOnes(if xs[0] in out then out else out + [xs[0]], xs[1..])
  }

  lemma {:induction false} FirstOnesJoin(out: seq<Pid>, a: seq<Pid>, b: seq<Pid>)
    ensures FirstOnes(out, a + b) == FirstOnes(FirstOnes(out, a), b)
    decreases |a|
  {
    if a == [] {
      assert a + b == b;
    } else {
      FirstOnesJoin(if a[0] in out then out else out + [a[0]], a[1..], b);
      assert (a + b)[1..] == a[1..] + b;
    }
  }

  lemma {:induction false} NothingNew(out: seq<Pid>, xs: seq<Pid>)
    requires forall x :: x in xs ==> x in out
    ensures FirstOnes(out, xs) == out
    decreases |xs|
  {
    if xs != [] {
      NothingNew(out, xs[1..]);
    }
  }

  /** The stack of the walk: entered, and not yet put out. */
  ghost predicate OnStack(t: Trail, above: set<Pid>) {
    t.seen - Elements(t.out) == above
  }

  /** What was put out has nothing below it that is still to come. */
  lemma {:induction false} BelowIsOut(pid: Pid, links: Links, all: set<Pid>, t: Trail, above: set<Pid>)
    requires Closed(links, all) && pid in all && KidsSeen(links, t) && t.seen - Elements(t.out) <= above && pid in t.seen
    ensures forall x :: x in Expand(pid, links, all, above) ==> x in t.out
    decreases |all - above|, 0
  {
    if pid !in above {
      assert pid in t.out;
      SmallerRest(all, above, above + {pid});
      BelowAllOut(KidsOf(links, pid), links, all, t, above + {pid});
    }
  }

  lemma {:induction false} BelowAllOut(pids: seq<Pid>, links: Links, all: set<Pid>, t: Trail, above: set<Pid>)
    requires Closed(links, all) && forall p :: p in pids ==> p in all && p in t.seen
    requires KidsSeen(links, t) && t.seen - Elements(t.out) <= above
    ensures forall x :: x in ExpandAll(pids, links, all, above) ==> x in t.out
    decreases |all - above|, |pids|
  {
    if pids != [] {
      BelowIsOut(pids[0], links, all, t, above);
      BelowAllOut(pids[1..], links, all, t, above);
    }
  }

  lemma {:induction false} WalkExpands(pid: Pid, links: Links, all: set<Pid>, t: Trail, above: set<Pid>)
    requires Closed(links, all) && pid in all && TrailOk(t) && KidsSeen(links, t) && OnStack(t, above)
    ensures Walk(pid, links, all, t).out == FirstOnes(t.out, Expand(pid, links, all, above))
    decreases |all - t.seen|, 0
  {
    if pid in t.seen {
      BelowIsOut(pid, links, all, t, above);
      NothingNew(t.out, Expand(pid, links, all, above));
    } else {
      var entered, kids := t.(seen := t.seen + {pid}), KidsOf(links, pid);
      SmallerRest(all, t.seen, entered.seen);
      Entering(t, pid, above);
      WalkAllExpands(kids, links, all, entered, above + {pid});
      WalkAllReaches(kids, links, all, entered);
      var below := WalkAll(kids, links, all, entered);
      assert pid in below.seen - Elements(below.out);
      FirstOnesJoin(t.out, ExpandAll(kids, links, all, above + {pid}), [pid]);
      assert FirstOnes(below.out, [pid]) == FirstOnes(below.out + [pid], [pid][1..]);
      assert pid !in above;
    }
  }

  lemma Entering(t: Trail, pid: Pid, above: set<Pid>)
    requires pid !in t.seen && Elements(t.out) <= t.seen && OnStack(t, above)
    ensures OnStack(t.(seen := t.seen + {pid}), above + {pid}) && pid !in above
  {
    assert pid !in Elements(t.out);
  }

  lemma {:induction false} WalkAllExpands(pids: seq<Pid>, links: Links, all: set<Pid>, t: Trail, above: set<Pid>)
    requires Closed(links, all) && (forall p :: p in pids ==> p in all)
    requires TrailOk(t) && KidsSeen(links, t) && OnStack(t, above)
    ensures WalkAll(pids, links, all, t).out == FirstOnes(t.out, ExpandAll(pids, links, all, above))
    decreases |all - t.seen|, |pids|
  {
    if pids != [] {
      var mid := Walk(pids[0], links, all, t);
      WalkExpands(pids[0], links, all, t, above);
      WalkReaches(pids[0], links, all, t);
      WalkSeesKids(pids[0], links, all, t);
      SmallerRest(all, t.seen, mid.seen);
      WalkAllExpands(pids[1..], links, all, mid, above);
      FirstOnesJoin(t.out, Expand(pids[0], links, all, above), ExpandAll(pids[1..], links, all, above));
    }
  }

  /** The kill order is that of the walk without memory, each pid where it comes first. */
  lemma PostorderIsDepthFirst(seeds: seq<Pid>, processes: seq<Process>)
    ensures Postorder(seeds, processes)
         == FirstOnes([], ExpandAll(seeds, LinksOf(seeds, processes), Elements(seeds), {}))
  {
    var t := Trail({}, []);
    assert t.seen - Elements(t.out) == {};
    WalkAllExpands(seeds, LinksOf(seeds, processes), Elements(seeds), t, {});
  }

  // ------------------------------------------------------------------- children

  /** A row that makes `a` a child of `pid` stands before one that makes `b` its child. */
  ghost predicate RowsInOrder(processes: seq<Process>, allowed: set<Pid>, pid: Pid, a: Pid, b: Pid) {
    exists i, j :: 0 <= i < j < |processes| && IsLink(processes[i], allowed, pid, a) && IsLink(processes[j], allowed, pid, b)
  }

  lemma LaterRows(processes: seq<Process>, allowed: set<Pid>, pid: Pid, a: Pid, b: Pid)
    requires processes != [] && RowsInOrder(processes[1..], allowed, pid, a, b)
    ensures RowsInOrder(processes, allowed, pid, a, b)
  {
    var i, j :| 0 <= i < j < |processes[1..]| && IsLink(processes[1..][i], allowed, pid, a)
                && IsLink(processes[1..][j], allowed, pid, b);
    assert processes[i + 1] == processes[1..][i] && processes[j + 1] == processes[1..][j];
  }

  lemma FirstRow(processes: seq<Process>, allowed: set<Pid>, pid: Pid, a: Pid, b: Pid)
    requires processes != [] && IsLink(processes[0], allowed, pid, a) && b in Kids(processes[1..], allowed, pid)
    ensures RowsInOrder(processes, allowed, pid, a, b)
  {
    var j :| 0 <= j < |processes[1..]| && IsLink(processes[1..][j], allowed, pid, b);
    assert processes[j + 1] == processes[1..][j];
  }

  /** The children of a pid are the selected rows that name it, in the order of the snapshot. */
  lemma {:induction false} KidsInSnapshotOrder(processes: seq<Process>, allowed: set<Pid>, pid: Pid, a: nat, b: nat)
    requires a < b < |Kids(processes, allowed, pid)|
    ensures RowsInOrder(processes, allowed, pid, Kids(processes, allowed, pid)[a], Kids(processes, allowed, pid)[b])
  {
    var rest := Kids(processes[1..], allowed, pid);
    if !IsLink(processes[0], allowed, pid, processes[0].pid) {
      assert Kids(processes, allowed, pid) == rest;
      KidsInSnapshotOrder(processes[1..], allowed, pid, a, b);
      LaterRows(processes, allowed, pid, rest[a], rest[b]);
    } else if a == 0 {
      FirstRow(processes, allowed, pid, processes[0].pid, rest[b - 1]);
    } else {
      KidsInSnapshotOrder(processes[1..], allowed, pid, a - 1, b - 1);
      LaterRows(processes, allowed, pid, rest[a - 1], rest[b - 1]);
    }
  }

  // ---------------------------------------------------------------- items

  /** An item lists its own pids, then those of its children from the first to the last. */
  lemma {:induction false} ListedInOrder(item: Item, i: nat)
    requires i < |item.children|
    ensures AllPids(item)
         == item.pids + AllPidsOf(item.children[..i]) + AllPids(item.children[i]) + AllPidsOf(item.children[i + 1..])
    ensures AllPidsOf([]) == []
  {
    ListedApart(item.children, i);
  }

  lemma {:induction false} ListedApart(items: seq<Item>, i: nat)
    requires i < |items|
    ensures AllPidsOf(items) == AllPidsOf(items[..i]) + AllPids(items[i]) + AllPidsOf(items[i + 1..])
    decreases i
  {
    if i > 0 {
      ListedApart(items[1..], i - 1);
      assert items[1..][..i - 1] == items[..i][1..] && items[1..][i..] == items[i + 1..];
    }
  }
}
