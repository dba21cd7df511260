/**
 The order in which the processes of an item are signalled: a depth-first
 post-order over the parent links of a snapshot, restricted to the item.
 */
module KillOrder {
  import opened Base
  import opened Items

  datatype Process = Process(pid: Pid, parent: Option<Pid>, startTime: nat)

  // ------------------------------------------------------------ specification

  /** The snapshot says that `child` is a selected child of the selected `parent`. */
  predicate IsLink(p: Process, allowed: set<Pid>, parent: Pid, child: Pid) {
    p.pid == child && p.parent == Some(parent) && child in allowed && parent in allowed
  }

  /** The selected children of a pid, in snapshot order. */
  function Kids(processes: seq<Process>, allowed: set<Pid>, pid: Pid): (r: seq<Pid>)
    ensures forall k :: k in r <==> exists i :: 0 <= i < |processes| && IsLink(processes[i], allowed, pid, k)
  {
    if processes == [] then []
    else
      assert processes == [processes[0]] + processes[1..];
      (if IsLink(processes[0], allowed, pid, processes[0].pid) then [processes[0].pid] else [])
      + Kids(processes[1..], allowed, pid)
  }

  /** The pids reached so far, and those already put out. */
  datatype Trail = Trail(seen: set<Pid>, out: seq<Pid>)

  /** The children of every pid, as the walk looks them up. */
  type Links = map<Pid, seq<Pid>>

  ghost predicate Closed(links: Links, all: set<Pid>) {
    forall p, k :: p in links && k in links[p] ==> k in all
  }

  function KidsOf(links: Links, pid: Pid): seq<Pid> {
    if pid in links then links[pid] else []
  }

  lemma SmallerRest(all: set<Pid>, a: set<Pid>, b: set<Pid>)
    requires a <= b
    ensures |all - b| <= |all - a|
    ensures forall p :: p in all && p in b && p !in a ==> |all - b| < |all - a|
  {
    SubsetCount(all - b, all - a);
    forall p | p in all && p in b && p !in a ensures |all - b| < |all - a| {
      SubsetCount(all - b, (all - a) - {p});
    }
  }

  lemma {:induction false} SubsetCount(a: set<Pid>, b: set<Pid>)
    requires a <= b
    ensures |a| <= |b|
  {
    assert b == a + (b - a) && |b| == |a| + |b - a|;
  }

  /** One pid after its children; a pid already reached is left alone. */
  function Walk(pid: Pid, links: Links, all: set<Pid>, t: Trail): (r: Trail)
    requires Closed(links, all) && pid in all
    ensures t.seen <= r.seen
    decreases |all - t.seen|, 0
  {
    if pid in t.seen then t
    else
      var entered := t.(seen := t.seen + {pid});
      SmallerRest(all, t.seen, entered.seen);
      var below := WalkAll(KidsOf(links, pid), links, all, entered);
      below.(out := below.out + [pid])
  }

  function WalkAll(pids: seq<Pid>, links: Links, all: set<Pid>, t: Trail): (r: Trail)
    requires Closed(links, all) && forall p :: p in pids ==> p in all
    ensures t.seen <= r.seen
    decreases |all - t.seen|, |pids|
  {
    if pids == [] then t
    else
      var mid := Walk(pids[0], links, all, t);
      SmallerRest(all, t.seen, mid.seen);
      WalkAll(pids[1..], links, all, mid)
  }

  function LinksOf(seeds: seq<Pid>, processes: seq<Process>): (r: Links)
    ensures Closed(r, Elements(seeds))
  {
    map pid | pid in Elements(seeds) :: Kids(processes, Elements(seeds), pid)
  }

  function Postorder(seeds: seq<Pid>, processes: seq<Process>): seq<Pid> {
    WalkAll(seeds, LinksOf(seeds, processes), Elements(seeds), Trail({}, [])).out
  }

  // -------------------------------------------------------- each pid once

  /** What was put out was reached, and nothing was put out twice. */
  ghost predicate TrailOk(t: Trail) {
    Distinct(t.out) && Elements(t.out) <= t.seen
  }

  /** The walk reaches its pid, and puts out exactly what it newly reaches. */
  lemma {:induction false} WalkReaches(pid: Pid, links: Links, all: set<Pid>, t: Trail)
    requires Closed(links, all) && pid in all && TrailOk(t)
    ensures var r := Walk(pid, links, all, t);
            && TrailOk(r) && pid in r.seen && r.seen <= t.seen + all
            && r.seen - Elements(r.out) == t.seen - Elements(t.out)
    decreases |all - t.seen|, 0
  {
    if pid !in t.seen {
      var entered := t.(seen := t.seen + {pid});
      SmallerRest(all, t.seen, entered.seen);
      WalkAllReaches(KidsOf(links, pid), links, all, entered);
      var below := WalkAll(KidsOf(links, pid), links, all, entered);
      Emitted(pid, t, WalkAll(KidsOf(links, pid), links, all, entered));
    }
  }

  /** Putting out the pid that was entered first closes the bracket. */
  lemma Emitted(pid: Pid, t: Trail, below: Trail)
    requires pid !in t.seen && TrailOk(t) && TrailOk(below) && pid in below.seen
    requires below.seen - Elements(below.out) == t.seen + {pid} - Elements(t.out)
    ensures var r := below.(out := below.out + [pid]);
            TrailOk(r) && r.seen - Elements(r.out) == t.seen - Elements(t.out)
  {
    assert pid in below.seen - Elements(below.out);
    assert Elements(below.out + [pid]) == Elements(below.out) + {pid};
    assert t.seen + {pid} - Elements(t.out) - {pid} == t.seen - Elements(t.out);
  }

  lemma {:induction false} WalkAllReaches(pids: seq<Pid>, links: Links, all: set<Pid>, t: Trail)
    requires Closed(links, all) && TrailOk(t) && forall p :: p in pids ==> p in all
    ensures var r := WalkAll(pids, links, all, t);
            && TrailOk(r) && Elements(pids) <= r.seen && r.seen <= t.seen + all
            && r.seen - Elements(r.out) == t.seen - Elements(t.out)
    decreases |all - t.seen|, |pids|
  {
    if pids != [] {
      WalkReaches(pids[0], links, all, t);
      var mid := Walk(pids[0], links, all, t);
      SmallerRest(all, t.seen, mid.seen);
      WalkAllReaches(pids[1..], links, all, mid);
      assert Elements(pids) == {pids[0]} + Elements(pids[1..]);
    }
  }

  /** Every pid of the item exactly once, and no other, whatever the links say. */
  lemma PostorderIsExact(seeds: seq<Pid>, processes: seq<Process>)
    ensures Distinct(Postorder(seeds, processes))
    ensures Elements(Postorder(seeds, processes)) == Elements(seeds)
  {
    var t := Trail({}, []);
    assert t.seen - Elements(t.out) == {};
    WalkAllReaches(seeds, LinksOf(seeds, processes), Elements(seeds), t);
    var r := WalkAll(seeds, LinksOf(seeds, processes), Elements(seeds), t);
    assert forall p :: p in r.seen && p !in r.out ==> p in r.seen - Elements(r.out);
  }

  // --------------------------------------------------------- children first

  /** A rank that falls along every link: there is one just for acyclic links. */
  ghost predicate Ranks(rank: Pid -> int, links: Links) {
    forall p, k :: p in links && k in links[p] ==> rank(k) < rank(p)
  }

  ghost predicate KidsBefore(links: Links, out: seq<Pid>) {
    forall i, k :: 0 <= i < |out| && k in KidsOf(links, out[i]) ==> k in out[..i]
  }

  /** The pids entered and not yet put out are above everything still to come. */
  ghost predicate Below(rank: Pid -> int, pid: Pid, t: Trail) {
    forall g :: g in t.seen && g !in t.out ==> rank(pid) < rank(g)
  }

  lemma {:induction false} WalkIsOrdered(pid: Pid, links: Links, all: set<Pid>, t: Trail, rank: Pid -> int)
    requires Closed(links, all) && pid in all && TrailOk(t)
    requires Ranks(rank, links) && KidsBefore(links, t.out) && Below(rank, pid, t)
    ensures KidsBefore(links, Walk(pid, links, all, t).out)
    decreases |all - t.seen|, 0
  {
    if pid !in t.seen {
      var entered := t.(seen := t.seen + {pid});
      var kids := KidsOf(links, pid);
      SmallerRest(all, t.seen, entered.seen);
      WalkAllIsOrdered(kids, links, all, entered, rank);
      WalkAllReaches(kids, links, all, entered);
      var below := WalkAll(kids, links, all, entered);
      forall k | k in kids ensures k in below.out {
        assert rank(k) < rank(pid);
        assert k !in entered.seen - Elements(entered.out);
        assert k in below.seen && k !in below.seen - Elements(below.out);
      }
      Extended(links, below.out, pid);
    }
  }

  lemma Extended(links: Links, out: seq<Pid>, pid: Pid)
    requires KidsBefore(links, out) && forall k :: k in KidsOf(links, pid) ==> k in out
    ensures KidsBefore(links, out + [pid])
  {
    forall i, k | 0 <= i < |out + [pid]| && k in KidsOf(links, (out + [pid])[i]) ensures k in (out + [pid])[..i] {
      if i < |out| {
        assert k in KidsOf(links, out[i]) && (out + [pid])[..i] == out[..i];
      } else {
        assert (out + [pid])[..i] == out;
      }
    }
  }

  lemma {:induction false} WalkAllIsOrdered(pids: seq<Pid>, links: Links, all: set<Pid>, t: Trail, rank: Pid -> int)
    requires Closed(links, all) && TrailOk(t) && forall p :: p in pids ==> p in all
    requires Ranks(rank, links) && KidsBefore(links, t.out) && forall p :: p in pids ==> Below(rank, p, t)
    ensures KidsBefore(links, WalkAll(pids, links, all, t).out)
    decreases |all - t.seen|, |pids|
  {
    if pids != [] {
      WalkIsOrdered(pids[0], links, all, t, rank);
      WalkReaches(pids[0], links, all, t);
      var mid := Walk(pids[0], links, all, t);
      SmallerRest(all, t.seen, mid.seen);
      forall p | p in pids[1..] ensures Below(rank, p, mid) {
        assert Below(rank, p, t);
        forall g | g in mid.seen && g !in mid.out ensures rank(p) < rank(g) {
          assert g in mid.seen - Elements(mid.out);
          assert g in t.seen - Elements(t.out);
        }
      }
      WalkAllIsOrdered(pids[1..], links, all, mid, rank);
    }
  }

  /** Every selected process comes before its selected parent. */
  ghost predicate ChildrenFirst(seeds: seq<Pid>, processes: seq<Process>, out: seq<Pid>) {
    forall p, i, j ::
      p in processes && 0 <= i < |out| && 0 <= j < |out| && IsLink(p, Elements(seeds), out[j], out[i]) ==> i < j
  }

  ghost predicate Acyclic(seeds: seq<Pid>, processes: seq<Process>) {
    exists rank: Pid -> int :: Ranks(rank, LinksOf(seeds, processes))
  }

  function Position(out: seq<Pid>, pid: Pid): (i: int)
    ensures pid in out ==> 0 <= i < |out| && out[i] == pid
  {
    if out == [] then 0 else if out[0] == pid then 0 else 1 + Position(out[1..], pid)
  }

  /**
   Selected children come before their selected parents exactly when those
   links have no cycle; on a cycle no order could do it.
   */
  lemma ChildrenFirstIffAcyclic(seeds: seq<Pid>, processes: seq<Process>)
    ensures ChildrenFirst(seeds, processes, Postorder(seeds, processes)) <==> Acyclic(seeds, processes)
  {
    PostorderIsExact(seeds, processes);
    var out := Postorder(seeds, processes);
    if Acyclic(seeds, processes) {
      var rank: Pid -> int :| Ranks(rank, LinksOf(seeds, processes));
      WalkAllIsOrdered(seeds, LinksOf(seeds, processes), Elements(seeds), Trail({}, []), rank);
      OrderedOut(seeds, processes, out);
    }
    if ChildrenFirst(seeds, processes, out) {
      PositionRanks(seeds, processes, out);
    }
  }

  lemma OrderedOut(seeds: seq<Pid>, processes: seq<Process>, out: seq<Pid>)
    requires Distinct(out) && Elements(out) == Elements(seeds) && KidsBefore(LinksOf(seeds, processes), out)
    ensures ChildrenFirst(seeds, processes, out)
  {
    var links := LinksOf(seeds, processes);
    forall p, i, j | p in processes && 0 <= i < |out| && 0 <= j < |out| && IsLink(p, Elements(seeds), out[j], out[i])
      ensures i < j
    {
      assert out[i] in Kids(processes, Elements(seeds), out[j]);
      assert out[i] in KidsOf(links, out[j]);
      var m :| 0 <= m < j && out[..j][m] == out[i];
      assert out[m] == out[i];
    }
  }

  lemma PositionRanks(seeds: seq<Pid>, processes: seq<Process>, out: seq<Pid>)
    requires Distinct(out) && Elements(out) == Elements(seeds) && ChildrenFirst(seeds, processes, out)
    ensures Acyclic(seeds, processes)
  {
    var links := LinksOf(seeds, processes);
    var rank := (pid: Pid) => Position(out, pid);
    forall p: Pid, k: Pid | p in links && k in links[p] ensures rank(k) < rank(p) {
      var i :| 0 <= i < |processes| && IsLink(processes[i], Elements(seeds), p, k);
      assert p in Elements(out) && k in Elements(out);
      var process := processes[i];
      assert process in processes && IsLink(process, Elements(seeds), out[Position(out, p)], out[Position(out, k)]);
    }
    assert Ranks(rank, links);
  }

  /**
   Only direct parents count. When the process between two selected ones is not
   selected itself, the ancestor can come first: here 1 is the parent of 2 and
   2 of 3, the item holds 1 and 3, and 1 is put out before 3.
   */
  lemma SkippedParentLosesDepth(processes: seq<Process>)
    requires |processes| == 3 && processes[0].pid == 1 && processes[1].pid == 2 && processes[2].pid == 3
    requires processes[0].parent == None && processes[1].parent == Some(1) && processes[2].parent == Some(2)
    ensures Postorder([1, 3], processes) == [1, 3]
  {
    var all := Elements([1, 3]);
    NoKids(processes, all, 1);
    NoKids(processes, all, 3);
    WalkLeaves(1, 3, LinksOf([1, 3], processes), all);
  }

  lemma NoKids(processes: seq<Process>, all: set<Pid>, pid: Pid)
    requires forall i :: 0 <= i < |processes| ==> !IsLink(processes[i], all, pid, processes[i].pid)
    ensures Kids(processes, all, pid) == []
  {
    assert Kids(processes, all, pid) != [] ==> Kids(processes, all, pid)[0] in Kids(processes, all, pid);
  }

  lemma WalkLeaf(pid: Pid, links: Links, all: set<Pid>, t: Trail)
    requires Closed(links, all) && pid in all && pid !in t.seen && KidsOf(links, pid) == []
    ensures Walk(pid, links, all, t) == Trail(t.seen + {pid}, t.out + [pid])
  {
    assert WalkAll([], links, all, t.(seen := t.seen + {pid})) == t.(seen := t.seen + {pid});
  }

  lemma WalkLeaves(a: Pid, b: Pid, links: Links, all: set<Pid>)
    requires Closed(links, all) && a in all && b in all && a != b && KidsOf(links, a) == [] && KidsOf(links, b) == []
    ensures WalkAll([a, b], links, all, Trail({}, [])).out == [a, b]
  {
    var t := Trail({}, []);
    var one := Walk(a, links, all, t);
    WalkLeaf(a, links, all, t);
    WalkLeaf(b, links, all, one);
    assert [a, b][1..] == [b] && [b][1..] == [];
    assert WalkAll([b], links, all, one) == Walk(b, links, all, one);
  }

  // --------------------------------------------------------------- identities

  datatype Identity = Identity(pid: Pid, startTime: nat)

  /** The snapshot row of a pid; of two, the later one. */
  function Lookup(processes: seq<Process>, pid: Pid): (r: Option<Process>)
    ensures r.Some? ==> r.value in processes && r.value.pid == pid
    ensures r.None? ==> forall p :: p in processes ==> p.pid != pid
    decreases |processes|
  {
    if processes == [] then None
    else
      var last := processes[|processes| - 1];
      assert processes == processes[..|processes| - 1] + [last];
      if last.pid == pid then Some(last) else Lookup(processes[..|processes| - 1], pid)
  }

  /** Pids that are not in the snapshot are dropped. */
  function Frozen(order: seq<Pid>, processes: seq<Process>): seq<Identity> {
    if order == [] then []
    else
      var p := Lookup(processes, order[0]);
      (if p.Some? then [Identity(order[0], p.value.startTime)] else []) + Frozen(order[1..], processes)
  }

  function IdentitiesFor(item: Item, processes: seq<Process>): seq<Identity> {
    Frozen(Postorder(AllPids(item), processes), processes)
  }

  /** The identities are known pids, each with its snapshot row. */
  lemma {:induction false} FrozenRow(order: seq<Pid>, processes: seq<Process>, k: nat)
    requires k < |Frozen(order, processes)|
    ensures var id := Frozen(order, processes)[k];
            && id.pid in order && Lookup(processes, id.pid).Some?
            && Lookup(processes, id.pid).value.startTime == id.startTime
  {
    var off := |Frozen(order, processes)| - |Frozen(order[1..], processes)|;
    if off <= k {
      FrozenRow(order[1..], processes, k - off);
      assert Frozen(order, processes)[k] == Frozen(order[1..], processes)[k - off];
    }
  }

  lemma {:induction false} FrozenFinds(order: seq<Pid>, processes: seq<Process>, pid: Pid) returns (k: nat)
    requires pid in order && Lookup(processes, pid).Some?
    ensures k < |Frozen(order, processes)| && Frozen(order, processes)[k].pid == pid
  {
    var off := |Frozen(order, processes)| - |Frozen(order[1..], processes)|;
    if pid == order[0] {
      k := 0;
    } else {
      assert pid in order[1..];
      k := FrozenFinds(order[1..], processes, pid);
      assert Frozen(order, processes)[off + k] == Frozen(order[1..], processes)[k];
      k := off + k;
    }
  }

  /** And they keep the order of the pids. */
  lemma {:induction false} FrozenKeepsOrder(order: seq<Pid>, processes: seq<Process>, j: nat, k: nat)
    requires Distinct(order) && j < k < |Frozen(order, processes)|
    ensures Position(order, Frozen(order, processes)[j].pid) < Position(order, Frozen(order, processes)[k].pid)
  {
    var ids, rest := Frozen(order, processes), Frozen(order[1..], processes);
    var off := |ids| - |rest|;
    FrozenRow(order[1..], processes, k - off);
    assert ids[k] == rest[k - off];
    assert order[0] !in order[1..];
    if off <= j {
      FrozenRow(order[1..], processes, j - off);
      assert ids[j] == rest[j - off];
      FrozenKeepsOrder(order[1..], processes, j - off, k - off);
    }
  }

  /** A pid comes before another exactly as their identities do. */
  ghost predicate ChildrenSignalledFirst(ids: seq<Identity>, processes: seq<Process>) {
    forall p, j, k ::
      && p in processes && 0 <= j < |ids| && 0 <= k < |ids|
      && p.pid == ids[j].pid && p.parent == Some(ids[k].pid)
      ==> j < k
  }

  lemma FrozenChildrenFirst(seeds: seq<Pid>, order: seq<Pid>, processes: seq<Process>)
    requires Distinct(order) && Elements(order) == Elements(seeds) && ChildrenFirst(seeds, processes, order)
    ensures ChildrenSignalledFirst(Frozen(order, processes), processes)
  {
    var ids := Frozen(order, processes);
    forall p, j, k | p in processes && 0 <= j < |ids| && 0 <= k < |ids|
                     && p.pid == ids[j].pid && p.parent == Some(ids[k].pid)
      ensures j < k
    {
      FrozenRow(order, processes, j);
      FrozenRow(order, processes, k);
      var a, b := Position(order, ids[j].pid), Position(order, ids[k].pid);
      assert order[a] in Elements(order) && order[b] in Elements(order);
      assert IsLink(p, Elements(seeds), order[b], order[a]);
      if k < j {
        FrozenKeepsOrder(order, processes, k, j);
      }
    }
  }

  /**
   What is signalled: each process of the item that the snapshot knows, once,
   with the start time that guards against a reused pid, and, on acyclic
   links, no process after its parent.
   */
  lemma SignalsExactlyTheItem(item: Item, processes: seq<Process>)
    ensures var ids := IdentitiesFor(item, processes);
            && (forall j, k :: 0 <= j < k < |ids| ==> ids[j].pid != ids[k].pid)
            && (forall pid :: (exists k :: 0 <= k < |ids| && ids[k].pid == pid)
                  <==> pid in AllPids(item) && exists p :: p in processes && p.pid == pid)
            && (forall k :: 0 <= k < |ids| ==> LastRowOf(processes, ids[k].pid, ids[k].startTime))
            && (Acyclic(AllPids(item), processes) ==> ChildrenSignalledFirst(ids, processes))
  {
    var seeds := AllPids(item);
    var order := Postorder(seeds, processes);
    var ids := IdentitiesFor(item, processes);
    PostorderIsExact(seeds, processes);
    forall j, k | 0 <= j < k < |ids| ensures ids[j].pid != ids[k].pid {
      FrozenKeepsOrder(order, processes, j, k);
    }
    forall k | 0 <= k < |ids|
      ensures ids[k].pid in seeds && Lookup(processes, ids[k].pid).Some?
      ensures Lookup(processes, ids[k].pid).value.startTime == ids[k].startTime
    {
      FrozenRow(order, processes, k);
      assert ids[k].pid in Elements(order);
    }
    forall pid | pid in seeds && Lookup(processes, pid).Some? ensures exists k :: 0 <= k < |ids| && ids[k].pid == pid {
      assert pid in Elements(order);
      var k := FrozenFinds(order, processes, pid);
    }
    forall k | 0 <= k < |ids| ensures LastRowOf(processes, ids[k].pid, ids[k].startTime) {
      LookupIsLast(processes, ids[k].pid);
    }
    if Acyclic(seeds, processes) {
      ChildrenFirstIffAcyclic(seeds, processes);
      FrozenChildrenFirst(seeds, order, processes);
    }
  }

  /** The last row of the snapshot with this pid has this start time. */
  ghost predicate LastRowOf(processes: seq<Process>, pid: Pid, startTime: nat) {
    exists i :: 0 <= i < |processes| && processes[i].pid == pid && processes[i].startTime == startTime
                && forall j :: i < j < |processes| ==> processes[j].pid != pid
  }

  lemma {:induction false} LookupIsLast(processes: seq<Process>, pid: Pid)
    requires Lookup(processes, pid).Some?
    ensures LastRowOf(processes, pid, Lookup(processes, pid).value.startTime)
    decreases |processes|
  {
    var front, n := processes[..|processes| - 1], |processes| - 1;
    if processes[n].pid != pid {
      LookupIsLast(front, pid);
      var i :| 0 <= i < |front| && front[i].pid == pid && front[i].startTime == Lookup(front, pid).value.startTime
               && forall j :: i < j < |front| ==> front[j].pid != pid;
      assert forall j :: i < j < |processes| ==> j == n || processes[j] == front[j];
      assert processes[i] == front[i];
    }
  }

  // ------------------------------------------------------------ the traversal

  /** The two containers that the recursion edits. */
  class Traversal {
    var seen: set<Pid>
    var out: seq<Pid>

    constructor ()
      ensures Value() == Trail({}, [])
    {
      seen, out := {}, [];
    }

    function Value(): Trail
      reads this
    {
      Trail(seen, out)
    }

    /** Terminates on any links, also on cycles. */
    method Visit(pid: Pid, links: Links, ghost all: set<Pid>)
      requires Closed(links, all) && pid in all
      modifies this
      ensures Value() == Walk(pid, links, all, old(Value()))
      decreases |all - seen|
    {
      if pid in seen {
        return;
      }
      ghost var entered := Trail(seen + {pid}, out);
      SmallerRest(all, seen, entered.seen);
      seen := seen + {pid};
      if pid in links {
        var kids := links[pid];
        var i := 0;
        while i < |kids|
          invariant 0 <= i <= |kids| && entered.seen <= seen
          invariant WalkAll(kids[i..], links, all, Value()) == WalkAll(kids, links, all, entered)
        {
          SmallerRest(all, entered.seen, seen);
          assert kids[i] in kids && kids[i..][1..] == kids[i + 1..];
          Visit(kids[i], links, all);
          i := i + 1;
        }
        assert kids[i..] == [];
      }
      out := out + [pid];
    }
  }

  /** Fill the children map in one pass over the snapshot. */
  method FillChildren(allowed: set<Pid>, processes: seq<Process>) returns (children: Links)
    ensures children.Keys <= allowed
    ensures forall pid :: pid in allowed ==> KidsOf(children, pid) == Kids(processes, allowed, pid)
  {
    children := map[];
    var i := 0;
    while i < |processes|
      invariant 0 <= i <= |processes| && children.Keys <= allowed
      invariant forall pid :: pid in allowed ==> KidsOf(children, pid) == Kids(processes[..i], allowed, pid)
    {
      var p := processes[i];
      ChildAdded(children, processes[..i], p, allowed);
      assert processes[..i + 1] == processes[..i] + [p];
      if p.parent.Some? && p.pid in allowed && p.parent.value in allowed {
        children := children[p.parent.value := KidsOf(children, p.parent.value) + [p.pid]];
      }
      i := i + 1;
    }
    assert processes[..i] == processes;
  }

  /** One more process is one more child of its parent, or none. */
  lemma ChildAdded(children: Links, processes: seq<Process>, p: Process, allowed: set<Pid>)
    requires forall pid :: pid in allowed ==> KidsOf(children, pid) == Kids(processes, allowed, pid)
    ensures var more := if p.parent.Some? && p.pid in allowed && p.parent.value in allowed
                        then children[p.parent.value := KidsOf(children, p.parent.value) + [p.pid]] else children;
            forall pid :: pid in allowed ==> KidsOf(more, pid) == Kids(processes + [p], allowed, pid)
  {
    forall pid | pid in allowed {
      KidsSnoc(processes, p, allowed, pid);
    }
  }

  lemma FilledIsClosed(children: Links, allowed: set<Pid>, processes: seq<Process>)
    requires children.Keys <= allowed
    requires forall pid :: pid in allowed ==> KidsOf(children, pid) == Kids(processes, allowed, pid)
    ensures Closed(children, allowed)
  {
    forall p, k | p in children && k in children[p] ensures k in allowed {
      assert k in KidsOf(children, p);
    }
  }

  /** Fill the children map, then walk from every seed. */
  method OrderForKill(seeds: seq<Pid>, processes: seq<Process>) returns (out: seq<Pid>)
    ensures out == Postorder(seeds, processes)
  {
    var allowed := Elements(seeds);
    var children := FillChildren(allowed, processes);
    FilledIsClosed(children, allowed, processes);
    SameLinks(seeds, children, LinksOf(seeds, processes), allowed, Trail({}, []));
    out := VisitAll(seeds, children, allowed);
  }

  method VisitAll(seeds: seq<Pid>, children: Links, ghost allowed: set<Pid>) returns (out: seq<Pid>)
    requires Closed(children, allowed) && forall p :: p in seeds ==> p in allowed
    ensures out == WalkAll(seeds, children, allowed, Trail({}, [])).out
  {
    var t := new Traversal();
    var i := 0;
    while i < |seeds|
      invariant 0 <= i <= |seeds|
      invariant WalkAll(seeds[i..], children, allowed, t.Value()) == WalkAll(seeds, children, allowed, Trail({}, []))
    {
      assert seeds[i] in seeds && seeds[i..][1..] == seeds[i + 1..];
      t.Visit(seeds[i], children, allowed);
      i := i + 1;
    }
    assert seeds[i..] == [];
    return t.out;
  }

  lemma {:induction false} KidsSnoc(processes: seq<Process>, p: Process, allowed: set<Pid>, pid: Pid)
    ensures Kids(processes + [p], allowed, pid)
         == Kids(processes, allowed, pid) + if IsLink(p, allowed, pid, p.pid) then [p.pid] else []
  {
    if processes == [] {
      assert processes + [p] == [p] && [p][1..] == [];
    } else {
      KidsSnoc(processes[1..], p, allowed, pid);
      KidsCons(processes, p, allowed, pid);
    }
  }

  lemma KidsCons(processes: seq<Process>, p: Process, allowed: set<Pid>, pid: Pid)
    requires processes != []
    ensures var first := if IsLink(processes[0], allowed, pid, processes[0].pid) then [processes[0].pid] else [];
            && Kids(processes + [p], allowed, pid) == first + Kids(processes[1..] + [p], allowed, pid)
            && Kids(processes, allowed, pid) == first + Kids(processes[1..], allowed, pid)
  {
    assert (processes + [p])[1..] == processes[1..] + [p];
  }

  /** A pid without children may be in the map or not. */
  lemma {:induction false} SameLinks(pids: seq<Pid>, a: Links, b: Links, all: set<Pid>, t: Trail)
    requires Closed(a, all) && Closed(b, all) && forall p :: p in pids ==> p in all
    requires forall p :: p in all ==> KidsOf(a, p) == KidsOf(b, p)
    ensures WalkAll(pids, a, all, t) == WalkAll(pids, b, all, t)
    decreases |all - t.seen|, |pids|
  {
    if pids != [] {
      var pid := pids[0];
      if pid !in t.seen {
        var entered := t.(seen := t.seen + {pid});
        SmallerRest(all, t.seen, entered.seen);
        SameLinks(KidsOf(a, pid), a, b, all, entered);
      }
      var mid := Walk(pid, a, all, t);
      SmallerRest(all, t.seen, mid.seen);
      SameLinks(pids[1..], a, b, all, mid);
    }
  }
}
