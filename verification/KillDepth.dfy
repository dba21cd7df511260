/**
 Deepest first across gaps. Between two selected processes there may be
 others that are not selected, such as a shell between an agent and its
 server. The kill order promises that a process comes before its nearest
 selected ancestor; this module says exactly when it does.
 */
module KillDepth {
  import opened Base
  import opened Items
  import opened KillOrder

  // ------------------------------------------------------------ OS ancestors

  /** A row of the snapshot names `parent` as the parent of `child`. */
  ghost predicate IsParent(processes: seq<Process>, parent: Pid, child: Pid) {
    exists p :: p in processes && p.pid == child && p.parent == Some(parent)
  }

  ghost predicate HasSelectedParent(seeds: seq<Pid>, processes: seq<Process>, pid: Pid) {
    exists parent :: parent in seeds && IsParent(processes, parent, pid)
  }

  /** From a process up to an ancestor, through processes that are not selected. */
  ghost predicate IsGap(seeds: seq<Pid>, processes: seq<Process>, chain: seq<Pid>) {
    && |chain| >= 2
    && (forall i :: 0 <= i < |chain| - 1 ==> IsParent(processes, chain[i + 1], chain[i]))
    && (forall i :: 0 < i < |chain| - 1 ==> chain[i] !in seeds)
  }

  /** A selected parent is nearest; without one, the first selected ancestor is. */
  ghost predicate IsNearest(seeds: seq<Pid>, processes: seq<Process>, pid: Pid, ancestor: Pid) {
    && pid in seeds && ancestor in seeds
    && if HasSelectedParent(seeds, processes, pid) then IsParent(processes, ancestor, pid)
       else exists chain :: IsGap(seeds, processes, chain) && chain[0] == pid && chain[|chain| - 1] == ancestor
  }

  ghost predicate Precedes(out: seq<Pid>, a: Pid, b: Pid) {
    exists i, j :: 0 <= i < j < |out| && out[i] == a && out[j] == b
  }

  /** What "deepest first" promises. */
  ghost predicate DeepestFirst(seeds: seq<Pid>, processes: seq<Process>, out: seq<Pid>) {
    forall pid, ancestor :: IsNearest(seeds, processes, pid, ancestor) ==> Precedes(out, pid, ancestor)
  }

  // --------------------------------------------------------- reachable by links

  ghost predicate IsPath(links: Links, path: seq<Pid>) {
    path != [] && forall i :: 0 <= i < |path| - 1 ==> path[i + 1] in KidsOf(links, path[i])
  }

  /** `to` is `from` or a selected descendant of it over selected links. */
  ghost predicate Reaches(links: Links, from: Pid, to: Pid) {
    exists path :: IsPath(links, path) && path[0] == from && path[|path| - 1] == to
  }

  /**
   A process without a selected parent stands among the seeds before every
   seed from which its ancestor is reached.
   */
  ghost predicate StandsBefore(seeds: seq<Pid>, links: Links, pid: Pid, ancestor: Pid) {
    forall i :: 0 <= i < |seeds| && Reaches(links, seeds[i], ancestor) ==> pid in seeds[..i]
  }

  /** The seeds list every such process before what can reach its ancestor. */
  ghost predicate GapsInOrder(seeds: seq<Pid>, processes: seq<Process>) {
    forall pid, ancestor ::
      IsNearest(seeds, processes, pid, ancestor) && !HasSelectedParent(seeds, processes, pid)
      ==> StandsBefore(seeds, LinksOf(seeds, processes), pid, ancestor)
  }

  lemma ReachesSelf(links: Links, pid: Pid)
    ensures Reaches(links, pid, pid)
  {
    assert IsPath(links, [pid]) && [pid][0] == pid && [pid][|[pid]| - 1] == pid;
  }

  lemma ReachesFromKid(links: Links, pid: Pid, kid: Pid, to: Pid)
    requires kid in KidsOf(links, pid) && Reaches(links, kid, to)
    ensures Reaches(links, pid, to)
  {
    var path :| IsPath(links, path) && path[0] == kid && path[|path| - 1] == to;
    var longer := [pid] + path;
    forall i | 0 <= i < |longer| - 1 ensures longer[i + 1] in KidsOf(links, longer[i]) {
      assert longer[i + 1] == path[i] && (i > 0 ==> longer[i] == path[i - 1] && path[i - 1 + 1] in KidsOf(links, path[i - 1]));
    }
    assert IsPath(links, longer) && longer[0] == pid && longer[|longer| - 1] == to;
  }

  // -------------------------------------------------------- what a walk reaches

  /** A set that holds the children of its members holds all they reach. */
  lemma {:induction false} ClosedUnderPath(links: Links, s: set<Pid>, path: seq<Pid>)
    requires IsPath(links, path) && path[0] in s
    requires forall p, k :: p in s && k in KidsOf(links, p) ==> k in s
    ensures path[|path| - 1] in s
    decreases |path|
  {
    if |path| > 1 {
      assert path[1] in KidsOf(links, path[0]);
      assert forall i :: 0 <= i < |path[1..]| ==> path[1..][i] == path[i + 1];
      ClosedUnderPath(links, s, path[1..]);
    }
  }

  ghost predicate KidsSeen(links: Links, t: Trail) {
    forall p, k :: p in t.out && k in KidsOf(links, p) ==> k in t.seen
  }

  /** Whatever is put out, its children have been entered. */
  lemma {:induction false} WalkSeesKids(pid: Pid, links: Links, all: set<Pid>, t: Trail)
    requires Closed(links, all) && pid in all && TrailOk(t) && KidsSeen(links, t)
    ensures KidsSeen(links, Walk(pid, links, all, t))
    decreases |all - t.seen|, 0
  {
    if pid !in t.seen {
      var entered := t.(seen := t.seen + {pid});
      SmallerRest(all, t.seen, entered.seen);
      WalkAllSeesKids(KidsOf(links, pid), links, all, entered);
      WalkAllReaches(KidsOf(links, pid), links, all, entered);
      var below := WalkAll(KidsOf(links, pid), links, all, entered);
      forall p, k | p in below.out + [pid] && k in KidsOf(links, p) ensures k in below.seen {
        assert p in below.out || p == pid;
        assert p == pid ==> k in Elements(KidsOf(links, pid));
      }
    }
  }

  lemma {:induction false} WalkAllSeesKids(pids: seq<Pid>, links: Links, all: set<Pid>, t: Trail)
    requires Closed(links, all) && TrailOk(t) && KidsSeen(links, t) && forall p :: p in pids ==> p in all
    ensures KidsSeen(links, WalkAll(pids, links, all, t))
    decreases |all - t.seen|, |pids|
  {
    if pids != [] {
      WalkSeesKids(pids[0], links, all, t);
      WalkReaches(pids[0], links, all, t);
      var mid := Walk(pids[0], links, all, t);
      SmallerRest(all, t.seen, mid.seen);
      WalkAllSeesKids(pids[1..], links, all, mid);
    }
  }

  /** Whatever is entered is reached from what the walk was asked for. */
  lemma {:induction false} WalkSeesReached(pid: Pid, links: Links, all: set<Pid>, t: Trail, x: Pid)
    requires Closed(links, all) && pid in all && x in Walk(pid, links, all, t).seen && x !in t.seen
    ensures Reaches(links, pid, x)
    decreases |all - t.seen|, 0
  {
    var entered := t.(seen := t.seen + {pid});
    SmallerRest(all, t.seen, entered.seen);
    ReachesSelf(links, pid);
    if x != pid {
      var kid := WalkAllSeesReached(KidsOf(links, pid), links, all, entered, x);
      ReachesFromKid(links, pid, KidsOf(links, pid)[kid], x);
    }
  }

  lemma {:induction false} WalkAllSeesReached(pids: seq<Pid>, links: Links, all: set<Pid>, t: Trail, x: Pid) returns (i: nat)
    requires Closed(links, all) && (forall p :: p in pids ==> p in all)
    requires x in WalkAll(pids, links, all, t).seen && x !in t.seen
    ensures i < |pids| && Reaches(links, pids[i], x)
    decreases |all - t.seen|, |pids|
  {
    var mid := Walk(pids[0], links, all, t);
    SmallerRest(all, t.seen, mid.seen);
    if x in mid.seen {
      WalkSeesReached(pids[0], links, all, t, x);
      i := 0;
    } else {
      var j := WalkAllSeesReached(pids[1..], links, all, mid, x);
      i := j + 1;
    }
  }

  ghost predicate AnyReaches(links: Links, pids: seq<Pid>, x: Pid) {
    exists i :: 0 <= i < |pids| && Reaches(links, pids[i], x)
  }

  /** From nothing, a walk puts out exactly what its seeds reach. */
  lemma PutOutIffReached(pids: seq<Pid>, links: Links, all: set<Pid>, x: Pid)
    requires Closed(links, all) && forall p :: p in pids ==> p in all
    ensures x in WalkAll(pids, links, all, Trail({}, [])).out
       <==> AnyReaches(links, pids, x)
  {
    var t := Trail({}, []);
    var r := WalkAll(pids, links, all, t);
    WalkAllReaches(pids, links, all, t);
    WalkAllSeesKids(pids, links, all, t);
    assert t.seen - Elements(t.out) == {};
    assert forall p :: p in r.seen && p !in r.out ==> p in r.seen - Elements(r.out);
    assert forall p :: p in r.out ==> p in Elements(r.out);
    if x in r.out {
      var i := WalkAllSeesReached(pids, links, all, t, x);
    }
    if i :| 0 <= i < |pids| && Reaches(links, pids[i], x) {
      var path :| IsPath(links, path) && path[0] == pids[i] && path[|path| - 1] == x;
      assert pids[i] in Elements(pids);
      ClosedUnderPath(links, r.seen, path);
    }
  }

  // ------------------------------------------------------------ walks in stages

  lemma {:induction false} WalkExtends(pid: Pid, links: Links, all: set<Pid>, t: Trail)
    requires Closed(links, all) && pid in all
    ensures t.out <= Walk(pid, links, all, t).out
    decreases |all - t.seen|, 0
  {
    if pid !in t.seen {
      var entered := t.(seen := t.seen + {pid});
      SmallerRest(all, t.seen, entered.seen);
      WalkAllExtends(KidsOf(links, pid), links, all, entered);
    }
  }

  lemma {:induction false} WalkAllExtends(pids: seq<Pid>, links: Links, all: set<Pid>, t: Trail)
    requires Closed(links, all) && forall p :: p in pids ==> p in all
    ensures t.out <= WalkAll(pids, links, all, t).out
    decreases |all - t.seen|, |pids|
  {
    if pids != [] {
      WalkExtends(pids[0], links, all, t);
      var mid := Walk(pids[0], links, all, t);
      SmallerRest(all, t.seen, mid.seen);
      WalkAllExtends(pids[1..], links, all, mid);
    }
  }

  lemma {:induction false} WalkAllJoins(a: seq<Pid>, b: seq<Pid>, links: Links, all: set<Pid>, t: Trail)
    requires Closed(links, all) && (forall p :: p in a ==> p in all) && (forall p :: p in b ==> p in all)
    ensures (forall p :: p in a + b ==> p in all)
    ensures WalkAll(a + b, links, all, t) == WalkAll(b, links, all, WalkAll(a, links, all, t))
    decreases |a|
  {
    if a == [] {
      assert a + b == b;
    } else {
      WalkAllJoins(a[1..], b, links, all, Walk(a[0], links, all, t));
      assert (a + b)[1..] == a[1..] + b && (a + b)[0] == a[0];
    }
  }

  lemma WalkAllOne(pid: Pid, links: Links, all: set<Pid>, t: Trail)
    requires Closed(links, all) && pid in all
    ensures WalkAll([pid], links, all, t) == Walk(pid, links, all, t)
  {
    assert [pid][1..] == [];
  }

  // ------------------------------------------------------------ the key step

  ghost predicate Unlinked(links: Links, pid: Pid) {
    forall p :: pid !in KidsOf(links, p)
  }

  /** Only itself reaches a process without a selected parent. */
  lemma UnlinkedReached(links: Links, from: Pid, pid: Pid)
    requires Unlinked(links, pid)
    ensures Reaches(links, from, pid) <==> from == pid
  {
    ReachesSelf(links, pid);
    if Reaches(links, from, pid) {
      var path :| IsPath(links, path) && path[0] == from && path[|path| - 1] == pid;
      assert |path| > 1 ==> path[|path| - 2 + 1] in KidsOf(links, path[|path| - 2]);
    }
  }

  lemma NoneReachesYet(links: Links, pids: seq<Pid>, pid: Pid)
    requires Unlinked(links, pid) && pid !in pids
    ensures !AnyReaches(links, pids, pid)
  {
    forall i | 0 <= i < |pids| ensures !Reaches(links, pids[i], pid) {
      UnlinkedReached(links, pids[i], pid);
    }
  }

  lemma {:induction false} FirstIndex(seeds: seq<Pid>, pid: Pid) returns (k: nat)
    requires pid in seeds
    ensures k < |seeds| && seeds[k] == pid && pid !in seeds[..k]
  {
    if seeds[0] == pid {
      k := 0;
    } else {
      assert pid in seeds[1..];
      var j := FirstIndex(seeds[1..], pid);
      k := j + 1;
      assert seeds[..k] == [seeds[0]] + seeds[1..][..j];
    }
  }

  /** The state in which the walk meets such a process, and the one it leaves. */
  lemma Stages(seeds: seq<Pid>, links: Links, all: set<Pid>, k: nat)
    requires Closed(links, all) && k < |seeds| && forall p :: p in seeds ==> p in all
    ensures forall p :: p in seeds[..k] || p in seeds[..k + 1] ==> p in all
    ensures var t := Trail({}, []);
            var before := WalkAll(seeds[..k], links, all, t);
            var after := Walk(seeds[k], links, all, before);
            && after == WalkAll(seeds[..k + 1], links, all, t)
            && after.out <= WalkAll(seeds, links, all, t).out
  {
    var t := Trail({}, []);
    assert seeds[..k + 1] == seeds[..k] + [seeds[k]] && seeds == seeds[..k + 1] + seeds[k + 1..];
    WalkAllJoins(seeds[..k], [seeds[k]], links, all, t);
    WalkAllOne(seeds[k], links, all, WalkAll(seeds[..k], links, all, t));
    WalkAllJoins(seeds[..k + 1], seeds[k + 1..], links, all, t);
    WalkAllExtends(seeds[k + 1..], links, all, WalkAll(seeds[..k + 1], links, all, t));
  }

  /** It is put out last of all that was reached until then. */
  lemma UnlinkedIsLastSoFar(seeds: seq<Pid>, links: Links, all: set<Pid>, pid: Pid, k: nat)
    requires Closed(links, all) && (forall p :: p in seeds ==> p in all) && Unlinked(links, pid)
    requires k < |seeds| && seeds[k] == pid && pid !in seeds[..k]
    ensures forall p :: p in seeds[..k + 1] ==> p in all
    ensures var out := WalkAll(seeds[..k + 1], links, all, Trail({}, [])).out;
            out != [] && out[|out| - 1] == pid
  {
    Stages(seeds, links, all, k);
    var t := Trail({}, []);
    var before := WalkAll(seeds[..k], links, all, t);
    PutOutIffReached(seeds[..k], links, all, pid);
    NoneReachesYet(links, seeds[..k], pid);
    WalkAllReaches(seeds[..k], links, all, t);
    assert t.seen - Elements(t.out) == {};
    assert pid in before.seen ==> pid in before.seen - Elements(before.out);
  }

  /**
   A process without a selected parent comes before another exactly when it
   stands among the seeds before every seed that reaches the other.
   */
  lemma UnlinkedPrecedesIff(seeds: seq<Pid>, links: Links, all: set<Pid>, pid: Pid, ancestor: Pid)
    requires Closed(links, all) && (forall p :: p in seeds ==> p in all)
    requires Unlinked(links, pid) && pid in seeds && ancestor in seeds
    ensures Precedes(WalkAll(seeds, links, all, Trail({}, [])).out, pid, ancestor)
       <==> StandsBefore(seeds, links, pid, ancestor)
  {
    var t := Trail({}, []);
    var k := FirstIndex(seeds, pid);
    Stages(seeds, links, all, k);
    UnlinkedIsLastSoFar(seeds, links, all, pid, k);
    PutOutIffReached(seeds[..k + 1], links, all, ancestor);
    PutOutIffReached(seeds, links, all, ancestor);
    WalkAllReaches(seeds, links, all, t);
    ReachesSelf(links, ancestor);
    var out, soFar := WalkAll(seeds, links, all, t).out, WalkAll(seeds[..k + 1], links, all, t).out;
    LastPrecedesIff(out, soFar, pid, ancestor);
    StandsBeforeIff(seeds, links, pid, ancestor, k);
  }

  lemma LastPrecedesIff(out: seq<Pid>, soFar: seq<Pid>, pid: Pid, ancestor: Pid)
    requires Distinct(out) && soFar <= out && soFar != [] && soFar[|soFar| - 1] == pid && ancestor in out
    ensures Precedes(out, pid, ancestor) <==> ancestor !in soFar
  {
    assert forall m :: 0 <= m < |soFar| ==> out[m] == soFar[m] && soFar[m] in soFar;
    var j :| 0 <= j < |out| && out[j] == ancestor;
    if ancestor in soFar {
      var m :| 0 <= m < |soFar| && soFar[m] == ancestor;
      assert out[m] == ancestor;
    }
  }

  lemma StandsBeforeIff(seeds: seq<Pid>, links: Links, pid: Pid, ancestor: Pid, k: nat)
    requires k < |seeds| && seeds[k] == pid && pid !in seeds[..k]
    ensures StandsBefore(seeds, links, pid, ancestor)
       <==> !AnyReaches(links, seeds[..k + 1], ancestor)
  {
    var soFar := seeds[..k + 1];
    forall i | 0 <= i < |seeds| ensures pid in seeds[..i] <==> i > k {
      if i > k {
        assert seeds[..i][k] == pid;
      } else {
        assert forall m :: 0 <= m < i ==> seeds[..i][m] == seeds[..k][m] && seeds[..k][m] in seeds[..k];
      }
    }
    assert forall i :: 0 <= i <= k ==> soFar[i] == seeds[i];
  }

  // ------------------------------------------------------------- main results

  lemma LinkIffParent(seeds: seq<Pid>, processes: seq<Process>, parent: Pid, child: Pid)
    requires parent in seeds && child in seeds
    ensures child in KidsOf(LinksOf(seeds, processes), parent) <==> IsParent(processes, parent, child)
  {
    assert parent in Elements(seeds) && child in Elements(seeds);
    if p :| p in processes && p.pid == child && p.parent == Some(parent) {
      var i :| 0 <= i < |processes| && processes[i] == p;
      assert IsLink(processes[i], Elements(seeds), parent, child);
    }
  }

  lemma UnselectedIsUnlinked(seeds: seq<Pid>, processes: seq<Process>, pid: Pid)
    requires !HasSelectedParent(seeds, processes, pid) && pid in seeds
    ensures Unlinked(LinksOf(seeds, processes), pid)
  {
    forall p | pid in KidsOf(LinksOf(seeds, processes), p) ensures false {
      assert p in Elements(seeds);
      LinkIffParent(seeds, processes, p, pid);
    }
  }

  lemma GapPrecedesIff(seeds: seq<Pid>, processes: seq<Process>, pid: Pid, ancestor: Pid)
    requires pid in seeds && ancestor in seeds && !HasSelectedParent(seeds, processes, pid)
    ensures Precedes(Postorder(seeds, processes), pid, ancestor)
       <==> StandsBefore(seeds, LinksOf(seeds, processes), pid, ancestor)
  {
    UnselectedIsUnlinked(seeds, processes, pid);
    assert forall p :: p in seeds ==> p in Elements(seeds);
    UnlinkedPrecedesIff(seeds, LinksOf(seeds, processes), Elements(seeds), pid, ancestor);
  }

  lemma ParentsPrecede(seeds: seq<Pid>, processes: seq<Process>, out: seq<Pid>)
    requires Elements(out) == Elements(seeds) && Distinct(out)
    ensures ChildrenFirst(seeds, processes, out)
       <==> forall pid, ancestor :: pid in seeds && ancestor in seeds && IsParent(processes, ancestor, pid)
              ==> Precedes(out, pid, ancestor)
  {
    if ChildrenFirst(seeds, processes, out) {
      forall pid, ancestor | pid in seeds && ancestor in seeds && IsParent(processes, ancestor, pid)
        ensures Precedes(out, pid, ancestor)
      {
        assert pid in Elements(out) && ancestor in Elements(out);
        var i :| 0 <= i < |out| && out[i] == pid;
        var j :| 0 <= j < |out| && out[j] == ancestor;
        var p :| p in processes && p.pid == pid && p.parent == Some(ancestor);
        assert IsLink(p, Elements(seeds), out[j], out[i]);
      }
    } else {
      var p, i, j :| p in processes && 0 <= i < |out| && 0 <= j < |out|
                     && IsLink(p, Elements(seeds), out[j], out[i]) && !(i < j);
      assert IsParent(processes, out[j], out[i]) && !Precedes(out, out[i], out[j]);
    }
  }

  /**
   Deepest first, exactly: every process comes before its nearest selected
   ancestor if and only if the selected parent links have no cycle and each
   process whose own parent is not selected stands among the seeds before
   every seed from which its nearest selected ancestor is reached.
   */
  lemma DeepestFirstIff(seeds: seq<Pid>, processes: seq<Process>)
    ensures DeepestFirst(seeds, processes, Postorder(seeds, processes))
       <==> Acyclic(seeds, processes) && GapsInOrder(seeds, processes)
  {
    var out := Postorder(seeds, processes);
    PostorderIsExact(seeds, processes);
    ChildrenFirstIffAcyclic(seeds, processes);
    ParentsPrecede(seeds, processes, out);
    forall pid, ancestor | IsNearest(seeds, processes, pid, ancestor) && !HasSelectedParent(seeds, processes, pid)
      ensures Precedes(out, pid, ancestor) <==> StandsBefore(seeds, LinksOf(seeds, processes), pid, ancestor)
    {
      GapPrecedesIff(seeds, processes, pid, ancestor);
    }
    forall pid, ancestor | pid in seeds && ancestor in seeds && IsParent(processes, ancestor, pid)
      ensures IsNearest(seeds, processes, pid, ancestor) && HasSelectedParent(seeds, processes, pid)
    {
    }
  }

  // ----------------------------------------------------------- items and gaps

  /** An ancestor listed before a process across a gap is put out before it. */
  lemma AncestorListedFirst(seeds: seq<Pid>, processes: seq<Process>, pid: Pid, ancestor: Pid, i: nat)
    requires IsNearest(seeds, processes, pid, ancestor) && !HasSelectedParent(seeds, processes, pid)
    requires i < |seeds| && seeds[i] == ancestor && pid !in seeds[..i]
    ensures !Precedes(Postorder(seeds, processes), pid, ancestor)
    ensures !DeepestFirst(seeds, processes, Postorder(seeds, processes))
  {
    GapPrecedesIff(seeds, processes, pid, ancestor);
    ReachesSelf(LinksOf(seeds, processes), ancestor);
  }

  /** `above` belongs to an item of the tree and `below` to something under it. */
  ghost predicate Under(item: Item, above: Pid, below: Pid) {
    (above in item.pids && below in AllPidsOf(item.children)) || UnderAny(item.children, above, below)
  }

  ghost predicate UnderAny(items: seq<Item>, above: Pid, below: Pid) {
    items != [] && (Under(items[0], above, below) || UnderAny(items[1..], above, below))
  }

  /** An item lists its own processes before those under it. */
  lemma {:induction false} AboveIsListedFirst(item: Item, above: Pid, below: Pid)
    requires Under(item, above, below)
    ensures Precedes(AllPids(item), above, below)
    decreases item, 1
  {
    var kids := AllPidsOf(item.children);
    if above in item.pids && below in kids {
      var i :| 0 <= i < |item.pids| && item.pids[i] == above;
      var j :| 0 <= j < |kids| && kids[j] == below;
      assert AllPids(item)[i] == above && AllPids(item)[|item.pids| + j] == below;
    } else {
      AboveIsListedFirstIn(item.children, above, below);
      PrecedesShifted(item.pids, kids, [], above, below);
      assert item.pids + kids + [] == AllPids(item);
    }
  }

  lemma {:induction false} AboveIsListedFirstIn(items: seq<Item>, above: Pid, below: Pid)
    requires UnderAny(items, above, below)
    ensures Precedes(AllPidsOf(items), above, below)
    decreases items, 0
  {
    var first, rest := AllPids(items[0]), AllPidsOf(items[1..]);
    if Under(items[0], above, below) {
      AboveIsListedFirst(items[0], above, below);
      PrecedesShifted([], first, rest, above, below);
      assert [] + first + rest == AllPidsOf(items);
    } else {
      AboveIsListedFirstIn(items[1..], above, below);
      PrecedesShifted(first, rest, [], above, below);
      assert first + rest + [] == AllPidsOf(items);
    }
  }

  lemma PrecedesShifted(front: seq<Pid>, s: seq<Pid>, back: seq<Pid>, a: Pid, b: Pid)
    requires Precedes(s, a, b)
    ensures Precedes(front + s + back, a, b)
  {
    var i, j :| 0 <= i < j < |s| && s[i] == a && s[j] == b;
    var all := front + s + back;
    assert all[|front| + i] == a && all[|front| + j] == b;
  }

  predicate OnlyOnce(s: seq<Pid>, pid: Pid) {
    forall i, j :: 0 <= i < |s| && 0 <= j < |s| && s[i] == pid && s[j] == pid ==> i == j
  }

  /**
   Any such gap inside an item breaks the order: when a process is listed under
   the item of its nearest selected ancestor, and the processes between them
   are not selected, the ancestor is put out first.
   */
  lemma GapInItemLosesDepth(item: Item, processes: seq<Process>, pid: Pid, ancestor: Pid)
    requires Under(item, ancestor, pid) && OnlyOnce(AllPids(item), pid)
    requires IsNearest(AllPids(item), processes, pid, ancestor)
    requires !HasSelectedParent(AllPids(item), processes, pid)
    ensures Precedes(Postorder(AllPids(item), processes), ancestor, pid)
    ensures !DeepestFirst(AllPids(item), processes, Postorder(AllPids(item), processes))
  {
    var seeds := AllPids(item);
    AboveIsListedFirst(item, ancestor, pid);
    var i, j :| 0 <= i < j < |seeds| && seeds[i] == ancestor && seeds[j] == pid;
    assert forall m :: 0 <= m < i ==> seeds[..i][m] == seeds[m] && seeds[m] != pid;
    AncestorListedFirst(seeds, processes, pid, ancestor, i);
    PostorderIsExact(seeds, processes);
    OneOrTheOther(Postorder(seeds, processes), seeds, pid, ancestor);
  }

  lemma OneOrTheOther(out: seq<Pid>, seeds: seq<Pid>, a: Pid, b: Pid)
    requires Elements(out) == Elements(seeds) && a in seeds && b in seeds && a != b
    ensures Precedes(out, a, b) || Precedes(out, b, a)
  {
    assert a in Elements(out) && b in Elements(out);
    var i :| 0 <= i < |out| && out[i] == a;
    var j :| 0 <= j < |out| && out[j] == b;
  }

  /** An agent and the server nested under it, with a shell between them. */
  function AgentItem(): Item {
    Item(Agent, "agent", [1], 0, [Item(Mcp, "server", [3], 0, [])])
  }

  function Snapshot(): seq<Process> {
    [Process(1, None, 7), Process(2, Some(1), 8), Process(3, Some(2), 9)]
  }

  lemma AgentPids()
    ensures AllPids(AgentItem()) == [1, 3] && Under(AgentItem(), 1, 3)
  {
    var kids := AgentItem().children;
    assert kids[1..] == [] && AllPidsOf(kids[1..]) == [] && AllPids(kids[0]) == [3];
    assert AllPidsOf(kids) == [3];
  }

  /** The agent is signalled before its server. */
  lemma AgentSignalledBeforeServer()
    ensures AllPids(AgentItem()) == [1, 3] && Under(AgentItem(), 1, 3) && IsNearest([1, 3], Snapshot(), 3, 1)
    ensures IdentitiesFor(AgentItem(), Snapshot()) == [Identity(1, 7), Identity(3, 9)]
  {
    AgentPids();
    ServerIsNearAgent(Snapshot());
    SkippedParentLosesDepth(Snapshot());
    FrozenTriple(Snapshot());
  }

  lemma ServerIsNearAgent(processes: seq<Process>)
    requires processes == Snapshot()
    ensures IsNearest([1, 3], processes, 3, 1)
  {
    assert processes[1] in processes && processes[2] in processes;
    assert IsParent(processes, 1, 2) && IsParent(processes, 2, 3);
    var chain := [3, 2, 1];
    assert IsGap([1, 3], processes, chain) && chain[0] == 3 && chain[|chain| - 1] == 1;
  }

  lemma FrozenTriple(processes: seq<Process>)
    requires processes == Snapshot()
    ensures Frozen([1, 3], processes) == [Identity(1, 7), Identity(3, 9)]
  {
    var two, one := processes[..2], processes[..1];
    assert two[..1] == one;
    assert Lookup(one, 1) == Some(processes[0]) && Lookup(two, 1) == Lookup(one, 1);
    assert Lookup(processes, 1) == Lookup(two, 1) && Lookup(processes, 3) == Some(processes[2]);
    assert [1, 3][1..] == [3] && [3][1..] == [];
    assert Frozen([3], processes) == [Identity(3, 9)] + Frozen([], processes);
    assert Frozen([1, 3], processes) == [Identity(1, 7)] + Frozen([3], processes);
  }
}
