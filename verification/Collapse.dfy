/**
 Folding of helper processes: a child with the category and name of its
 parent item becomes part of the parent.
 */
module Collapse {
  import opened Items

  // --------------------------------------------------------------- the folding

  predicate Same(a: Item, b: Item) {
    a.category == b.category && a.name == b.name
  }

  /** `kids` are taken one by one: absorbed into the item, or kept. */
  datatype Folding = Folding(item: Item, kept: seq<Item>, absorbed: seq<Item>)

  function TakeChild(f: Folding, child: Item): Folding {
    if Same(child, f.item) then
      f.(item := f.item.(pids := f.item.pids + child.pids, memory := f.item.memory + child.memory),
         absorbed := f.absorbed + child.children)
    else f.(kept := f.kept + [child])
  }

  function TakeChildren(f: Folding, kids: seq<Item>): Folding
    decreases |kids|
  {
    if kids == [] then f else TakeChildren(TakeChild(f, kids[0]), kids[1..])
  }

  /** Children first, then the item itself takes them in. */
  function CollapseSame(item: Item): Item {
    var f := TakeChildren(Folding(item, [], []), CollapseAll(item.children));
    f.item.(children := f.kept + f.absorbed)
  }

  function CollapseAll(items: seq<Item>): seq<Item> {
    if items == [] then [] else [CollapseSame(items[0])] + CollapseAll(items[1..])
  }

  // ------------------------------------------------- what it should come to

  /** No item at any depth has a child of its own category and name. */
  ghost predicate Settled(item: Item) {
    (forall c :: c in item.children ==> !Same(c, item)) && SettledAll(item.children)
  }

  ghost predicate SettledAll(items: seq<Item>) {
    items == [] || (Settled(items[0]) && SettledAll(items[1..]))
  }

  /**
   A group is a maximal chain of items of one category and name, each under
   the other: its key, its processes from the top down, and its memory.
   */
  datatype Group = Group(category: Category, name: string, pids: seq<Pid>, memory: nat)

  /** The processes of the chain that starts at an item. */
  function ChainPids(item: Item): seq<Pid> {
    item.pids + ChainPidsOf(item.children, item.category, item.name)
  }

  function ChainPidsOf(items: seq<Item>, category: Category, name: string): seq<Pid> {
    if items == [] then []
    else
      (if items[0].category == category && items[0].name == name then ChainPids(items[0]) else [])
      + ChainPidsOf(items[1..], category, name)
  }

  /** And its memory. */
  function ChainMemory(item: Item): nat {
    item.memory + ChainMemoryOf(item.children, item.category, item.name)
  }

  function ChainMemoryOf(items: seq<Item>, category: Category, name: string): nat {
    if items == [] then 0
    else
      (if items[0].category == category && items[0].name == name then ChainMemory(items[0]) else 0)
      + ChainMemoryOf(items[1..], category, name)
  }

  function Own(item: Item): Group {
    Group(item.category, item.name, ChainPids(item), ChainMemory(item))
  }

  /** How many groups of a tree are `g`. */
  function Groups(item: Item, g: Group): nat
    decreases item, 1
  {
    (if g == Own(item) then 1 else 0) + GroupsBelow(item.children, item.category, item.name, g)
  }

  /** The same below a chain: a child continues the chain or starts a group. */
  function GroupsBelow(items: seq<Item>, category: Category, name: string, g: Group): nat
    decreases items, 0
  {
    if items == [] then 0
    else GroupsPart(items[0], category, name, g) + GroupsBelow(items[1..], category, name, g)
  }

  function GroupsPart(child: Item, category: Category, name: string, g: Group): nat
    decreases child, 2
  {
    if child.category == category && child.name == name
    then GroupsBelow(child.children, category, name, g)
    else Groups(child, g)
  }

  // ------------------------------------------------------------- list algebra

  lemma {:induction false} GroupsAppend(a: seq<Item>, b: seq<Item>, category: Category, name: string, g: Group)
    ensures GroupsBelow(a + b, category, name, g) == GroupsBelow(a, category, name, g) + GroupsBelow(b, category, name, g)
    decreases |a|
  {
    if a == [] {
      assert a + b == b;
    } else {
      GroupsAppend(a[1..], b, category, name, g);
      assert (a + b)[1..] == a[1..] + b;
    }
  }

  lemma {:induction false} SettledAppend(a: seq<Item>, b: seq<Item>)
    ensures SettledAll(a + b) <==> SettledAll(a) && SettledAll(b)
    decreases |a|
  {
    if a == [] {
      assert a + b == b;
    } else {
      SettledAppend(a[1..], b);
      assert (a + b)[1..] == a[1..] + b;
    }
  }

  /** A chain does not go through children of another kind. */
  lemma {:induction false} NoSameNoChain(items: seq<Item>, item: Item)
    requires forall c :: c in items ==> !Same(c, item)
    ensures ChainPidsOf(items, item.category, item.name) == []
    ensures ChainMemoryOf(items, item.category, item.name) == 0
    decreases |items|
  {
    if items != [] {
      assert items[0] in items;
      NoSameNoChain(items[1..], item);
    }
  }

  lemma SettledIsItsChain(item: Item)
    requires Settled(item)
    ensures ChainPids(item) == item.pids && ChainMemory(item) == item.memory
  {
    NoSameNoChain(item.children, item);
  }

  // ---------------------------------------------------------- taking children

  /** What the folding will become, as an item. */
  function Result(f: Folding): Item {
    f.item.(children := f.kept + f.absorbed)
  }

  ghost predicate FoldingOk(f: Folding) {
    && SettledAll(f.kept) && SettledAll(f.absorbed)
    && (forall c :: c in f.kept ==> !Same(c, f.item))
    && (forall c :: c in f.absorbed ==> !Same(c, f.item))
  }

  lemma TakeSettles(f: Folding, child: Item)
    requires FoldingOk(f) && Settled(child)
    ensures FoldingOk(TakeChild(f, child)) && Same(TakeChild(f, child).item, f.item)
  {
    if Same(child, f.item) {
      SettledAppend(f.absorbed, child.children);
    } else {
      SettledAppend(f.kept, [child]);
    }
  }

  /** The groups a folding holds so far. */
  function Held(f: Folding, g: Group): nat {
    GroupsBelow(f.kept, f.item.category, f.item.name, g) + GroupsBelow(f.absorbed, f.item.category, f.item.name, g)
  }

  lemma TakeAddsGroups(f: Folding, child: Item, g: Group)
    ensures Held(TakeChild(f, child), g) == Held(f, g) + GroupsPart(child, f.item.category, f.item.name, g)
  {
    if Same(child, f.item) {
      GroupsAppend(f.absorbed, child.children, f.item.category, f.item.name, g);
    } else {
      GroupsAppend(f.kept, [child], f.item.category, f.item.name, g);
      assert [child][1..] == [];
    }
  }

  lemma {:induction false} TakeAllGroups(f: Folding, kids: seq<Item>, g: Group)
    ensures Held(TakeChildren(f, kids), g) == Held(f, g) + GroupsBelow(kids, f.item.category, f.item.name, g)
    decreases |kids|
  {
    if kids != [] {
      TakeAddsGroups(f, kids[0], g);
      TakeAllGroups(TakeChild(f, kids[0]), kids[1..], g);
    }
  }

  /** What a settled child adds to the item it may be taken into. */
  lemma TakeAddsChain(f: Folding, kids: seq<Item>)
    requires kids != [] && Settled(kids[0])
    ensures var g := TakeChild(f, kids[0]);
            var c, n := f.item.category, f.item.name;
            && Same(g.item, f.item)
            && g.item.pids + ChainPidsOf(kids[1..], c, n) == f.item.pids + ChainPidsOf(kids, c, n)
            && g.item.memory + ChainMemoryOf(kids[1..], c, n) == f.item.memory + ChainMemoryOf(kids, c, n)
  {
    SettledIsItsChain(kids[0]);
    ChainOfHead(kids, f.item.category, f.item.name);
    TakeAddsChild(f, kids[0]);
  }

  lemma ChainOfHead(kids: seq<Item>, category: Category, name: string)
    requires kids != []
    ensures var same := kids[0].category == category && kids[0].name == name;
            && ChainPidsOf(kids, category, name)
               == (if same then ChainPids(kids[0]) else []) + ChainPidsOf(kids[1..], category, name)
            && ChainMemoryOf(kids, category, name)
               == (if same then ChainMemory(kids[0]) else 0) + ChainMemoryOf(kids[1..], category, name)
  {
  }

  lemma TakeAddsChild(f: Folding, child: Item)
    ensures var g := TakeChild(f, child);
            && Same(g.item, f.item)
            && g.item.pids == f.item.pids + (if Same(child, f.item) then child.pids else [])
            && g.item.memory == f.item.memory + (if Same(child, f.item) then child.memory else 0)
  {
  }

  lemma {:induction false} TakeAllKeeps(f: Folding, kids: seq<Item>)
    requires FoldingOk(f) && SettledAll(kids)
    ensures FoldingOk(TakeChildren(f, kids)) && Same(TakeChildren(f, kids).item, f.item)
    decreases |kids|
  {
    if kids != [] {
      TakeSettles(f, kids[0]);
      TakeAllKeeps(TakeChild(f, kids[0]), kids[1..]);
    }
  }

  lemma {:induction false} TakeAll(f: Folding, kids: seq<Item>)
    requires SettledAll(kids)
    ensures var r := TakeChildren(f, kids);
            && r.item.pids == f.item.pids + ChainPidsOf(kids, f.item.category, f.item.name)
            && r.item.memory == f.item.memory + ChainMemoryOf(kids, f.item.category, f.item.name)
    decreases |kids|
  {
    if kids != [] {
      TakeAddsChain(f, kids);
      TakeAll(TakeChild(f, kids[0]), kids[1..]);
    }
  }

  // -------------------------------------------------------------- main results

  /**
   No child is left with the category and name of its parent, at any depth,
   and the item itself holds exactly the processes, in order, and the memory
   of its chain.
   */
  lemma {:induction false} CollapseSettles(item: Item)
    ensures var r := CollapseSame(item);
            Settled(r) && Same(r, item) && r.pids == ChainPids(item) && r.memory == ChainMemory(item)
    decreases item, 1
  {
    CollapseAllSettles(item.children, item.category, item.name);
    TakeAll(Folding(item, [], []), CollapseAll(item.children));
    TakeAllKeeps(Folding(item, [], []), CollapseAll(item.children));
    var f := TakeChildren(Folding(item, [], []), CollapseAll(item.children));
    SettledAppend(f.kept, f.absorbed);
  }

  lemma {:induction false} CollapseAllSettles(items: seq<Item>, category: Category, name: string)
    ensures var r := CollapseAll(items);
            && SettledAll(r)
            && ChainPidsOf(r, category, name) == ChainPidsOf(items, category, name)
            && ChainMemoryOf(r, category, name) == ChainMemoryOf(items, category, name)
    decreases items, 0
  {
    if items != [] {
      CollapseSettles(items[0]);
      CollapseAllSettles(items[1..], category, name);
      HeadSettles(items, category, name);
    }
  }

  lemma HeadSettles(items: seq<Item>, category: Category, name: string)
    requires items != []
    requires var c := CollapseSame(items[0]);
             Settled(c) && Same(c, items[0]) && c.pids == ChainPids(items[0]) && c.memory == ChainMemory(items[0])
    requires SettledAll(CollapseAll(items[1..]))
    requires ChainPidsOf(CollapseAll(items[1..]), category, name) == ChainPidsOf(items[1..], category, name)
    requires ChainMemoryOf(CollapseAll(items[1..]), category, name) == ChainMemoryOf(items[1..], category, name)
    ensures SettledAll(CollapseAll(items))
    ensures ChainPidsOf(CollapseAll(items), category, name) == ChainPidsOf(items, category, name)
    ensures ChainMemoryOf(CollapseAll(items), category, name) == ChainMemoryOf(items, category, name)
  {
    var c, rest := CollapseSame(items[0]), CollapseAll(items[1..]);
    SettledIsItsChain(c);
    ConsSettled(c, rest, category, name);
    assert CollapseAll(items) == [c] + rest;
  }

  lemma ConsSettled(c: Item, rest: seq<Item>, category: Category, name: string)
    requires Settled(c) && SettledAll(rest)
    ensures SettledAll([c] + rest)
    ensures var same := c.category == category && c.name == name;
            && ChainPidsOf([c] + rest, category, name)
               == (if same then ChainPids(c) else []) + ChainPidsOf(rest, category, name)
            && ChainMemoryOf([c] + rest, category, name)
               == (if same then ChainMemory(c) else 0) + ChainMemoryOf(rest, category, name)
  {
    assert ([c] + rest)[1..] == rest;
  }

  lemma {:induction false} TreeKeepsGroups(item: Item, g: Group)
    ensures Groups(CollapseSame(item), g) == Groups(item, g)
    ensures var r := CollapseSame(item);
            GroupsBelow(r.children, r.category, r.name, g) == GroupsBelow(item.children, item.category, item.name, g)
    decreases item, 1
  {
    ForestKeepsGroups(item.children, item.category, item.name, g);
    TakeAllGroups(Folding(item, [], []), CollapseAll(item.children), g);
    CollapseSettles(item);
    SettledIsItsChain(CollapseSame(item));
    var f := TakeChildren(Folding(item, [], []), CollapseAll(item.children));
    GroupsAppend(f.kept, f.absorbed, item.category, item.name, g);
  }

  lemma {:induction false} ForestKeepsGroups(items: seq<Item>, category: Category, name: string, g: Group)
    ensures GroupsBelow(CollapseAll(items), category, name, g) == GroupsBelow(items, category, name, g)
    decreases items, 0
  {
    if items != [] {
      TreeKeepsGroups(items[0], g);
      CollapseSettles(items[0]);
      ForestKeepsGroups(items[1..], category, name, g);
      assert CollapseAll(items)[1..] == CollapseAll(items[1..]);
    }
  }

  /**
   Every group of the original tree is there as often as before, and no other:
   each chain became one item, and nothing else joined it.
   */
  lemma CollapseKeepsGroups(item: Item)
    ensures forall g :: Groups(CollapseSame(item), g) == Groups(item, g)
  {
    forall g ensures Groups(CollapseSame(item), g) == Groups(item, g) {
      TreeKeepsGroups(item, g);
    }
  }

  // -------------------------------------------------------------- conservation

  /** How often a pid occurs in a tree. */
  function Occurs(item: Item, pid: Pid): nat {
    multiset(item.pids)[pid] + OccursIn(item.children, pid)
  }

  function OccursIn(items: seq<Item>, pid: Pid): nat {
    if items == [] then 0 else Occurs(items[0], pid) + OccursIn(items[1..], pid)
  }

  function TotalMemory(item: Item): nat {
    item.memory + TotalMemoryOf(item.children)
  }

  function TotalMemoryOf(items: seq<Item>): nat {
    if items == [] then 0 else TotalMemory(items[0]) + TotalMemoryOf(items[1..])
  }

  lemma {:induction false} OccursCounts(item: Item, pid: Pid)
    ensures Occurs(item, pid) == multiset(AllPids(item))[pid]
    decreases item, 1
  {
    OccursInCounts(item.children, pid);
  }

  lemma {:induction false} OccursInCounts(items: seq<Item>, pid: Pid)
    ensures OccursIn(items, pid) == multiset(AllPidsOf(items))[pid]
    decreases items, 0
  {
    if items != [] {
      OccursCounts(items[0], pid);
      OccursInCounts(items[1..], pid);
    }
  }

  lemma {:induction false} TotalsAppend(a: seq<Item>, b: seq<Item>, pid: Pid)
    ensures OccursIn(a + b, pid) == OccursIn(a, pid) + OccursIn(b, pid)
    ensures TotalMemoryOf(a + b) == TotalMemoryOf(a) + TotalMemoryOf(b)
    decreases |a|
  {
    if a == [] {
      assert a + b == b;
    } else {
      TotalsAppend(a[1..], b, pid);
      assert (a + b)[1..] == a[1..] + b;
    }
  }

  lemma TakeConserves(f: Folding, child: Item, pid: Pid)
    ensures var r := TakeChild(f, child);
            && Occurs(Result(r), pid) == Occurs(Result(f), pid) + Occurs(child, pid)
            && TotalMemory(Result(r)) == TotalMemory(Result(f)) + TotalMemory(child)
  {
    var r := TakeChild(f, child);
    TotalsAppend(f.kept, f.absorbed, pid);
    TotalsAppend(r.kept, r.absorbed, pid);
    if Same(child, f.item) {
      TotalsAppend(f.absorbed, child.children, pid);
    } else {
      TotalsAppend(f.kept, [child], pid);
      assert [child][1..] == [];
    }
  }

  lemma {:induction false} TakeAllConserves(f: Folding, kids: seq<Item>, pid: Pid)
    ensures var r := TakeChildren(f, kids);
            && Occurs(Result(r), pid) == Occurs(Result(f), pid) + OccursIn(kids, pid)
            && TotalMemory(Result(r)) == TotalMemory(Result(f)) + TotalMemoryOf(kids)
    decreases |kids|
  {
    if kids != [] {
      TakeConserves(f, kids[0], pid);
      TakeAllConserves(TakeChild(f, kids[0]), kids[1..], pid);
    }
  }

  lemma {:induction false} TreeConserves(item: Item, pid: Pid)
    ensures Occurs(CollapseSame(item), pid) == Occurs(item, pid)
    ensures TotalMemory(CollapseSame(item)) == TotalMemory(item)
    decreases item, 1
  {
    ForestConserves(item.children, pid);
    TakeAllConserves(Folding(item, [], []), CollapseAll(item.children), pid);
  }

  lemma {:induction false} ForestConserves(items: seq<Item>, pid: Pid)
    ensures OccursIn(CollapseAll(items), pid) == OccursIn(items, pid)
    ensures TotalMemoryOf(CollapseAll(items)) == TotalMemoryOf(items)
    decreases items, 0
  {
    if items != [] {
      TreeConserves(items[0], pid);
      ForestConserves(items[1..], pid);
      assert CollapseAll(items)[1..] == CollapseAll(items[1..]);
    }
  }

  /** No process and no byte is lost or counted twice. */
  lemma CollapseConserves(item: Item)
    ensures multiset(AllPids(CollapseSame(item))) == multiset(AllPids(item))
    ensures TotalMemory(CollapseSame(item)) == TotalMemory(item)
  {
    forall pid ensures multiset(AllPids(CollapseSame(item)))[pid] == multiset(AllPids(item))[pid] {
      TreeConserves(item, pid);
      OccursCounts(item, pid);
      OccursCounts(CollapseSame(item), pid);
    }
    TreeConserves(item, 0);
  }

  // --------------------------------------------------------------- idempotence

  lemma {:induction false} TakeNothing(f: Folding, kids: seq<Item>)
    requires forall c :: c in kids ==> !Same(c, f.item)
    ensures TakeChildren(f, kids) == f.(kept := f.kept + kids)
    decreases |kids|
  {
    if kids == [] {
      assert f.kept + kids == f.kept;
    } else {
      TakeNothing(TakeChild(f, kids[0]), kids[1..]);
      assert f.kept + [kids[0]] + kids[1..] == f.kept + kids;
    }
  }

  /** A tree is left alone exactly when it is settled. */
  lemma {:induction false} CollapseFixesSettled(item: Item)
    ensures CollapseSame(item) == item <==> Settled(item)
  {
    if Settled(item) {
      CollapseAllFixesSettled(item.children);
      TakeNothing(Folding(item, [], []), item.children);
      assert [] + item.children + [] == item.children;
    }
    CollapseSettles(item);
  }

  lemma {:induction false} CollapseAllFixesSettled(items: seq<Item>)
    requires SettledAll(items)
    ensures CollapseAll(items) == items
  {
    if items != [] {
      CollapseFixesSettled(items[0]);
      CollapseAllFixesSettled(items[1..]);
      assert items == [items[0]] + items[1..];
    }
  }

  lemma CollapseIsIdempotent(item: Item)
    ensures CollapseSame(CollapseSame(item)) == CollapseSame(item)
  {
    CollapseSettles(item);
    CollapseFixesSettled(CollapseSame(item));
  }

  // -------------------------------------------------------------------- order

  /** The children that are not folded, in their order. */
  function Others(kids: seq<Item>, item: Item): seq<Item> {
    if kids == [] then []
    else (if Same(kids[0], item) then [] else [kids[0]]) + Others(kids[1..], item)
  }

  /** What hangs below the children that are folded, in their order. */
  function Adopted(kids: seq<Item>, item: Item): seq<Item> {
    if kids == [] then []
    else (if Same(kids[0], item) then kids[0].children else []) + Adopted(kids[1..], item)
  }

  lemma Assoc(a: seq<Item>, b: seq<Item>, c: seq<Item>)
    ensures a + (b + c) == (a + b) + c
  {
  }

  lemma {:induction false} TakeKeepsOrder(f: Folding, kids: seq<Item>)
    ensures var r := TakeChildren(f, kids);
            && r.kept == f.kept + Others(kids, f.item) && r.absorbed == f.absorbed + Adopted(kids, f.item)
    decreases |kids|
  {
    if kids != [] {
      var g := TakeChild(f, kids[0]);
      var x, y := Others(kids[1..], f.item), Adopted(kids[1..], f.item);
      TakeKeepsOrder(g, kids[1..]);
      SameFilters(kids[1..], g.item, f.item);
      if Same(kids[0], f.item) {
        Assoc(f.absorbed, kids[0].children, y);
        AssocNone(x);
      } else {
        Assoc(f.kept, [kids[0]], x);
        AssocNone(y);
      }
    }
  }

  lemma AssocNone(a: seq<Item>)
    ensures [] + a == a
  {
  }

  lemma {:induction false} SameFilters(kids: seq<Item>, a: Item, b: Item)
    requires Same(a, b)
    ensures Others(kids, a) == Others(kids, b) && Adopted(kids, a) == Adopted(kids, b)
    decreases |kids|
  {
    if kids != [] {
      SameFilters(kids[1..], a, b);
    }
  }

  lemma {:induction false} CollapsedOneByOne(items: seq<Item>)
    ensures |CollapseAll(items)| == |items|
    ensures forall k :: 0 <= k < |items| ==> CollapseAll(items)[k] == CollapseSame(items[k])
    decreases |items|
  {
    if items != [] {
      CollapsedOneByOne(items[1..]);
      assert forall k :: 0 < k < |items| ==> items[k] == items[1..][k - 1];
    }
  }

  /**
   Children keep their order: first those that were not folded, then what hung
   below those that were, each folded itself before.
   */
  lemma CollapseKeepsOrder(item: Item)
    ensures var kids := CollapseAll(item.children);
            && CollapseSame(item).children == Others(kids, item) + Adopted(kids, item)
            && |kids| == |item.children|
            && forall k :: 0 <= k < |kids| ==> kids[k] == CollapseSame(item.children[k])
  {
    var kids := CollapseAll(item.children);
    TakeKeepsOrder(Folding(item, [], []), kids);
    AssocNone(Others(kids, item));
    AssocNone(Adopted(kids, item));
    CollapsedOneByOne(item.children);
  }

  // -------------------------------------------------------------- the two loops

  /** The recursion over the children, then the loop that takes them in. */
  method Collapsed(item: Item) returns (r: Item)
    ensures r == CollapseSame(item)
    decreases item, 1
  {
    var kids := CollapsedChildren(item.children);
    r := item;
    var kept: seq<Item>, absorbed: seq<Item> := [], [];
    var i := 0;
    while i < |kids|
      invariant 0 <= i <= |kids|
      invariant TakeChildren(Folding(r, kept, absorbed), kids[i..]) == TakeChildren(Folding(item, [], []), kids)
    {
      var child := kids[i];
      assert kids[i..][1..] == kids[i + 1..];
      if child.category == r.category && child.name == r.name {
        r := r.(pids := r.pids + child.pids, memory := r.memory + child.memory);
        absorbed := absorbed + child.children;
      } else {
        kept := kept + [child];
      }
      i := i + 1;
    }
    assert kids[i..] == [];
    kept := kept + absorbed;
    r := r.(children := kept);
  }

  method CollapsedChildren(items: seq<Item>) returns (kids: seq<Item>)
    ensures kids == CollapseAll(items)
    decreases items, 0
  {
    kids := [];
    var i := 0;
    while i < |items|
      invariant 0 <= i <= |items|
      invariant kids + CollapseAll(items[i..]) == CollapseAll(items)
    {
      var child := Collapsed(items[i]);
      assert items[i..][1..] == items[i + 1..];
      kids := kids + [child];
      i := i + 1;
    }
    assert items[i..] == [];
  }
}
