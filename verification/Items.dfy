/** The items shown to the user: a process and what was grouped under it. */
module Items {

  type Pid = nat

  datatype Category =
    | Agent | Mcp | Browser | DevServer | LanguageServer | Database | Worker | UnknownDev | DevService

  datatype Item = Item(category: Category, name: string, pids: seq<Pid>, memory: nat, children: seq<Item>)

  /** The pids of an item and of everything under it, parents first. */
  function AllPids(item: Item): seq<Pid> {
    item.pids + AllPidsOf(item.children)
  }

  function AllPidsOf(items: seq<Item>): seq<Pid> {
    if items == [] then [] else AllPids(items[0]) + AllPidsOf(items[1..])
  }

  method ItemPids(item: Item) returns (pids: seq<Pid>)
    ensures pids == AllPids(item)
  {
    pids := item.pids;
    var i := 0;
    while i < |item.children|
      invariant 0 <= i <= |item.children|
      invariant pids + AllPidsOf(item.children[i..]) == AllPids(item)
    {
      var below := ItemPids(item.children[i]);
      assert item.children[i..][1..] == item.children[i + 1..];
      pids := pids + below;
      i := i + 1;
    }
  }
}
