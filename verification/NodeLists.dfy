/**
 The lists of nodes a gateway keeps for one service, ordered by usage
 (`NodeSource` vectors of packages/media_gateway/src/store/service.rs), and the plain map each stands for.
 */
module NodeLists {
  import opened Options

  const PING_TIMEOUT: nat := 5000

  datatype NodeSource = NodeSource(node: nat, usage: nat, lastUpdated: nat)

  /** What a node's latest ping said, and when. */
  datatype Entry = Entry(usage: nat, lastUpdated: nat)

  // ---------------------------------------------------------------- the map a list stands for

  function Entries(list: seq<NodeSource>): map<nat, Entry> {
    if list == [] then map[]
    else
      var s := list[|list| - 1];
      Entries(list[..|list| - 1])[s.node := Entry(s.usage, s.lastUpdated)]
  }

  ghost predicate DistinctNodes(list: seq<NodeSource>) {
    |list| > 0 ==> DistinctNodes(list[..|list| - 1]) && list[|list| - 1].node !in Entries(list[..|list| - 1])
  }

  ghost predicate ByUsage(list: seq<NodeSource>) {
    |list| > 1 ==> ByUsage(list[..|list| - 1]) && list[|list| - 2].usage <= list[|list| - 1].usage
  }

  /** Duplicate free, in order of usage, and saying what the map says. */
  ghost predicate Represents(list: seq<NodeSource>, m: map<nat, Entry>) {
    DistinctNodes(list) && ByUsage(list) && Entries(list) == m
  }

  lemma {:induction false} EntryAt(list: seq<NodeSource>, i: nat)
    requires DistinctNodes(list) && i < |list|
    ensures list[i].node in Entries(list) && Entries(list)[list[i].node] == Entry(list[i].usage, list[i].lastUpdated)
  {
    if i < |list| - 1 {
      EntryAt(list[..|list| - 1], i);
    }
  }

  lemma {:induction false} EntryFrom(list: seq<NodeSource>, node: nat) returns (i: nat)
    requires node in Entries(list)
    ensures i < |list| && list[i].node == node
  {
    if list[|list| - 1].node == node {
      i := |list| - 1;
    } else {
      i := EntryFrom(list[..|list| - 1], node);
    }
  }

  lemma {:induction false} OneIndex(list: seq<NodeSource>, i: nat, j: nat)
    requires DistinctNodes(list) && i < |list| && j < |list| && list[i].node == list[j].node
    ensures i == j
  {
    var n := |list| - 1;
    if i < n && j < n {
      OneIndex(list[..n], i, j);
    } else if i < n {
      EntryAt(list[..n], i);
    } else if j < n {
      EntryAt(list[..n], j);
    }
  }

  /** The first node of a list is one of the least used. */
  lemma {:induction false} FirstLeastUsed(list: seq<NodeSource>, i: nat)
    requires ByUsage(list) && i < |list|
    ensures list[0].usage <= list[i].usage
  {
    if i > 0 {
      var n := |list| - 1;
      FirstLeastUsed(list[..n], if i < n then i else n - 1);
    }
  }

  lemma LeastUsed(list: seq<NodeSource>, m: map<nat, Entry>)
    requires Represents(list, m)
    ensures list == [] <==> m == map[]
    ensures list != [] ==> list[0].node in m && forall n :: n in m ==> m[list[0].node].usage <= m[n].usage
  {
    if list != [] {
      EntryAt(list, 0);
      forall n | n in m ensures m[list[0].node].usage <= m[n].usage {
        var i := EntryFrom(list, n);
        EntryAt(list, i);
        FirstLeastUsed(list, i);
      }
    }
  }

  // ---------------------------------------------------------------- sorting

  /** Stable insertion by usage into a sorted list. */
  function Insert(list: seq<NodeSource>, x: NodeSource): seq<NodeSource> {
    if list == [] || list[|list| - 1].usage <= x.usage then list + [x]
    else Insert(list[..|list| - 1], x) + [list[|list| - 1]]
  }

  function Sort(list: seq<NodeSource>): seq<NodeSource> {
    if list == [] then [] else Insert(Sort(list[..|list| - 1]), list[|list| - 1])
  }

  lemma {:induction false} InsertSorted(list: seq<NodeSource>, x: NodeSource)
    requires ByUsage(list)
    ensures ByUsage(Insert(list, x)) && |Insert(list, x)| == |list| + 1
    ensures Insert(list, x)[|list|] == if list == [] || list[|list| - 1].usage <= x.usage then x else list[|list| - 1]
  {
    var r := Insert(list, x);
    if list == [] || list[|list| - 1].usage <= x.usage {
      assert r[..|list|] == list;
    } else {
      var init := list[..|list| - 1];
      InsertSorted(init, x);
      assert r[..|list|] == Insert(init, x);
    }
  }

  lemma {:induction false} InsertEntries(list: seq<NodeSource>, x: NodeSource)
    requires DistinctNodes(list) && x.node !in Entries(list)
    ensures DistinctNodes(Insert(list, x))
    ensures Entries(Insert(list, x)) == Entries(list)[x.node := Entry(x.usage, x.lastUpdated)]
  {
    var r := Insert(list, x);
    if list == [] || list[|list| - 1].usage <= x.usage {
      assert r[..|list|] == list;
    } else {
      var init, last := list[..|list| - 1], list[|list| - 1];
      InsertEntries(init, x);
      assert r == Insert(init, x) + [last] && r[..|r| - 1] == Insert(init, x);
    }
  }

  lemma {:induction false} SortRepresents(list: seq<NodeSource>)
    requires DistinctNodes(list)
    ensures Represents(Sort(list), Entries(list))
  {
    if list != [] {
      var init, last := list[..|list| - 1], list[|list| - 1];
      SortRepresents(init);
      InsertSorted(Sort(init), last);
      InsertEntries(Sort(init), last);
    }
  }

  // ---------------------------------------------------------------- changing one node

  /** The index of a node. */
  function Find(list: seq<NodeSource>, node: nat): (r: Option<nat>)
    ensures r.Some? ==> r.value < |list| && list[r.value].node == node
    ensures r.Some? ==> forall i :: 0 <= i < r.value ==> list[i].node != node
    ensures r.None? ==> forall i :: 0 <= i < |list| ==> list[i].node != node
  {
    if list == [] then None
    else
      var n := |list| - 1;
      var before := Find(list[..n], node);
      assert forall i :: 0 <= i < n ==> list[..n][i] == list[i];
      if before.Some? then before else if list[n].node == node then Some(n) else None
  }

  /** A ping refreshes the node's entry or adds one; then the list is sorted again. */
  function Ping(list: seq<NodeSource>, now: nat, node: nat, usage: nat): seq<NodeSource> {
    var i := Find(list, node);
    Sort(if i.Some? then list[i.value := NodeSource(node, usage, now)] else list + [NodeSource(node, usage, now)])
  }

  function Remove(list: seq<NodeSource>, node: nat): seq<NodeSource> {
    var i := Find(list, node);
    if i.Some? then DropAt(list, i.value) else list
  }

  function DropAt(list: seq<NodeSource>, i: nat): seq<NodeSource>
    requires i < |list|
  {
    list[..i] + list[i + 1..]
  }

  function Unexpired(list: seq<NodeSource>, now: nat): seq<NodeSource> {
    if list == [] then []
    else
      var s := list[|list| - 1];
      Unexpired(list[..|list| - 1], now) + if s.lastUpdated + PING_TIMEOUT > now then [s] else []
  }

  function Fresh(m: map<nat, Entry>, now: nat): map<nat, Entry> {
    map n | n in m && m[n].lastUpdated + PING_TIMEOUT > now :: m[n]
  }

  lemma {:induction false} UpdateEntries(list: seq<NodeSource>, i: nat, x: NodeSource)
    requires DistinctNodes(list) && i < |list| && list[i].node == x.node
    ensures DistinctNodes(list[i := x]) && Entries(list[i := x]) == Entries(list)[x.node := Entry(x.usage, x.lastUpdated)]
  {
    var n := |list| - 1;
    var r := list[i := x];
    if i == n {
      assert r[..n] == list[..n];
    } else {
      assert r[..n] == list[..n][i := x];
      UpdateEntries(list[..n], i, x);
      EntryAt(list[..n], i);
    }
  }

  lemma PingRepresents(list: seq<NodeSource>, m: map<nat, Entry>, now: nat, node: nat, usage: nat)
    requires Represents(list, m)
    ensures Represents(Ping(list, now, node, usage), m[node := Entry(usage, now)])
  {
    var i, x := Find(list, node), NodeSource(node, usage, now);
    if i.Some? {
      UpdateEntries(list, i.value, x);
      SortRepresents(list[i.value := x]);
    } else {
      var r := list + [x];
      assert r[..|list|] == list;
      if node in m {
        var j := EntryFrom(list, node);
      }
      SortRepresents(r);
    }
  }

  lemma DropAtInit(list: seq<NodeSource>, i: nat)
    requires i < |list| - 1
    ensures DropAt(list, i) == DropAt(list[..|list| - 1], i) + [list[|list| - 1]]
    ensures DropAt(list, i)[..|list| - 2] == DropAt(list[..|list| - 1], i)
  {
  }

  lemma {:induction false} DropAtRepresents(list: seq<NodeSource>, i: nat)
    requires DistinctNodes(list) && ByUsage(list) && i < |list|
    ensures Represents(DropAt(list, i), Entries(list) - {list[i].node})
    ensures |list| > 1 ==> DropAt(list, i)[|list| - 2].usage <= list[|list| - 1].usage
  {
    var n := |list| - 1;
    var init := list[..n];
    if i == n {
      assert DropAt(list, i) == init;
      assert Entries(list) - {list[n].node} == Entries(init);
    } else {
      DropAtInit(list, i);
      DropAtRepresents(init, i);
      EntryAt(init, i);
      assert Entries(list) - {list[i].node} == (Entries(init) - {init[i].node})[list[n].node := Entry(list[n].usage, list[n].lastUpdated)];
    }
  }

  lemma RemoveRepresents(list: seq<NodeSource>, m: map<nat, Entry>, node: nat)
    requires Represents(list, m)
    ensures Represents(Remove(list, node), m - {node})
  {
    var i := Find(list, node);
    if i.Some? {
      DropAtRepresents(list, i.value);
    } else {
      if node in m {
        var j := EntryFrom(list, node);
      }
      assert m - {node} == m;
    }
  }

  lemma FreshPut(m: map<nat, Entry>, n: nat, e: Entry, now: nat)
    requires n !in m
    ensures Fresh(m[n := e], now) == if e.lastUpdated + PING_TIMEOUT > now then Fresh(m, now)[n := e] else Fresh(m, now)
  {
  }

  lemma {:induction false} UnexpiredRepresents(list: seq<NodeSource>, now: nat)
    requires DistinctNodes(list) && ByUsage(list)
    ensures Represents(Unexpired(list, now), Fresh(Entries(list), now))
    ensures var r := Unexpired(list, now); r != [] ==> r[|r| - 1].usage <= list[|list| - 1].usage
  {
    if list != [] {
      var init, last := list[..|list| - 1], list[|list| - 1];
      UnexpiredRepresents(init, now);
      FreshPut(Entries(init), last.node, Entry(last.usage, last.lastUpdated), now);
      var r := Unexpired(list, now);
      if last.lastUpdated + PING_TIMEOUT > now {
        assert r[..|r| - 1] == Unexpired(init, now);
      } else {
        assert r == Unexpired(init, now);
      }
    }
  }

  lemma OneRepresents(list: seq<NodeSource>)
    requires |list| == 1
    ensures Represents(list, map[list[0].node := Entry(list[0].usage, list[0].lastUpdated)])
  {
    assert list[..0] == [];
    assert Entries(list[..0]) == map[];
  }
}
