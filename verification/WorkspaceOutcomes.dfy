/** What a list of workspace files shows: exactly the visible paths within the depth limit, each entry
    with the directory it is in before it. */
module WorkspaceOutcomes {
  import opened Common
  import opened WorkspaceWalk

  // ---- The terms ----

  /** Names beginning with a dot and the directories that tools generate are not shown. */
  predicate Shown(name: string) {
    !("." <= name) && name !in {"coverage", "dist", "node_modules", "out", "release", "target"}
  }

  /** The path leads to the entry, name by name, over entries that are shown. */
  predicate LeadsTo(entries: seq<Tree>, path: seq<string>, e: Tree)
    decreases |path|
  {
    path != [] && exists i | 0 <= i < |entries| :: StartsAt(entries[i], path, e)
  }

  predicate StartsAt(first: Tree, path: seq<string>, e: Tree)
    requires path != []
    decreases |path|, 0
  {
    && first.name == path[0] && Shown(path[0])
    && if |path| == 1 then first == e else first.Directory? && LeadsTo(first.entries, path[1..], e)
  }

  lemma ShownIsVisible(name: string)
    ensures Shown(name) <==> Visible(name)
  {
  }

  // ---- Which entries a directory lists ----

  lemma ListedMembers(entries: seq<Tree>, collate: Collation, e: Tree)
    ensures e in Listed(entries, collate) <==> e in entries && Shown(e.name)
  {
    ListedSortsTheVisible(entries, collate);
    VisibleMembers(entries, e);
    assert e in Listed(entries, collate) <==> e in multiset(Listed(entries, collate));
    assert e in VisibleOnly(entries) <==> e in multiset(VisibleOnly(entries));
  }

  lemma {:induction false} VisibleMembers(entries: seq<Tree>, e: Tree)
    ensures e in VisibleOnly(entries) <==> e in entries && Shown(e.name)
  {
    if entries != [] {
      VisibleMembers(entries[1..], e);
      ShownIsVisible(entries[0].name);
      assert entries == [entries[0]] + entries[1..];
    }
  }

  // ---- Exactly the visible paths ----

  /** The node stands for an entry that the rest of its path, below a directory, leads to. */
  ghost predicate StandsFor(entries: seq<Tree>, path: seq<string>, depth: nat, limits: Limits, node: Node) {
    && |path| < |node.path| && node.path[..|path|] == path
    && node.depth == depth + |node.path| - |path| - 1 <= limits.maximumDepth
    && exists e: Tree :: LeadsTo(entries, node.path[|path|..], e) && node.name == e.name
                         && node.isDirectory == e.Directory?
  }

  /** The node stands for this entry, or for one below it. */
  ghost predicate StandsUnder(e: Tree, path: seq<string>, depth: nat, limits: Limits, node: Node) {
    node == Node(e.name, path + [e.name], e.Directory?, depth)
    || (e.Directory? && StandsFor(e.entries, path + [e.name], depth + 1, limits, node))
  }

  lemma {:induction false} ListHolds(list: seq<Tree>, path: seq<string>, depth: nat, limits: Limits,
                                     collate: Collation, node: Node)
    requires depth <= limits.maximumDepth
    ensures node in EverythingOf(list, path, depth, limits, collate)
            <==> exists i | 0 <= i < |list| :: StandsUnder(list[i], path, depth, limits, node)
    decreases DepthLeft(limits, depth), 0, |list|
  {
    if list != [] {
      var e := list[0];
      if e.Directory? {
        DirectoryHolds(e.entries, path + [e.name], depth + 1, limits, collate, node);
      }
      ListHolds(list[1..], path, depth, limits, collate, node);
      if i :| 0 <= i < |list[1..]| && StandsUnder(list[1..][i], path, depth, limits, node) {
        assert list[i + 1] == list[1..][i];
      }
      if i :| 0 <= i < |list| && StandsUnder(list[i], path, depth, limits, node) {
        assert i > 0 ==> list[1..][i - 1] == list[i];
      }
    }
  }

  lemma {:induction false} DirectoryHolds(entries: seq<Tree>, path: seq<string>, depth: nat, limits: Limits,
                                          collate: Collation, node: Node)
    ensures node in Everything(entries, path, depth, limits, collate)
            <==> StandsFor(entries, path, depth, limits, node)
    decreases DepthLeft(limits, depth), 1, 0
  {
    if depth <= limits.maximumDepth {
      assert Everything(entries, path, depth, limits, collate)
             == EverythingOf(Listed(entries, collate), path, depth, limits, collate);
      ListHolds(Listed(entries, collate), path, depth, limits, collate, node);
      UnderMeansFor(entries, path, depth, limits, collate, node);
    }
  }

  lemma UnderMeansFor(entries: seq<Tree>, path: seq<string>, depth: nat, limits: Limits, collate: Collation, node: Node)
    requires depth <= limits.maximumDepth
    ensures var list := Listed(entries, collate);
            (exists i | 0 <= i < |list| :: StandsUnder(list[i], path, depth, limits, node))
            <==> StandsFor(entries, path, depth, limits, node)
  {
    var list := Listed(entries, collate);
    if i :| 0 <= i < |list| && StandsUnder(list[i], path, depth, limits, node) {
      ListedMembers(entries, collate, list[i]);
      UnderIsFor(entries, path, depth, limits, node, list[i]);
    }
    if StandsFor(entries, path, depth, limits, node) {
      var first := ForIsUnder(entries, path, depth, limits, node);
      ListedMembers(entries, collate, first);
      var i :| 0 <= i < |list| && list[i] == first;
      assert StandsUnder(list[i], path, depth, limits, node);
    }
  }

  lemma UnderIsFor(entries: seq<Tree>, path: seq<string>, depth: nat, limits: Limits, node: Node, first: Tree)
    requires depth <= limits.maximumDepth && first in entries && Shown(first.name)
    requires StandsUnder(first, path, depth, limits, node)
    ensures StandsFor(entries, path, depth, limits, node)
  {
    var i :| 0 <= i < |entries| && entries[i] == first;
    if node == Node(first.name, path + [first.name], first.Directory?, depth) {
      assert node.path[|path|..] == [first.name];
      assert StartsAt(entries[i], node.path[|path|..], first);
      assert LeadsTo(entries, node.path[|path|..], first);
    } else {
      var inner := path + [first.name];
      var e: Tree :| LeadsTo(first.entries, node.path[|inner|..], e) && node.name == e.name
                     && node.isDirectory == e.Directory?;
      assert node.path[|path|..][1..] == node.path[|inner|..] && node.path[|path|..][0] == inner[|path|];
      assert StartsAt(entries[i], node.path[|path|..], e);
      assert node.path[..|path|] == inner[..|path|];
      assert LeadsTo(entries, node.path[|path|..], e);
    }
  }

  lemma ForIsUnder(entries: seq<Tree>, path: seq<string>, depth: nat, limits: Limits, node: Node) returns (first: Tree)
    requires StandsFor(entries, path, depth, limits, node)
    ensures first in entries && Shown(first.name) && StandsUnder(first, path, depth, limits, node)
  {
    var below := node.path[|path|..];
    var e: Tree :| LeadsTo(entries, below, e) && node.name == e.name && node.isDirectory == e.Directory?;
    var i :| 0 <= i < |entries| && StartsAt(entries[i], below, e);
    first := entries[i];
    var inner := path + [first.name];
    if |below| == 1 {
      assert node.path == inner;
    } else {
      assert node.path[..|inner|] == inner;
      assert node.path[|inner|..] == below[1..];
    }
  }

  /** What a walk without budgets shows is exactly this: every entry whose path is visible all the way and
      no deeper than the limit, under its name, path and kind. */
  lemma ShowsExactlyVisiblePaths(root: seq<Tree>, limits: Limits, collate: Collation, node: Node)
    ensures node in Everything(root, [], 0, limits, collate)
            <==> node.path != [] && node.depth == |node.path| - 1 <= limits.maximumDepth
                 && exists e: Tree :: LeadsTo(root, node.path, e) && node.name == e.name
                                      && node.isDirectory == e.Directory?
  {
    DirectoryHolds(root, [], 0, limits, collate, node);
    assert node.path[0..] == node.path;
  }

  // ---- A directory comes before what is in it ----

  ghost predicate ParentBefore(nodes: seq<Node>, path: seq<string>) {
    forall k | 0 <= k < |nodes| ::
      |path| < |nodes[k].path| && nodes[k].path[..|path|] == path
      && (|nodes[k].path| > |path| + 1 ==> exists h | 0 <= h < k :: IsParent(nodes[h], nodes[k]))
  }

  predicate IsParent(parent: Node, node: Node) {
    node.path != [] && parent.isDirectory && parent.path == node.path[..|node.path| - 1]
  }

  lemma ParentsJoin(a: seq<Node>, b: seq<Node>, path: seq<string>)
    requires ParentBefore(a, path) && ParentBefore(b, path)
    ensures ParentBefore(a + b, path)
  {
    var nodes := a + b;
    forall k | 0 <= k < |nodes| && |nodes[k].path| > |path| + 1
      ensures exists h | 0 <= h < k :: IsParent(nodes[h], nodes[k])
    {
      if k < |a| {
        var h :| 0 <= h < k && IsParent(a[h], a[k]);
        assert IsParent(nodes[h], nodes[k]);
      } else {
        var h :| 0 <= h < k - |a| && IsParent(b[h], b[k - |a|]);
        assert IsParent(nodes[|a| + h], nodes[k]);
      }
    }
  }

  lemma ParentOnTop(e: Tree, path: seq<string>, depth: nat, inner: seq<Node>)
    requires e.Directory? && ParentBefore(inner, path + [e.name])
    ensures ParentBefore([NodeOf(e, path, depth)] + inner, path)
  {
    var top, nodes := NodeOf(e, path, depth), [NodeOf(e, path, depth)] + inner;
    forall k | 0 <= k < |nodes|
      ensures |path| < |nodes[k].path| && nodes[k].path[..|path|] == path
      ensures |nodes[k].path| > |path| + 1 ==> exists h | 0 <= h < k :: IsParent(nodes[h], nodes[k])
    {
      if k > 0 {
        var node := inner[k - 1];
        assert node.path[..|path|] == (path + [e.name])[..|path|];
        if |node.path| > |path| + 2 {
          var h :| 0 <= h < k - 1 && IsParent(inner[h], node);
          assert IsParent(nodes[h + 1], nodes[k]);
        } else {
          assert node.path[..|path| + 1] == path + [e.name];
          assert IsParent(nodes[0], nodes[k]);
        }
      }
    }
  }

  lemma {:induction false} ListParents(list: seq<Tree>, path: seq<string>, depth: nat, limits: Limits,
                                       collate: Collation)
    requires depth <= limits.maximumDepth
    ensures ParentBefore(Nodes(EventsOf(list, path, depth, limits, collate)), path)
    decreases DepthLeft(limits, depth), 0, |list|
  {
    if list != [] {
      var e := list[0];
      var visit, rest := [Visit(NodeOf(e, path, depth))], EventsOf(list[1..], path, depth, limits, collate);
      var inner := if e.Directory? then Events(e.entries, path + [e.name], depth + 1, limits, collate) else [];
      NodesConcat(visit, inner);
      NodesConcat(visit + inner, rest);
      OneVisit(NodeOf(e, path, depth), 1);
      if e.Directory? {
        DirectoryParents(e.entries, path + [e.name], depth + 1, limits, collate);
        ParentOnTop(e, path, depth, Nodes(inner));
      }
      ListParents(list[1..], path, depth, limits, collate);
      ParentsJoin([NodeOf(e, path, depth)] + Nodes(inner), Nodes(rest), path);
    }
  }

  lemma {:induction false} DirectoryParents(entries: seq<Tree>, path: seq<string>, depth: nat, limits: Limits,
                                            collate: Collation)
    ensures ParentBefore(Nodes(Events(entries, path, depth, limits, collate)), path)
    decreases DepthLeft(limits, depth), 1, 0
  {
    if depth <= limits.maximumDepth {
      var listed := Listed(entries, collate);
      var list, front := Take(listed, limits.maximumEntries), [Open(|listed| > limits.maximumEntries)];
      ListParents(list, path, depth, limits, collate);
      NodesConcat(front, EventsOf(list, path, depth, limits, collate));
      assert Nodes(front) == [] by { assert front[1..] == []; }
      assert Events(entries, path, depth, limits, collate)
             == front + EventsOf(list, path, depth, limits, collate);
      assert [] + Nodes(EventsOf(list, path, depth, limits, collate))
             == Nodes(EventsOf(list, path, depth, limits, collate));
    } else {
      assert Nodes(Events(entries, path, depth, limits, collate)) == [];
    }
  }

  /** However short the budget cuts the list, every entry on it comes after the directory it is in. */
  lemma DirectoriesComeFirst(root: seq<Tree>, limits: Limits, collate: Collation, budget: nat, k: nat)
    requires k < |Take(Nodes(Events(root, [], 0, limits, collate)), budget)|
    ensures var files := Take(Nodes(Events(root, [], 0, limits, collate)), budget);
            |files[k].path| > 1 ==> exists h | 0 <= h < k :: IsParent(files[h], files[k])
  {
    DirectoryParents(root, [], 0, limits, collate);
    var nodes := Nodes(Events(root, [], 0, limits, collate));
    if |nodes[k].path| > 1 {
      var h :| 0 <= h < k && IsParent(nodes[h], nodes[k]);
      assert IsParent(Take(nodes, budget)[h], Take(nodes, budget)[k]);
    }
  }

  // ---- The entries of one directory are shown in their order ----

  /** The nodes of one depth. */
  function Level(nodes: seq<Node>, depth: nat): seq<Node> {
    if nodes == [] then [] else (if nodes[0].depth == depth then [nodes[0]] else []) + Level(nodes[1..], depth)
  }

  function NodesAt(list: seq<Tree>, path: seq<string>, depth: nat): seq<Node> {
    if list == [] then [] else [NodeOf(list[0], path, depth)] + NodesAt(list[1..], path, depth)
  }

  lemma LevelCons(nodes: seq<Node>, first: Node, rest: seq<Node>, depth: nat)
    requires nodes == [first] + rest
    ensures Level(nodes, depth) == (if first.depth == depth then [first] else []) + Level(rest, depth)
  {
    assert nodes[1..] == rest;
  }

  lemma {:induction false} LevelConcat(a: seq<Node>, b: seq<Node>, depth: nat)
    ensures Level(a + b, depth) == Level(a, depth) + Level(b, depth)
  {
    if a == [] {
      assert a + b == b;
    } else {
      var first := if a[0].depth == depth then [a[0]] else [];
      LevelConcat(a[1..], b, depth);
      LevelCons(a + b, a[0], a[1..] + b, depth);
      Joined(first, Level(a[1..], depth), Level(b, depth));
    }
  }

  lemma Joined(a: seq<Node>, b: seq<Node>, c: seq<Node>)
    ensures a + (b + c) == a + b + c
  {
  }

  lemma {:induction false} DeeperOnly(entries: seq<Tree>, path: seq<string>, depth: nat, limits: Limits,
                                      collate: Collation, above: nat)
    requires above < depth
    ensures Level(Nodes(Events(entries, path, depth, limits, collate)), above) == []
    decreases DepthLeft(limits, depth), 1, 0
  {
    if depth <= limits.maximumDepth {
      var listed := Listed(entries, collate);
      var list, front := Take(listed, limits.maximumEntries), [Open(|listed| > limits.maximumEntries)];
      ListLevel(list, path, depth, limits, collate, above);
      OpenedLevel(front, EventsOf(list, path, depth, limits, collate), above);
    } else {
      assert Nodes(Events(entries, path, depth, limits, collate)) == [];
    }
  }

  lemma OpenedLevel(front: seq<Event>, events: seq<Event>, depth: nat)
    requires |front| == 1 && front[0].Open?
    ensures Nodes(front + events) == Nodes(events)
  {
    NodesConcat(front, events);
    assert Nodes(front) == [] by { assert front[1..] == []; }
  }

  lemma {:induction false} ListLevel(list: seq<Tree>, path: seq<string>, depth: nat, limits: Limits,
                                     collate: Collation, level: nat)
    requires level <= depth <= limits.maximumDepth
    ensures Level(Nodes(EventsOf(list, path, depth, limits, collate)), level)
            == if level == depth then NodesAt(list, path, depth) else []
    decreases DepthLeft(limits, depth), 0, |list|
  {
    if list != [] {
      var e, rest := list[0], EventsOf(list[1..], path, depth, limits, collate);
      var inner := if e.Directory? then Events(e.entries, path + [e.name], depth + 1, limits, collate) else [];
      if e.Directory? {
        DeeperOnly(e.entries, path + [e.name], depth + 1, limits, collate, level);
      }
      ListLevel(list[1..], path, depth, limits, collate, level);
      EntryLevel(NodeOf(e, path, depth), inner, rest, level);
    }
  }

  /** The nodes of an entry with nothing of this level below it, and of the entries after it. */
  lemma EntryLevel(node: Node, inner: seq<Event>, rest: seq<Event>, level: nat)
    requires Level(Nodes(inner), level) == []
    ensures Level(Nodes([Visit(node)] + inner + rest), level)
            == (if node.depth == level then [node] else []) + Level(Nodes(rest), level)
  {
    NodesConcat([Visit(node)], inner);
    NodesConcat([Visit(node)] + inner, rest);
    OneVisit(node, 1);
    LevelCons([node] + Nodes(inner), node, Nodes(inner), level);
    LevelConcat([node] + Nodes(inner), Nodes(rest), level);
  }

  /** A directory's own entries appear in the order in which they are listed, directories first and each
      kind by collation, as many as the cap allows, whatever lies below them in between. */
  lemma OwnEntriesInOrder(entries: seq<Tree>, path: seq<string>, depth: nat, limits: Limits, collate: Collation)
    requires depth <= limits.maximumDepth
    ensures var list := Take(Listed(entries, collate), limits.maximumEntries);
            && Level(Nodes(Events(entries, path, depth, limits, collate)), depth) == NodesAt(list, path, depth)
            && (forall i, j | 0 <= i < j < |list| ::
                  (list[i].Directory? && list[j].File?)
                  || (list[i].Directory? == list[j].Directory? && collate(list[i].name) <= collate(list[j].name)))
  {
    var listed := Listed(entries, collate);
    var list := Take(listed, limits.maximumEntries);
    ListLevel(list, path, depth, limits, collate, depth);
    OpenedLevel([Open(|listed| > limits.maximumEntries)], EventsOf(list, path, depth, limits, collate), depth);
    ListedSortsTheVisible(entries, collate);
    forall i, j | 0 <= i < j < |list|
      ensures (list[i].Directory? && list[j].File?)
              || (list[i].Directory? == list[j].Directory? && collate(list[i].name) <= collate(list[j].name))
    {
      assert Before(listed[i], listed[j], collate);
    }
  }

  // ---- The limits ----

  function Clamped(value: Option<int>, least: int, most: int): int {
    if value.None? then most
    else if value.value < least then least else if value.value > most then most else value.value
  }

  /** At most 5000 nodes, 200 entries a directory and a depth of 4, and never less than 2, 1 and 0. */
  lemma LimitsAre(nodes: Option<int>, entries: Option<int>, depth: Option<int>)
    ensures BoundedOption(nodes, DEFAULT_MAXIMUM_NODES, DEFAULT_MAXIMUM_NODES, 2) == Clamped(nodes, 2, 5_000)
    ensures LimitsOf(entries, depth).maximumEntries == Clamped(entries, 1, 200)
    ensures LimitsOf(entries, depth).maximumDepth == Clamped(depth, 0, 4)
  {
  }
}
