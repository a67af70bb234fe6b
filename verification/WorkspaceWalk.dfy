/** The budgeted walk over the files of a workspace. */
module WorkspaceWalk {
  import opened Common

  const DEFAULT_MAXIMUM_NODES := 5_000
  const DEFAULT_MAXIMUM_ENTRIES := 200
  const DEFAULT_MAXIMUM_DEPTH := 4
  const GENERATED := {"coverage", "dist", "node_modules", "out", "release", "target"}

  /** What reading a directory yields, in the order of the file system. */
  datatype Tree = File(name: string) | Directory(name: string, entries: seq<Tree>)

  datatype Node = Node(name: string, path: seq<string>, isDirectory: bool, depth: nat)

  datatype Limits = Limits(maximumEntries: nat, maximumDepth: nat)

  /** How names are collated: the rank of a name. */
  type Collation = string -> int

  predicate Visible(name: string) {
    !(name != "" && name[0] == '.') && name !in GENERATED
  }

  function BoundedOption(value: Option<int>, fallback: int, maximum: int, minimum: int): (r: int)
    ensures value.None? ==> r == fallback
    ensures value.Some? && minimum <= maximum ==> minimum <= r <= maximum
  {
    if value.None? then fallback else Max(minimum, Min(value.value, maximum))
  }

  // ---- The entries of a directory in the order shown ----

  predicate Before(a: Tree, b: Tree, collate: Collation) {
    (a.Directory? && b.File?) || (a.Directory? == b.Directory? && collate(a.name) <= collate(b.name))
  }

  /** Stable insertion: a goes before the entries it may precede. */
  function Insert(a: Tree, sorted: seq<Tree>, collate: Collation): seq<Tree> {
    if sorted == [] || Before(a, sorted[0], collate) then [a] + sorted
       else [sorted[0]] + Insert(a, sorted[1..], collate)
  }

  /** The visible entries, directories first, each kind by collation. */
  function Listed(entries: seq<Tree>, collate: Collation): seq<Tree> {
    if entries == [] then []
    else if Visible(entries[0].name) then Insert(entries[0], Listed(entries[1..], collate), collate)
    else Listed(entries[1..], collate)
  }

  ghost predicate Sorted(s: seq<Tree>, collate: Collation) {
    forall i, j | 0 <= i < j < |s| :: Before(s[i], s[j], collate)
  }

  lemma {:induction false} InsertKeeps(a: Tree, sorted: seq<Tree>, collate: Collation)
    ensures multiset(Insert(a, sorted, collate)) == multiset(sorted) + multiset{a}
  {
    if sorted != [] && !Before(a, sorted[0], collate) {
      InsertKeeps(a, sorted[1..], collate);
      assert sorted == [sorted[0]] + sorted[1..];
    }
  }

  lemma {:induction false} InsertSorts(a: Tree, sorted: seq<Tree>, collate: Collation)
    requires Sorted(sorted, collate)
    ensures Sorted(Insert(a, sorted, collate), collate)
  {
    if sorted == [] || Before(a, sorted[0], collate) {
      forall j | 0 <= j < |sorted| ensures Before(a, sorted[j], collate) {
        assert j == 0 || Before(sorted[0], sorted[j], collate);
      }
    } else {
      var rest := Insert(a, sorted[1..], collate);
      InsertSorts(a, sorted[1..], collate);
      forall j | 0 <= j < |rest| ensures Before(sorted[0], rest[j], collate) {
        InsertedIs(a, sorted[1..], collate, j);
      }
    }
  }

  lemma InsertedIs(a: Tree, sorted: seq<Tree>, collate: Collation, j: nat)
    requires j < |Insert(a, sorted, collate)|
    ensures Insert(a, sorted, collate)[j] == a || Insert(a, sorted, collate)[j] in sorted
  {
    InsertKeeps(a, sorted, collate);
    assert Insert(a, sorted, collate)[j] in multiset(sorted) + multiset{a};
  }

  function VisibleOnly(entries: seq<Tree>): seq<Tree> {
    if entries == [] then [] else (if Visible(entries[0].name) then [entries[0]] else []) + VisibleOnly(entries[1..])
  }

  /** The order shown is a sorting of exactly the visible entries. */
  lemma {:induction false} ListedSortsTheVisible(entries: seq<Tree>, collate: Collation)
    ensures Sorted(Listed(entries, collate), collate)
    ensures multiset(Listed(entries, collate)) == multiset(VisibleOnly(entries))
  {
    if entries != [] {
      ListedSortsTheVisible(entries[1..], collate);
      if Visible(entries[0].name) {
        InsertSorts(entries[0], Listed(entries[1..], collate), collate);
        InsertKeeps(entries[0], Listed(entries[1..], collate), collate);
      }
    }
  }

  // ---- The walk as a sequence of events ----

  /** A directory is opened, perhaps with more entries than are shown, or a node is visited. */
  datatype Event = Open(over: bool) | Visit(node: Node)

  function Take<T>(s: seq<T>, n: nat): (r: seq<T>)
    ensures |r| == Min(|s|, n) && r == s[..|r|]
  {
    if |s| <= n then s else s[..n]
  }

  function DepthLeft(limits: Limits, depth: nat): nat {
    if depth > limits.maximumDepth then 0 else limits.maximumDepth + 1 - depth
  }

  function NodeOf(e: Tree, path: seq<string>, depth: nat): Node {
    Node(e.name, path + [e.name], e.Directory?, depth)
  }

  /** All that a walk without a node budget does in a directory. */
  function Events(entries: seq<Tree>, path: seq<string>, depth: nat, limits: Limits, collate: Collation): seq<Event>
    decreases DepthLeft(limits, depth), 1, 0
  {
    if depth > limits.maximumDepth then []
    else
      var listed := Listed(entries, collate);
      [Open(|listed| > limits.maximumEntries)]
        + EventsOf(Take(listed, limits.maximumEntries), path, depth, limits, collate)
  }

  function EventsOf(list: seq<Tree>, path: seq<string>, depth: nat, limits: Limits, collate: Collation): seq<Event>
    requires depth <= limits.maximumDepth
    decreases DepthLeft(limits, depth), 0, |list|
  {
    if list == [] then []
    else EventsAt(list[0], path, depth, limits, collate) + EventsOf(list[1..], path, depth, limits, collate)
  }

  function EventsAt(e: Tree, path: seq<string>, depth: nat, limits: Limits, collate: Collation): seq<Event>
    requires depth <= limits.maximumDepth
    decreases DepthLeft(limits, depth), 0, 0
  {
    [Visit(NodeOf(e, path, depth))]
    + if e.Directory? then Events(e.entries, path + [e.name], depth + 1, limits, collate) else []
  }

  /** The nodes visited: the preorder of the tree pruned by visibility, depth and directory cap. */
  function Nodes(events: seq<Event>): seq<Node> {
    if events == [] then [] else (if events[0].Visit? then [events[0].node] else []) + Nodes(events[1..])
  }

  /** Whether a walk with this many nodes to spend notes an omission: anything at all happens after
      they are spent, or a directory is opened that has more entries than are shown. */
  predicate Marks(events: seq<Event>, budget: nat) {
    events != []
    && (budget == 0
        || (events[0].Open? && events[0].over)
        || Marks(events[1..], if events[0].Visit? then budget - 1 else budget))
  }

  function Spend(budget: nat, spent: nat): nat { if spent >= budget then 0 else budget - spent }

  lemma {:induction false} NodesConcat(a: seq<Event>, b: seq<Event>)
    ensures Nodes(a + b) == Nodes(a) + Nodes(b)
  {
    if a == [] {
      assert a + b == b;
    } else {
      NodesConcat(a[1..], b);
      assert (a + b)[1..] == a[1..] + b;
    }
  }

  lemma {:induction false} MarksConcat(a: seq<Event>, b: seq<Event>, budget: nat)
    ensures Marks(a + b, budget) <==> Marks(a, budget) || Marks(b, Spend(budget, |Nodes(a)|))
  {
    if a == [] {
      assert a + b == b;
    } else if budget > 0 {
      MarksConcat(a[1..], b, if a[0].Visit? then budget - 1 else budget);
      assert (a + b)[1..] == a[1..] + b;
    }
  }

  lemma TakeConcat(a: seq<Node>, b: seq<Node>, budget: nat)
    ensures Take(a + b, budget) == Take(a, budget) + Take(b, Spend(budget, |a|))
  {
  }

  /** A walk that goes on from where another one stopped. */
  lemma Continue(a: seq<Event>, b: seq<Event>, budget: nat)
    ensures Take(Nodes(a + b), budget) == Take(Nodes(a), budget) + Take(Nodes(b), Spend(budget, |Nodes(a)|))
    ensures Marks(a + b, budget) <==> Marks(a, budget) || Marks(b, Spend(budget, |Nodes(a)|))
    ensures Spend(budget, |Nodes(a + b)|) == Spend(Spend(budget, |Nodes(a)|), |Nodes(b)|)
  {
    NodesConcat(a, b);
    MarksConcat(a, b, budget);
    TakeConcat(Nodes(a), Nodes(b), budget);
  }

  lemma OneVisit(node: Node, budget: nat)
    requires budget > 0
    ensures Nodes([Visit(node)]) == [node] && !Marks([Visit(node)], budget)
  {
    assert [Visit(node)][1..] == [] && !Marks([Visit(node)][1..], budget - 1);
  }

  // ---- The walk itself ----

  class TraversalBudget {
    var remaining: nat
    var truncated: bool
    const limits: Limits

    constructor (remaining: nat, limits: Limits)
      ensures this.remaining == remaining && !truncated && this.limits == limits
    {
      this.remaining, truncated, this.limits := remaining, false, limits;
    }
  }

  /** Visit an entry, and everything below it, while the budget lasts. */
  method CollectEntry(e: Tree, path: seq<string>, depth: nat, budget: TraversalBudget, collate: Collation)
    returns (files: seq<Node>)
    requires depth <= budget.limits.maximumDepth && budget.remaining > 0
    modifies budget
    ensures var events := EventsAt(e, path, depth, budget.limits, collate);
            && files == Take(Nodes(events), old(budget.remaining))
            && budget.remaining == Spend(old(budget.remaining), |Nodes(events)|)
            && (budget.truncated <==> old(budget.truncated) || Marks(events, old(budget.remaining)))
    decreases DepthLeft(budget.limits, depth), 0
  {
    ghost var r0 := budget.remaining;
    budget.remaining := budget.remaining - 1;
    files := [NodeOf(e, path, depth)];
    ghost var visit := [Visit(NodeOf(e, path, depth))];
    OneVisit(NodeOf(e, path, depth), r0);
    if e.Directory? {
      ghost var below := Events(e.entries, path + [e.name], depth + 1, budget.limits, collate);
      var inner := CollectDirectory(e.entries, path + [e.name], depth + 1, budget, collate);
      Continue(visit, below, r0);
      files := files + inner;
    } else {
      assert visit + [] == visit;
    }
  }

  /** Visit the entries of a directory that are shown, until the budget is spent. */
  method CollectList(list: seq<Tree>, path: seq<string>, depth: nat, budget: TraversalBudget, collate: Collation)
    returns (files: seq<Node>)
    requires depth <= budget.limits.maximumDepth
    modifies budget
    ensures var events := EventsOf(list, path, depth, budget.limits, collate);
            && files == Take(Nodes(events), old(budget.remaining))
            && budget.remaining == Spend(old(budget.remaining), |Nodes(events)|)
            && (budget.truncated <==> old(budget.truncated) || Marks(events, old(budget.remaining)))
    decreases DepthLeft(budget.limits, depth), 1
  {
    files := [];
    ghost var r0, t0, all := budget.remaining, budget.truncated, EventsOf(list, path, depth, budget.limits, collate);
    ghost var so := [];
    assert list[0..] == list && so + all == all;
    for i := 0 to |list|
      invariant so + EventsOf(list[i..], path, depth, budget.limits, collate) == all
      invariant files == Take(Nodes(so), r0) && budget.remaining == Spend(r0, |Nodes(so)|)
      invariant budget.truncated <==> t0 || Marks(so, r0)
    {
      ghost var rest := EventsOf(list[i..], path, depth, budget.limits, collate);
      if budget.remaining <= 0 {
        budget.truncated := true;
        Continue(so, rest, r0);
        assert Marks(rest, 0);
        return;
      }
      ghost var here := EventsAt(list[i], path, depth, budget.limits, collate);
      var more := CollectEntry(list[i], path, depth, budget, collate);
      Continue(so, here, r0);
      NextEntry(so, list, i, path, depth, budget.limits, collate);
      so := so + here;
      files := files + more;
    }
    assert so + [] == so;
  }

  lemma NextEntry(so: seq<Event>, list: seq<Tree>, i: nat, path: seq<string>, depth: nat, limits: Limits,
                  collate: Collation)
    requires depth <= limits.maximumDepth && i < |list|
    ensures so + EventsOf(list[i..], path, depth, limits, collate)
            == (so + EventsAt(list[i], path, depth, limits, collate))
              + EventsOf(list[i + 1..], path, depth, limits, collate)
  {
    assert list[i..][1..] == list[i + 1..];
  }

  method CollectDirectory(entries: seq<Tree>, path: seq<string>, depth: nat, budget: TraversalBudget,
                          collate: Collation)
    returns (files: seq<Node>)
    modifies budget
    ensures var events := Events(entries, path, depth, budget.limits, collate);
            && files == Take(Nodes(events), old(budget.remaining))
            && budget.remaining == Spend(old(budget.remaining), |Nodes(events)|)
            && (budget.truncated <==> old(budget.truncated) || Marks(events, old(budget.remaining)))
    decreases DepthLeft(budget.limits, depth), 2
  {
    if depth > budget.limits.maximumDepth {
      return [];
    }
    if budget.remaining <= 0 {
      budget.truncated := true;
      return [];
    }
    var listed := Listed(entries, collate);
    if |listed| > budget.limits.maximumEntries {
      budget.truncated := true;
    }
    ghost var front, r0 := [Open(|listed| > budget.limits.maximumEntries)], budget.remaining;
    assert Nodes(front) == [] && (Marks(front, r0) <==> front[0].over) by {
      assert front[1..] == [] && !Marks([], r0);
    }
    var list := Take(listed, budget.limits.maximumEntries);
    Continue(front, EventsOf(list, path, depth, budget.limits, collate), r0);
    files := CollectList(list, path, depth, budget, collate);
  }

  /** The collected list, and the marker when something was, or may have been, left out. */
  method CollectWorkspaceFiles(root: seq<Tree>, maximumNodes: Option<int>, maximumEntries: Option<int>,
                               maximumDepth: Option<int>, collate: Collation) returns (files: seq<Node>, marked: bool)
    ensures var nodes := BoundedOption(maximumNodes, DEFAULT_MAXIMUM_NODES, DEFAULT_MAXIMUM_NODES, 2);
            var limits := LimitsOf(maximumEntries, maximumDepth);
            && files == Take(Nodes(Events(root, [], 0, limits, collate)), nodes - 1)
            && (marked <==> Marks(Events(root, [], 0, limits, collate), nodes - 1))
            && |files| + (if marked then 1 else 0) <= nodes
  {
    var nodes := BoundedOption(maximumNodes, DEFAULT_MAXIMUM_NODES, DEFAULT_MAXIMUM_NODES, 2);
    var budget := new TraversalBudget(nodes - 1, LimitsOf(maximumEntries, maximumDepth));
    files := CollectDirectory(root, [], 0, budget, collate);
    marked := budget.truncated;
  }

  function LimitsOf(maximumEntries: Option<int>, maximumDepth: Option<int>): (r: Limits)
    ensures 1 <= r.maximumEntries <= DEFAULT_MAXIMUM_ENTRIES && r.maximumDepth <= DEFAULT_MAXIMUM_DEPTH
  {
    Limits(BoundedOption(maximumEntries, DEFAULT_MAXIMUM_ENTRIES, DEFAULT_MAXIMUM_ENTRIES, 1),
           BoundedOption(maximumDepth, DEFAULT_MAXIMUM_DEPTH, DEFAULT_MAXIMUM_DEPTH, 0))
  }

  // ---- What the list leaves out ----

  /** Every visible node within the depth limit, in preorder. */
  function Everything(entries: seq<Tree>, path: seq<string>, depth: nat, limits: Limits, collate: Collation): seq<Node>
    decreases DepthLeft(limits, depth), 1, 0
  {
    if depth > limits.maximumDepth then [] else EverythingOf(Listed(entries, collate), path, depth, limits, collate)
  }

  function EverythingOf(list: seq<Tree>, path: seq<string>, depth: nat, limits: Limits, collate: Collation): seq<Node>
    requires depth <= limits.maximumDepth
    decreases DepthLeft(limits, depth), 0, |list|
  {
    if list == [] then []
    else
      [NodeOf(list[0], path, depth)]
      + (if list[0].Directory? then Everything(list[0].entries, path + [list[0].name], depth + 1, limits, collate)
         else [])
      + EverythingOf(list[1..], path, depth, limits, collate)
  }

  /** Some directory that is opened has more entries than are shown. */
  predicate Overfull(events: seq<Event>) {
    exists e | e in events :: e.Open? && e.over
  }

  lemma OverfullConcat(a: seq<Event>, b: seq<Event>)
    ensures Overfull(a + b) <==> Overfull(a) || Overfull(b)
  {
    if e :| e in a + b && e.Open? && e.over {
      assert e in a || e in b;
    }
    if e :| e in a && e.Open? && e.over {
      assert e in a + b;
    }
    if e :| e in b && e.Open? && e.over {
      assert e in a + b;
    }
  }

  /** The pruned walk visits everything exactly when no directory it opens is overfull, and fewer
      nodes otherwise. */
  lemma {:induction false} PrunedOrEverything(entries: seq<Tree>, path: seq<string>, depth: nat, limits: Limits,
                                              collate: Collation)
    ensures var events, all :=
      Events(entries, path, depth, limits, collate), Everything(entries, path, depth, limits, collate);
            if Overfull(events) then |Nodes(events)| < |all| else Nodes(events) == all
    decreases DepthLeft(limits, depth), 2, 0
  {
    if depth <= limits.maximumDepth {
      var listed := Listed(entries, collate);
      var list := Take(listed, limits.maximumEntries);
      var front, below := [Open(|listed| > limits.maximumEntries)], EventsOf(list, path, depth, limits, collate);
      PrunedList(list, path, depth, limits, collate);
      OverfullConcat(front, below);
      NodesConcat(front, below);
      assert Nodes(front) == [] by { assert front[1..] == []; }
      assert front[0] in front && (Overfull(front) <==> front[0].over);
      EverythingConcat(list, listed[|list|..], path, depth, limits, collate);
      assert listed == list + listed[|list|..];
    }
  }

  lemma {:induction false} EverythingConcat(a: seq<Tree>, b: seq<Tree>, path: seq<string>, depth: nat, limits: Limits,
                                            collate: Collation)
    requires depth <= limits.maximumDepth
    ensures EverythingOf(a + b, path, depth, limits, collate)
            == EverythingOf(a, path, depth, limits, collate) + EverythingOf(b, path, depth, limits, collate)
    ensures |EverythingOf(b, path, depth, limits, collate)| >= |b|
    decreases |a|, |b|
  {
    if a != [] {
      assert (a + b)[1..] == a[1..] + b;
      EverythingConcat(a[1..], b, path, depth, limits, collate);
    } else {
      assert a + b == b;
      if b != [] {
        EverythingConcat([], b[1..], path, depth, limits, collate);
      }
    }
  }

  lemma {:induction false} PrunedList(list: seq<Tree>, path: seq<string>, depth: nat, limits: Limits,
                                      collate: Collation)
    requires depth <= limits.maximumDepth
    ensures var events, all :=
      EventsOf(list, path, depth, limits, collate), EverythingOf(list, path, depth, limits, collate);
            if Overfull(events) then |Nodes(events)| < |all| else Nodes(events) == all
    decreases DepthLeft(limits, depth), 1, |list|
  {
    if list != [] {
      var e := list[0];
      var visit := [Visit(NodeOf(e, path, depth))];
      var inner := if e.Directory? then Events(e.entries, path + [e.name], depth + 1, limits, collate) else [];
      var rest := EventsOf(list[1..], path, depth, limits, collate);
      if e.Directory? {
        PrunedOrEverything(e.entries, path + [e.name], depth + 1, limits, collate);
      }
      PrunedList(list[1..], path, depth, limits, collate);
      NodesConcat(visit, inner);
      NodesConcat(visit + inner, rest);
      OverfullConcat(visit, inner);
      OverfullConcat(visit + inner, rest);
      assert Nodes(visit) == [NodeOf(e, path, depth)] by { assert visit[1..] == []; }
    }
  }

  predicate EndsOpen(events: seq<Event>) {
    events != [] && events[|events| - 1].Open?
  }

  /** When a walk notes an omission. */
  lemma {:induction false} MarksWhen(events: seq<Event>, budget: nat)
    requires budget > 0
    ensures !Overfull(events) ==> (Marks(events, budget) <==>
              |Nodes(events)| > budget || (|Nodes(events)| == budget && EndsOpen(events)))
    ensures Overfull(events) ==> Marks(events, budget)
  {
    if events != [] {
      OverfullConcat([events[0]], events[1..]);
      assert events == [events[0]] + events[1..];
      assert events[0] in [events[0]] && (Overfull([events[0]]) <==> events[0].Open? && events[0].over);
      if events[0].Visit? && budget == 1 {
        assert EndsOpen(events) <==> EndsOpen(events[1..]);
        OpensOnly(events[1..]);
      } else {
        MarksWhen(events[1..], if events[0].Visit? then budget - 1 else budget);
        if |events| == 1 {
          assert events[1..] == [];
        } else {
          assert EndsOpen(events) <==> EndsOpen(events[1..]);
        }
      }
    }
  }

  lemma {:induction false} OpensOnly(events: seq<Event>)
    ensures |Nodes(events)| == 0 ==> (events != [] <==> EndsOpen(events))
    ensures Overfull(events) ==> events != []
  {
    if |Nodes(events)| == 0 && events != [] {
      NoVisits(events, |events| - 1);
    }
  }

  lemma {:induction false} NoVisits(events: seq<Event>, i: nat)
    requires i < |events| && |Nodes(events)| == 0
    ensures events[i].Open?
  {
    if i > 0 {
      NoVisits(events[1..], i - 1);
    }
  }

  /** A walk ends by opening a directory exactly when the last node it visits is a directory above
      the depth limit: one in which nothing is visible. */
  lemma {:induction false} EndsOpenList(list: seq<Tree>, path: seq<string>, depth: nat, limits: Limits,
                                        collate: Collation)
    requires depth <= limits.maximumDepth && list != [] && limits.maximumEntries > 0
    ensures var events := EventsOf(list, path, depth, limits, collate);
            && Nodes(events) != []
            && (EndsOpen(events)
                <==> var last := Nodes(events)[|Nodes(events)| - 1];
                last.isDirectory && last.depth < limits.maximumDepth)
    decreases DepthLeft(limits, depth), |list|
  {
    var e := list[0];
    var here, rest := EventsAt(e, path, depth, limits, collate), EventsOf(list[1..], path, depth, limits, collate);
    NodesConcat(here, rest);
    if |list| > 1 {
      EndsOpenList(list[1..], path, depth, limits, collate);
      assert rest != [];
    } else {
      assert list[1..] == [] && here + rest == here;
      EndsOpenAt(e, path, depth, limits, collate);
    }
  }

  lemma {:induction false} EndsOpenAt(e: Tree, path: seq<string>, depth: nat, limits: Limits, collate: Collation)
    requires depth <= limits.maximumDepth && limits.maximumEntries > 0
    ensures var events := EventsAt(e, path, depth, limits, collate);
            && Nodes(events) != []
            && (EndsOpen(events)
                <==> var last := Nodes(events)[|Nodes(events)| - 1];
                last.isDirectory && last.depth < limits.maximumDepth)
    decreases DepthLeft(limits, depth), 0
  {
    var node := NodeOf(e, path, depth);
    OneVisit(node, 1);
    if e.Directory? && depth < limits.maximumDepth {
      var listed := Listed(e.entries, collate);
      var list := Take(listed, limits.maximumEntries);
      var below := EventsOf(list, path + [e.name], depth + 1, limits, collate);
      EventsAtDirectory(e, path, depth, limits, collate, list);
      EndsBelow(node, |listed| > limits.maximumEntries, below);
      if list != [] {
        EndsOpenList(list, path + [e.name], depth + 1, limits, collate);
      }
    } else {
      assert [Visit(node)] + [] == [Visit(node)];
    }
  }

  lemma EventsAtDirectory(e: Tree, path: seq<string>, depth: nat, limits: Limits, collate: Collation, list: seq<Tree>)
    requires depth < limits.maximumDepth && e.Directory?
             && list == Take(Listed(e.entries, collate), limits.maximumEntries)
    ensures EventsAt(e, path, depth, limits, collate)
            == [Visit(NodeOf(e, path, depth))]
               + ([Open(|Listed(e.entries, collate)| > limits.maximumEntries)]
                  + EventsOf(list, path + [e.name], depth + 1, limits, collate))
  {
  }

  lemma EndsBelow(node: Node, over: bool, below: seq<Event>)
    ensures var events := [Visit(node)] + ([Open(over)] + below);
            && Nodes(events) == [node] + Nodes(below)
            && (EndsOpen(events) <==> below == [] || EndsOpen(below))
  {
    NodesConcat([Visit(node)], [Open(over)] + below);
    NodesConcat([Open(over)], below);
    OneVisit(node, 1);
    assert Nodes([Open(over)]) == [] by { assert [Open(over)][1..] == []; }
  }

  /** The list is the first nodes of the pruned preorder. Without a marker it is every visible node
      within the depth limit. With a marker something is missing, except in exactly one case: the
      nodes just fit the budget and the last of them is a directory above the depth limit. */
  lemma MarkerIsExact(root: seq<Tree>, limits: Limits, collate: Collation, budget: nat)
    requires budget > 0 && limits.maximumEntries > 0
    ensures var events, all := Events(root, [], 0, limits, collate), Everything(root, [], 0, limits, collate);
            var files := Take(Nodes(events), budget);
            Marks(events, budget) <==>
              files != all
                || (|all| == budget && all[budget - 1].isDirectory && all[budget - 1].depth < limits.maximumDepth)
  {
    var events := Events(root, [], 0, limits, collate);
    PrunedOrEverything(root, [], 0, limits, collate);
    MarksWhen(events, budget);
    var listed := Listed(root, collate);
    var list := Take(listed, limits.maximumEntries);
    var front, below := [Open(|listed| > limits.maximumEntries)], EventsOf(list, [], 0, limits, collate);
    NodesConcat(front, below);
    assert Nodes(front) == [] by { assert front[1..] == []; }
    if list != [] {
      EndsOpenList(list, [], 0, limits, collate);
    }
  }

  /** The one case is real: an empty directory alone in the workspace, with room for one node. */
  lemma MarkerWithoutOmission(collate: Collation)
    ensures var root, limits := [Directory("a", [])], Limits(200, 4);
            && Take(Nodes(Events(root, [], 0, limits, collate)), 1) == Everything(root, [], 0, limits, collate)
            && Marks(Events(root, [], 0, limits, collate), 1)
  {
    var root, limits := [Directory("a", [])], Limits(200, 4);
    assert Listed(root, collate) == root by { assert root[1..] == []; }
    assert Listed([], collate) == [];
    assert EverythingOf(root, [], 0, limits, collate) == [NodeOf(root[0], [], 0)] by { assert root[1..] == []; }
    PrunedOrEverything(root, [], 0, limits, collate);
    MarkerIsExact(root, limits, collate, 1);
    EventsOfOne(root, limits, collate);
  }

  lemma EventsOfOne(root: seq<Tree>, limits: Limits, collate: Collation)
    requires root == [Directory("a", [])] && limits == Limits(200, 4) && Listed(root, collate) == root
    ensures Nodes(Events(root, [], 0, limits, collate)) == [NodeOf(root[0], [], 0)]
  {
    var a := root[0];
    assert root[1..] == [] && Listed([], collate) == [];
    assert EventsOf([], ["a"], 1, limits, collate) == [] && EventsOf([], [], 0, limits, collate) == [];
    assert Events([], ["a"], 1, limits, collate) == [Open(false)];
    assert EventsAt(a, [], 0, limits, collate) == [Visit(NodeOf(a, [], 0)), Open(false)] by {
      assert [] + ["a"] == ["a"];
    }
    assert EventsOf(root, [], 0, limits, collate) == [Visit(NodeOf(a, [], 0)), Open(false)];
    var events := Events(root, [], 0, limits, collate);
    assert events == [Open(false), Visit(NodeOf(a, [], 0)), Open(false)];
    NodesConcat([Open(false)], [Visit(NodeOf(a, [], 0))] + [Open(false)]);
    NodesConcat([Visit(NodeOf(a, [], 0))], [Open(false)]);
    OneVisit(NodeOf(a, [], 0), 1);
    assert Nodes([Open(false)]) == [] by { assert [Open(false)][1..] == []; }
    assert events == [Open(false)] + ([Visit(NodeOf(a, [], 0))] + [Open(false)]);
  }
}
