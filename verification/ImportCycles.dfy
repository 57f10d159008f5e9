/**
 The import-cycle check: the graph of modules, the depth-first search that reports cycles, and
 why an empty report means an acyclic graph.
*/
module ImportCycles {
  import opened Common
  import opened ModuleNames

  type Graph = map<string, set<string>>

  function Targets(g: Graph, node: string): set<string> {
    if node in g then g[node] else {}
  }

  /** Keys and targets: an imported module need not be a key. */
  function Nodes(g: Graph): set<string> {
    g.Keys + set u, v | u in g && v in g[u] :: v
  }

  predicate IsPath(g: Graph, p: seq<string>) {
    forall i :: 0 <= i < |p| - 1 ==> p[i + 1] in Targets(g, p[i])
  }

  predicate IsCycle(g: Graph, c: seq<string>) {
    |c| >= 2 && c[0] == c[|c| - 1] && IsPath(g, c)
  }

  predicate Distinct(p: seq<string>) {
    forall i, j :: 0 <= i < j < |p| ==> p[i] != p[j]
  }

  /** A cycle that passes through no node twice. */
  predicate IsSimpleCycle(g: Graph, c: seq<string>) {
    IsCycle(g, c) && Distinct(c[..|c| - 1])
  }

  ghost predicate Acyclic(g: Graph) {
    forall c :: !IsCycle(g, c)
  }

  /** The edge that closes a reported cycle. */
  function ClosingEdge(c: seq<string>): (string, string)
    requires |c| >= 2
  {
    (c[|c| - 2], c[|c| - 1])
  }

  function ClosingEdges(cycles: seq<seq<string>>): set<(string, string)> {
    set c | c in cycles && |c| >= 2 :: ClosingEdge(c)
  }

  /** No import is blamed twice: the reported cycles have different closing edges. */
  ghost predicate ReportedOnce(cycles: seq<seq<string>>) {
    forall i, j :: 0 <= i < j < |cycles| && |cycles[i]| >= 2 && |cycles[j]| >= 2 ==>
      ClosingEdge(cycles[i]) != ClosingEdge(cycles[j])
  }

  function Without(g: Graph, edges: set<(string, string)>): Graph {
    map u | u in g :: set v | v in g[u] && (u, v) !in edges
  }

  // ----- Finishing order -----

  /** Every edge out of a finished node is a reported closing edge or leads to an earlier finished node. */
  ghost predicate EdgesGoBack(g: Graph, finished: seq<string>, closing: set<(string, string)>) {
    forall i, v :: 0 <= i < |finished| && v in Targets(g, finished[i]) ==>
      (finished[i], v) in closing || v in finished[..i]
  }

  lemma EdgesStillGoBack(g: Graph, finished: seq<string>, before: set<(string, string)>, after: set<(string, string)>)
    requires EdgesGoBack(g, finished, before) && before <= after
    ensures EdgesGoBack(g, finished, after)
  {
  }

  lemma FinishingGoesBack(g: Graph, finished: seq<string>, closing: set<(string, string)>, node: string)
    requires EdgesGoBack(g, finished, closing)
    requires forall v :: v in Targets(g, node) ==> (node, v) in closing || v in finished
    ensures EdgesGoBack(g, finished + [node], closing)
  {
    var longer := finished + [node];
    forall i, v | 0 <= i < |longer| && v in Targets(g, longer[i])
      ensures (longer[i], v) in closing || v in longer[..i]
    {
      if i < |finished| {
        assert v in Targets(g, finished[i]);
        assert longer[..i] == finished[..i];
      } else {
        assert longer[..i] == finished;
      }
    }
  }

  function Rank(order: seq<string>, x: string): (r: nat)
    requires x in order
    ensures r < |order| && order[r] == x
    ensures forall i :: 0 <= i < |order| && order[i] == x ==> r <= i
  {
    if order[0] == x then 0 else 1 + Rank(order[1..], x)
  }

  lemma {:induction false} CycleDescends(g: Graph, finished: seq<string>, closing: set<(string, string)>, c: seq<string>, j: nat)
    requires EdgesGoBack(g, finished, closing) && g.Keys <= set x | x in finished
    requires IsCycle(Without(g, closing), c) && j < |c|
    ensures c[0] in finished && c[j] in finished
    ensures Rank(finished, c[j]) + j <= Rank(finished, c[0])
  {
    assert c[1] in Targets(Without(g, closing), c[0]);
    if j > 0 {
      CycleDescends(g, finished, closing, c, j - 1);
      var u, v := c[j - 1], c[j];
      assert v in Targets(Without(g, closing), u);
      var r := Rank(finished, u);
      assert v in Targets(g, finished[r]) && v in finished[..r];
    }
  }

  /** Removing the closing edge of every reported cycle leaves no cycle at all. */
  lemma FinishedGraphIsAcyclic(g: Graph, finished: seq<string>, closing: set<(string, string)>)
    requires EdgesGoBack(g, finished, closing) && g.Keys <= set x | x in finished
    ensures Acyclic(Without(g, closing))
  {
    forall c ensures !IsCycle(Without(g, closing), c) {
      if IsCycle(Without(g, closing), c) {
        CycleDescends(g, finished, closing, c, |c| - 1);
        assert false;
      }
    }
  }

  lemma NothingRemoved(g: Graph)
    ensures Without(g, {}) == g
  {
    var w := Without(g, {});
    assert w.Keys == g.Keys;
    forall u | u in g ensures w[u] == g[u] {
      assert forall v :: v in w[u] <==> v in g[u];
    }
  }

  // ----- The depth-first search -----

  function IndexOf(s: seq<string>, x: string): (i: nat)
    requires x in s
    ensures i < |s| && s[i] == x
  {
    if s[0] == x then 0 else 1 + IndexOf(s[1..], x)
  }

  lemma ReportedCycle(g: Graph, stack: seq<string>, index: nat, node: string)
    requires Distinct(stack) && IsPath(g, stack) && index < |stack| && stack[index] == node
    requires node in Targets(g, stack[|stack| - 1])
    ensures var cycle := stack[index..] + [node];
            IsSimpleCycle(g, cycle) && ClosingEdge(cycle) == (stack[|stack| - 1], node)
  {
    var cycle := stack[index..] + [node];
    assert cycle[..|cycle| - 1] == stack[index..];
    forall i | 0 <= i < |cycle| - 1 ensures cycle[i + 1] in Targets(g, cycle[i]) {
      assert cycle[i] == stack[index + i];
    }
  }

  lemma ReportAdds(cycles: seq<seq<string>>, cycle: seq<string>)
    requires |cycle| >= 2
    ensures ClosingEdges(cycles + [cycle]) == ClosingEdges(cycles) + {ClosingEdge(cycle)}
  {
  }

  lemma ReportIsNew(cycles: seq<seq<string>>, cycle: seq<string>)
    requires |cycle| >= 2 && ReportedOnce(cycles) && ClosingEdge(cycle) !in ClosingEdges(cycles)
    ensures ReportedOnce(cycles + [cycle])
  {
    forall c | c in cycles && |c| >= 2 ensures ClosingEdge(c) != ClosingEdge(cycle) {
      assert ClosingEdge(c) in ClosingEdges(cycles);
    }
  }

  lemma ClosingEdgesGrow(before: seq<seq<string>>, after: seq<seq<string>>)
    requires before <= after
    ensures ClosingEdges(before) <= ClosingEdges(after)
  {
    forall e | e in ClosingEdges(before) ensures e in ClosingEdges(after) {
      var c :| c in before && |c| >= 2 && ClosingEdge(c) == e;
      assert c in after;
    }
  }

  lemma TargetIsNode(g: Graph, node: string, target: string)
    requires target in Targets(g, node)
    ensures target in Nodes(g)
  {
  }

  predicate Earlier(a: string, b: string) {
    Before(a, b) && a != b
  }

  /** The search takes names in ascending order: it starts at the least key left, and leaves a node for a target
      only after every earlier target is visited or on the stack below. */
  ghost predicate Orderly(g: Graph, visited: set<string>, stack: seq<string>) {
    && (stack != [] ==> forall k :: k in g && Earlier(k, stack[0]) ==> k in visited)
    && forall i, w :: 0 <= i < |stack| - 1 && w in Targets(g, stack[i]) && Earlier(w, stack[i + 1]) ==>
         w in visited || w in stack[..i + 1]
  }

  /** How a report is found: along a walk without repetitions that ends with its cycle, starts at its own
      least name, and never passes over an earlier target that lies ahead on it. */
  ghost predicate IsWalkTo(g: Graph, walk: seq<string>, c: seq<string>) {
    && |c| >= 2 && |walk| >= |c| - 1 && walk[|walk| - (|c| - 1)..] == c[..|c| - 1]
    && IsPath(g, walk) && Distinct(walk)
    && (forall i :: 0 <= i < |walk| ==> !Earlier(walk[i], walk[0]))
    && forall i, w :: 0 <= i < |walk| - 1 && w in Targets(g, walk[i]) && Earlier(w, walk[i + 1]) ==> w !in walk[i + 1..]
  }

  ghost predicate FoundInOrder(g: Graph, c: seq<string>) {
    exists walk :: IsWalkTo(g, walk, c)
  }

  lemma EndsApart(s: seq<string>, k: nat, x: string)
    requires Distinct(s) && k <= |s|
    ensures x in s[..k] ==> x !in s[k..]
    ensures x in s[k..] ==> x in s
  {
  }

  lemma StackIsWalk(g: Graph, visited: set<string>, stack: seq<string>, index: nat, node: string)
    requires Distinct(stack) && IsPath(g, stack) && Orderly(g, visited, stack) && (forall x :: x in stack ==> x !in visited)
    requires index < |stack| && stack[index] == node && node in Targets(g, stack[|stack| - 1])
    ensures FoundInOrder(g, stack[index..] + [node])
  {
    var c := stack[index..] + [node];
    assert c[..|c| - 1] == stack[index..];
    forall i | 0 <= i < |stack| ensures !Earlier(stack[i], stack[0]) {
      assert stack[i] in g by {
        if i < |stack| - 1 {
          assert stack[i + 1] in Targets(g, stack[i]);
        }
      }
    }
    forall i, w | 0 <= i < |stack| - 1 && w in Targets(g, stack[i]) && Earlier(w, stack[i + 1])
      ensures w !in stack[i + 1..]
    {
      EndsApart(stack, i + 1, w);
    }
    assert IsWalkTo(g, stack, c);
  }

  /** Where a report starts: at the least of its names, unless a still lesser name outside leads into it. */
  lemma ReportStart(g: Graph, c: seq<string>)
    requires FoundInOrder(g, c) && IsCycle(g, c)
    ensures || (forall x :: x in c ==> !Earlier(x, c[0]))
            || exists stem :: LeadsInto(g, stem, c)
  {
    var walk :| IsWalkTo(g, walk, c);
    var stem := walk[..|walk| - (|c| - 1) + 1];
    var rest := walk[|walk| - (|c| - 1)..];
    assert rest == c[..|c| - 1];
    assert stem[|stem| - 1] == rest[0] == c[0];
    if |stem| > 1 {
      forall x | x in c[..|c| - 1] ensures x != stem[0] && Earlier(stem[0], x) {
        var j :| 0 <= j < |rest| && rest[j] == x;
        assert walk[|walk| - (|c| - 1) + j] == x;
        BeforeIsTotal(stem[0], x);
      }
      assert LeadsInto(g, stem, c);
    } else {
      forall x | x in c ensures !Earlier(x, c[0]) {
        if x != c[0] {
          assert x in c[..|c| - 1];
        }
      }
    }
  }

  ghost predicate LeadsInto(g: Graph, stem: seq<string>, c: seq<string>)
  {
    && |stem| >= 2 && IsPath(g, stem) && |c| >= 2 && stem[|stem| - 1] == c[0]
    && forall x :: x in c[..|c| - 1] ==> Earlier(stem[0], x)
  }

  lemma OrderlyGrows(g: Graph, before: set<string>, after: set<string>, stack: seq<string>)
    requires Orderly(g, before, stack) && before <= after
    ensures Orderly(g, after, stack)
  {
  }

  lemma OrderlyPush(g: Graph, visited: set<string>, stack: seq<string>, node: string)
    requires Orderly(g, visited, stack) && MayVisit(g, visited, stack, node)
    ensures Orderly(g, visited, stack + [node])
  {
    var longer := stack + [node];
    forall i, w | 0 <= i < |longer| - 1 && w in Targets(g, longer[i]) && Earlier(w, longer[i + 1])
      ensures w in visited || w in longer[..i + 1]
    {
      if i < |stack| - 1 {
        assert longer[..i + 1] == stack[..i + 1];
      } else {
        assert longer[..i + 1] == stack;
      }
    }
  }

  lemma OrderlyPop(g: Graph, visited: set<string>, stack: seq<string>, node: string)
    requires Orderly(g, visited, stack + [node])
    ensures Orderly(g, visited, stack)
  {
    var longer := stack + [node];
    forall i, w | 0 <= i < |stack| - 1 && w in Targets(g, stack[i]) && Earlier(w, stack[i + 1])
      ensures w in visited || w in stack[..i + 1]
    {
      assert longer[i] == stack[i] && longer[i + 1] == stack[i + 1] && longer[..i + 1] == stack[..i + 1];
    }
    assert stack != [] ==> longer[0] == stack[0];
  }

  /** Everything the search has to take before this node is taken. */
  ghost predicate MayVisit(g: Graph, visited: set<string>, stack: seq<string>, node: string) {
    if stack == [] then forall k :: k in g && Earlier(k, node) ==> k in visited
    else forall w :: w in Targets(g, stack[|stack| - 1]) && Earlier(w, node) ==> w in visited || w in stack
  }

  /** In an ascending list, the names before a given one are those at smaller indices. */
  lemma EarlierAtSmallerIndex(q: seq<string>, i: nat, w: string)
    requires forall j, k :: 0 <= j < k < |q| ==> Before(q[j], q[k]) && q[j] != q[k]
    requires i < |q| && w in q && Earlier(w, q[i])
    ensures w in q[..i]
  {
    var j :| 0 <= j < |q| && q[j] == w;
    if j >= i {
      BeforeIsTotal(w, q[i]);
      assert false;
    }
    assert q[..i][j] == w;
  }

  /** The stack is a path without repetitions over exactly the nodes being visited; what is
      reported is a simple cycle; and finished nodes only lead back. */
  ghost predicate Consistent(g: Graph, cycles: seq<seq<string>>, visiting: set<string>, visited: set<string>,
                             stack: seq<string>, finished: seq<string>)
  {
    && Distinct(stack) && IsPath(g, stack)
    && (forall x :: x in stack <==> x in visiting)
    && (forall x :: x in finished <==> x in visited)
    && visiting !! visited
    && visiting <= Nodes(g) && visited <= Nodes(g)
    && (forall c :: c in cycles ==> IsSimpleCycle(g, c))
    && EdgesGoBack(g, finished, ClosingEdges(cycles))
    && ReportedOnce(cycles)
    && (forall e :: e in ClosingEdges(cycles) ==> e.0 in visited || e.0 in visiting)
    && Orderly(g, visited, stack)
    && (forall c :: c in cycles ==> FoundInOrder(g, c))
  }

  lemma ReportKeeps(g: Graph, cycles: seq<seq<string>>, visiting: set<string>, visited: set<string>,
                    stack: seq<string>, finished: seq<string>, node: string)
    requires Consistent(g, cycles, visiting, visited, stack, finished)
    requires node in stack && node in Targets(g, stack[|stack| - 1])
    requires (stack[|stack| - 1], node) !in ClosingEdges(cycles)
    ensures var longer := cycles + [stack[IndexOf(stack, node)..] + [node]];
            && Consistent(g, longer, visiting, visited, stack, finished)
            && ClosingEdges(longer) == ClosingEdges(cycles) + {(stack[|stack| - 1], node)}
  {
    hide ClosingEdges, EdgesGoBack, Nodes, IsSimpleCycle, ReportedOnce, Orderly, FoundInOrder;
    var index := IndexOf(stack, node);
    var cycle := stack[index..] + [node];
    StackIsWalk(g, visited, stack, index, node);
    ReportedCycle(g, stack, index, node);
    ReportAdds(cycles, cycle);
    ReportIsNew(cycles, cycle);
    EdgesStillGoBack(g, finished, ClosingEdges(cycles), ClosingEdges(cycles + [cycle]));
  }

  lemma PushKeeps(g: Graph, cycles: seq<seq<string>>, visiting: set<string>, visited: set<string>,
                  stack: seq<string>, finished: seq<string>, node: string)
    requires Consistent(g, cycles, visiting, visited, stack, finished)
    requires node !in visiting && node !in visited && node in Nodes(g)
    requires stack != [] ==> node in Targets(g, stack[|stack| - 1])
    requires MayVisit(g, visited, stack, node)
    ensures Consistent(g, cycles, visiting + {node}, visited, stack + [node], finished)
  {
    hide ClosingEdges, EdgesGoBack, Nodes, IsSimpleCycle, ReportedOnce, Orderly, FoundInOrder, MayVisit;
    OrderlyPush(g, visited, stack, node);
  }

  lemma FinishKeeps(g: Graph, cycles: seq<seq<string>>, visiting: set<string>, visited: set<string>,
                    stack: seq<string>, finished: seq<string>, node: string)
    requires Consistent(g, cycles, visiting + {node}, visited, stack + [node], finished) && node !in visiting
    requires forall v :: v in Targets(g, node) ==> v in visited || (node, v) in ClosingEdges(cycles)
    ensures Consistent(g, cycles, visiting, visited + {node}, stack, finished + [node])
  {
    hide ClosingEdges, EdgesGoBack, Nodes, IsSimpleCycle, ReportedOnce, Orderly, FoundInOrder;
    OrderlyPop(g, visited, stack, node);
    OrderlyGrows(g, visited, visited + {node}, stack);
    var longer := stack + [node];
    assert forall i :: 0 <= i < |stack| ==> longer[i] == stack[i];
    assert longer[|stack|] == node;
    forall x ensures x in stack <==> x in visiting {
      if x in visiting {
        assert x in longer;
      }
      if x in stack {
        assert x in longer;
      }
    }
    FinishingGoesBack(g, finished, ClosingEdges(cycles), node);
  }

  lemma KnownSources(g: Graph, cycles: seq<seq<string>>, visiting: set<string>, visited: set<string>,
                     stack: seq<string>, finished: seq<string>)
    requires Consistent(g, cycles, visiting, visited, stack, finished)
    ensures forall x :: x in stack <==> x in visiting
    ensures forall e :: e in ClosingEdges(cycles) ==> e.0 in visited || e.0 in visiting
  {
  }

  lemma MayVisitNext(g: Graph, visited: set<string>, stack: seq<string>, node: string, targets: seq<string>, i: nat)
    requires stack != [] && stack[|stack| - 1] == node && targets == Sorted(Targets(g, node)) && i < |targets|
    requires forall j :: 0 <= j < i ==> targets[j] in visited || targets[j] in stack
    ensures MayVisit(g, visited, stack, targets[i])
  {
    forall w | w in Targets(g, node) && Earlier(w, targets[i]) ensures w in visited || w in stack {
      EarlierAtSmallerIndex(targets, i, w);
    }
  }

  lemma MayVisitKey(g: Graph, visited: set<string>, keys: seq<string>, i: nat)
    requires keys == Sorted(g.Keys) && i < |keys|
    requires forall j :: 0 <= j < i ==> keys[j] in visited
    ensures MayVisit(g, visited, [], keys[i])
  {
    forall k | k in g && Earlier(k, keys[i]) ensures k in visited {
      EarlierAtSmallerIndex(keys, i, k);
    }
  }

  lemma WhatConsistentSays(g: Graph, cycles: seq<seq<string>>, visiting: set<string>, visited: set<string>,
                           stack: seq<string>, finished: seq<string>)
    requires Consistent(g, cycles, visiting, visited, stack, finished)
    ensures forall x :: x in finished <==> x in visited
    ensures forall c :: c in cycles ==> IsSimpleCycle(g, c) && FoundInOrder(g, c)
    ensures EdgesGoBack(g, finished, ClosingEdges(cycles)) && ReportedOnce(cycles)
  {
  }

  class CycleFinder {
    const graph: Graph
    var cycles: seq<seq<string>>
    var visiting: set<string>
    var visited: set<string>
    var stack: seq<string>
    ghost var finished: seq<string>

    ghost predicate Valid()
      reads this
    {
      Consistent(graph, cycles, visiting, visited, stack, finished)
    }

    constructor (g: Graph)
      ensures Valid() && graph == g
      ensures cycles == [] && stack == [] && visited == {}
    {
      graph := g;
      cycles, visiting, visited, stack, finished := [], {}, {}, [], [];
    }

    /** Visiting a node finishes it, or reports the cycle it closes if it is on the stack; the stack
        is restored, and nothing visited or reported is forgotten. */
    method Visit(node: string)
      requires Valid() && node in Nodes(graph)
      requires stack != [] ==> node in Targets(graph, stack[|stack| - 1])
      requires stack != [] ==> (stack[|stack| - 1], node) !in ClosingEdges(cycles)
      requires MayVisit(graph, visited, stack, node)
      modifies this
      ensures Valid()
      ensures stack == old(stack) && visiting == old(visiting)
      ensures old(visited) <= visited && old(cycles) <= cycles
      ensures node in visited || (node in stack && (stack[|stack| - 1], node) in ClosingEdges(cycles))
      ensures forall e :: e in ClosingEdges(cycles) && e !in old(ClosingEdges(cycles)) ==>
                (e.0 !in old(visited) && e.0 !in old(visiting)) || (stack != [] && e == (stack[|stack| - 1], node))
      decreases Nodes(graph) - visited - visiting
    {
      hide Consistent, ClosingEdges, Nodes, MayVisit, Targets, Earlier, Before, Sorted;
      KnownSources(graph, cycles, visiting, visited, stack, finished);
      if node in visited {
        return;
      }
      if node in visiting {
        var index := IndexOf(stack, node);
        ReportKeeps(graph, cycles, visiting, visited, stack, finished, node);
        cycles := cycles + [stack[index..] + [node]];
        return;
      }
      PushKeeps(graph, cycles, visiting, visited, stack, finished, node);
      visiting := visiting + {node};
      stack := stack + [node];
      var targets := Sorted(Targets(graph, node));
      var i := 0;
      while i < |targets|
        invariant 0 <= i <= |targets|
        invariant Valid()
        invariant stack == old(stack) + [node] && visiting == old(visiting) + {node}
        invariant old(visited) <= visited && old(cycles) <= cycles
        invariant forall j :: 0 <= j < i ==>
                    targets[j] in visited || (targets[j] in stack && (node, targets[j]) in ClosingEdges(cycles))
        invariant forall e :: e in ClosingEdges(cycles) && e.0 == node ==> e.1 in targets[..i]
        invariant forall e :: e in ClosingEdges(cycles) && e !in old(ClosingEdges(cycles)) ==>
                    e.0 !in old(visited) && e.0 !in old(visiting)
      {
        assert targets[i] in Targets(graph, node);
        TargetIsNode(graph, node, targets[i]);
        MayVisitNext(graph, visited, stack, node, targets, i);
        ghost var before := cycles;
        Visit(targets[i]);
        ClosingEdgesGrow(before, cycles);
        i := i + 1;
      }
      forall v | v in Targets(graph, node) ensures v in visited || (node, v) in ClosingEdges(cycles) {
        assert v in targets;
      }
      FinishKeeps(graph, cycles, old(visiting), visited, old(stack), finished, node);
      stack := stack[..|stack| - 1];
      visiting := visiting - {node};
      visited := visited + {node};
      finished := finished + [node];
    }
  }

  lemma NoReportNoEdges()
    ensures ClosingEdges([]) == {}
  {
  }

  lemma ReportRefutes(g: Graph, c: seq<string>)
    requires IsSimpleCycle(g, c)
    ensures !Acyclic(g)
  {
  }

  /** Once every key is visited, the report is all there is to say. */
  lemma ReportIsComplete(g: Graph, cycles: seq<seq<string>>, visiting: set<string>, visited: set<string>,
                         stack: seq<string>, finished: seq<string>)
    requires Consistent(g, cycles, visiting, visited, stack, finished) && g.Keys <= visited
    ensures cycles == [] <==> Acyclic(g)
    ensures forall c :: c in cycles ==> IsSimpleCycle(g, c) && FoundInOrder(g, c)
    ensures Acyclic(Without(g, ClosingEdges(cycles))) && ReportedOnce(cycles)
  {
    hide ClosingEdges, IsSimpleCycle, EdgesGoBack, Without, FoundInOrder, Consistent, ReportedOnce, Acyclic;
    WhatConsistentSays(g, cycles, visiting, visited, stack, finished);
    FinishedGraphIsAcyclic(g, finished, ClosingEdges(cycles));
    if cycles == [] {
      NoReportNoEdges();
      NothingRemoved(g);
    } else {
      ReportRefutes(g, cycles[0]);
    }
  }

  /** The report is empty exactly when the graph is acyclic; every reported cycle is a simple cycle
      of real imports, found by taking names in ascending order; no import is blamed twice; and cutting
      each cycle at its closing edge leaves no cycle anywhere. */
  method FindCycles(g: Graph) returns (cycles: seq<seq<string>>)
    ensures cycles == [] <==> Acyclic(g)
    ensures forall c :: c in cycles ==> IsSimpleCycle(g, c) && FoundInOrder(g, c)
    ensures Acyclic(Without(g, ClosingEdges(cycles)))
    ensures ReportedOnce(cycles)
  {
    hide ClosingEdges, IsSimpleCycle, EdgesGoBack, Without, MayVisit, FoundInOrder, Orderly, Consistent, ReportedOnce, Acyclic,
      Before, Sorted, Targets, Earlier;
    var finder := new CycleFinder(g);
    var keys := Sorted(g.Keys);
    var i := 0;
    while i < |keys|
      invariant 0 <= i <= |keys|
      invariant finder.Valid() && finder.graph == g && finder.stack == []
      invariant forall j :: 0 <= j < i ==> keys[j] in finder.visited
    {
      assert keys[i] in g.Keys;
      MayVisitKey(g, finder.visited, keys, i);
      finder.Visit(keys[i]);
      i := i + 1;
    }
    cycles := finder.cycles;
    assert forall k :: k in g.Keys ==> k in finder.visited by {
      assert forall k :: k in g.Keys ==> k in keys;
    }
    ReportIsComplete(g, cycles, finder.visiting, finder.visited, finder.stack, finder.finished);
  }

  // ----- The graph of an application -----

  /** One source file: its module and the application modules it imports, as written. */
  datatype SourceFile = SourceFile(name: string, imports: set<string>)

  function KnownModules(files: seq<SourceFile>): set<string> {
    set f | f in files :: f.name
  }

  /** The file belongs to module u and one of these imported names collapses to another module v. */
  ghost predicate EdgeFrom(known: set<string>, file: SourceFile, names: set<string>, u: string, v: string) {
    && file.name == u && v != u
    && exists name :: name in names && IsNearestKnown(Some(v), name, known)
  }

  ghost predicate Edge(files: seq<SourceFile>, n: nat, u: string, v: string)
    requires n <= |files|
  {
    exists i :: 0 <= i < n && EdgeFrom(KnownModules(files), files[i], files[i].imports, u, v)
  }

  ghost predicate IsImportGraph(files: seq<SourceFile>, g: Graph) {
    && g.Keys == KnownModules(files)
    && forall u, v :: u in g ==> (v in g[u] <==> Edge(files, |files|, u, v))
  }

  /** The edges of one file. */
  method AddImports(g0: Graph, known: set<string>, file: SourceFile) returns (g: Graph)
    requires file.name in g0
    ensures g.Keys == g0.Keys
    ensures forall u, v :: u in g ==> (v in g[u] <==> v in g0[u] || EdgeFrom(known, file, file.imports, u, v))
  {
    hide IsNearestKnown, EdgeFrom;
    g := g0;
    var todo := file.imports;
    NoNames(known, file);
    while todo != {}
      invariant todo <= file.imports && g.Keys == g0.Keys
      invariant forall u, v :: u in g ==>
                  (v in g[u] <==> v in g0[u] || EdgeFrom(known, file, file.imports - todo, u, v))
      decreases |todo|
    {
      var imported :| imported in todo;
      var target := CollapseToKnownModule(imported, known);
      ghost var was, done := g, file.imports - todo;
      todo := todo - {imported};
      assert file.imports - todo == done + {imported};
      if target.Some? && target.value != file.name {
        g := g[file.name := g[file.name] + {target.value}];
      }
      forall u, v | u in g
        ensures v in g[u] <==> v in g0[u] || EdgeFrom(known, file, done + {imported}, u, v)
      {
        OneMoreName(known, file, done, imported, target, u, v);
        assert v in was[u] <==> v in g0[u] || EdgeFrom(known, file, done, u, v);
      }
    }
    assert file.imports - todo == file.imports;
  }

  lemma NoNames(known: set<string>, file: SourceFile)
    ensures forall u, v :: !EdgeFrom(known, file, file.imports - file.imports, u, v)
  {
  }

  method BuildGraph(files: seq<SourceFile>) returns (g: Graph)
    ensures IsImportGraph(files, g)
  {
    hide EdgeFrom;
    var known := KnownModules(files);
    g := map m | m in known :: {};
    var i := 0;
    while i < |files|
      invariant 0 <= i <= |files| && g.Keys == known
      invariant forall u, v :: u in g ==> (v in g[u] <==> Edge(files, i, u, v))
    {
      assert files[i] in files;
      g := AddImports(g, known, files[i]);
      i := i + 1;
    }
  }

  lemma OneMoreName(known: set<string>, file: SourceFile, names: set<string>, name: string,
                    target: Option<string>, u: string, v: string)
    requires IsNearestKnown(target, name, known)
    ensures EdgeFrom(known, file, names + {name}, u, v) <==>
              EdgeFrom(known, file, names, u, v) || (file.name == u && v != u && target == Some(v))
  {
    if IsNearestKnown(Some(v), name, known) {
      NearestKnownIsUnique(name, known, target, Some(v));
    }
  }

  /** The whole check: it passes exactly when the application's modules do not import each other in
      a circle, and every circle it reports runs through at least two modules. */
  method CheckImports(files: seq<SourceFile>) returns (g: Graph, cycles: seq<seq<string>>)
    ensures IsImportGraph(files, g)
    ensures cycles == [] <==> Acyclic(g)
    ensures forall c :: c in cycles ==> IsSimpleCycle(g, c) && FoundInOrder(g, c) && |c| >= 3
  {
    g := BuildGraph(files);
    cycles := FindCycles(g);
    hide FoundInOrder;
    forall c | c in cycles ensures |c| >= 3 {
      assert IsSimpleCycle(g, c);
      assert c[1] in Targets(g, c[0]);
      assert Edge(files, |files|, c[0], c[1]);
    }
  }
}
