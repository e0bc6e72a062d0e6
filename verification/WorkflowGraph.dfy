/** The graph check of `WorkflowValidator.validate` in `cogni_flow/aflow.py`:
    Kahn's algorithm over in-degrees and a queue, against walks of the graph. */
module WorkflowGraph {
  import opened Basics

  datatype Edge = Edge(source: string, target: string, channel: string)

  ghost predicate Linked(edges: seq<Edge>, a: string, b: string) {
    exists i :: 0 <= i < |edges| && edges[i].source == a && edges[i].target == b
  }

  /** A sequence of nodes in which each one is linked to the next. */
  ghost predicate Walk(edges: seq<Edge>, walk: seq<string>) {
    && walk != []
    && forall i :: 0 <= i < |walk| - 1 ==> Linked(edges, walk[i], walk[i + 1])
  }

  /** A walk of at least one edge that comes back to its start. */
  ghost predicate Cycle(edges: seq<Edge>, walk: seq<string>) {
    Walk(edges, walk) && |walk| >= 2 && walk[0] == walk[|walk| - 1]
  }

  ghost predicate Cyclic(edges: seq<Edge>) {
    exists walk :: Cycle(edges, walk)
  }

  /** Every edge into a listed node comes from a node listed before it. */
  ghost predicate Topological(edges: seq<Edge>, order: seq<string>) {
    forall j, i :: 0 <= j < |order| && 0 <= i < |edges| && edges[i].target == order[j] ==> edges[i].source in order[..j]
  }

  ghost predicate Over(edges: seq<Edge>, ids: set<string>) {
    forall i :: 0 <= i < |edges| ==> edges[i].source in ids && edges[i].target in ids
  }

  // ------------------------------------------------------------------
  // A topological order leaves no cycle
  // ------------------------------------------------------------------

  /** Going back along a walk leads to ever smaller places of the order. */
  lemma {:induction false} WalkClimbs(edges: seq<Edge>, order: seq<string>, walk: seq<string>, j: nat)
    requires Topological(edges, order) && Walk(edges, walk)
    requires j < |order| && order[j] == walk[|walk| - 1]
    ensures |walk| >= 2 ==> walk[0] in order[..j]
    decreases |walk|
  {
    var n := |walk| - 1;
    if n >= 1 {
      assert Linked(edges, walk[n - 1], walk[n]);
      var i :| 0 <= i < |edges| && edges[i].source == walk[n - 1] && edges[i].target == walk[n];
      assert walk[n - 1] in order[..j];
      var k :| 0 <= k < j && order[k] == walk[n - 1];
      var rest := walk[..n];
      forall m | 0 <= m < |rest| - 1 ensures Linked(edges, rest[m], rest[m + 1]) {
        assert Linked(edges, walk[m], walk[m + 1]);
      }
      WalkClimbs(edges, order, rest, k);
    }
  }

  lemma OrderedIsAcyclic(edges: seq<Edge>, ids: set<string>, order: seq<string>)
    requires Over(edges, ids) && Topological(edges, order) && Distinct(order)
    requires forall id :: id in ids ==> id in order
    ensures !Cyclic(edges)
  {
    if walk :| Cycle(edges, walk) {
      assert Linked(edges, walk[0], walk[1]);
      var j :| 0 <= j < |order| && order[j] == walk[0];
      WalkClimbs(edges, order, walk, j);
      assert false;
    }
  }

  // ------------------------------------------------------------------
  // Nodes that all have a predecessor among themselves hold a cycle
  // ------------------------------------------------------------------

  ghost predicate Feeds(edges: seq<Edge>, rest: set<string>, i: nat, id: string) {
    i < |edges| && edges[i].target == id && edges[i].source in rest
  }

  /** Every node of the set is linked from a node of the set. */
  ghost predicate Fed(edges: seq<Edge>, rest: set<string>) {
    forall id :: id in rest ==> exists i :: Feeds(edges, rest, i, id)
  }

  lemma WalkSnoc(edges: seq<Edge>, walk: seq<string>, i: nat)
    requires Walk(edges, walk) && i < |edges| && edges[i].source == walk[|walk| - 1]
    ensures Walk(edges, walk + [edges[i].target])
  {
    var longer := walk + [edges[i].target];
    forall m | 0 <= m < |walk| ensures Linked(edges, longer[m], longer[m + 1]) {
      if m < |walk| - 1 { assert Linked(edges, walk[m], walk[m + 1]); }
    }
  }

  lemma SomeFeeder(edges: seq<Edge>, rest: set<string>, id: string) returns (i: nat)
    requires Fed(edges, rest) && id in rest
    ensures Feeds(edges, rest, i, id)
  {
    hide Feeds;
    i :| Feeds(edges, rest, i, id);
  }

  /** There are walks of any length inside the set. */
  lemma {:induction false} LongWalk(edges: seq<Edge>, rest: set<string>, id: string, n: nat) returns (walk: seq<string>)
    requires Fed(edges, rest) && id in rest
    ensures Walk(edges, walk) && |walk| == n + 1 && walk[n] == id
    ensures forall i :: 0 <= i < |walk| ==> walk[i] in rest
    decreases n
  {
    hide Fed;
    if n == 0 {
      walk := [id];
    } else {
      var i := SomeFeeder(edges, rest, id);
      var tail := LongWalk(edges, rest, edges[i].source, n - 1);
      WalkSnoc(edges, tail, i);
      hide Walk;
      walk := tail + [id];
    }
  }

  /** A sequence longer than the set it lives in repeats something. */
  lemma {:induction false} Repeats(s: seq<string>, all: set<string>) returns (i: nat, j: nat)
    requires |s| > |all| && forall k :: 0 <= k < |s| ==> s[k] in all
    ensures i < j < |s| && s[i] == s[j]
    decreases |s|
  {
    var n := |s| - 1;
    if k :| 0 <= k < n && s[k] == s[n] {
      i, j := k, n;
    } else {
      i, j := Repeats(s[..n], all - {s[n]});
    }
  }

  lemma FedIsCyclic(edges: seq<Edge>, rest: set<string>)
    requires rest != {} && Fed(edges, rest)
    ensures Cyclic(edges)
  {
    hide Fed;
    var id :| id in rest;
    var walk := LongWalk(edges, rest, id, |rest|);
    var i, j := Repeats(walk, rest);
    var loop := walk[i..j + 1];
    forall m | 0 <= m < |loop| - 1 ensures Linked(edges, loop[m], loop[m + 1]) {
      assert Linked(edges, walk[i + m], walk[i + m + 1]);
    }
    assert Cycle(edges, loop);
  }

  // ------------------------------------------------------------------
  // In-degrees
  // ------------------------------------------------------------------

  /** The targets of a node's edges, in order, one per edge. */
  function Targets(edges: seq<Edge>, node: string): seq<string> {
    if edges == [] then []
    else Targets(edges[..|edges| - 1], node) +
         (if edges[|edges| - 1].source == node then [edges[|edges| - 1].target] else [])
  }

  function Count(s: seq<string>, x: string): nat {
    if s == [] then 0 else Count(s[..|s| - 1], x) + (if s[|s| - 1] == x then 1 else 0)
  }

  /** The edges into a node whose source has not been taken from the queue. */
  function Waiting(edges: seq<Edge>, done: seq<string>, node: string): nat {
    if edges == [] then 0
    else Waiting(edges[..|edges| - 1], done, node) +
         (if edges[|edges| - 1].target == node && edges[|edges| - 1].source !in done then 1 else 0)
  }

  /** Taking a node from the queue settles each of its edges once. */
  lemma {:induction false} WaitingTaken(edges: seq<Edge>, done: seq<string>, taken: string, node: string)
    requires taken !in done
    ensures Waiting(edges, done + [taken], node) + Count(Targets(edges, taken), node) == Waiting(edges, done, node)
  {
    if edges != [] {
      var n := |edges| - 1;
      WaitingTaken(edges[..n], done, taken, node);
      if edges[n].source == taken { CountSnoc(Targets(edges[..n], taken), edges[n].target, node); }
      else { assert Targets(edges, taken) == Targets(edges[..n], taken); }
    }
  }

  lemma CountSnoc(s: seq<string>, y: string, x: string)
    ensures Count(s + [y], x) == Count(s, x) + (if x == y then 1 else 0)
  {
    assert (s + [y])[..|s|] == s;
  }

  lemma {:induction false} CountPrefix(s: seq<string>, k: nat, x: string)
    requires k <= |s|
    ensures Count(s[..k], x) <= Count(s, x)
    ensures k < |s| && s[k] == x ==> Count(s[..k], x) < Count(s, x)
    decreases |s| - k
  {
    if k < |s| {
      CountPrefix(s, k + 1, x);
      assert s[..k + 1] == s[..k] + [s[k]];
      CountSnoc(s[..k], s[k], x);
    } else {
      assert s[..k] == s;
    }
  }

  lemma {:induction false} NothingWaiting(edges: seq<Edge>, done: seq<string>, node: string)
    ensures Waiting(edges, done, node) == 0 <==>
      forall i :: 0 <= i < |edges| && edges[i].target == node ==> edges[i].source in done
  {
    if edges != [] {
      var n := |edges| - 1;
      NothingWaiting(edges[..n], done, node);
      assert forall i :: 0 <= i < n ==> edges[..n][i] == edges[i];
    }
  }

  lemma {:induction false} TargetsOver(edges: seq<Edge>, ids: set<string>, node: string)
    requires Over(edges, ids)
    ensures forall k :: 0 <= k < |Targets(edges, node)| ==> Targets(edges, node)[k] in ids
  {
    if edges != [] {
      TargetsOver(edges[..|edges| - 1], ids, node);
    }
  }

  // ------------------------------------------------------------------
  // The queue
  // ------------------------------------------------------------------

  /** Exactly the nodes without waiting edges have been queued, in topological
      order. `done` is the part of the queue that is settled; of the node that is
      being settled, the first `k` edges are. */
  ghost predicate Queued(edges: seq<Edge>, ids: set<string>, indegree: map<string, int>, queue: seq<string>,
                         done: seq<string>, now: seq<string>)
  {
    && Over(edges, ids) && indegree.Keys == ids && Distinct(queue) && Topological(edges, queue)
    && (forall id :: id in queue ==> id in ids)
    && (forall id :: id in ids ==> indegree[id] == Waiting(edges, done, id) - Count(now, id))
    && (forall id :: id in ids ==> (id in queue <==> indegree[id] == 0))
  }

  /** One decrement of the inner loop. */
  lemma Settle(edges: seq<Edge>, ids: set<string>, indegree: map<string, int>, queue: seq<string>,
               done: seq<string>, node: string, k: nat)
    requires node !in done && k < |Targets(edges, node)|
    requires Queued(edges, ids, indegree, queue, done, Targets(edges, node)[..k])
    requires done + [node] <= queue
    ensures Targets(edges, node)[k] in indegree
    ensures var target := Targets(edges, node)[k];
      var after := indegree[target := indegree[target] - 1];
      && target !in queue
      && Queued(edges, ids, after, if after[target] == 0 then queue + [target] else queue, done, Targets(edges, node)[..k + 1])
  {
    var targets := Targets(edges, node);
    var target := targets[k];
    TargetsOver(edges, ids, node);
    StillWaiting(edges, ids, indegree, queue, done, node, k);
    SettleCounts(edges, ids, indegree, done, targets, k);
    if indegree[target] == 1 { TopologicalSnoc(edges, queue, done + [node], target); }
    DistinctSnoc(queue, target);
    hide Distinct;
    hide Topological;
    hide Waiting;
    hide Count;
    hide Targets;
    hide Over;
  }

  lemma DistinctSnoc(s: seq<string>, x: string)
    requires Distinct(s) && x !in s
    ensures Distinct(s + [x])
  {
  }

  /** The in-degrees go on counting what is waiting. */
  lemma SettleCounts(edges: seq<Edge>, ids: set<string>, indegree: map<string, int>, done: seq<string>, targets: seq<string>, k: nat)
    requires k < |targets| && targets[k] in ids && indegree.Keys == ids
    requires forall id :: id in ids ==> indegree[id] == Waiting(edges, done, id) - Count(targets[..k], id)
    ensures var after := indegree[targets[k] := indegree[targets[k]] - 1];
      forall id :: id in ids ==> after[id] == Waiting(edges, done, id) - Count(targets[..k + 1], id)
  {
    assert targets[..k + 1] == targets[..k] + [targets[k]];
    forall id | id in ids ensures Count(targets[..k + 1], id) == Count(targets[..k], id) + if id == targets[k] then 1 else 0 {
      CountSnoc(targets[..k], targets[k], id);
    }
    hide Waiting;
    hide Count;
  }

  /** A target has an edge waiting before it is settled; if it was the last one, all its
      predecessors have been settled. */
  lemma StillWaiting(edges: seq<Edge>, ids: set<string>, indegree: map<string, int>, queue: seq<string>,
                     done: seq<string>, node: string, k: nat)
    requires node !in done && k < |Targets(edges, node)|
    requires Queued(edges, ids, indegree, queue, done, Targets(edges, node)[..k])
    ensures var target := Targets(edges, node)[k];
      && target in ids && indegree[target] >= 1
      && (indegree[target] == 1 ==>
            forall i :: 0 <= i < |edges| && edges[i].target == target ==> edges[i].source in done + [node])
  {
    var targets := Targets(edges, node);
    TargetsOver(edges, ids, node);
    WaitingTaken(edges, done, node, targets[k]);
    CountPrefix(targets, k, targets[k]);
    CountPrefix(targets, k + 1, targets[k]);
    if indegree[targets[k]] == 1 {
      CountSnoc(targets[..k], targets[k], targets[k]);
      assert targets[..k + 1] == targets[..k] + [targets[k]];
      NothingWaiting(edges, done + [node], targets[k]);
    }
    hide Topological;
    hide Targets;
    hide Waiting;
    hide Count;
  }

  /** A node may join the queue when all its predecessors have been settled. */
  lemma TopologicalSnoc(edges: seq<Edge>, queue: seq<string>, settled: seq<string>, target: string)
    requires Topological(edges, queue) && settled <= queue
    requires forall i :: 0 <= i < |edges| && edges[i].target == target ==> edges[i].source in settled
    ensures Topological(edges, queue + [target])
  {
    var longer := queue + [target];
    forall j, i | 0 <= j < |longer| && 0 <= i < |edges| && edges[i].target == longer[j]
      ensures edges[i].source in longer[..j]
    {
      if j < |queue| {
        assert longer[..j] == queue[..j] && longer[j] == queue[j];
      } else {
        assert longer[..j] == queue && edges[i].source in settled;
      }
    }
  }

  /** When all edges of the node are settled, the node itself is. */
  lemma Taken(edges: seq<Edge>, ids: set<string>, indegree: map<string, int>, queue: seq<string>, done: seq<string>, node: string)
    requires node !in done && Queued(edges, ids, indegree, queue, done, Targets(edges, node))
    ensures Queued(edges, ids, indegree, queue, done + [node], [])
  {
    forall id | id in ids ensures indegree[id] == Waiting(edges, done + [node], id) - Count([], id) {
      WaitingTaken(edges, done, node, id);
    }
  }

  lemma {:induction false} DistinctFits(s: seq<string>, all: set<string>)
    requires Distinct(s) && forall id :: id in s ==> id in all
    ensures |s| <= |all|
    ensures |s| == |all| <==> forall id :: id in all ==> id in s
  {
    if s == [] {
      assert |all| == 0 <==> all == {};
    } else {
      var n := |s| - 1;
      assert s[n] in all && forall id :: id in s[..n] ==> id != s[n] && id in all;
      DistinctFits(s[..n], all - {s[n]});
      assert forall id :: id in s <==> id in s[..n] || id == s[n];
    }
  }

  /** An exhausted queue decides the question. */
  lemma Exhausted(edges: seq<Edge>, ids: set<string>, indegree: map<string, int>, queue: seq<string>)
    requires Queued(edges, ids, indegree, queue, queue, [])
    ensures |queue| == |ids| <==> !Cyclic(edges)
    ensures |queue| == |ids| ==> forall id :: id in ids ==> id in queue
  {
    DistinctFits(queue, ids);
    if |queue| == |ids| {
      OrderedIsAcyclic(edges, ids, queue);
    } else {
      var rest := set id | id in ids && id !in queue;
      assert rest != {} by {
        if rest == {} {
          forall id | id in ids ensures id in queue { assert id !in rest; }
          assert false;
        }
      }
      forall id | id in rest ensures exists i :: Feeds(edges, rest, i, id) {
        NothingWaiting(edges, queue, id);
        var i :| 0 <= i < |edges| && edges[i].target == id && edges[i].source !in queue;
        assert Feeds(edges, rest, i, id);
      }
      FedIsCyclic(edges, rest);
    }
  }

  /** The start of the queue: the nodes that no edge enters. */
  lemma RootsQueued(edges: seq<Edge>, ids: set<string>, degrees: map<string, int>, roots: seq<string>)
    requires Over(edges, ids) && degrees.Keys == ids && Distinct(roots)
    requires forall id :: id in ids ==> degrees[id] == Waiting(edges, [], id)
    requires forall id :: id in roots <==> id in ids && degrees[id] == 0
    ensures Queued(edges, ids, degrees, roots, [], [])
  {
    assert forall j :: 0 <= j < |roots| ==> roots[j] in roots;
    forall j, i | 0 <= j < |roots| && 0 <= i < |edges| && edges[i].target == roots[j] ensures false {
      NothingWaiting(edges, [], roots[j]);
    }
  }

  lemma QueuedFits(edges: seq<Edge>, ids: set<string>, indegree: map<string, int>, queue: seq<string>, done: seq<string>, now: seq<string>)
    requires Queued(edges, ids, indegree, queue, done, now)
    ensures |queue| <= |ids| && Distinct(queue) && indegree.Keys == ids && Topological(edges, queue)
    ensures forall id :: id in queue ==> id in ids
  {
    DistinctFits(queue, ids);
  }

  /** The inner loop: all edges of one node are settled. */
  method SettleAll(ghost ids: set<string>, ghost edges: seq<Edge>, degrees: map<string, int>,
                   node: string, targets: seq<string>, queue: seq<string>, ghost done: seq<string>)
    returns (indegree: map<string, int>, order: seq<string>)
    requires Queued(edges, ids, degrees, queue, done, []) && targets == Targets(edges, node)
    requires node !in done && done + [node] <= queue
    ensures queue <= order && Queued(edges, ids, indegree, order, done + [node], [])
  {
    indegree, order := degrees, queue;
    hide Queued;
    var k := 0;
    while k < |targets|
      invariant k <= |targets| && queue <= order && done + [node] <= order
      invariant Queued(edges, ids, indegree, order, done, targets[..k])
    {
      Settle(edges, ids, indegree, order, done, node, k);
      var target := targets[k];
      indegree := indegree[target := indegree[target] - 1];
      if indegree[target] == 0 { order := order + [target]; }
      k := k + 1;
    }
    assert targets[..k] == targets;
    Taken(edges, ids, indegree, order, done, node);
  }

  lemma NextIsNew(order: seq<string>, done: seq<string>)
    requires Distinct(order) && done < order
    ensures order[|done|] in order && order[|done|] !in done
    ensures done + [order[|done|]] <= order
  {
  }

  ghost predicate Adjacent(edges: seq<Edge>, ids: set<string>, outgoing: map<string, seq<string>>) {
    outgoing.Keys == ids && forall id :: id in ids ==> outgoing[id] == Targets(edges, id)
  }

  lemma AdjacentAt(edges: seq<Edge>, ids: set<string>, outgoing: map<string, seq<string>>, node: string)
    requires Adjacent(edges, ids, outgoing) && node in ids
    ensures node in outgoing && outgoing[node] == Targets(edges, node)
  {
  }

  /** The outer loop. */
  method TakeAll(ghost ids: set<string>, ghost edges: seq<Edge>, degrees: map<string, int>,
                 outgoing: map<string, seq<string>>, roots: seq<string>)
    returns (visited: nat, order: seq<string>, ghost indegree: map<string, int>)
    requires Adjacent(edges, ids, outgoing) && Queued(edges, ids, degrees, roots, [], [])
    ensures visited == |order| && Queued(edges, ids, indegree, order, order, [])
  {
    var table, cursor := degrees, 0;
    order, visited := roots, 0;
    hide Queued;
    hide Adjacent;
    hide Topological;
    hide Distinct;
    hide Targets;
    ghost var done := [];
    QueuedFits(edges, ids, table, order, done, []);
    while cursor < |order|
      invariant visited == cursor == |done| <= |order| <= |ids| && done <= order
      invariant Queued(edges, ids, table, order, done, [])
      decreases |ids| - cursor
    {
      QueuedFits(edges, ids, table, order, done, []);
      var node := order[cursor];
      NextIsNew(order, done);
      AdjacentAt(edges, ids, outgoing, node);
      cursor := cursor + 1;
      visited := visited + 1;
      table, order := SettleAll(ids, edges, table, node, outgoing[node], order, done);
      done := done + [node];
      QueuedFits(edges, ids, table, order, done, []);
    }
    assert done == order;
    indegree := table;
  }

  /** The loops of the graph check. `roots` are the nodes that no edge enters. */
  method Consume(ghost ids: set<string>, ghost edges: seq<Edge>, degrees: map<string, int>,
                 outgoing: map<string, seq<string>>, roots: seq<string>)
    returns (visited: nat, order: seq<string>)
    requires Over(edges, ids) && degrees.Keys == outgoing.Keys == ids
    requires forall id :: id in ids ==> degrees[id] == Waiting(edges, [], id) && outgoing[id] == Targets(edges, id)
    requires Distinct(roots) && forall id :: id in roots <==> id in ids && degrees[id] == 0
    ensures visited == |ids| <==> !Cyclic(edges)
    ensures visited == |ids| ==> Topological(edges, order) && Distinct(order) && forall id :: id in order <==> id in ids
  {
    RootsQueued(edges, ids, degrees, roots);
    hide Queued;
    hide Cyclic;
    hide Topological;
    hide Distinct;
    ghost var indegree;
    visited, order, indegree := TakeAll(ids, edges, degrees, outgoing, roots);
    QueuedFits(edges, ids, indegree, order, order, []);
    Exhausted(edges, ids, indegree, order);
  }
}
