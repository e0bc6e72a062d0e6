/** `_TreeBuffers` and `BoundedPUCTSearch.search` of `cogni_core/search.py`: the
    tree arrays are written in place, one simulation after the other. */
module TreeSearch {
  import opened SearchTree
  import opened AncestorRing

  class TreeBuffers {
    const width: nat
    const capacity: nat
    var count: nat
    const parents: array<int>
    const depths: array<nat>
    const children: array<seq<int>>
    const expanded: array<bool>
    const visits: array<seq<nat>>
    const sums: array<seq<real>>
    const nodeVisits: array<nat>
    const pathNodes: array<int>
    const pathActions: array<int>

    ghost predicate Allocated() {
      && width >= 1 && capacity >= 1 + width
      && parents.Length == depths.Length == children.Length == expanded.Length == capacity
      && visits.Length == sums.Length == nodeVisits.Length == capacity
      && pathNodes.Length == pathActions.Length == capacity
      && parents != pathNodes && parents != pathActions && pathNodes != pathActions
      && depths != nodeVisits
      && (depths as object) != parents && (nodeVisits as object) != parents
      && (depths as object) != pathNodes && (depths as object) != pathActions
      && (nodeVisits as object) != pathNodes && (nodeVisits as object) != pathActions
    }

    ghost function Form(): Shape
      reads this, parents, depths, children, expanded
    {
      Shape(width, capacity, count, parents[..], depths[..], children[..], expanded[..])
    }

    ghost function Tally(): Stats
      reads visits, sums, nodeVisits
    {
      Stats(visits[..], sums[..], nodeVisits[..])
    }

    constructor (width: nat, capacity: nat)
      requires width >= 1 && capacity >= 1 + width
      ensures Allocated() && this.width == width && this.capacity == capacity && count == 1
      ensures Form() == Root(width, capacity) && Tally() == NoStats(width, capacity)
      ensures fresh(parents) && fresh(depths) && fresh(children) && fresh(expanded)
      ensures fresh(visits) && fresh(sums) && fresh(nodeVisits) && fresh(pathNodes) && fresh(pathActions)
    {
      this.width, this.capacity, count := width, capacity, 1;
      parents := new int[capacity](_ => -1);
      depths := new nat[capacity](_ => 0);
      children := new seq<int>[capacity](_ => seq(width, _ => -1));
      expanded := new bool[capacity](_ => false);
      visits := new seq<nat>[capacity](_ => seq(width, _ => 0));
      sums := new seq<real>[capacity](_ => seq(width, _ => 0.0));
      nodeVisits := new nat[capacity](_ => 0);
      pathNodes := new int[capacity](_ => -1);
      pathActions := new int[capacity](_ => -1);
      new;
      assert parents[..] == Root(width, capacity).parents && depths[..] == Root(width, capacity).depths;
      assert children[..] == Root(width, capacity).children && expanded[..] == Root(width, capacity).expanded;
      assert visits[..] == NoStats(width, capacity).visits && sums[..] == NoStats(width, capacity).sums;
      assert nodeVisits[..] == NoStats(width, capacity).nodeVisits;
    }

    predicate CanExpand()
      reads this
    {
      count + width <= capacity
    }

    /** `add_children`, without the flag that the caller sets. */
    method AddChildren(parent: nat) returns (ok: bool, start: nat, stop: nat)
      requires Allocated() && Sized(Form()) && parent < count
      modifies this, parents, depths, children
      ensures ok == old(CanExpand())
      ensures !ok ==> Form() == old(Form())
      ensures ok ==> start == old(count) && stop == count == start + width
      ensures ok ==> Form() == Expand(old(Form()), parent).(expanded := old(expanded[..]))
    {
      if !CanExpand() { return false, 0, 0; }
      ok, start, stop := true, count, count + width;
      var depth := depths[parent];
      forall c | start <= c < stop { parents[c] := parent; }
      forall c | start <= c < stop { depths[c] := depth + 1; }
      children[parent] := seq(width, a => start + a);
      count := stop;
    }

    /** One step of the selection walk, with the two checks of the source. */
    method Descend(node: nat, length: nat, ghost path: seq<nat>, ghost actions: seq<nat>)
      returns (ok: bool, child: int, ghost action: nat)
      requires Allocated() && Walked(Form(), path, actions) && length == |path| == |actions| + 1
      requires node == path[length - 1] < count <= capacity && expanded[node] && Traced(path, actions)
      modifies pathNodes, pathActions
      ensures ok && length < capacity && node < child < count
      ensures Walked(Form(), path + [child], actions + [action]) && Traced(path + [child], actions + [action])
    {
      var choice: nat :| choice < width;  // arg-max of the scores
      action := choice;
      WalkOn(Form(), path, actions, action);
      hide Walked;
      hide Grown;
      child := children[node][choice];
      if child < 0 || length >= capacity { return false, child, action; }
      pathActions[length - 1] := choice;
      pathNodes[length] := child;
      ok := true;
    }

    /** The selection walk. `ok` is false where the source raises; that never happens. */
    method Select(maxDepth: nat) returns (ok: bool, length: nat, node: nat, ghost path: seq<nat>, ghost actions: seq<nat>)
      requires Allocated() && Grown(Form())
      modifies pathNodes, pathActions
      ensures ok && length == |path| <= capacity && Walked(Form(), path, actions) && node == path[length - 1] < count
      ensures !(expanded[node] && depths[node] < maxDepth)
      ensures Traced(path, actions)
    {
      length, node, path, actions := 1, 0, [0], [];
      pathNodes[0] := 0;
      ghost var s := Form();
      WalkStarts(s);
      assert node < count <= capacity;
      assert Traced(path, actions);
      hide Grown;
      hide Walked;
      hide Traced;
      ok := true;
      while expanded[node] && depths[node] < maxDepth
        invariant ok && Form() == s && Walked(s, path, actions) && Traced(path, actions)
        invariant 1 <= length == |path| == |actions| + 1 <= capacity && node == path[length - 1] < count <= capacity
        decreases capacity - node
      {
        var child;
        ghost var action;
        ok, child, action := Descend(node, length, path, actions);
        if !ok { return; }
        path, actions := path + [child], actions + [action];
        length, node := length + 1, child;
      }
    }

    /** The scratch arrays hold the path. */
    ghost predicate Traced(path: seq<nat>, actions: seq<nat>)
      reads pathNodes, pathActions
    {
      && |path| <= pathNodes.Length && |actions| <= pathActions.Length
      && (forall i :: 0 <= i < |path| ==> pathNodes[i] == path[i])
      && (forall i :: 0 <= i < |actions| ==> pathActions[i] == actions[i])
    }

    /** First loop of the backup: every node of the path counts one visit. */
    method CountVisits(length: nat, ghost path: seq<nat>, ghost actions: seq<nat>)
      requires Allocated() && Walked(Form(), path, actions) && length == |path| && Traced(path, actions)
      modifies nodeVisits
      ensures Tally() == Touch(old(Tally()), path)
    {
      ghost var before := nodeVisits[..];
      var position := 0;
      while position < length
        invariant position <= length && Traced(path, actions)
        invariant forall n :: 0 <= n < capacity ==> nodeVisits[n] == before[n] + if n in path[..position] then 1 else 0
      {
        WalkRises(Form(), path, actions, position);
        WalkFresh(Form(), path, actions, position);
        assert path[..position + 1] == path[..position] + [path[position]];
        var n := pathNodes[position];
        nodeVisits[n] := nodeVisits[n] + 1;
        position := position + 1;
      }
      assert path[..length] == path;
      assert nodeVisits[..] == Touch(old(Tally()), path).nodeVisits;
    }

    method CreditEdge(parent: nat, action: nat, value: real)
      requires Allocated() && parent < capacity && action < |visits[parent]| && action < |sums[parent]|
      modifies visits, sums
      ensures Tally() == Credit(old(Tally()), parent, action, value)
    {
      visits[parent] := visits[parent][action := visits[parent][action] + 1];
      sums[parent] := sums[parent][action := sums[parent][action] + value];
    }

    /** Second loop of the backup: every edge is credited, from the leaf up. */
    method CreditEdges(length: nat, value: real, discount: real, ghost path: seq<nat>, ghost actions: seq<nat>, ghost evaluated: seq<seq<real>>)
      returns (ghost owed: real)
      requires Allocated() && length == |path| == |actions| + 1 && Traced(path, actions)
      requires Owing(Form(), Tally(), evaluated, discount, path, actions, length - 1, value)
      modifies visits, sums
      ensures nodeVisits[..] == old(nodeVisits[..])
      ensures Owing(Form(), Tally(), evaluated, discount, path, actions, 0, owed)
    {
      var backed := value;
      var position := length - 1;
      ghost var s := Form();
      hide Owing;
      while position > 0
        invariant 0 <= position < length && Traced(path, actions) && Form() == s
        invariant nodeVisits[..] == old(nodeVisits[..])
        invariant Owing(s, Tally(), evaluated, discount, path, actions, position, backed)
      {
        OwingStep(s, Tally(), evaluated, discount, path, actions, position, backed);
        position := position - 1;
        CreditEdge(pathNodes[position], pathActions[position], backed);
        backed := backed * discount;
      }
      owed := backed;
    }
  }

  datatype Config = Config(width: nat, maxDepth: nat, maxNodes: nat, simulations: nat, discount: real, ancestorK: nat, ancestorCapacity: nat)

  /** The range checks of `PUCTConfig`; an `ancestorCapacity` of 0 stands for none given. */
  predicate ValidConfig(c: Config) {
    && c.width >= 1 && c.maxDepth >= 1 && c.maxNodes >= 1 + c.width && c.simulations >= 1
    && 0.0 <= c.discount <= 1.0 && c.ancestorCapacity <= c.maxNodes
    && c.ancestorK <= (if c.ancestorCapacity == 0 then c.maxNodes else c.ancestorCapacity)
  }

  /** How one simulation ends. `Diverged` stands for the four errors that the source
      guards against inside the loop; `Interrupted` for an exception of a callback. */
  datatype Step = Grew | Rolled(exhausted: bool) | Interrupted | Diverged

  /** A callback of the search was called, and raised or returned. */
  datatype Call = Policy(raised: bool) | Transition(raised: bool)

  ghost predicate Clean(calls: seq<Call>) {
    forall i :: 0 <= i < |calls| ==> !calls[i].raised
  }

  /** What a step adds to the calls: nothing is called after one has raised, and the
      step is interrupted exactly if one has; else the policy was called once, and the
      transition if the leaf was expanded. */
  ghost predicate Called(before: seq<Call>, after: seq<Call>, step: Step) {
    && before <= after
    && (Clean(before) ==> (step.Interrupted? <==> !Clean(after)))
    && (!step.Interrupted? ==> |after| == |before| + if step.Grew? then 2 else 1)
  }

  lemma CalledIs(before: seq<Call>, after: seq<Call>, raised: bool, step: Step)
    requires if raised then step.Interrupted? && after == before + [Policy(true)] else after == before + [Policy(false)] + CallsOf(step)
    ensures Called(before, after, step)
  {
    if step.Interrupted? {
      assert after[|after| - 1].raised;
    } else {
      assert forall i :: |before| <= i < |after| ==> !after[i].raised;
    }
  }

  /** The calls of the extension that ended with this step. */
  ghost function CallsOf(step: Step): seq<Call> {
    match step case Interrupted => [Transition(true)] case Grew => [Transition(false)] case _ => []
  }

  class BoundedPUCTSearch {
    const config: Config

    constructor (config: Config)
      requires ValidConfig(config)
      ensures this.config == config
    {
      this.config := config;
    }

    /** The policy may raise. */
    method AskPolicy(ghost calls: seq<Call>) returns (raised: bool, ghost called: seq<Call>)
      ensures called == calls + [Policy(raised)]
    {
      raised := *;
      called := calls + [Policy(raised)];
    }

    /** The transition may raise. */
    method AskTransition(ghost calls: seq<Call>) returns (raised: bool, ghost called: seq<Call>)
      ensures called == calls + [Transition(raised)]
    {
      raised := *;
      called := calls + [Transition(raised)];
    }

    /** The new nodes enter the ring under their own node indices. */
    method Enroll(ring: SemanticAncestorRetriever, parent: nat, start: nat, stop: nat) returns (ok: bool)
      requires ring.Valid() && |ring.log| == start <= stop && parent < start
      modifies ring, ring.handles, ring.parents, ring.stateIndices
      ensures ok && ring.Valid() && old(ring.log) <= ring.log && old(ring.rows) <= ring.rows && |ring.log| == |ring.rows| == stop
      ensures forall c :: start <= c < stop ==> ring.log[c] == parent && ring.rows[c] == c
    {
      var child := start;
      while child < stop
        invariant start <= child <= stop && ring.Valid() && |ring.log| == |ring.rows| == child
        invariant old(ring.log) <= ring.log && old(ring.rows) <= ring.rows
        invariant forall c :: start <= c < child ==> ring.log[c] == parent && ring.rows[c] == c
      {
        var added := ring.Add(parent, child);
        if added != Handle(child) { return false; }
        child := child + 1;
      }
      ok := true;
    }

    /** The ring's arrays and the tree's arrays are different arrays. */
    ghost predicate Apart(tree: TreeBuffers, ring: SemanticAncestorRetriever) {
      && ring.handles != tree.parents && ring.parents != tree.parents && ring.stateIndices != tree.parents
      && ring.handles != tree.pathNodes && ring.parents != tree.pathNodes && ring.stateIndices != tree.pathNodes
      && ring.handles != tree.pathActions && ring.parents != tree.pathActions && ring.stateIndices != tree.pathActions
      && ring.candidateSlots != tree.parents && ring.candidateSlots != tree.pathNodes && ring.candidateSlots != tree.pathActions
      && ring.candidateValid != tree.expanded
    }

    /** If there is a ring, its handles are the nodes of the tree. */
    ghost predicate Tied(tree: TreeBuffers, ring: SemanticAncestorRetriever?)
      reads tree, tree.parents, tree.depths, tree.children, tree.expanded
      reads ring, if ring == null then {} else {ring.handles, ring.parents, ring.stateIndices}
    {
      ring != null ==> ring.Valid() && Apart(tree, ring) && Mirrors(ring.log, ring.rows, tree.Form())
    }

    /** `retrieve` for the leaf of a walk: its candidates are the nodes of the path
        above it that are still resident, nearest first. */
    method Consult(tree: TreeBuffers, ring: SemanticAncestorRetriever, node: nat, ghost path: seq<nat>, ghost actions: seq<nat>)
      returns (count: nat)
      requires Tied(tree, ring) && Walked(tree.Form(), path, actions) && node == path[|path| - 1]
      modifies ring.candidateSlots, ring.candidateValid
      ensures tree.Form() == old(tree.Form()) && Tied(tree, ring)
      ensures var above := AncestorRing.Kept(Reversed(path[..|path| - 1]), tree.count, ring.capacity);
        count <= ring.capacity && (Resident(tree.count, ring.capacity, node) ==> count == |above| && ring.Holds(above, count))
      ensures !Resident(tree.count, ring.capacity, node) ==> count == 0
    {
      AncestorsArePath(ring.log, ring.rows, tree.Form(), path, actions, |path| - 1);
      count := ring.Walk(node);
    }

    /** A full-width expansion of the leaf, in the tree and in the ring. */
    method Grow(tree: TreeBuffers, ring: SemanticAncestorRetriever?, node: nat, ghost path: seq<nat>, ghost actions: seq<nat>)
      returns (ok: bool)
      requires tree.Traced(path, actions)
      requires tree.Allocated() && Grown(tree.Form()) && tree.CanExpand() && Tied(tree, ring)
      requires node < tree.count && !tree.expanded[node]
      modifies tree, tree.parents, tree.depths, tree.children, tree.expanded
      modifies if ring == null then {} else {ring, ring.handles, ring.parents, ring.stateIndices}
      ensures ok && tree.Form() == Expand(old(tree.Form()), node) && Tied(tree, ring)
      ensures tree.Tally() == old(tree.Tally()) && tree.Traced(path, actions)
    {
      ghost var s := tree.Form();
      ghost var log, rows := if ring == null then [] else ring.log, if ring == null then [] else ring.rows;
      assert Sized(s);
      hide Grown;
      hide Mirrors;
      var start, stop;
      ok, start, stop := GrowTree(tree, node, path, actions);
      if ring != null {
        MirrorsSize(log, rows, s);
        ok := Enroll(ring, node, start, stop);
        ExpandMirrors(log, rows, s, node, ring.log, ring.rows);
      }
    }

    /** The tree's part of an expansion. */
    method GrowTree(tree: TreeBuffers, node: nat, ghost path: seq<nat>, ghost actions: seq<nat>) returns (ok: bool, start: nat, stop: nat)
      requires tree.Allocated() && Sized(tree.Form()) && tree.CanExpand() && tree.Traced(path, actions) && node < tree.count
      modifies tree, tree.parents, tree.depths, tree.children, tree.expanded
      ensures ok && start == old(tree.count) && stop == tree.count == start + tree.width
      ensures tree.Form() == Expand(old(tree.Form()), node)
      ensures tree.Tally() == old(tree.Tally()) && tree.Traced(path, actions)
    {
      ok, start, stop := tree.AddChildren(node);
      tree.expanded[node] := true;
    }

    /** The leaf's turn: expand it if depth and capacity allow. */
    method Extend(tree: TreeBuffers, ring: SemanticAncestorRetriever?, node: nat, ghost path: seq<nat>, ghost actions: seq<nat>,
                  ghost calls: seq<Call>)
      returns (step: Step, ghost called: seq<Call>)
      requires tree.Traced(path, actions)
      requires tree.Allocated() && Grown(tree.Form()) && Tied(tree, ring)
      requires node < tree.count && !(tree.expanded[node] && tree.depths[node] < config.maxDepth)
      modifies tree, tree.parents, tree.depths, tree.children, tree.expanded
      modifies if ring == null then {} else {ring, ring.handles, ring.parents, ring.stateIndices}
      ensures step != Diverged && Tied(tree, ring) && tree.Tally() == old(tree.Tally()) && tree.Traced(path, actions)
      ensures step.Interrupted? ==> tree.Form() == old(tree.Form())
      ensures !step.Interrupted? && !old(tree.expanded[node]) ==> tree.Form() == Next(old(tree.Form()), node, config.maxDepth)
      ensures step.Grew? <==> tree.count == old(tree.count) + tree.width
      ensures !step.Grew? ==> tree.count == old(tree.count)
      ensures step == Rolled(true) <==> old(NoRoom(tree.Form(), node))
      ensures called == calls + CallsOf(step)
    {
      assert node < tree.count <= tree.capacity;
      hide Grown;
      hide Tied;
      hide Expand;
      step, called := Rolled(false), calls;
      if !tree.expanded[node] && tree.depths[node] < config.maxDepth {
        if tree.CanExpand() {
          var raised;
          raised, called := AskTransition(calls);
          if raised { return Interrupted, called; }
          var ok := Grow(tree, ring, node, path, actions);
          step := if ok then Grew else Diverged;
        } else {
          step := Rolled(true);
        }
      }
    }

    /** The leaf owes its value to the path; nothing else is out of balance. */
    ghost predicate Owed(s: Shape, st: Stats, after: seq<seq<real>>, path: seq<nat>, actions: seq<nat>, value: real) {
      && Walked(s, path, actions) && Fits(s, st) && Settled(s, after, config.maxDepth)
      && Owing(s, Touch(st, path), after, config.discount, path, actions, |path| - 1, value)
    }

    lemma LeafIsOwed(s: Shape, st: Stats, evaluated: seq<seq<real>>, path: seq<nat>, actions: seq<nat>, node: nat, value: real)
      requires Balanced(s, st, evaluated, config.discount, config.maxDepth) && Walked(s, path, actions)
      requires node == path[|path| - 1] < s.count && !s.expanded[node]
      ensures Owed(Next(s, node, config.maxDepth), st, Evaluate(evaluated, node, value), path, actions, value)
    {
      LeafOwes(s, st, evaluated, config.discount, config.maxDepth, path, actions, value);
      OwingIsWalked(Next(s, node, config.maxDepth), Touch(st, path), Evaluate(evaluated, node, value), config.discount, path, actions, |path| - 1, value);
    }

    /** Both in-place loops of the backup. */
    method BackUp(tree: TreeBuffers, ghost ring: SemanticAncestorRetriever?, length: nat, value: real, ghost path: seq<nat>, ghost actions: seq<nat>, ghost after: seq<seq<real>>)
      requires tree.Allocated() && length == |path| && tree.Traced(path, actions) && Tied(tree, ring)
      requires Owed(tree.Form(), tree.Tally(), after, path, actions, value)
      modifies tree.nodeVisits, tree.visits, tree.sums
      ensures Balanced(tree.Form(), tree.Tally(), after, config.discount, config.maxDepth)
      ensures Tied(tree, ring) && tree.Form() == old(tree.Form())
      ensures tree.nodeVisits[0] == old(tree.nodeVisits[0]) + 1
    {
      assert path[0] == 0 && 0 in path;
      ghost var s := tree.Form();
      tree.CountVisits(length, path, actions);
      assert tree.nodeVisits[0] == old(tree.nodeVisits[0]) + 1;
      hide Owing;
      hide Balanced;
      hide Walked;
      ghost var owed;
      ghost var counted := tree.nodeVisits[..];
      owed := tree.CreditEdges(length, value, config.discount, path, actions, after);
      assert tree.nodeVisits[0] == counted[0];
      OwingNothing(s, tree.Tally(), after, config.discount, config.maxDepth, path, actions, owed);
    }

    /** Selection and the query for ancestors. */
    method Arrive(tree: TreeBuffers, ring: SemanticAncestorRetriever?)
      returns (ok: bool, queried: bool, length: nat, node: nat, ghost path: seq<nat>, ghost actions: seq<nat>)
      requires tree.Allocated() && Tied(tree, ring) && Grown(tree.Form())
      modifies tree.pathNodes, tree.pathActions
      modifies if ring == null then {} else {ring.candidateSlots, ring.candidateValid}
      ensures ok && tree.Form() == old(tree.Form()) && tree.Tally() == old(tree.Tally()) && Tied(tree, ring)
      ensures Walked(tree.Form(), path, actions) && length == |path| && tree.Traced(path, actions)
      ensures node == path[length - 1] < tree.count <= tree.capacity
      ensures !(tree.expanded[node] && tree.depths[node] < config.maxDepth)
      ensures queried == (ring != null && tree.depths[node] > 0)
    {
      queried := false;
      ok, length, node, path, actions := tree.Select(config.maxDepth);
      if !ok { return; }
      assert node < tree.count <= tree.capacity;
      hide Grown;
      hide Walked;
      if ring != null && tree.depths[node] > 0 {
        queried := true;
        var _ := Consult(tree, ring, node, path, actions);
      }
    }

    /** The step is a starved one exactly if it made the search an exhausted one. */
    ghost predicate Spent(s: Shape, evaluated: seq<seq<real>>, t: Shape, after: seq<seq<real>>, step: Step) {
      Exhausted(t, after, config.maxDepth) <==> Exhausted(s, evaluated, config.maxDepth) || step == Rolled(true)
    }

    /** The leaf could be expanded if there were room. */
    ghost predicate NoRoom(s: Shape, node: nat) {
      && node < |s.expanded| && node < |s.depths|
      && !s.expanded[node] && s.depths[node] < config.maxDepth && s.count + s.width > s.capacity
    }

    lemma LeafSpends(s: Shape, st: Stats, evaluated: seq<seq<real>>, node: nat, value: real, step: Step)
      requires Balanced(s, st, evaluated, config.discount, config.maxDepth) && node < s.count && !s.expanded[node]
      requires step == Rolled(true) <==> NoRoom(s, node)
      ensures Spent(s, evaluated, Next(s, node, config.maxDepth), Evaluate(evaluated, node, value), step)
    {
      ExhaustedNext(s, evaluated, config.maxDepth, node, value);
    }

    /** Evaluation and extension at the end of a walk. */
    method Develop(tree: TreeBuffers, ring: SemanticAncestorRetriever?, node: nat,
                   ghost path: seq<nat>, ghost actions: seq<nat>, ghost evaluated: seq<seq<real>>, ghost calls: seq<Call>)
      returns (step: Step, value: real, ghost called: seq<Call>)
      requires tree.Allocated() && Tied(tree, ring) && tree.Traced(path, actions)
      requires Balanced(tree.Form(), tree.Tally(), evaluated, config.discount, config.maxDepth)
      requires Walked(tree.Form(), path, actions) && node == path[|path| - 1] < tree.count <= tree.capacity
      requires !(tree.expanded[node] && tree.depths[node] < config.maxDepth)
      modifies tree, tree.parents, tree.depths, tree.children, tree.expanded
      modifies if ring == null then {} else {ring, ring.handles, ring.parents, ring.stateIndices}
      ensures step != Diverged && Tied(tree, ring) && tree.Tally() == old(tree.Tally()) && tree.Traced(path, actions)
      ensures node < |evaluated|
      ensures !step.Interrupted? ==> Owed(tree.Form(), tree.Tally(), Evaluate(evaluated, node, value), path, actions, value)
      ensures step.Grew? ==> tree.count == old(tree.count) + tree.width
      ensures step.Rolled? ==> tree.count == old(tree.count)
      ensures !step.Interrupted? ==> Spent(old(tree.Form()), evaluated, tree.Form(), Evaluate(evaluated, node, value), step)
      ensures Called(calls, called, step)
    {
      ghost var s, st := tree.Form(), tree.Tally();
      value := *;
      BalancedIsGrown(s, st, evaluated, config.discount, config.maxDepth);
      LeafIsOpen(s, st, evaluated, config.discount, config.maxDepth, node);
      LeafIsOwed(s, st, evaluated, path, actions, node, value);
      hide Balanced;
      hide Owed;
      hide Spent;
      hide NoRoom;
      hide Called;
      hide Evaluate;
      hide Grown;
      hide Walked;
      hide Tied;
      hide Owing;
      hide Settled;
      hide Next;
      var raised;
      raised, called := AskPolicy(calls);
      if raised {
        CalledIs(calls, called, raised, Interrupted);
        return Interrupted, value, called;
      }
      step, called := Extend(tree, ring, node, path, actions, called);
      CalledIs(calls, called, raised, step);
      if !step.Interrupted? { LeafSpends(s, st, evaluated, node, value, step); }
    }

    /** The turn of the leaf, and the backup of its value. */
    method Finish(tree: TreeBuffers, ring: SemanticAncestorRetriever?, length: nat, node: nat,
                  ghost path: seq<nat>, ghost actions: seq<nat>, ghost evaluated: seq<seq<real>>, ghost calls: seq<Call>)
      returns (step: Step, ghost value: real, ghost called: seq<Call>)
      requires tree.Allocated() && Tied(tree, ring) && tree.Traced(path, actions) && length == |path|
      requires Balanced(tree.Form(), tree.Tally(), evaluated, config.discount, config.maxDepth)
      requires Walked(tree.Form(), path, actions) && node == path[length - 1] < tree.count <= tree.capacity
      requires !(tree.expanded[node] && tree.depths[node] < config.maxDepth)
      modifies tree, tree.parents, tree.depths, tree.children, tree.expanded, tree.visits, tree.sums, tree.nodeVisits
      modifies if ring == null then {} else {ring, ring.handles, ring.parents, ring.stateIndices}
      ensures step != Diverged && node < |evaluated| && Tied(tree, ring)
      ensures !step.Interrupted? ==> Balanced(tree.Form(), tree.Tally(), Evaluate(evaluated, node, value), config.discount, config.maxDepth)
      ensures !step.Interrupted? ==> tree.nodeVisits[0] == old(tree.nodeVisits[0]) + 1
      ensures step.Grew? ==> tree.count == old(tree.count) + tree.width
      ensures step.Rolled? ==> tree.count == old(tree.count)
      ensures !step.Interrupted? ==> Spent(old(tree.Form()), evaluated, tree.Form(), Evaluate(evaluated, node, value), step)
      ensures Called(calls, called, step)
    {
      hide Balanced;
      hide Grown;
      hide Walked;
      hide Tied;
      hide Owed;
      hide Spent;
      hide Called;
      hide Evaluate;
      var leafValue;
      step, leafValue, called := Develop(tree, ring, node, path, actions, evaluated, calls);
      value := leafValue;
      if step.Interrupted? { return; }
      BackUp(tree, ring, length, leafValue, path, actions, Evaluate(evaluated, node, value));
    }

    /** One simulation: select, consult the ancestors, evaluate, extend, back up. */
    method Simulate(tree: TreeBuffers, ring: SemanticAncestorRetriever?, ghost evaluated: seq<seq<real>>, ghost calls: seq<Call>)
      returns (step: Step, queried: bool, ghost node: nat, ghost value: real, ghost after: seq<seq<real>>, ghost called: seq<Call>)
      requires tree.Allocated() && Tied(tree, ring)
      requires Balanced(tree.Form(), tree.Tally(), evaluated, config.discount, config.maxDepth)
      requires config.maxDepth >= 1 && 1 + tree.width <= tree.capacity
      modifies tree, tree.parents, tree.depths, tree.children, tree.expanded
      modifies tree.visits, tree.sums, tree.nodeVisits, tree.pathNodes, tree.pathActions
      modifies if ring == null then {} else {ring, ring.handles, ring.parents, ring.stateIndices, ring.candidateSlots, ring.candidateValid}
      ensures step != Diverged
      ensures !step.Interrupted? ==> Tied(tree, ring)
      ensures !step.Interrupted? ==> Balanced(tree.Form(), tree.Tally(), after, config.discount, config.maxDepth)
      ensures !step.Interrupted? ==> tree.nodeVisits[0] == old(tree.nodeVisits[0]) + 1
      ensures !step.Interrupted? ==> node < |evaluated| && after == Evaluate(evaluated, node, value)
      ensures step.Grew? ==> tree.count == old(tree.count) + tree.width
      ensures step.Rolled? ==> tree.count == old(tree.count)
      ensures !step.Interrupted? ==> Spent(old(tree.Form()), evaluated, tree.Form(), after, step)
      ensures Called(calls, called, step)
      ensures queried == (ring != null && old(tree.nodeVisits[0]) > 0)
    {
      after, called := evaluated, calls;
      ghost var s, st := tree.Form(), tree.Tally();
      BalancedIsGrown(s, st, evaluated, config.discount, config.maxDepth);
      assert st.nodeVisits[0] == tree.nodeVisits[0];
      hide Balanced;
      hide Grown;
      hide Walked;
      hide Tied;
      hide Spent;
      hide Called;
      hide Evaluate;
      var ok, length, leaf;
      ghost var path, actions;
      ok, queried, length, leaf, path, actions := Arrive(tree, ring);
      node, value := leaf, 0.0;
      if !ok { return Diverged, queried, node, value, after, called; }
      LeafIsOpen(s, st, evaluated, config.discount, config.maxDepth, leaf);
      LeavesRoot(s, st, evaluated, config.discount, config.maxDepth, path, actions);
      step, value, called := Finish(tree, ring, length, leaf, path, actions, evaluated, calls);
      if !step.Interrupted? { after := Evaluate(evaluated, leaf, value); }
    }

    /** The telemetry counts what was done: every simulation, expansion and call. */
    ghost predicate Booked(s: Shape, rootVisits: nat, evaluated: seq<seq<real>>, calls: seq<Call>, tally: Telemetry, ancestors: bool) {
      && rootVisits == tally.simulations == tally.expansions + tally.frontier
      && s.count == 1 + config.width * tally.expansions
      && (tally.exhausted <==> Exhausted(s, evaluated, config.maxDepth))
      && tally.queries == (if ancestors && tally.simulations > 0 then tally.simulations - 1 else 0)
      && Clean(calls) && |calls| == tally.simulations + tally.expansions
    }

    lemma BookedNext(s: Shape, t: Shape, rootVisits: nat, evaluated: seq<seq<real>>, after: seq<seq<real>>, calls: seq<Call>, called: seq<Call>,
                     tally: Telemetry, ancestors: bool, step: Step, queried: bool)
      requires Booked(s, rootVisits, evaluated, calls, tally, ancestors) && Called(calls, called, step)
      requires step.Interrupted? ||
        (Spent(s, evaluated, t, after, step) && t.count == s.count + (if step.Grew? then config.width else 0) && step != Diverged)
      requires queried == (ancestors && rootVisits > 0)
      ensures step.Interrupted? <==> !Clean(called)
      ensures !step.Interrupted? ==> Booked(t, rootVisits + 1, after, called, Turned(tally, step, queried), ancestors)
    {
      assert config.width * (tally.expansions + 1) == config.width * tally.expansions + config.width;
      hide Clean;
      hide Exhausted;
    }

    function Turned(tally: Telemetry, step: Step, queried: bool): Telemetry {
      Telemetry(
        tally.simulations + 1,
        tally.expansions + (if step.Grew? then 1 else 0),
        tally.frontier + (if step.Grew? then 0 else 1),
        tally.exhausted || step == Rolled(true),
        tally.queries + (if queried then 1 else 0))
    }

    /** One turn of the loop over the simulations. */
    method Turn(tree: TreeBuffers, ring: SemanticAncestorRetriever?, tally: Telemetry, ghost evaluated: seq<seq<real>>, ghost calls: seq<Call>)
      returns (step: Step, next: Telemetry, ghost after: seq<seq<real>>, ghost called: seq<Call>)
      requires ValidConfig(config) && tree.Allocated() && tree.width == config.width && tree.capacity == config.maxNodes && Tied(tree, ring)
      requires Balanced(tree.Form(), tree.Tally(), evaluated, config.discount, config.maxDepth)
      requires Booked(tree.Form(), tree.nodeVisits[0], evaluated, calls, tally, ring != null)
      modifies tree, tree.parents, tree.depths, tree.children, tree.expanded
      modifies tree.visits, tree.sums, tree.nodeVisits, tree.pathNodes, tree.pathActions
      modifies if ring == null then {} else {ring, ring.handles, ring.parents, ring.stateIndices, ring.candidateSlots, ring.candidateValid}
      ensures step != Diverged && (step.Interrupted? <==> !Clean(called))
      ensures !step.Interrupted? ==> Tied(tree, ring) && next.simulations == tally.simulations + 1
      ensures !step.Interrupted? ==> Balanced(tree.Form(), tree.Tally(), after, config.discount, config.maxDepth)
      ensures !step.Interrupted? ==> Booked(tree.Form(), tree.nodeVisits[0], after, called, next, ring != null)
    {
      hide Balanced;
      hide Tied;
      hide Booked;
      hide Called;
      hide Spent;
      hide Clean;
      ghost var s, visits := tree.Form(), tree.nodeVisits[0];
      var queried;
      ghost var node, value;
      step, queried, node, value, after, called := Simulate(tree, ring, evaluated, calls);
      next := Turned(tally, step, queried);
      BookedNext(s, tree.Form(), visits, evaluated, after, calls, called, tally, ring != null, step, queried);
    }

    /** All simulations. */
    method Run(tree: TreeBuffers, ring: SemanticAncestorRetriever?)
      returns (step: Step, tally: Telemetry, ghost evaluated: seq<seq<real>>, ghost calls: seq<Call>)
      requires ValidConfig(config) && tree.Allocated() && tree.width == config.width && tree.capacity == config.maxNodes
      requires tree.Form() == Root(config.width, config.maxNodes) && tree.Tally() == NoStats(config.width, config.maxNodes)
      requires Tied(tree, ring)
      modifies tree, tree.parents, tree.depths, tree.children, tree.expanded
      modifies tree.visits, tree.sums, tree.nodeVisits, tree.pathNodes, tree.pathActions
      modifies if ring == null then {} else {ring, ring.handles, ring.parents, ring.stateIndices, ring.candidateSlots, ring.candidateValid}
      ensures step != Diverged && (step.Interrupted? <==> !Clean(calls))
      ensures !step.Interrupted? ==> Balanced(tree.Form(), tree.Tally(), evaluated, config.discount, config.maxDepth)
      ensures !step.Interrupted? ==>
        Booked(tree.Form(), tree.nodeVisits[0], evaluated, calls, tally, ring != null) && tally.simulations == config.simulations
    {
      evaluated, calls := seq(config.maxNodes, _ => []), [];
      SeedBalanced(config.width, config.maxNodes, config.discount, config.maxDepth);
      SeedNotExhausted(tree.Form(), evaluated, config.maxDepth);
      step, tally := Rolled(false), Telemetry(0, 0, 0, false, 0);
      assert tree.nodeVisits[0] == tree.Tally().nodeVisits[0] == 0 && tree.Form().count == 1;
      assert Booked(tree.Form(), tree.nodeVisits[0], evaluated, calls, tally, ring != null);
      hide Balanced;
      hide Tied;
      hide Root;
      hide NoStats;
      hide Booked;
      hide Exhausted;
      while tally.simulations < config.simulations
        invariant tally.simulations <= config.simulations && tree.Allocated() && Tied(tree, ring) && !step.Interrupted? && step != Diverged
        invariant Balanced(tree.Form(), tree.Tally(), evaluated, config.discount, config.maxDepth)
        invariant Booked(tree.Form(), tree.nodeVisits[0], evaluated, calls, tally, ring != null) && Clean(calls)
      {
        step, tally, evaluated, calls := Turn(tree, ring, tally, evaluated, calls);
        if step.Interrupted? || step.Diverged? { return; }
      }
    }

    /** `argmax`: the first largest entry. */
    method FirstMax(row: seq<nat>) returns (best: nat)
      requires row != []
      ensures IsFirstMax(row, best)
    {
      best := 0;
      for i := 1 to |row|
        invariant best < i && IsFirstMax(row[..i], best)
      {
        if row[i] > row[best] { best := i; }
      }
      assert row[..|row|] == row;
    }

    /** The mean value of every root edge; an edge without visits counts as zero. */
    method RootMeans(tree: TreeBuffers) returns (means: seq<real>)
      requires tree.Allocated() && |tree.visits[0]| == |tree.sums[0]| == config.width
      ensures |means| == config.width
      ensures forall a :: 0 <= a < config.width ==> means[a] == Mean(tree.sums[0][a], tree.visits[0][a])
    {
      means := [];
      while |means| < config.width
        invariant |means| <= config.width
        invariant forall a :: 0 <= a < |means| ==> means[a] == Mean(tree.sums[0][a], tree.visits[0][a])
      {
        var a := |means|;
        means := means + [if tree.visits[0][a] > 0 then tree.sums[0][a] / tree.visits[0][a] as real else 0.0];
      }
    }

    /** The most-visited path: it stops at the deepest evaluated node. */
    method MostVisitedPath(tree: TreeBuffers) returns (best: seq<nat>, ghost actions: seq<nat>)
      requires tree.Allocated() && Grown(tree.Form()) && Fits(tree.Form(), tree.Tally())
      ensures BestPath(tree.Form(), tree.Tally(), best, actions, config.maxDepth)
    {
      best, actions := [0], [];
      var node := 0;
      ghost var s, st := tree.Form(), tree.Tally();
      hide Grown;
      hide MostVisited;
      assert MostVisited(s, st, best, actions) by { MostVisitedStarts(s, st); }
      while tree.expanded[node] && tree.depths[node] < config.maxDepth && |best| < tree.capacity
        invariant 1 <= |best| == |actions| + 1 && node == best[|best| - 1] < tree.count <= tree.capacity && MostVisited(s, st, best, actions)
        decreases tree.capacity - node
      {
        MostVisitedFits(s, st, best, actions, node);
        var action := FirstMax(tree.visits[node]);
        if tree.visits[node][action] == 0 { return; }
        MostVisitedOn(s, st, best, actions, node, action);
        var next := tree.children[node][action];
        if next < 0 { break; }
        best, actions := best + [next], actions + [action];
        node := next;
      }
      MostVisitedFits(s, st, best, actions, node);
    }

    /** `max_depth_reached`. */
    method Deepest(tree: TreeBuffers) returns (deepest: nat)
      requires tree.Allocated() && 1 <= tree.count <= tree.capacity
      ensures IsDeepest(tree.Form(), deepest)
    {
      deepest := tree.depths[0];
      for n := 1 to tree.count
        invariant exists m :: 0 <= m < n && tree.depths[m] == deepest
        invariant forall m :: 0 <= m < n ==> tree.depths[m] <= deepest
      {
        if tree.depths[n] > deepest { deepest := tree.depths[n]; }
      }
      ghost var m :| 0 <= m < tree.count && tree.depths[m] == deepest;
      assert tree.Form().depths[m] == deepest;
    }

    /** The ring with the root in it, if ancestors are wanted. */
    method MakeRing(tree: TreeBuffers) returns (ok: bool, ring: SemanticAncestorRetriever?)
      requires ValidConfig(config) && tree.Allocated() && tree.Form() == Root(config.width, config.maxNodes)
      ensures ok && Tied(tree, ring) && (ring != null <==> config.ancestorK > 0)
      ensures ring != null ==> fresh(ring) && fresh(ring.handles) && fresh(ring.parents) && fresh(ring.stateIndices)
      ensures ring != null ==> fresh(ring.candidateSlots) && fresh(ring.candidateValid)
    {
      ok, ring := true, null;
      if config.ancestorK > 0 {
        var made := new SemanticAncestorRetriever(if config.ancestorCapacity == 0 then config.maxNodes else config.ancestorCapacity);
        var added := made.Add(-1, 0);
        if added != Handle(0) { return false, ring; }
        ring := made;
      }
    }

    /** What `search` reports about the root and the most-visited path. */
    method Report(tree: TreeBuffers, telemetry: Telemetry) returns (result: Result, ghost actions: seq<nat>)
      requires tree.Allocated() && tree.width == config.width && Grown(tree.Form()) && Fits(tree.Form(), tree.Tally())
      ensures result.Found? && result.telemetry == telemetry && result.nodes == tree.count
      ensures result.rootVisits == tree.visits[0] && |result.rootMeans| == config.width
      ensures forall a :: 0 <= a < config.width ==> result.rootMeans[a] == Mean(tree.sums[0][a], tree.visits[0][a])
      ensures Sum(tree.visits[0]) > 0 ==> IsFirstMax(tree.visits[0], result.bestAction)
      ensures result.bestAction < config.width && IsDeepest(tree.Form(), result.deepest)
      ensures BestPath(tree.Form(), tree.Tally(), result.bestPath, actions, config.maxDepth)
    {
      assert |tree.visits[0]| == |tree.sums[0]| == config.width by { assert tree.Tally().visits[0] == tree.visits[0] && tree.Tally().sums[0] == tree.sums[0]; }
      hide BestPath;
      var means := RootMeans(tree);
      var best := FirstMax(tree.visits[0]);
      if tree.visits[0][best] == 0 {
        ZeroSum(tree.visits[0]);
        best :| 0 <= best < config.width;  // arg-max of the priors
      }
      var path;
      path, actions := MostVisitedPath(tree);
      var deepest := Deepest(tree);
      result := Found(tree.visits[0], means, best, path, tree.count, deepest, telemetry);
    }

    /** `search`. The shape, the statistics and the evaluations are those of the final tree. */
    method Search()
      returns (result: Result, ghost s: Shape, ghost st: Stats, ghost evaluated: seq<seq<real>>, ghost actions: seq<nat>, ghost calls: seq<Call>)
      requires ValidConfig(config)
      // none of the internal checks ever fails
      ensures result != Broken
      // the laws hold of the final tree
      ensures result.Found? ==> Balanced(s, st, evaluated, config.discount, config.maxDepth)
      ensures result.Found? ==> s.width == config.width && s.capacity == config.maxNodes && s.expanded[0]
      // and the report is about that tree
      ensures result.Found? ==> result.rootVisits == st.visits[0] && Sum(result.rootVisits) == config.simulations - 1
      ensures result.Found? ==> |result.rootMeans| == config.width
      ensures result.Found? ==> forall a :: 0 <= a < config.width ==> result.rootMeans[a] == Mean(st.sums[0][a], st.visits[0][a])
      ensures result.Found? ==> forall bound, a :: ValuesBounded(evaluated, bound) && bound >= 0.0 && 0 <= a < config.width ==>
        Abs(result.rootMeans[a]) <= bound
      ensures result.Found? ==> result.bestAction < config.width
      ensures result.Found? && config.simulations > 1 ==> IsFirstMax(result.rootVisits, result.bestAction)
      ensures result.Found? ==> BestPath(s, st, result.bestPath, actions, config.maxDepth)
      // bookkeeping
      ensures result.Found? ==> IsDeepest(s, result.deepest) && result.deepest <= config.maxDepth
      ensures result.Found? ==> result.nodes == s.count == 1 + config.width * result.telemetry.expansions <= config.maxNodes
      ensures result.Found? ==> result.telemetry.expansions + result.telemetry.frontier == result.telemetry.simulations == config.simulations
      ensures result.Found? ==> result.telemetry.queries == if config.ancestorK > 0 then config.simulations - 1 else 0
      // the flag says that some node was evaluated above the depth limit and found no room to be expanded
      ensures result.Found? ==> (result.telemetry.exhausted <==> Exhausted(s, evaluated, config.maxDepth))
      ensures result.Found? && result.telemetry.exhausted ==> s.count + config.width > config.maxNodes
      // the search raises exactly if one of its callbacks does
      ensures result == Raised <==> exists i :: 0 <= i < |calls| && calls[i].raised
      ensures result.Found? ==> |calls| == config.simulations + result.telemetry.expansions
    {
      evaluated, actions, calls := [], [], [];
      var tree := new TreeBuffers(config.width, config.maxNodes);
      s, st := tree.Form(), tree.Tally();
      var ok, ring := MakeRing(tree);
      if !ok { return Broken, s, st, evaluated, actions, calls; }
      hide Balanced;
      hide Tied;
      hide Root;
      hide NoStats;
      hide Grown;
      hide BestPath;
      hide IsFirstMax;
      hide IsDeepest;
      var step, telemetry;
      step, telemetry, evaluated, calls := Run(tree, ring);
      s, st := tree.Form(), tree.Tally();
      if step.Interrupted? { return Raised, s, st, evaluated, actions, calls; }
      if step.Diverged? { return Broken, s, st, evaluated, actions, calls; }
      BalancedIsGrown(s, st, evaluated, config.discount, config.maxDepth);
      RootIsExpanded(s, st, evaluated, config.discount, config.maxDepth);
      RootMeansWithin(s, st, evaluated, config.discount, config.maxDepth);
      GrownFits(s);
      hide Mean;
      hide ValuesBounded;
      result, actions := Report(tree, telemetry);
      DeepestWithin(s, st, evaluated, config.discount, config.maxDepth, result.deepest);
    }
  }

  datatype Result =
    | Found(rootVisits: seq<nat>, rootMeans: seq<real>, bestAction: nat, bestPath: seq<nat>, nodes: nat, deepest: nat, telemetry: Telemetry)
    | Raised   // a callback raised
    | Broken   // one of the internal checks raised

  datatype Telemetry = Telemetry(simulations: nat, expansions: nat, frontier: nat, exhausted: bool, queries: nat)

  predicate IsFirstMax(row: seq<nat>, best: nat) {
    && best < |row|
    && (forall i :: 0 <= i < |row| ==> row[i] <= row[best])
    && (forall i :: 0 <= i < best ==> row[i] < row[best])
  }

  /** A walk that always takes the first most-visited edge, and only visited ones. */
  ghost predicate MostVisited(s: Shape, st: Stats, path: seq<nat>, actions: seq<nat>) {
    && Walked(s, path, actions) && Fits(s, st)
    && forall i :: 0 <= i < |actions| ==>
      path[i] < s.capacity && IsFirstMax(st.visits[path[i]], actions[i]) && st.visits[path[i]][actions[i]] > 0
  }

  /** The greatest depth of a node. */
  ghost predicate IsDeepest(s: Shape, deepest: nat) {
    && (exists n :: 0 <= n < s.count && n < |s.depths| && s.depths[n] == deepest)
    && (forall n :: 0 <= n < s.count && n < |s.depths| ==> s.depths[n] <= deepest)
  }

  lemma DeepestWithin(s: Shape, st: Stats, evaluated: seq<seq<real>>, discount: real, maxDepth: nat, deepest: nat)
    requires Balanced(s, st, evaluated, discount, maxDepth) && IsDeepest(s, deepest)
    ensures deepest <= maxDepth
  {
    var n :| 0 <= n < s.count && s.depths[n] == deepest;
    DepthOf(s, evaluated, maxDepth, n);
  }

  /** Below this node nothing was evaluated, or nothing may be. */
  ghost predicate Ends(s: Shape, st: Stats, last: nat, maxDepth: nat) {
    && last < s.count && last < |s.expanded| && last < |s.depths| && last < |st.visits|
    && (s.expanded[last] && s.depths[last] < maxDepth ==> forall a :: 0 <= a < |st.visits[last]| ==> st.visits[last][a] == 0)
  }

  ghost predicate BestPath(s: Shape, st: Stats, path: seq<nat>, actions: seq<nat>, maxDepth: nat) {
    MostVisited(s, st, path, actions) && path != [] && Ends(s, st, path[|path| - 1], maxDepth)
  }

  lemma MostVisitedStarts(s: Shape, st: Stats)
    requires Grown(s) && Fits(s, st)
    ensures MostVisited(s, st, [0], [])
  {
  }

  lemma MostVisitedFits(s: Shape, st: Stats, path: seq<nat>, actions: seq<nat>, node: nat)
    requires MostVisited(s, st, path, actions) && node == path[|path| - 1]
    ensures node < s.count && |st.visits[node]| == s.width >= 1
    ensures s.expanded[node] ==> |path| < s.capacity
  {
    WalkFits(s, path, actions);
  }

  lemma MostVisitedOn(s: Shape, st: Stats, path: seq<nat>, actions: seq<nat>, node: nat, action: nat)
    requires MostVisited(s, st, path, actions) && node == path[|path| - 1] < s.count && s.expanded[node]
    requires IsFirstMax(st.visits[node], action) && st.visits[node][action] > 0
    ensures |s.children[node]| == s.width && action < s.width
    ensures node < s.children[node][action] < s.count
    ensures MostVisited(s, st, path + [s.children[node][action]], actions + [action])
  {
    WalkOn(s, path, actions, action);
    hide Walked;
    hide Grown;
  }

  lemma SeedBalanced(width: nat, capacity: nat, discount: real, maxDepth: nat)
    requires width >= 1 && capacity >= 1 + width
    ensures Balanced(Root(width, capacity), NoStats(width, capacity), seq(capacity, _ => []), discount, maxDepth)
  {
    var s, st := Root(width, capacity), NoStats(width, capacity);
    forall n | 0 <= n < capacity ensures Sum(st.visits[n]) == 0 {
      ZeroSum(st.visits[n]);
    }
  }

  function Root(width: nat, capacity: nat): Shape {
    Shape(width, capacity, 1, seq(capacity, _ => -1), seq(capacity, _ => 0), seq(capacity, _ => seq(width, _ => -1)), seq(capacity, _ => false))
  }

  function NoStats(width: nat, capacity: nat): Stats {
    Stats(seq(capacity, _ => seq(width, _ => 0)), seq(capacity, _ => seq(width, _ => 0.0)), seq(capacity, _ => 0))
  }
}
