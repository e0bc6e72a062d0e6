/** The search tree of `cogni_core/search.py` as a value: its shape, its
    statistics, and the conservation laws that every simulation keeps.

    Values are `real`; the action choice (PUCT score, noise, arg-max) is any index. */
module SearchTree {
  import opened AncestorRing

  /** The nodes. Rows are allocated for the whole capacity; the first `count` are in use. */
  datatype Shape = Shape(
    width: nat, capacity: nat, count: nat,
    parents: seq<int>, depths: seq<nat>, children: seq<seq<int>>, expanded: seq<bool>)

  datatype Stats = Stats(visits: seq<seq<nat>>, sums: seq<seq<real>>, nodeVisits: seq<nat>)

  function Sum(row: seq<nat>): nat {
    if row == [] then 0 else row[0] + Sum(row[1..])
  }

  function Total(row: seq<real>): real {
    if row == [] then 0.0 else row[0] + Total(row[1..])
  }

  predicate Sized(s: Shape) {
    && s.width >= 1 && 1 <= s.count <= s.capacity
    && |s.parents| == |s.depths| == |s.children| == |s.expanded| == s.capacity
    && forall n :: 0 <= n < s.capacity ==> |s.children[n]| == s.width
  }

  predicate Fits(s: Shape, st: Stats) {
    && |st.visits| == |st.sums| == |st.nodeVisits| == s.capacity
    && forall n :: 0 <= n < s.capacity ==> |st.visits[n]| == |st.sums[n]| == s.width
  }

  /** The children of an expanded node are `width` consecutive younger nodes. */
  ghost predicate Fanned(s: Shape, n: nat)
    requires Sized(s) && n < s.capacity
  {
    var first := s.children[n][0];
    && n < s.count && n < first && first + s.width <= s.count
    && forall a :: 0 <= a < s.width ==>
      s.children[n][a] == first + a && s.parents[first + a] == n && s.depths[first + a] == s.depths[n] + 1
  }

  /** The node hangs on one edge of an older, expanded node. */
  ghost predicate Hangs(s: Shape, c: nat)
    requires Sized(s) && c < s.capacity
  {
    && 0 <= s.parents[c] < c && s.expanded[s.parents[c]]
    && s.children[s.parents[c]][0] <= c < s.children[s.parents[c]][0] + s.width
  }

  /** What growth by full-width expansions keeps. */
  ghost predicate Grown(s: Shape) {
    && Sized(s) && s.parents[0] == -1 && s.depths[0] == 0
    && (forall n :: 0 <= n < s.capacity && s.expanded[n] ==> Fanned(s, n))
    && (forall n :: 0 <= n < s.capacity && !s.expanded[n] ==> forall a :: 0 <= a < s.width ==> s.children[n][a] == -1)
    && (forall c :: 1 <= c < s.count ==> Hangs(s, c))
  }

  /** The action that leads to a node. */
  ghost function ActionOf(s: Shape, c: nat): nat
    requires Grown(s) && 1 <= c < s.count
  {
    assert Hangs(s, c);
    c - s.children[s.parents[c]][0]
  }

  ghost function EdgeVisits(s: Shape, st: Stats, c: nat): nat
    requires Grown(s) && Fits(s, st) && 1 <= c < s.count
  {
    assert Hangs(s, c);
    st.visits[s.parents[c]][ActionOf(s, c)]
  }

  ghost function EdgeSum(s: Shape, st: Stats, c: nat): real
    requires Grown(s) && Fits(s, st) && 1 <= c < s.count
  {
    assert Hangs(s, c);
    st.sums[s.parents[c]][ActionOf(s, c)]
  }

  ghost function One(b: bool): nat { if b then 1 else 0 }

  /** Edges and nodes without history are blank. */
  ghost predicate Blank(s: Shape, st: Stats)
    requires Sized(s) && Fits(s, st)
  {
    && (forall n :: 0 <= n < s.capacity && !s.expanded[n] ==>
          forall a :: 0 <= a < s.width ==> st.visits[n][a] == 0 && st.sums[n][a] == 0.0)
    && forall n :: s.count <= n < s.capacity ==> st.nodeVisits[n] == 0
  }

  /** The edge into `c` carries the visits of `c`; it still lacks one for `path[..k]`. */
  ghost predicate FlowsIn(s: Shape, st: Stats, path: seq<nat>, k: nat, c: nat)
    requires Grown(s) && Fits(s, st) && 1 <= c < s.count && k <= |path|
  {
    EdgeVisits(s, st, c) + One(c in path[..k]) == st.nodeVisits[c]
  }

  /** The visits of `n` were evaluations there or went on; for `path[..k - 1]` one has yet to go on. */
  ghost predicate FlowsOut(s: Shape, st: Stats, evaluated: seq<seq<real>>, path: seq<nat>, k: nat, n: nat)
    requires Fits(s, st) && n < s.capacity && |evaluated| == s.capacity && 1 <= k <= |path|
  {
    st.nodeVisits[n] == |evaluated[n]| + Sum(st.visits[n]) + One(n in path[..k - 1])
  }

  /** Visit flow. `evaluated[n]` lists the leaf values evaluated at node `n`. The
      edges above `path[k - 1]` have not been credited yet: each of their lower
      ends lacks an incoming visit, each of their upper ends an outgoing one. */
  ghost predicate Flow(s: Shape, st: Stats, evaluated: seq<seq<real>>, path: seq<nat>, k: nat)
    requires Grown(s) && Fits(s, st)
  {
    && |evaluated| == s.capacity && 1 <= k <= |path|
    && (forall c :: 1 <= c < s.count ==> FlowsIn(s, st, path, k, c))
    && (forall n :: 0 <= n < s.count ==> FlowsOut(s, st, evaluated, path, k, n))
  }

  ghost predicate WorthAt(s: Shape, st: Stats, evaluated: seq<seq<real>>, discount: real, at: nat, due: real, c: nat)
    requires Grown(s) && Fits(s, st) && 1 <= c < s.count && |evaluated| == s.capacity
  {
    EdgeSum(s, st, c) + (if c == at then due else 0.0) == Total(evaluated[c]) + discount * Total(st.sums[c])
  }

  /** Value conservation, where node `at` still owes `due` to the edge above it. */
  ghost predicate Worth(s: Shape, st: Stats, evaluated: seq<seq<real>>, discount: real, at: nat, due: real)
    requires Grown(s) && Fits(s, st)
  {
    && |evaluated| == s.capacity
    && forall c :: 1 <= c < s.count ==> WorthAt(s, st, evaluated, discount, at, due, c)
  }

  /** An expanded node was evaluated once, when it was expanded; no other node is
      evaluated while it could still be expanded. */
  ghost predicate Settled(s: Shape, evaluated: seq<seq<real>>, maxDepth: nat)
    requires Sized(s)
  {
    && |evaluated| == s.capacity
    && (forall n :: 0 <= n < s.capacity && s.expanded[n] ==> |evaluated[n]| == 1 && s.depths[n] < maxDepth)
    && (forall n :: 0 <= n < s.capacity && !s.expanded[n] && evaluated[n] != [] ==>
          n < s.count && (s.depths[n] >= maxDepth || s.count + s.width > s.capacity))
  }

  /** Between two simulations. */
  ghost predicate Balanced(s: Shape, st: Stats, evaluated: seq<seq<real>>, discount: real, maxDepth: nat) {
    && Grown(s) && Fits(s, st) && Blank(s, st) && Settled(s, evaluated, maxDepth)
    && Flow(s, st, evaluated, [0], 1) && Worth(s, st, evaluated, discount, 0, 0.0)
  }

  /** What `Balanced` says node by node, without the bookkeeping of a path. */
  lemma BalancedMeans(s: Shape, st: Stats, evaluated: seq<seq<real>>, discount: real, maxDepth: nat)
    requires Balanced(s, st, evaluated, discount, maxDepth)
    ensures forall c :: 1 <= c < s.count ==> EdgeVisits(s, st, c) == st.nodeVisits[c]
    ensures forall c :: 1 <= c < s.count ==> EdgeSum(s, st, c) == Total(evaluated[c]) + discount * Total(st.sums[c])
    ensures forall n :: 0 <= n < s.count && s.expanded[n] ==> st.nodeVisits[n] == 1 + Sum(st.visits[n])
    ensures forall n :: 0 <= n < s.count && !s.expanded[n] ==> Sum(st.visits[n]) == 0 && st.nodeVisits[n] == |evaluated[n]|
  {
    forall c | 1 <= c < s.count ensures EdgeVisits(s, st, c) == st.nodeVisits[c]
      ensures EdgeSum(s, st, c) == Total(evaluated[c]) + discount * Total(st.sums[c])
    {
      BalancedAt(s, st, evaluated, discount, maxDepth, c);
    }
    forall n | 0 <= n < s.count
      ensures s.expanded[n] ==> st.nodeVisits[n] == 1 + Sum(st.visits[n])
      ensures !s.expanded[n] ==> Sum(st.visits[n]) == 0 && st.nodeVisits[n] == |evaluated[n]|
    {
      VisitsAt(s, st, evaluated, discount, maxDepth, n);
    }
    hide Flow;
    hide Worth;
    hide Blank;
    hide Settled;
    hide EdgeVisits;
    hide EdgeSum;
    hide Sum;
    hide Total;
  }

  lemma VisitsAt(s: Shape, st: Stats, evaluated: seq<seq<real>>, discount: real, maxDepth: nat, n: nat)
    requires Balanced(s, st, evaluated, discount, maxDepth) && n < s.count
    ensures s.expanded[n] ==> st.nodeVisits[n] == 1 + Sum(st.visits[n])
    ensures !s.expanded[n] ==> Sum(st.visits[n]) == 0 && st.nodeVisits[n] == |evaluated[n]|
  {
    assert FlowsOut(s, st, evaluated, [0], 1, n);
    if !s.expanded[n] { ZeroSum(st.visits[n]); }
    hide Worth;
    hide Grown;
    hide Sum;
  }

  // ------------------------------------------------------------------
  // Rows
  // ------------------------------------------------------------------

  lemma {:induction false} ZeroSum(row: seq<nat>)
    requires forall i :: 0 <= i < |row| ==> row[i] == 0
    ensures Sum(row) == 0
  {
    if row != [] {
      assert forall i :: 0 <= i < |row[1..]| ==> row[1..][i] == row[i + 1];
      ZeroSum(row[1..]);
    }
  }

  lemma {:induction false} ZeroTotal(row: seq<real>)
    requires forall i :: 0 <= i < |row| ==> row[i] == 0.0
    ensures Total(row) == 0.0
  {
    if row != [] {
      assert forall i :: 0 <= i < |row[1..]| ==> row[1..][i] == row[i + 1];
      ZeroTotal(row[1..]);
    }
  }

  lemma {:induction false} SumUpdate(row: seq<nat>, a: nat, x: nat)
    requires a < |row|
    ensures Sum(row[a := x]) == Sum(row) - row[a] + x
  {
    if a > 0 {
      assert row[a := x][1..] == row[1..][a - 1 := x];
      SumUpdate(row[1..], a - 1, x);
    } else {
      assert row[a := x][1..] == row[1..];
    }
  }

  lemma {:induction false} TotalUpdate(row: seq<real>, a: nat, x: real)
    requires a < |row|
    ensures Total(row[a := x]) == Total(row) - row[a] + x
  {
    if a > 0 {
      assert row[a := x][1..] == row[1..][a - 1 := x];
      TotalUpdate(row[1..], a - 1, x);
    } else {
      assert row[a := x][1..] == row[1..];
    }
  }

  lemma {:induction false} TotalSnoc(row: seq<real>, x: real)
    ensures Total(row + [x]) == Total(row) + x
  {
    if row == [] {
      assert (row + [x])[1..] == [];
    } else {
      assert (row + [x])[1..] == row[1..] + [x];
      TotalSnoc(row[1..], x);
    }
  }

  // ------------------------------------------------------------------
  // Paths
  // ------------------------------------------------------------------

  /** A walk from the root along expanded nodes. */
  ghost predicate Walked(s: Shape, path: seq<nat>, actions: seq<nat>) {
    && Grown(s) && |path| >= 1 && |actions| == |path| - 1 && path[0] == 0
    && forall i :: 0 <= i < |actions| ==>
      && path[i] < s.count && s.expanded[path[i]] && actions[i] < s.width
      && path[i + 1] == s.children[path[i]][actions[i]]
  }

  /** Each step goes to a younger node, one deeper, through the edge of its action. */
  lemma {:induction false} WalkRises(s: Shape, path: seq<nat>, actions: seq<nat>, k: nat)
    requires Walked(s, path, actions) && k < |path|
    ensures k <= path[k] < s.count && s.depths[path[k]] == k
    ensures k > 0 ==> path[k] > path[k - 1] && s.parents[path[k]] == path[k - 1] && ActionOf(s, path[k]) == actions[k - 1]
  {
    if k > 0 {
      WalkRises(s, path, actions, k - 1);
      assert Fanned(s, path[k - 1]);
    }
  }

  lemma {:induction false} WalkOrdered(s: Shape, path: seq<nat>, actions: seq<nat>, i: nat, j: nat)
    requires Walked(s, path, actions) && i < j < |path|
    ensures path[i] < path[j]
    decreases j - i
  {
    WalkRises(s, path, actions, j);
    if i < j - 1 { WalkOrdered(s, path, actions, i, j - 1); }
  }

  /** A path never outgrows the node budget. */
  lemma WalkFits(s: Shape, path: seq<nat>, actions: seq<nat>)
    requires Walked(s, path, actions)
    ensures |path| <= s.count && path[|path| - 1] < s.count
    ensures s.expanded[path[|path| - 1]] ==> |path| < s.capacity
  {
    WalkRises(s, path, actions, |path| - 1);
    var last := path[|path| - 1];
    if s.expanded[last] { assert Fanned(s, last); }
  }

  lemma WalkFresh(s: Shape, path: seq<nat>, actions: seq<nat>, k: nat)
    requires Walked(s, path, actions) && k < |path|
    ensures path[k] !in path[..k]
  {
    if path[k] in path[..k] {
      var i :| 0 <= i < k && path[i] == path[k];
      WalkOrdered(s, path, actions, i, k);
    }
  }

  // ------------------------------------------------------------------
  // Steps of one simulation
  // ------------------------------------------------------------------

  /** `add_children` together with the `expanded` flag. */
  function Expand(s: Shape, n: nat): Shape
    requires Sized(s) && n < s.count && s.count + s.width <= s.capacity
  {
    s.(count := s.count + s.width,
       parents := seq(s.capacity, c requires 0 <= c < s.capacity => if s.count <= c < s.count + s.width then n else s.parents[c]),
       depths := seq(s.capacity, c requires 0 <= c < s.capacity => if s.count <= c < s.count + s.width then s.depths[n] + 1 else s.depths[c]),
       children := s.children[n := seq(s.width, a => s.count + a)],
       expanded := s.expanded[n := true])
  }

  lemma ExpandFans(s: Shape, n: nat)
    requires Grown(s) && n < s.count && !s.expanded[n] && s.count + s.width <= s.capacity
    ensures var t := Expand(s, n); Sized(t) && forall m :: 0 <= m < s.capacity && t.expanded[m] ==> Fanned(t, m)
  {
    var t := Expand(s, n);
    assert Sized(t);
    forall m | 0 <= m < s.capacity && t.expanded[m] ensures Fanned(t, m) {
      if m != n {
        OldFan(s, n, m);
      } else {
        assert t.children[n][0] == s.count && forall a :: 0 <= a < s.width ==> t.children[n][a] == s.count + a;
      }
    }
  }

  lemma OldNode(s: Shape, n: nat, c: nat)
    requires Sized(s) && n < s.count && s.count + s.width <= s.capacity && c < s.count && Sized(Expand(s, n))
    ensures Expand(s, n).parents[c] == s.parents[c] && Expand(s, n).depths[c] == s.depths[c]
  {
  }

  lemma OldFan(s: Shape, n: nat, m: nat)
    requires Grown(s) && n < s.count && s.count + s.width <= s.capacity && Sized(Expand(s, n))
    requires m < s.capacity && m != n && s.expanded[m]
    ensures Fanned(Expand(s, n), m)
  {
    var t, first := Expand(s, n), s.children[m][0];
    assert Fanned(s, m) && t.children[m] == s.children[m] && m < t.count && m < first && first + t.width <= t.count;
    hide Grown;
    hide Expand;
    forall a | 0 <= a < s.width
      ensures t.children[m][a] == first + a && t.parents[first + a] == m && t.depths[first + a] == t.depths[m] + 1
    {
      assert s.children[m][a] == first + a < s.count;
      OldNode(s, n, first + a);
      OldNode(s, n, m);
    }
  }

  lemma ExpandGrows(s: Shape, n: nat)
    requires Grown(s) && n < s.count && !s.expanded[n] && s.count + s.width <= s.capacity
    ensures var t := Expand(s, n);
      && Grown(t)
      && (forall c :: 1 <= c < s.count ==> t.parents[c] == s.parents[c] && ActionOf(t, c) == ActionOf(s, c))
      && (forall c :: s.count <= c < t.count ==> t.parents[c] == n)
  {
    var t := Expand(s, n);
    ExpandFans(s, n);
    forall c | 1 <= c < t.count ensures Hangs(t, c) {
      if c < s.count { assert Hangs(s, c); }
    }
    assert Grown(t);
    forall c | 1 <= c < s.count ensures t.parents[c] == s.parents[c] && ActionOf(t, c) == ActionOf(s, c) {
      assert Hangs(s, c);
      assert t.parents[c] == s.parents[c] != n && t.children[s.parents[c]] == s.children[s.parents[c]];
    }
  }

  /** Nothing is known of a node that is not in use. */
  lemma Unused(s: Shape, st: Stats, evaluated: seq<seq<real>>, maxDepth: nat, m: nat)
    requires Grown(s) && Fits(s, st) && Blank(s, st) && Settled(s, evaluated, maxDepth) && s.count <= m < s.capacity
    ensures !s.expanded[m] && evaluated[m] == [] && Sum(st.visits[m]) == 0 && Total(st.sums[m]) == 0.0 && st.nodeVisits[m] == 0
  {
    assert s.expanded[m] ==> Fanned(s, m);
    ZeroSum(st.visits[m]);
    ZeroTotal(st.sums[m]);
  }

  lemma ExpandFlows(s: Shape, st: Stats, evaluated: seq<seq<real>>, maxDepth: nat, n: nat, c: nat)
    requires Grown(s) && Fits(s, st) && Blank(s, st) && Settled(s, evaluated, maxDepth) && Flow(s, st, evaluated, [0], 1)
    requires n < s.count && !s.expanded[n] && s.count + s.width <= s.capacity
    requires c < s.count + s.width
    ensures Grown(Expand(s, n)) && Fits(Expand(s, n), st)
    ensures c >= 1 ==> FlowsIn(Expand(s, n), st, [0], 1, c)
    ensures FlowsOut(Expand(s, n), st, evaluated, [0], 1, c)
  {
    ExpandGrows(s, n);
    if c < s.count {
      assert FlowsOut(s, st, evaluated, [0], 1, c);
      if c >= 1 { assert FlowsIn(s, st, [0], 1, c); assert Hangs(s, c); }
    } else {
      Unused(s, st, evaluated, maxDepth, c);
      assert Hangs(Expand(s, n), c);
    }
  }

  lemma ExpandWorth(s: Shape, st: Stats, evaluated: seq<seq<real>>, discount: real, maxDepth: nat, n: nat, c: nat)
    requires Grown(s) && Fits(s, st) && Blank(s, st) && Settled(s, evaluated, maxDepth) && Worth(s, st, evaluated, discount, 0, 0.0)
    requires n < s.count && !s.expanded[n] && s.count + s.width <= s.capacity
    requires 1 <= c < s.count + s.width
    ensures Grown(Expand(s, n)) && Fits(Expand(s, n), st)
    ensures WorthAt(Expand(s, n), st, evaluated, discount, 0, 0.0, c)
  {
    ExpandGrows(s, n);
    if c < s.count {
      assert WorthAt(s, st, evaluated, discount, 0, 0.0, c);
      assert Hangs(s, c);
    } else {
      Unused(s, st, evaluated, maxDepth, c);
      assert Hangs(Expand(s, n), c);
    }
  }

  /** An expansion adds blank edges: nothing becomes unbalanced, except that the
      new inner node has yet to be evaluated. */
  lemma ExpandBalances(s: Shape, st: Stats, evaluated: seq<seq<real>>, discount: real, maxDepth: nat, n: nat)
    requires Balanced(s, st, evaluated, discount, maxDepth)
    requires n < s.count && !s.expanded[n] && s.count + s.width <= s.capacity && s.depths[n] < maxDepth
    ensures Grown(Expand(s, n)) && Fits(Expand(s, n), st) && Blank(Expand(s, n), st)
    ensures Flow(Expand(s, n), st, evaluated, [0], 1) && Worth(Expand(s, n), st, evaluated, discount, 0, 0.0)
    ensures evaluated[n] == []
  {
    ExpandGrows(s, n);
    forall c | 0 <= c < s.count + s.width
      ensures c >= 1 ==> FlowsIn(Expand(s, n), st, [0], 1, c)
      ensures FlowsOut(Expand(s, n), st, evaluated, [0], 1, c)
    {
      ExpandFlows(s, st, evaluated, maxDepth, n, c);
    }
    forall c | 1 <= c < s.count + s.width ensures WorthAt(Expand(s, n), st, evaluated, discount, 0, 0.0, c) {
      ExpandWorth(s, st, evaluated, discount, maxDepth, n, c);
    }
    hide Grown;
    hide WorthAt;
    hide FlowsIn;
    hide FlowsOut;
  }

  /** The node visits of a whole path are counted, and its last node evaluated. */
  function Touch(st: Stats, path: seq<nat>): Stats {
    st.(nodeVisits := seq(|st.nodeVisits|, n requires 0 <= n < |st.nodeVisits| => st.nodeVisits[n] + if n in path then 1 else 0))
  }

  ghost function Evaluate(evaluated: seq<seq<real>>, leaf: nat, value: real): seq<seq<real>>
    requires leaf < |evaluated|
  {
    evaluated[leaf := evaluated[leaf] + [value]]
  }

  /** One edge is credited. */
  function Credit(st: Stats, n: nat, a: nat, value: real): Stats
    requires n < |st.visits| && n < |st.sums| && a < |st.visits[n]| && a < |st.sums[n]|
  {
    st.(visits := st.visits[n := st.visits[n][a := st.visits[n][a] + 1]],
        sums := st.sums[n := st.sums[n][a := st.sums[n][a] + value]])
  }

  lemma TouchFlows(s: Shape, st: Stats, evaluated: seq<seq<real>>, path: seq<nat>, actions: seq<nat>, value: real, n: nat)
    requires Walked(s, path, actions) && Fits(s, st) && Flow(s, st, evaluated, [0], 1) && n < s.count
    ensures path[|path| - 1] < |evaluated| && Fits(s, Touch(st, path))
    ensures n >= 1 ==> FlowsIn(s, Touch(st, path), path, |path|, n)
    ensures FlowsOut(s, Touch(st, path), Evaluate(evaluated, path[|path| - 1], value), path, |path|, n)
  {
    var k := |path|;
    WalkRises(s, path, actions, k - 1);
    WalkFresh(s, path, actions, k - 1);
    assert path[..k] == path && path == path[..k - 1] + [path[k - 1]];
    assert n in path <==> n == path[k - 1] || n in path[..k - 1];
    assert FlowsOut(s, st, evaluated, [0], 1, n);
    if n >= 1 { assert FlowsIn(s, st, [0], 1, n); }
  }

  lemma TouchWorth(s: Shape, st: Stats, evaluated: seq<seq<real>>, discount: real, path: seq<nat>, leaf: nat, value: real, c: nat)
    requires Grown(s) && Fits(s, st) && Worth(s, st, evaluated, discount, 0, 0.0) && 1 <= c < s.count && leaf < s.count
    ensures Fits(s, Touch(st, path))
    ensures WorthAt(s, Touch(st, path), Evaluate(evaluated, leaf, value), discount, leaf, value, c)
  {
    assert WorthAt(s, st, evaluated, discount, 0, 0.0, c);
    TotalSnoc(evaluated[c], value);
  }

  /** After the visits are counted, the whole path is owed, and the leaf owes its value. */
  lemma TouchOwes(s: Shape, st: Stats, evaluated: seq<seq<real>>, discount: real, path: seq<nat>, actions: seq<nat>, value: real)
    requires Walked(s, path, actions) && Fits(s, st) && Blank(s, st)
    requires Flow(s, st, evaluated, [0], 1) && Worth(s, st, evaluated, discount, 0, 0.0)
    ensures path[|path| - 1] < s.count && Fits(s, Touch(st, path)) && Blank(s, Touch(st, path))
    ensures Flow(s, Touch(st, path), Evaluate(evaluated, path[|path| - 1], value), path, |path|)
    ensures Worth(s, Touch(st, path), Evaluate(evaluated, path[|path| - 1], value), discount, path[|path| - 1], value)
  {
    var leaf := path[|path| - 1];
    WalkRises(s, path, actions, |path| - 1);
    var t, after := Touch(st, path), Evaluate(evaluated, leaf, value);
    forall n | 0 <= n < s.count
      ensures n >= 1 ==> FlowsIn(s, t, path, |path|, n)
      ensures FlowsOut(s, t, after, path, |path|, n)
    {
      TouchFlows(s, st, evaluated, path, actions, value, n);
    }
    forall c | 1 <= c < s.count ensures WorthAt(s, t, after, discount, leaf, value, c) {
      TouchWorth(s, st, evaluated, discount, path, leaf, value, c);
    }
    forall n | s.count <= n < s.capacity ensures t.nodeVisits[n] == 0 {
      if n in path {
        var i :| 0 <= i < |path| && path[i] == n;
        WalkRises(s, path, actions, i);
      }
    }
    hide WorthAt;
    hide FlowsIn;
    hide FlowsOut;
  }

  lemma CreditFlowsOut(s: Shape, st: Stats, evaluated: seq<seq<real>>, path: seq<nat>, actions: seq<nat>, k: nat, value: real, n: nat)
    requires Walked(s, path, actions) && Fits(s, st) && 1 <= k < |path| && n < s.count
    requires Flow(s, st, evaluated, path, k + 1)
    ensures path[k - 1] < |st.visits| && path[k - 1] < |st.sums| && actions[k - 1] < s.width
    ensures FlowsOut(s, Credit(st, path[k - 1], actions[k - 1], value), evaluated, path, k, n)
  {
    var p, a := path[k - 1], actions[k - 1];
    WalkRises(s, path, actions, k - 1);
    WalkFresh(s, path, actions, k - 1);
    SumUpdate(st.visits[p], a, st.visits[p][a] + 1);
    assert path[..k + 1 - 1] == path[..k] == path[..k - 1] + [p];
    assert FlowsOut(s, st, evaluated, path, k + 1, n);
    assert n in path[..k] <==> n == p || n in path[..k - 1];
  }

  lemma CreditFlowsIn(s: Shape, st: Stats, evaluated: seq<seq<real>>, path: seq<nat>, actions: seq<nat>, k: nat, value: real, d: nat)
    requires Walked(s, path, actions) && Fits(s, st) && 1 <= k < |path| && 1 <= d < s.count
    requires Flow(s, st, evaluated, path, k + 1)
    requires path[k - 1] < |st.visits| && path[k - 1] < |st.sums| && actions[k - 1] < s.width
    ensures Fits(s, Credit(st, path[k - 1], actions[k - 1], value))
    ensures FlowsIn(s, Credit(st, path[k - 1], actions[k - 1], value), path, k, d)
  {
    var c := path[k];
    WalkRises(s, path, actions, k);
    WalkFresh(s, path, actions, k);
    assert path[..k + 1] == path[..k] + [c];
    assert FlowsIn(s, st, path, k + 1, d);
    assert d in path[..k + 1] <==> d == c || d in path[..k];
    CreditEdge(s, st, c, value, d);
  }

  /** Crediting the edge into `c` changes that edge and no other. */
  lemma CreditEdge(s: Shape, st: Stats, c: nat, value: real, d: nat)
    requires Grown(s) && Fits(s, st) && 1 <= c < s.count && 1 <= d < s.count
    ensures 0 <= s.parents[c] < s.capacity && ActionOf(s, c) < s.width
    ensures var t := Credit(st, s.parents[c], ActionOf(s, c), value);
      && Fits(s, t)
      && EdgeVisits(s, t, d) == EdgeVisits(s, st, d) + One(c == d)
      && EdgeSum(s, t, d) == EdgeSum(s, st, d) + (if c == d then value else 0.0)
  {
    assert Hangs(s, c) && Hangs(s, d);
    EdgeIsOwn(s, c, d);
  }

  /** Crediting the edge above `path[k]` moves the debt one node up. */
  lemma CreditFlow(s: Shape, st: Stats, evaluated: seq<seq<real>>, path: seq<nat>, actions: seq<nat>, k: nat, value: real)
    requires Walked(s, path, actions) && Fits(s, st) && 1 <= k < |path|
    requires Flow(s, st, evaluated, path, k + 1)
    ensures path[k - 1] < |st.visits| && path[k - 1] < |st.sums| && actions[k - 1] < s.width
    ensures Fits(s, Credit(st, path[k - 1], actions[k - 1], value))
    ensures Flow(s, Credit(st, path[k - 1], actions[k - 1], value), evaluated, path, k)
  {
    WalkRises(s, path, actions, k - 1);
    var t := Credit(st, path[k - 1], actions[k - 1], value);
    forall n | 0 <= n < s.count ensures FlowsOut(s, t, evaluated, path, k, n) {
      CreditFlowsOut(s, st, evaluated, path, actions, k, value, n);
    }
    forall d | 1 <= d < s.count ensures FlowsIn(s, t, path, k, d) {
      CreditFlowsIn(s, st, evaluated, path, actions, k, value, d);
    }
    hide FlowsIn;
    hide FlowsOut;
  }

  /** An edge belongs to one node only. */
  lemma EdgeIsOwn(s: Shape, c: nat, d: nat)
    requires Grown(s) && 1 <= c < s.count && 1 <= d < s.count
    ensures s.parents[c] == s.parents[d] && ActionOf(s, c) == ActionOf(s, d) ==> c == d
  {
    assert Hangs(s, c) && Hangs(s, d);
  }

  lemma CreditWorthAt(s: Shape, st: Stats, evaluated: seq<seq<real>>, discount: real, c: nat, value: real, d: nat)
    requires Grown(s) && Fits(s, st) && 1 <= c < s.count && 1 <= d < s.count
    requires Worth(s, st, evaluated, discount, c, value)
    ensures 0 <= s.parents[c] < s.capacity && ActionOf(s, c) < s.width
    ensures Fits(s, Credit(st, s.parents[c], ActionOf(s, c), value))
    ensures WorthAt(s, Credit(st, s.parents[c], ActionOf(s, c), value), evaluated, discount, s.parents[c], discount * value, d)
  {
    assert Hangs(s, c);
    var p, a := s.parents[c], ActionOf(s, c);
    CreditEdge(s, st, c, value, d);
    TotalUpdate(st.sums[p], a, st.sums[p][a] + value);
    assert WorthAt(s, st, evaluated, discount, c, value, d);
    var t := Credit(st, p, a, value);
    assert Total(t.sums[d]) == if d == p then Total(st.sums[d]) + value else Total(st.sums[d]);
    Distribute(discount, Total(st.sums[d]), value);
    hide Grown;
    hide Credit;
    hide Total;
    hide EdgeSum;
  }

  lemma Distribute(factor: real, x: real, y: real)
    ensures factor * (x + y) == factor * x + factor * y
  {
  }

  lemma CreditWorth(s: Shape, st: Stats, evaluated: seq<seq<real>>, discount: real,
                    path: seq<nat>, actions: seq<nat>, k: nat, value: real)
    requires Walked(s, path, actions) && Fits(s, st) && 1 <= k < |path|
    requires Worth(s, st, evaluated, discount, path[k], value)
    ensures path[k - 1] < |st.visits| && path[k - 1] < |st.sums| && actions[k - 1] < s.width
    ensures Fits(s, Credit(st, path[k - 1], actions[k - 1], value))
    ensures Worth(s, Credit(st, path[k - 1], actions[k - 1], value), evaluated, discount, path[k - 1], discount * value)
  {
    WalkRises(s, path, actions, k);
    var t, p, owed := Credit(st, path[k - 1], actions[k - 1], value), path[k - 1], discount * value;
    forall d | 1 <= d < s.count ensures WorthAt(s, t, evaluated, discount, p, owed, d) {
      CreditWorthAt(s, st, evaluated, discount, path[k], value, d);
    }
    hide WorthAt;
  }

  lemma CreditBlank(s: Shape, st: Stats, path: seq<nat>, actions: seq<nat>, k: nat, value: real)
    requires Walked(s, path, actions) && Fits(s, st) && Blank(s, st) && 1 <= k < |path|
    ensures path[k - 1] < |st.visits| && path[k - 1] < |st.sums| && actions[k - 1] < s.width
    ensures var t := Credit(st, path[k - 1], actions[k - 1], value); Fits(s, t) && Blank(s, t)
  {
    WalkRises(s, path, actions, k - 1);
  }

  /** In the middle of a backup: the edges below `path[position]` are credited, and
      the node there still owes `due` upwards. */
  ghost predicate Owing(s: Shape, st: Stats, evaluated: seq<seq<real>>, discount: real,
                        path: seq<nat>, actions: seq<nat>, position: nat, due: real) {
    && Walked(s, path, actions) && Fits(s, st) && Blank(s, st) && position < |path|
    && Flow(s, st, evaluated, path, position + 1)
    && Worth(s, st, evaluated, discount, path[position], due)
  }

  lemma OwingStep(s: Shape, st: Stats, evaluated: seq<seq<real>>, discount: real,
                  path: seq<nat>, actions: seq<nat>, position: nat, due: real)
    requires Owing(s, st, evaluated, discount, path, actions, position, due) && position > 0
    ensures path[position - 1] < |st.visits| && path[position - 1] < |st.sums| && actions[position - 1] < s.width
    ensures |st.visits[path[position - 1]]| == |st.sums[path[position - 1]]| == s.width
    ensures Owing(s, Credit(st, path[position - 1], actions[position - 1], due), evaluated, discount,
                  path, actions, position - 1, discount * due)
  {
    CreditBlank(s, st, path, actions, position, due);
    CreditFlow(s, st, evaluated, path, actions, position, due);
    CreditWorth(s, st, evaluated, discount, path, actions, position, due);
  }

  /** At the root nothing is owed any more. */
  lemma OwingNothing(s: Shape, st: Stats, evaluated: seq<seq<real>>, discount: real, maxDepth: nat,
                     path: seq<nat>, actions: seq<nat>, due: real)
    requires Owing(s, st, evaluated, discount, path, actions, 0, due) && Settled(s, evaluated, maxDepth)
    ensures Balanced(s, st, evaluated, discount, maxDepth)
  {
    assert path[..1] == [0][..1] && path[..0] == [0][..0];
    forall n | 0 <= n < s.count ensures FlowsOut(s, st, evaluated, [0], 1, n) {
      assert FlowsOut(s, st, evaluated, path, 1, n);
    }
    forall c | 1 <= c < s.count ensures FlowsIn(s, st, [0], 1, c) {
      assert FlowsIn(s, st, path, 1, c);
    }
    forall c | 1 <= c < s.count ensures WorthAt(s, st, evaluated, discount, 0, 0.0, c) {
      assert WorthAt(s, st, evaluated, discount, 0, due, c);
    }
  }

  lemma WalkStarts(s: Shape)
    requires Grown(s)
    ensures Walked(s, [0], [])
  {
  }

  /** The walk can go on at an expanded node, and no check along it fails. */
  lemma WalkOn(s: Shape, path: seq<nat>, actions: seq<nat>, action: nat)
    requires Walked(s, path, actions) && action < s.width
    ensures path[|path| - 1] < s.count && |s.children[path[|path| - 1]]| == s.width
    ensures s.expanded[path[|path| - 1]] ==>
      && path[|path| - 1] < s.children[path[|path| - 1]][action] < s.count && |path| < s.capacity
      && Walked(s, path + [s.children[path[|path| - 1]][action]], actions + [action])
  {
    WalkFits(s, path, actions);
    var last := path[|path| - 1];
    if s.expanded[last] { assert Fanned(s, last); }
  }

  lemma ExpandWalked(s: Shape, n: nat, path: seq<nat>, actions: seq<nat>)
    requires Walked(s, path, actions) && n < s.count && !s.expanded[n] && s.count + s.width <= s.capacity
    ensures Walked(Expand(s, n), path, actions)
  {
    ExpandGrows(s, n);
    hide Grown;
  }

  /** The shape after the simulation that reached `leaf`. */
  function Next(s: Shape, leaf: nat, maxDepth: nat): Shape
    requires Sized(s) && leaf < s.count
  {
    if s.depths[leaf] < maxDepth && s.count + s.width <= s.capacity then Expand(s, leaf) else s
  }

  lemma NextSettled(s: Shape, evaluated: seq<seq<real>>, maxDepth: nat, leaf: nat, value: real)
    requires Grown(s) && Settled(s, evaluated, maxDepth) && leaf < s.count && !s.expanded[leaf]
    ensures Sized(Next(s, leaf, maxDepth)) && Settled(Next(s, leaf, maxDepth), Evaluate(evaluated, leaf, value), maxDepth)
  {
    var t := Next(s, leaf, maxDepth);
    forall n | 0 <= n < s.capacity && s.expanded[n] ensures n < s.count {
      assert Fanned(s, n);
    }
  }

  /** When the walk has reached a leaf, has expanded it if it could, and has counted
      the visits, the leaf owes its value and everything else is in balance. */
  lemma LeafOwes(s: Shape, st: Stats, evaluated: seq<seq<real>>, discount: real, maxDepth: nat,
                 path: seq<nat>, actions: seq<nat>, value: real)
    requires Balanced(s, st, evaluated, discount, maxDepth) && Walked(s, path, actions)
    requires path[|path| - 1] < s.count && !s.expanded[path[|path| - 1]]
    ensures var leaf := path[|path| - 1];
      && Settled(Next(s, leaf, maxDepth), Evaluate(evaluated, leaf, value), maxDepth)
      && Owing(Next(s, leaf, maxDepth), Touch(st, path), Evaluate(evaluated, leaf, value), discount,
               path, actions, |path| - 1, value)
  {
    var leaf := path[|path| - 1];
    var t := Next(s, leaf, maxDepth);
    NextSettled(s, evaluated, maxDepth, leaf, value);
    if s.depths[leaf] < maxDepth && s.count + s.width <= s.capacity {
      ExpandBalances(s, st, evaluated, discount, maxDepth, leaf);
      ExpandWalked(s, leaf, path, actions);
    }
    TouchOwes(t, st, evaluated, discount, path, actions, value);
  }

  // ------------------------------------------------------------------
  // What the laws give
  // ------------------------------------------------------------------

  function Abs(x: real): real { if x < 0.0 then -x else x }

  /** The most that `n` values of at most `bound` can add up to. */
  function Cap(bound: real, n: nat): real { bound * n as real }

  /** What an edge receives: the values evaluated below it, and the discounted rest. */
  function Backed(own: real, discount: real, below: real): real { own + discount * below }

  lemma Scale(bound: real, a: nat, b: nat)
    ensures Cap(bound, a + b) == Cap(bound, a) + Cap(bound, b)
  {
    var x, y := a as real, b as real;
    assert (a + b) as real == x + y;
    assert bound * (x + y) == bound * x + bound * y;
  }

  lemma {:induction false} TotalBounded(row: seq<real>, bound: real)
    requires forall i :: 0 <= i < |row| ==> Abs(row[i]) <= bound
    ensures Abs(Total(row)) <= Cap(bound, |row|)
  {
    if row != [] {
      assert forall i :: 0 <= i < |row[1..]| ==> row[1..][i] == row[i + 1];
      TotalBounded(row[1..], bound);
      Scale(bound, 1, |row[1..]|);
      assert |row| == 1 + |row[1..]|;
    }
  }

  ghost predicate RowWithin(sums: seq<real>, visits: seq<nat>, bound: real) {
    |sums| == |visits| && forall a :: 0 <= a < |sums| ==> Abs(sums[a]) <= Cap(bound, visits[a])
  }

  lemma {:induction false} RowBounded(sums: seq<real>, visits: seq<nat>, bound: real)
    requires RowWithin(sums, visits, bound)
    ensures Abs(Total(sums)) <= Cap(bound, Sum(visits))
  {
    if sums != [] {
      forall i | 0 <= i < |sums[1..]| ensures Abs(sums[1..][i]) <= Cap(bound, visits[1..][i]) {
        assert sums[1..][i] == sums[i + 1] && visits[1..][i] == visits[i + 1];
      }
      RowBounded(sums[1..], visits[1..], bound);
      Scale(bound, visits[0], Sum(visits[1..]));
      AddBounded(sums[0], Total(sums[1..]), Cap(bound, visits[0]), Cap(bound, Sum(visits[1..])));
    }
  }

  lemma AddBounded(x: real, y: real, a: real, b: real)
    requires Abs(x) <= a && Abs(y) <= b
    ensures Abs(x + y) <= a + b
  {
  }

  ghost predicate ValuesBounded(evaluated: seq<seq<real>>, bound: real) {
    forall n, i :: 0 <= n < |evaluated| && 0 <= i < |evaluated[n]| ==> Abs(evaluated[n][i]) <= bound
  }

  lemma ScaleDown(x: real, discount: real)
    requires 0.0 <= discount <= 1.0 && x >= 0.0
    ensures 0.0 <= discount * x <= x
  {
    assert x - discount * x == (1.0 - discount) * x;
  }

  lemma Discounted(x: real, discount: real, most: real)
    requires 0.0 <= discount <= 1.0 && Abs(x) <= most
    ensures Abs(discount * x) <= most
  {
    if x >= 0.0 {
      ScaleDown(x, discount);
    } else {
      ScaleDown(-x, discount);
      assert discount * -x == -(discount * x);
    }
  }

  lemma SumsBounded(own: real, below: real, discount: real, bound: real, m: nat, n: nat)
    requires 0.0 <= discount <= 1.0 && Abs(own) <= Cap(bound, m) && Abs(below) <= Cap(bound, n)
    ensures Abs(Backed(own, discount, below)) <= Cap(bound, m + n)
  {
    Discounted(below, discount, Cap(bound, n));
    Scale(bound, m, n);
    hide Cap;
    hide Abs;
    AddBounded(own, discount * below, Cap(bound, m), Cap(bound, n));
  }

  lemma EvaluatedBounded(evaluated: seq<seq<real>>, bound: real, c: nat)
    requires ValuesBounded(evaluated, bound) && c < |evaluated|
    ensures Abs(Total(evaluated[c])) <= Cap(bound, |evaluated[c]|)
  {
    TotalBounded(evaluated[c], bound);
  }

  lemma MeanStep(s: Shape, st: Stats, evaluated: seq<seq<real>>, discount: real, maxDepth: nat, bound: real, c: nat)
    requires Balanced(s, st, evaluated, discount, maxDepth) && ValuesBounded(evaluated, bound)
    requires 0.0 <= discount <= 1.0 && 1 <= c < s.count
    requires RowWithin(st.sums[c], st.visits[c], bound)
    ensures Abs(EdgeSum(s, st, c)) <= Cap(bound, EdgeVisits(s, st, c))
  {
    BalancedAt(s, st, evaluated, discount, maxDepth, c);
    hide *;
    RowBounded(st.sums[c], st.visits[c], bound);
    EvaluatedBounded(evaluated, bound, c);
    SumsBounded(Total(evaluated[c]), Total(st.sums[c]), discount, bound, |evaluated[c]|, Sum(st.visits[c]));
  }

  /** If every evaluated value lies in [-bound, bound], so does the mean of every edge. */
  lemma {:induction false} MeansBounded(s: Shape, st: Stats, evaluated: seq<seq<real>>, discount: real, maxDepth: nat, bound: real, c: nat)
    requires Balanced(s, st, evaluated, discount, maxDepth) && ValuesBounded(evaluated, bound)
    requires 0.0 <= discount <= 1.0 && 1 <= c < s.count
    ensures Abs(EdgeSum(s, st, c)) <= Cap(bound, EdgeVisits(s, st, c))
    decreases s.count - c
  {
    forall a | 0 <= a < s.width ensures Abs(st.sums[c][a]) <= Cap(bound, st.visits[c][a]) {
      if s.expanded[c] {
        ChildEdge(s, st, c, a);
        MeansBounded(s, st, evaluated, discount, maxDepth, bound, s.children[c][a]);
      } else {
        assert st.sums[c][a] == 0.0 && st.visits[c][a] == 0;
        assert bound * 0.0 == 0.0;
      }
    }
    MeanStep(s, st, evaluated, discount, maxDepth, bound, c);
  }

  /** The mean value of an edge; an edge without visits counts as zero. */
  function Mean(sum: real, visits: nat): real {
    if visits > 0 then sum / visits as real else 0.0
  }

  lemma MeanWithin(sum: real, visits: nat, bound: real)
    requires Abs(sum) <= Cap(bound, visits) && bound >= 0.0
    ensures Abs(Mean(sum, visits)) <= bound
  {
    if visits > 0 {
      var n, mean := visits as real, Mean(sum, visits);
      assert sum == mean * n;
      if mean > bound { assert (mean - bound) * n > 0.0; }
      if -mean > bound { assert (-mean - bound) * n > 0.0; }
    }
  }

  /** The mean of every edge of the tree lies in the interval of the leaf values. */
  lemma EveryMeanWithin(s: Shape, st: Stats, evaluated: seq<seq<real>>, discount: real, maxDepth: nat, bound: real, n: nat, a: nat)
    requires Balanced(s, st, evaluated, discount, maxDepth) && ValuesBounded(evaluated, bound) && bound >= 0.0
    requires 0.0 <= discount <= 1.0 && n < s.capacity && s.expanded[n] && a < s.width
    ensures Abs(Mean(st.sums[n][a], st.visits[n][a])) <= bound
  {
    ChildEdge(s, st, n, a);
    MeansBounded(s, st, evaluated, discount, maxDepth, bound, s.children[n][a]);
    MeanWithin(st.sums[n][a], st.visits[n][a], bound);
  }

  /** At the root, as the search reports it. */
  lemma RootMeansWithin(s: Shape, st: Stats, evaluated: seq<seq<real>>, discount: real, maxDepth: nat)
    requires Balanced(s, st, evaluated, discount, maxDepth) && 0.0 <= discount <= 1.0 && s.capacity > 0 && s.expanded[0]
    ensures forall bound, a :: ValuesBounded(evaluated, bound) && bound >= 0.0 && 0 <= a < s.width ==>
      Abs(Mean(st.sums[0][a], st.visits[0][a])) <= bound
  {
    forall bound, a | ValuesBounded(evaluated, bound) && bound >= 0.0 && 0 <= a < s.width
      ensures Abs(Mean(st.sums[0][a], st.visits[0][a])) <= bound
    {
      EveryMeanWithin(s, st, evaluated, discount, maxDepth, bound, 0, a);
    }
  }

  lemma ChildEdge(s: Shape, st: Stats, n: nat, a: nat)
    requires Grown(s) && Fits(s, st) && n < s.capacity && s.expanded[n] && a < s.width
    ensures n < s.children[n][a] < s.count
    ensures EdgeVisits(s, st, s.children[n][a]) == st.visits[n][a] && EdgeSum(s, st, s.children[n][a]) == st.sums[n][a]
  {
    assert Fanned(s, n);
  }

  lemma BalancedAt(s: Shape, st: Stats, evaluated: seq<seq<real>>, discount: real, maxDepth: nat, c: nat)
    requires Balanced(s, st, evaluated, discount, maxDepth) && 1 <= c < s.count
    ensures EdgeVisits(s, st, c) == |evaluated[c]| + Sum(st.visits[c]) == st.nodeVisits[c]
    ensures EdgeSum(s, st, c) == Backed(Total(evaluated[c]), discount, Total(st.sums[c]))
  {
    assert FlowsIn(s, st, [0], 1, c) && FlowsOut(s, st, evaluated, [0], 1, c);
    assert WorthAt(s, st, evaluated, discount, 0, 0.0, c);
  }

  // ------------------------------------------------------------------
  // Lineage
  // ------------------------------------------------------------------

  /** The lineage log has the nodes of the tree as its handles. */
  ghost predicate Mirrors(log: seq<int>, rows: seq<int>, s: Shape) {
    && Sized(s) && |log| == |rows| == s.count
    && forall c :: 0 <= c < s.count ==> log[c] == s.parents[c] && rows[c] == c
  }

  function Reversed(path: seq<nat>): (r: seq<int>)
    ensures |r| == |path|
  {
    if path == [] then [] else Reversed(path[1..]) + [path[0]]
  }

  lemma {:induction false} ReversedSnoc(path: seq<nat>, n: nat)
    ensures Reversed(path + [n]) == [n] + Reversed(path)
  {
    if path == [] {
      assert (path + [n])[1..] == [];
    } else {
      assert (path + [n])[1..] == path[1..] + [n];
      ReversedSnoc(path[1..], n);
    }
  }

  /** The ancestors that the retriever knows of a node are the path that led to it, backwards. */
  lemma {:induction false} AncestorsArePath(log: seq<int>, rows: seq<int>, s: Shape, path: seq<nat>, actions: seq<nat>, k: nat)
    requires Mirrors(log, rows, s) && Lineage(log) && Walked(s, path, actions) && k < |path|
    ensures path[k] < |log| && Ancestors(log, path[k]) == Reversed(path[..k])
  {
    WalkRises(s, path, actions, k);
    if k > 0 {
      AncestorsArePath(log, rows, s, path, actions, k - 1);
      assert path[..k] == path[..k - 1] + [path[k - 1]];
      ReversedSnoc(path[..k - 1], path[k - 1]);
    }
  }

  lemma ExpandMirrors(log: seq<int>, rows: seq<int>, s: Shape, n: nat, log2: seq<int>, rows2: seq<int>)
    requires Mirrors(log, rows, s) && n < s.count && s.count + s.width <= s.capacity
    requires log <= log2 && rows <= rows2 && |log2| == |rows2| == s.count + s.width
    requires forall c :: s.count <= c < s.count + s.width ==> log2[c] == n && rows2[c] == c
    ensures Mirrors(log2, rows2, Expand(s, n))
  {
  }

  lemma MirrorsSize(log: seq<int>, rows: seq<int>, s: Shape)
    requires Mirrors(log, rows, s)
    ensures |log| == |rows| == s.count
  {
  }

  lemma BalancedIsGrown(s: Shape, st: Stats, evaluated: seq<seq<real>>, discount: real, maxDepth: nat)
    requires Balanced(s, st, evaluated, discount, maxDepth)
    ensures Grown(s) && Fits(s, st) && |evaluated| == s.capacity
  {
  }

  /** Where the selection walk stops, the node has not been expanded. */
  lemma LeafIsOpen(s: Shape, st: Stats, evaluated: seq<seq<real>>, discount: real, maxDepth: nat, node: nat)
    requires Balanced(s, st, evaluated, discount, maxDepth) && node < s.count
    requires !(s.expanded[node] && s.depths[node] < maxDepth)
    ensures !s.expanded[node]
  {
  }

  lemma OwingIsWalked(s: Shape, st: Stats, evaluated: seq<seq<real>>, discount: real,
                      path: seq<nat>, actions: seq<nat>, position: nat, due: real)
    requires Owing(s, st, evaluated, discount, path, actions, position, due)
    ensures Walked(s, path, actions)
  {
  }

  /** After the first simulation the root is an inner node. */
  lemma RootIsExpanded(s: Shape, st: Stats, evaluated: seq<seq<real>>, discount: real, maxDepth: nat)
    requires Balanced(s, st, evaluated, discount, maxDepth) && st.nodeVisits[0] >= 1
    requires maxDepth >= 1 && 1 + s.width <= s.capacity
    ensures s.expanded[0] && Sum(st.visits[0]) == st.nodeVisits[0] - 1
  {
    BalancedMeans(s, st, evaluated, discount, maxDepth);
    assert s.count > 1 ==> Hangs(s, 1);
  }

  /** A node that was evaluated above the depth limit and still could not be expanded. */
  ghost predicate Starved(s: Shape, evaluated: seq<seq<real>>, maxDepth: nat, n: nat) {
    && n < s.count && n < |s.expanded| && n < |s.depths| && n < |evaluated|
    && !s.expanded[n] && s.depths[n] < maxDepth && evaluated[n] != []
  }

  ghost predicate Exhausted(s: Shape, evaluated: seq<seq<real>>, maxDepth: nat) {
    exists n :: Starved(s, evaluated, maxDepth, n)
  }

  /** The simulation that reaches `leaf` starves it exactly if depth would allow an
      expansion and the capacity does not; no starved node is ever expanded later. */
  lemma ExhaustedNext(s: Shape, evaluated: seq<seq<real>>, maxDepth: nat, leaf: nat, value: real)
    requires Grown(s) && Settled(s, evaluated, maxDepth) && leaf < s.count && !s.expanded[leaf]
    ensures Exhausted(Next(s, leaf, maxDepth), Evaluate(evaluated, leaf, value), maxDepth) <==>
      Exhausted(s, evaluated, maxDepth) || (s.depths[leaf] < maxDepth && s.count + s.width > s.capacity)
  {
    NextSettled(s, evaluated, maxDepth, leaf, value);
    var t, after := Next(s, leaf, maxDepth), Evaluate(evaluated, leaf, value);
    forall n | 0 <= n < s.capacity && n != leaf ensures Starved(t, after, maxDepth, n) <==> Starved(s, evaluated, maxDepth, n) {
      if s.expanded[n] { assert Fanned(s, n); }
    }
    if s.depths[leaf] < maxDepth && s.count + s.width > s.capacity { assert Starved(t, after, maxDepth, leaf); }
    hide Grown;
    hide Settled;
  }

  lemma SeedNotExhausted(s: Shape, evaluated: seq<seq<real>>, maxDepth: nat)
    requires forall n :: 0 <= n < |evaluated| ==> evaluated[n] == []
    ensures !Exhausted(s, evaluated, maxDepth)
  {
  }

  /** Only the root has depth zero, and no node lies below the depth limit. */
  lemma DepthOf(s: Shape, evaluated: seq<seq<real>>, maxDepth: nat, n: nat)
    requires Grown(s) && Settled(s, evaluated, maxDepth) && n < s.count
    ensures s.depths[n] <= maxDepth && (s.depths[n] > 0 <==> n > 0)
  {
    if n > 0 {
      assert Hangs(s, n) && Fanned(s, s.parents[n]);
      var parent := s.parents[n];
      assert s.children[parent][n - s.children[parent][0]] == n;
    }
  }

  /** Every simulation but the first ends below the root. */
  lemma LeavesRoot(s: Shape, st: Stats, evaluated: seq<seq<real>>, discount: real, maxDepth: nat, path: seq<nat>, actions: seq<nat>)
    requires Balanced(s, st, evaluated, discount, maxDepth) && Walked(s, path, actions) && maxDepth >= 1 && 1 + s.width <= s.capacity
    requires path[|path| - 1] < s.count && !s.expanded[path[|path| - 1]]
    ensures s.depths[path[|path| - 1]] > 0 <==> st.nodeVisits[0] > 0
  {
    DepthOf(s, evaluated, maxDepth, path[|path| - 1]);
    BalancedMeans(s, st, evaluated, discount, maxDepth);
    if st.nodeVisits[0] > 0 { RootIsExpanded(s, st, evaluated, discount, maxDepth); }
  }

  lemma GrownFits(s: Shape)
    requires Grown(s)
    ensures s.count <= s.capacity
  {
  }
}
