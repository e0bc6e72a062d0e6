/** `WorkflowValidator.validate` of `cogni_flow/aflow.py`: the schema, the budgets,
    and then the graph check. The checks of Python types have no counterpart. */
module WorkflowValidator {
  import opened Basics
  import opened WorkflowGraph

  datatype Argument = Argument(name: string, value: string)
  datatype ActionSpec = ActionSpec(operator: string, arguments: seq<Argument>)
  datatype NodeSpec = NodeSpec(id: string, actions: seq<ActionSpec>)
  datatype WorkflowSpec = WorkflowSpec(id: string, nodes: seq<NodeSpec>, edges: seq<Edge>)

  datatype Budget = Budget(maxNodes: nat, maxEdges: nat, maxActions: nat, maxControlChars: nat)

  datatype Summary = Summary(nodes: nat, edges: nat, actions: nat, roots: seq<string>, leaves: seq<string>)

  datatype Defect =
    | BadText | NodeBudget | EdgeBudget | DuplicateNode | NoActions | ActionBudget
    | DuplicateArgument | UnknownNode | DuplicateEdge | TextBudget | HasCycle

  datatype Verdict = Valid(summary: Summary) | Invalid(defect: Defect)

  // ------------------------------------------------------------------
  // What is asked of a workflow
  // ------------------------------------------------------------------

  predicate TextOk(s: string, allowEmpty: bool) {
    (allowEmpty || s != "") && '\0' !in s
  }

  ghost predicate ArgumentsOk(arguments: seq<Argument>) {
    && (forall i :: 0 <= i < |arguments| ==> TextOk(arguments[i].name, false) && TextOk(arguments[i].value, true))
    && forall i, j :: 0 <= i < j < |arguments| ==> arguments[i].name != arguments[j].name
  }

  ghost predicate ActionOk(a: ActionSpec) {
    TextOk(a.operator, false) && ArgumentsOk(a.arguments)
  }

  ghost predicate ActionsOk(actions: seq<ActionSpec>) {
    forall i :: 0 <= i < |actions| ==> ActionOk(actions[i])
  }

  ghost predicate NodesOk(nodes: seq<NodeSpec>) {
    && (forall i :: 0 <= i < |nodes| ==> TextOk(nodes[i].id, false) && nodes[i].actions != [] && ActionsOk(nodes[i].actions))
    && forall i, j :: 0 <= i < j < |nodes| ==> nodes[i].id != nodes[j].id
  }

  function Ids(nodes: seq<NodeSpec>): set<string> {
    set i | 0 <= i < |nodes| :: nodes[i].id
  }

  ghost predicate EdgeOk(e: Edge, ids: set<string>) {
    TextOk(e.source, false) && TextOk(e.target, false) && TextOk(e.channel, true) && e.source in ids && e.target in ids
  }

  /** Parallel edges are allowed on different channels. */
  ghost predicate EdgesOk(edges: seq<Edge>, ids: set<string>) {
    && (forall i :: 0 <= i < |edges| ==> EdgeOk(edges[i], ids))
    && forall i, j :: 0 <= i < j < |edges| ==> edges[i] != edges[j]
  }

  function ActionCount(nodes: seq<NodeSpec>): nat {
    if nodes == [] then 0 else ActionCount(nodes[..|nodes| - 1]) + |nodes[|nodes| - 1].actions|
  }

  function ArgumentChars(arguments: seq<Argument>): nat {
    if arguments == [] then 0
    else ArgumentChars(arguments[..|arguments| - 1]) + |arguments[|arguments| - 1].name| + |arguments[|arguments| - 1].value|
  }

  function ActionChars(actions: seq<ActionSpec>): nat {
    if actions == [] then 0
    else ActionChars(actions[..|actions| - 1]) + |actions[|actions| - 1].operator| + ArgumentChars(actions[|actions| - 1].arguments)
  }

  function NodeChars(nodes: seq<NodeSpec>): nat {
    if nodes == [] then 0
    else NodeChars(nodes[..|nodes| - 1]) + |nodes[|nodes| - 1].id| + ActionChars(nodes[|nodes| - 1].actions)
  }

  function EdgeChars(edges: seq<Edge>): nat {
    if edges == [] then 0
    else EdgeChars(edges[..|edges| - 1]) + |edges[|edges| - 1].source| + |edges[|edges| - 1].target| + |edges[|edges| - 1].channel|
  }

  function ControlChars(w: WorkflowSpec): nat {
    |w.id| + NodeChars(w.nodes) + EdgeChars(w.edges)
  }

  ghost predicate Schema(w: WorkflowSpec) {
    TextOk(w.id, false) && NodesOk(w.nodes) && EdgesOk(w.edges, Ids(w.nodes))
  }

  ghost predicate WithinBudget(w: WorkflowSpec, b: Budget) {
    && |w.nodes| <= b.maxNodes && |w.edges| <= b.maxEdges && ActionCount(w.nodes) <= b.maxActions
    && ControlChars(w) <= b.maxControlChars
  }

  /** The archive may hold exactly these workflows. */
  ghost predicate Acceptable(w: WorkflowSpec, b: Budget) {
    Schema(w) && WithinBudget(w, b) && !Cyclic(w.edges)
  }

  // ------------------------------------------------------------------
  // Strings in order
  // ------------------------------------------------------------------

  /** Python's order of strings: by code point, a prefix first. */
  predicate Before(a: string, b: string) {
    if a == "" then true
    else if b == "" then false
    else if a[0] != b[0] then a[0] < b[0]
    else Before(a[1..], b[1..])
  }

  lemma {:induction false} BeforeIsTotal(a: string, b: string)
    ensures Before(a, b) || Before(b, a)
  {
    if a != "" && b != "" && a[0] == b[0] { BeforeIsTotal(a[1..], b[1..]); }
  }

  lemma {:induction false} BeforeChains(a: string, b: string, c: string)
    requires Before(a, b) && Before(b, c)
    ensures Before(a, c)
  {
    if a != "" && b != "" && c != "" && a[0] == b[0] == c[0] { BeforeChains(a[1..], b[1..], c[1..]); }
  }

  ghost predicate Ascending(s: seq<string>) {
    forall i, j :: 0 <= i < j < |s| ==> Before(s[i], s[j])
  }

  function Insert(s: seq<string>, x: string): seq<string> {
    if s == [] then [x]
    else if Before(x, s[0]) then [x] + s
    else [s[0]] + Insert(s[1..], x)
  }

  lemma {:induction false} InsertAscends(s: seq<string>, x: string)
    requires Ascending(s)
    ensures Ascending(Insert(s, x)) && forall y :: y in Insert(s, x) <==> y == x || y in s
  {
    if s != [] {
      assert s == [s[0]] + s[1..];
      if Before(x, s[0]) {
        forall i | 0 <= i < |s| ensures Before(x, s[i]) {
          if i > 0 { BeforeChains(x, s[0], s[i]); }
        }
      } else {
        BeforeIsTotal(x, s[0]);
        InsertAscends(s[1..], x);
        var tail := Insert(s[1..], x);
        forall i | 0 <= i < |tail| ensures Before(s[0], tail[i]) {
          assert tail[i] in tail;
        }
      }
    }
  }

  lemma {:induction false} InsertIsDistinct(s: seq<string>, x: string)
    requires Ascending(s) && Distinct(s) && x !in s
    ensures Distinct(Insert(s, x))
  {
    if s != [] && !Before(x, s[0]) {
      assert s == [s[0]] + s[1..];
      assert s[0] !in s[1..];
      InsertIsDistinct(s[1..], x);
      InsertAscends(s[1..], x);
      var tail := Insert(s[1..], x);
      forall i | 0 <= i < |tail| ensures s[0] != tail[i] { assert tail[i] in tail; }
    }
  }

  /** `sorted` of a set of identifiers. */
  method Sorted(all: set<string>) returns (s: seq<string>)
    ensures Ascending(s) && Distinct(s) && forall x :: x in s <==> x in all
  {
    s := [];
    var todo := all;
    while todo != {}
      invariant todo <= all && Ascending(s) && Distinct(s) && forall x :: x in s <==> x in all - todo
      decreases |todo|
    {
      var x :| x in todo;
      InsertAscends(s, x);
      InsertIsDistinct(s, x);
      s := Insert(s, x);
      todo := todo - {x};
    }
  }

  // ------------------------------------------------------------------
  // The validator
  // ------------------------------------------------------------------

  /** The arguments of one action. */
  method CheckArguments(arguments: seq<Argument>) returns (ok: bool, defect: Defect, chars: nat)
    ensures ok <==> ArgumentsOk(arguments)
    ensures ok ==> chars == ArgumentChars(arguments)
  {
    ok, defect, chars := true, BadText, 0;
    var names: set<string> := {};
    for k := 0 to |arguments|
      invariant ok && ArgumentsOk(arguments[..k]) && chars == ArgumentChars(arguments[..k])
      invariant forall x :: x in names <==> exists i :: 0 <= i < k && arguments[i].name == x
    {
      assert arguments[..k + 1][..k] == arguments[..k];
      var a := arguments[k];
      if !TextOk(a.name, false) || !TextOk(a.value, true) { return false, BadText, chars; }
      chars := chars + |a.name| + |a.value|;
      if a.name in names { return false, DuplicateArgument, chars; }
      names := names + {a.name};
    }
    assert arguments[..|arguments|] == arguments;
  }

  /** The actions of one node. */
  method CheckActions(actions: seq<ActionSpec>) returns (ok: bool, defect: Defect, chars: nat)
    ensures ok <==> ActionsOk(actions)
    ensures ok ==> chars == ActionChars(actions)
  {
    ok, defect, chars := true, BadText, 0;
    for k := 0 to |actions|
      invariant ok && ActionsOk(actions[..k]) && chars == ActionChars(actions[..k])
    {
      assert actions[..k + 1][..k] == actions[..k];
      if !TextOk(actions[k].operator, false) { return false, BadText, chars; }
      var more;
      ok, defect, more := CheckArguments(actions[k].arguments);
      if !ok { return; }
      chars := chars + |actions[k].operator| + more;
    }
    assert actions[..|actions|] == actions;
  }

  lemma {:induction false} ActionCountGrows(nodes: seq<NodeSpec>, k: nat)
    requires k <= |nodes|
    ensures ActionCount(nodes[..k]) <= ActionCount(nodes)
    decreases |nodes| - k
  {
    if k < |nodes| {
      assert nodes[..k + 1][..k] == nodes[..k];
      ActionCountGrows(nodes, k + 1);
    } else {
      assert nodes[..k] == nodes;
    }
  }

  lemma NodesStep(nodes: seq<NodeSpec>, k: nat)
    requires k < |nodes| && NodesOk(nodes[..k])
    ensures var n := nodes[k];
      && (NodesOk(nodes[..k + 1]) <==> TextOk(n.id, false) && n.actions != [] && ActionsOk(n.actions) && n.id !in Ids(nodes[..k]))
      && Ids(nodes[..k + 1]) == Ids(nodes[..k]) + {n.id}
      && ActionCount(nodes[..k + 1]) == ActionCount(nodes[..k]) + |n.actions|
      && NodeChars(nodes[..k + 1]) == NodeChars(nodes[..k]) + |n.id| + ActionChars(n.actions)
    ensures NodesOk(nodes) ==> NodesOk(nodes[..k + 1])
  {
    var more, n := nodes[..k + 1], nodes[k];
    assert more[..k] == nodes[..k];
    assert forall i :: 0 <= i < k ==> more[i] == nodes[..k][i];
    assert n.id in Ids(nodes[..k]) <==> exists i :: 0 <= i < k && nodes[..k][i].id == n.id;
    forall id ensures id in Ids(more) <==> id in Ids(nodes[..k]) + {n.id} {
      if id == n.id { assert more[k].id == id; }
      if i :| 0 <= i < k && nodes[..k][i].id == id { assert more[i].id == id; }
    }
  }

  /** The loop over the nodes. */
  method CheckNodes(nodes: seq<NodeSpec>, b: Budget) returns (ok: bool, defect: Defect, ids: set<string>, actions: nat, chars: nat)
    ensures ok <==> NodesOk(nodes) && ActionCount(nodes) <= b.maxActions
    ensures ok ==> ids == Ids(nodes) && actions == ActionCount(nodes) && chars == NodeChars(nodes)
    ensures defect != HasCycle
  {
    ok, defect, ids, actions, chars := true, BadText, {}, 0, 0;
    assert NodesOk(nodes[..0]) && Ids(nodes[..0]) == {};
    hide NodesOk;
    hide Ids;
    for k := 0 to |nodes|
      invariant ok && NodesOk(nodes[..k]) && ids == Ids(nodes[..k])
      invariant actions == ActionCount(nodes[..k]) <= b.maxActions && chars == NodeChars(nodes[..k])
      invariant defect == BadText
    {
      NodesStep(nodes, k);
      var n := nodes[k];
      if !TextOk(n.id, false) { return false, BadText, ids, actions, chars; }
      if n.id in ids { return false, DuplicateNode, ids, actions, chars; }
      ids := ids + {n.id};
      if n.actions == [] { return false, NoActions, ids, actions, chars; }
      actions := actions + |n.actions|;
      ActionCountGrows(nodes, k + 1);
      if actions > b.maxActions { return false, ActionBudget, ids, actions, chars; }
      var fine, why, more := CheckActions(n.actions);
      if !fine { return false, if why == DuplicateArgument then why else BadText, ids, actions, chars; }
      chars := chars + |n.id| + more;
    }
    assert nodes[..|nodes|] == nodes;
  }

  lemma WaitingSnoc(edges: seq<Edge>, k: nat, id: string)
    requires k < |edges|
    ensures Waiting(edges[..k + 1], [], id) == Waiting(edges[..k], [], id) + (if edges[k].target == id then 1 else 0)
    ensures Targets(edges[..k + 1], id) == Targets(edges[..k], id) + (if edges[k].source == id then [edges[k].target] else [])
  {
    assert edges[..k + 1][..k] == edges[..k];
  }

  /** The tables of the graph check say what the edges say. */
  ghost predicate Tables(edges: seq<Edge>, ids: set<string>, indegree: map<string, int>, outgoing: map<string, seq<string>>) {
    && indegree.Keys == outgoing.Keys == ids
    && forall id :: id in ids ==> indegree[id] == Waiting(edges, [], id) && outgoing[id] == Targets(edges, id)
  }

  lemma TablesStep(edges: seq<Edge>, k: nat, ids: set<string>, indegree: map<string, int>, outgoing: map<string, seq<string>>)
    requires k < |edges| && edges[k].source in ids && edges[k].target in ids
    requires Tables(edges[..k], ids, indegree, outgoing)
    ensures edges[k].source in outgoing && edges[k].target in indegree
    ensures Tables(edges[..k + 1], ids, indegree[edges[k].target := indegree[edges[k].target] + 1],
                   outgoing[edges[k].source := outgoing[edges[k].source] + [edges[k].target]])
  {
    forall id | id in ids
      ensures Waiting(edges[..k + 1], [], id) == Waiting(edges[..k], [], id) + (if edges[k].target == id then 1 else 0)
      ensures Targets(edges[..k + 1], id) == Targets(edges[..k], id) + (if edges[k].source == id then [edges[k].target] else [])
    {
      WaitingSnoc(edges, k, id);
    }
  }

  lemma EdgesStep(edges: seq<Edge>, k: nat, ids: set<string>)
    requires k < |edges| && EdgesOk(edges[..k], ids)
    ensures EdgesOk(edges[..k + 1], ids) <==> EdgeOk(edges[k], ids) && edges[k] !in edges[..k]
    ensures EdgesOk(edges, ids) ==> EdgesOk(edges[..k + 1], ids)
    ensures EdgeChars(edges[..k + 1]) == EdgeChars(edges[..k]) + |edges[k].source| + |edges[k].target| + |edges[k].channel|
    ensures forall keys :: Seen(keys, edges[..k]) ==> (edges[k] in keys <==> edges[k] in edges[..k]) && Seen(keys + {edges[k]}, edges[..k + 1])
  {
    var more := edges[..k + 1];
    assert more[..k] == edges[..k] && more == edges[..k] + [edges[k]];
    assert forall i :: 0 <= i < k ==> more[i] == edges[..k][i];
  }

  /** One edge on its own. */
  method CheckEdge(e: Edge, ids: set<string>) returns (ok: bool, defect: Defect, chars: nat)
    ensures ok <==> EdgeOk(e, ids)
    ensures ok ==> chars == |e.source| + |e.target| + |e.channel|
    ensures defect == BadText || defect == UnknownNode
  {
    chars := |e.source| + |e.target| + |e.channel|;
    if !TextOk(e.source, false) || !TextOk(e.target, false) || !TextOk(e.channel, true) { return false, BadText, chars; }
    ok, defect := e.source in ids && e.target in ids, UnknownNode;
  }

  /** An edge enters the tables. */
  method EnterEdge(edges: seq<Edge>, k: nat, ghost ids: set<string>, degrees: map<string, int>, targets: map<string, seq<string>>)
    returns (indegree: map<string, int>, outgoing: map<string, seq<string>>)
    requires k < |edges| && EdgeOk(edges[k], ids) && Tables(edges[..k], ids, degrees, targets)
    ensures Tables(edges[..k + 1], ids, indegree, outgoing)
  {
    TablesStep(edges, k, ids, degrees, targets);
    hide Tables;
    var e := edges[k];
    outgoing := targets[e.source := targets[e.source] + [e.target]];
    indegree := degrees[e.target := degrees[e.target] + 1];
  }

  ghost predicate Seen(keys: set<Edge>, edges: seq<Edge>) {
    forall e :: e in keys <==> e in edges
  }

  /** The loop over the edges. */
  method CheckEdges(edges: seq<Edge>, ids: set<string>)
    returns (ok: bool, defect: Defect, indegree: map<string, int>, outgoing: map<string, seq<string>>, chars: nat)
    ensures ok <==> EdgesOk(edges, ids)
    ensures ok ==> Tables(edges, ids, indegree, outgoing) && chars == EdgeChars(edges)
    ensures defect != HasCycle
  {
    ok, defect, chars := true, BadText, 0;
    indegree, outgoing := map id | id in ids :: 0, map id | id in ids :: [];
    var keys: set<Edge> := {};
    assert edges[..0] == [] && EdgeChars([]) == 0;
    assert Tables([], ids, indegree, outgoing);
    assert EdgesOk([], ids) && Seen({}, []);
    hide Tables;
    hide EdgesOk;
    hide EdgeOk;
    hide EdgeChars;
    hide Seen;
    for k := 0 to |edges|
      invariant ok && EdgesOk(edges[..k], ids) && Tables(edges[..k], ids, indegree, outgoing) && chars == EdgeChars(edges[..k])
      invariant Seen(keys, edges[..k])
      invariant defect == BadText
    {
      EdgesStep(edges, k, ids);
      var e := edges[k];
      var fine, why, more := CheckEdge(e, ids);
      if !fine { return false, why, indegree, outgoing, chars; }
      if e in keys { return false, DuplicateEdge, indegree, outgoing, chars; }
      chars, keys := chars + more, keys + {e};
      indegree, outgoing := EnterEdge(edges, k, ids, indegree, outgoing);
    }
    assert edges[..|edges|] == edges;
  }

  /** The graph part: roots and leaves, then the queue. */
  method CheckGraph(edges: seq<Edge>, ids: set<string>, indegree: map<string, int>, outgoing: map<string, seq<string>>)
    returns (ok: bool, roots: seq<string>, leaves: seq<string>)
    requires EdgesOk(edges, ids) && Tables(edges, ids, indegree, outgoing)
    ensures ok <==> !Cyclic(edges)
    ensures Ascending(roots) && Distinct(roots) && forall id :: id in roots <==> id in ids && NoEdgeInto(edges, id)
    ensures Ascending(leaves) && Distinct(leaves) && forall id :: id in leaves <==> id in ids && NoEdgeFrom(edges, id)
  {
    assert Over(edges, ids);
    roots := Sorted(set id | id in ids && indegree[id] == 0);
    leaves := Sorted(set id | id in ids && outgoing[id] == []);
    forall id | id in ids ensures (indegree[id] == 0 <==> NoEdgeInto(edges, id)) && (outgoing[id] == [] <==> NoEdgeFrom(edges, id)) {
      NothingWaiting(edges, [], id);
      NoTargets(edges, id);
    }
    hide Cyclic;
    hide Topological;
    var visited, order := Consume(ids, edges, indegree, outgoing, roots);
    ok := visited == |ids|;
  }

  ghost predicate NoEdgeInto(edges: seq<Edge>, id: string) {
    forall i :: 0 <= i < |edges| ==> edges[i].target != id
  }

  ghost predicate NoEdgeFrom(edges: seq<Edge>, id: string) {
    forall i :: 0 <= i < |edges| ==> edges[i].source != id
  }

  lemma {:induction false} NoTargets(edges: seq<Edge>, id: string)
    ensures Targets(edges, id) == [] <==> NoEdgeFrom(edges, id)
  {
    if edges != [] {
      var n := |edges| - 1;
      NoTargets(edges[..n], id);
      assert forall i :: 0 <= i < n ==> edges[..n][i] == edges[i];
    }
  }

  /** `validate`: a workflow is accepted exactly when its schema and budgets are
      in order and its graph has no cycle. */
  method Validate(w: WorkflowSpec, b: Budget) returns (verdict: Verdict)
    ensures verdict.Valid? <==> Acceptable(w, b)
    ensures verdict == Invalid(HasCycle) <==> Schema(w) && WithinBudget(w, b) && Cyclic(w.edges)
    ensures verdict.Valid? ==> verdict.summary.nodes == |w.nodes| && verdict.summary.edges == |w.edges| && verdict.summary.actions == ActionCount(w.nodes)
    ensures verdict.Valid? ==> Ascending(verdict.summary.roots) && Distinct(verdict.summary.roots)
    ensures verdict.Valid? ==> forall id :: id in verdict.summary.roots <==> id in Ids(w.nodes) && NoEdgeInto(w.edges, id)
    ensures verdict.Valid? ==> Ascending(verdict.summary.leaves) && Distinct(verdict.summary.leaves)
    ensures verdict.Valid? ==> forall id :: id in verdict.summary.leaves <==> id in Ids(w.nodes) && NoEdgeFrom(w.edges, id)
  {
    if !TextOk(w.id, false) { return Invalid(BadText); }
    if |w.nodes| > b.maxNodes { return Invalid(NodeBudget); }
    if |w.edges| > b.maxEdges { return Invalid(EdgeBudget); }
    hide NodesOk;
    hide EdgesOk;
    hide Ids;
    hide Tables;
    hide Cyclic;
    hide Ascending;
    hide Distinct;
    hide NoEdgeInto;
    hide NoEdgeFrom;
    var ok, defect, ids, actions, nodeChars := CheckNodes(w.nodes, b);
    if !ok { return Invalid(defect); }
    var indegree, outgoing, edgeChars;
    ok, defect, indegree, outgoing, edgeChars := CheckEdges(w.edges, ids);
    if !ok { return Invalid(defect); }
    if |w.id| + nodeChars + edgeChars > b.maxControlChars { return Invalid(TextBudget); }
    var roots, leaves;
    ok, roots, leaves := CheckGraph(w.edges, ids, indegree, outgoing);
    if !ok { return Invalid(HasCycle); }
    verdict := Valid(Summary(|w.nodes|, |w.edges|, actions, roots, leaves));
  }
}
