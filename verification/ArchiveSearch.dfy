/** `AFlowOptimizer.search` of `cogni_flow/aflow.py`: records that are updated in
    place, with an arbitrary proposer and evaluator that may raise. */
module ArchiveSearch {
  import opened WorkflowGraph
  import opened WorkflowValidator
  import opened Archive

  /** The list of records. A record has no other owner, so it is a value here. */
  class Records {
    var entries: seq<Entry>

    constructor (root: Entry)
      ensures entries == [root]
    {
      entries := [root];
    }

    /** `_backpropagate`: the walk to the root ends, and changes exactly the entries above. */
    method Backpropagate(parent: nat, score: real)
      requires Rooted(entries) && parent < |entries|
      modifies this
      ensures |entries| == |old(entries)|
      ensures forall r :: 0 <= r < |entries| ==> entries[r] == Bumped(old(entries), r, parent, score)
    {
      ghost var es := entries;
      var current: int := parent;
      forall r | parent < r < |es| ensures !Under(es, r, parent) { NothingUnder(es, r, parent); }
      while current != -1
        invariant -1 <= current <= parent && |entries| == |es|
        invariant current >= 0 ==> Under(es, current, parent)
        invariant forall r :: 0 <= r < |es| ==> entries[r] == if r > current then Bumped(es, r, parent, score) else es[r]
        decreases current + 1
      {
        var record := entries[current];
        forall r | 0 <= r && record.parent < r < current ensures !Under(es, r, parent) {
          if Under(es, r, parent) {
            Chain(es, r, current, parent);
            AboveParent(es, r, current);
          }
        }
        entries := entries[current := record.(visits := record.visits + 1, valueSum := record.valueSum + score)];
        ParentIsAbove(es, current, parent);
        current := record.parent;
      }
    }

    /** A new record enters the archive and its score goes up to the root. */
    method Append(workflow: WorkflowSpec, score: real, parent: nat, iteration: nat)
      requires Rooted(entries) && parent < |entries|
      modifies this
      ensures Added(old(entries), entries, Entry(workflow, score, parent, iteration, 1, score))
    {
      Backpropagate(parent, score);
      entries := entries + [Entry(workflow, score, parent, iteration, 1, score)];
    }
  }

  lemma {:induction false} ParentIsAbove(es: seq<Entry>, m: nat, n: nat)
    requires Rooted(es) && m < |es| && n < |es| && Under(es, m, n)
    ensures es[m].parent >= 0 ==> Under(es, es[m].parent, n)
    decreases n
  {
    if m != n { ParentIsAbove(es, m, es[n].parent); }
  }

  /** `_select_parent`, for any draw: the root, or an entry that fewer than `topK` entries beat. */
  method SelectParent(es: seq<Entry>, topK: nat) returns (parent: nat)
    requires es != [] && topK >= 1 && Visited(es)
    ensures parent < |es|
    ensures parent == 0 || |Rivals(es, parent)| < topK
  {
    var ranked: seq<nat> := [];
    for i := 0 to |es|
      invariant Ranked(es, ranked) && forall j: nat :: j in ranked <==> j < i
    {
      InsertRanks(es, ranked, i);
      ranked := Archive.Insert(es, ranked, i);
    }
    var candidates := if |ranked| <= topK then ranked else ranked[..topK];
    if 0 !in candidates { candidates := candidates + [0]; }
    var choice: nat :| choice < |candidates|;  // the soft mixed draw
    parent := candidates[choice];
    if parent != 0 {
      assert choice < |ranked| && ranked[choice] == parent;
      PlaceIsRivals(es, ranked, choice);
    }
  }

  datatype Reason = ProposerError | InvalidWorkflow(defect: Defect) | DuplicateWorkflow | EvaluationError

  /** What a callback did when it was asked. */
  datatype Reply<T> = NotAsked | Raised | Gave(value: T)

  datatype Rejection = Rejection(iteration: nat, parent: nat, reason: Reason)

  datatype StopReason = IterationBudgetExhausted | ArchiveBudgetExhausted

  datatype Outcome =
    | InvalidInitial(defect: Defect)
    | InitialNotScored
    | Searched(best: Entry, archive: seq<Entry>, promotions: seq<nat>, rejected: seq<Rejection>,
               iterationsUsed: nat, evaluations: nat, stop: StopReason)

  ghost predicate Holds(es: seq<Entry>, w: WorkflowSpec) {
    exists i :: 0 <= i < |es| && es[i].workflow == w
  }

  /** The workflows are acceptable and pairwise distinct, and come in the order of
      their iterations. */
  ghost predicate Listed(es: seq<Entry>, b: Budget, iteration: nat) {
    && (forall i :: 0 <= i < |es| ==> Acceptable(es[i].workflow, b) && es[i].iteration <= iteration)
    && (forall i, j :: 0 <= i < j < |es| ==> es[i].workflow != es[j].workflow && es[i].iteration < es[j].iteration)
  }

  /** What every archive of every run satisfies. */
  ghost predicate Sound(es: seq<Entry>, b: Budget, promotions: seq<nat>, iteration: nat) {
    Summed(es) && Promoted(es, promotions) && Listed(es, b, iteration)
  }

  lemma SeedIsSound(e: Entry, b: Budget)
    requires e.parent == -1 && e.visits == 1 && e.valueSum == e.score && e.iteration == 0 && Acceptable(e.workflow, b)
    ensures Sound([e], b, [0], 0)
  {
    assert SummedAt([e], 0) by { assert Size([e], 0, 0) == 0 && Weight([e], 0, 0) == 0.0; }
    assert StrictMaximum([e], 0);
  }

  lemma AddedKeeps(before: seq<Entry>, after: seq<Entry>, added: Entry)
    requires Added(before, after, added)
    ensures |after| == |before| + 1 && after[|before|] == added
    ensures forall r :: 0 <= r < |before| ==>
      after[r].score == before[r].score && after[r].workflow == before[r].workflow && after[r].iteration == before[r].iteration
  {
    forall r | 0 <= r < |before|
      ensures after[r].score == before[r].score && after[r].workflow == before[r].workflow && after[r].iteration == before[r].iteration
    {
      assert after[r] == Bumped(before, r, added.parent, added.score);
    }
  }

  lemma AddedIsListed(before: seq<Entry>, after: seq<Entry>, added: Entry, b: Budget, iteration: nat)
    requires Listed(before, b, iteration) && Added(before, after, added)
    requires Acceptable(added.workflow, b) && !Holds(before, added.workflow) && added.iteration == iteration + 1
    ensures Listed(after, b, iteration + 1)
  {
    AddedKeeps(before, after, added);
    assert forall i :: 0 <= i < |before| ==> before[i].workflow != added.workflow;
    hide Acceptable;
    hide Added;
  }

  /** A new, acceptable workflow keeps the archive sound. */
  lemma AddedIsSound(before: seq<Entry>, after: seq<Entry>, added: Entry, b: Budget, promotions: seq<nat>, chosen: seq<nat>, iteration: nat)
    requires Sound(before, b, promotions, iteration) && Added(before, after, added)
    requires Acceptable(added.workflow, b) && !Holds(before, added.workflow) && added.iteration == iteration + 1
    requires promotions != [] && promotions[|promotions| - 1] < |before|
    requires chosen == if added.score > before[promotions[|promotions| - 1]].score then promotions + [|before|] else promotions
    ensures Sound(after, b, chosen, iteration + 1)
  {
    AddedSummed(before, after, added);
    AddedIsListed(before, after, added, b, iteration);
    AddedKeeps(before, after, added);
    hide Added;
    hide Listed;
    hide Summed;
    PromotedStep(before, after, promotions, promotions[|promotions| - 1]);
  }

  lemma LaterIsSound(es: seq<Entry>, b: Budget, promotions: seq<nat>, iteration: nat)
    requires Sound(es, b, promotions, iteration)
    ensures Sound(es, b, promotions, iteration + 1)
  {
    hide Promoted;
    hide Summed;
    hide Acceptable;
  }

  lemma SoundIsRooted(es: seq<Entry>, b: Budget, promotions: seq<nat>, iteration: nat)
    requires Sound(es, b, promotions, iteration)
    ensures es != [] && Rooted(es) && Visited(es) && promotions != []
    ensures promotions[|promotions| - 1] < |es| && FirstBest(es, promotions[|promotions| - 1])
  {
    SummedVisited(es);
    LastPromotionIsBest(es, promotions);
  }

  class AFlowOptimizer {
    const budget: Budget
    const maxIterations: nat
    const maxArchiveEntries: nat
    const topK: nat

    constructor (budget: Budget, maxIterations: nat, maxArchiveEntries: nat, topK: nat)
      requires maxArchiveEntries >= 1 && topK >= 1
      ensures this.budget == budget && this.maxIterations == maxIterations
      ensures this.maxArchiveEntries == maxArchiveEntries && this.topK == topK
    {
      this.budget, this.maxIterations, this.maxArchiveEntries, this.topK := budget, maxIterations, maxArchiveEntries, topK;
    }

    /** A callback may raise; what it returns is up to it. */
    method Propose() returns (ok: bool, candidate: WorkflowSpec, ghost reply: Reply<WorkflowSpec>)
      ensures reply == if ok then Gave(candidate) else Raised
    {
      ok, candidate := *, *;
      reply := if ok then Gave(candidate) else Raised;
    }

    method Evaluate() returns (ok: bool, score: real, ghost reply: Reply<real>)
      ensures reply == if ok then Gave(score) else Raised
    {
      ok, score := *, *;
      reply := if ok then Gave(score) else Raised;
    }

    /** The evaluator is asked exactly about new and acceptable candidates. */
    ghost predicate New(proposal: Reply<WorkflowSpec>, seen: set<WorkflowSpec>) {
      proposal.Gave? && Acceptable(proposal.value, budget) && proposal.value !in seen
    }

    /** One iteration, up to the evaluation of the candidate. */
    method Consider(seen: set<WorkflowSpec>)
      returns (fine: bool, reason: Reason, evaluated: bool, candidate: WorkflowSpec, score: real,
               ghost proposal: Reply<WorkflowSpec>, ghost evaluation: Reply<real>)
      ensures fine ==> evaluated && Acceptable(candidate, budget) && candidate !in seen
      ensures !fine ==> (evaluated <==> reason == EvaluationError)
      ensures !proposal.NotAsked? && (evaluated <==> !evaluation.NotAsked?) && (evaluated <==> New(proposal, seen))
      ensures fine <==> evaluation == Gave(score)
      ensures fine ==> proposal == Gave(candidate)
      ensures !fine ==>
        && (reason == ProposerError <==> proposal == Raised)
        && (reason.InvalidWorkflow? <==> proposal.Gave? && !Acceptable(proposal.value, budget))
        && (reason == DuplicateWorkflow <==> proposal.Gave? && Acceptable(proposal.value, budget) && proposal.value in seen)
        && (reason == EvaluationError <==> evaluation == Raised)
    {
      hide Acceptable;
      fine, evaluated, score, reason, evaluation := false, false, 0.0, ProposerError, NotAsked;
      var ok;
      ok, candidate, proposal := Propose();
      if !ok { return; }
      var verdict := Validate(candidate, budget);
      if verdict.Invalid? { reason := InvalidWorkflow(verdict.defect); return; }
      if candidate in seen { reason := DuplicateWorkflow; return; }
      evaluated := true;
      ok, score, evaluation := Evaluate();
      if !ok { reason := EvaluationError; return; }
      fine := true;
    }

    /** A scored candidate enters the archive, and is promoted if it beats the best. */
    method Admit(records: Records, seen: set<WorkflowSpec>, promotions: seq<nat>,
                 candidate: WorkflowSpec, score: real, parent: nat, iteration: nat)
      returns (known: set<WorkflowSpec>, chosen: seq<nat>)
      requires parent < |records.entries| && iteration >= 1
      requires Sound(records.entries, budget, promotions, iteration - 1) && Knows(records.entries, seen)
      requires Acceptable(candidate, budget) && candidate !in seen
      modifies records
      ensures |records.entries| == |old(records.entries)| + 1 && Sound(records.entries, budget, chosen, iteration)
      ensures Knows(records.entries, known)
      ensures FirstStays(old(records.entries), records.entries)
      ensures Added(old(records.entries), records.entries, Entry(candidate, score, parent, iteration, 1, score))
    {
      ghost var before := records.entries;
      ghost var added := Entry(candidate, score, parent, iteration, 1, score);
      SoundIsRooted(before, budget, promotions, iteration - 1);
      assert !Holds(before, candidate);
      hide Acceptable;
      hide Sound;
      hide Rooted;
      hide Holds;
      hide Knows;
      hide Added;
      hide FirstBest;
      hide Visited;
      var n, best := |records.entries|, records.entries[promotions[|promotions| - 1]].score;
      records.Append(candidate, score, parent, iteration);
      AddedKeeps(before, records.entries, added);
      known := seen + {candidate};
      chosen := if score > best then promotions + [n] else promotions;
      AddedIsSound(before, records.entries, added, budget, promotions, chosen, iteration - 1);
      AddedKnows(before, records.entries, added, seen);
    }

    /** The search between two iterations. */
    ghost predicate State(es: seq<Entry>, seen: set<WorkflowSpec>, promotions: seq<nat>, rejected: seq<Rejection>,
                          evaluations: nat, used: nat)
    {
      && Sound(es, budget, promotions, used) && Knows(es, seen)
      && |es| + |rejected| == 1 + used && |es| <= maxArchiveEntries
      && evaluations == |es| + Failures(rejected) && Logged(es, rejected, used)
    }

    /** One iteration: a new record under a selected parent, or a rejection and nothing else. */
    ghost predicate Went(before: seq<Entry>, after: seq<Entry>, rejected: seq<Rejection>, refused: seq<Rejection>, iteration: nat) {
      || (refused == rejected && exists e: Entry :: e.iteration == iteration && Selectable(before, e.parent) && Added(before, after, e))
      || (after == before && |refused| == |rejected| + 1 && refused[..|rejected|] == rejected
          && refused[|rejected|].iteration == iteration && Selectable(before, refused[|rejected|].parent))
    }

    /** The root, or a record that fewer than `topK` records beat. */
    ghost predicate Selectable(es: seq<Entry>, parent: int) {
      0 <= parent < |es| && (parent == 0 || |Rivals(es, parent)| < topK)
    }

    /** One iteration. */
    method Iterate(records: Records, seen: set<WorkflowSpec>, promotions: seq<nat>, rejected: seq<Rejection>,
                   evaluations: nat, iteration: nat)
      returns (known: set<WorkflowSpec>, chosen: seq<nat>, refused: seq<Rejection>, count: nat)
      requires topK >= 1 && iteration >= 1 && State(records.entries, seen, promotions, rejected, evaluations, iteration - 1)
      requires |records.entries| < maxArchiveEntries
      modifies records
      ensures State(records.entries, known, chosen, refused, count, iteration)
      ensures FirstStays(old(records.entries), records.entries)
      ensures Went(old(records.entries), records.entries, rejected, refused, iteration)
    {
      SoundIsRooted(records.entries, budget, promotions, iteration - 1);
      FailuresGrow();
      hide Acceptable;
      hide Sound;
      hide Knows;
      hide Failures;
      hide Rooted;
      hide FirstBest;
      known, chosen, refused, count := seen, promotions, rejected, evaluations;
      var parent := SelectParent(records.entries, topK);
      ghost var es := records.entries;
      assert Selectable(es, parent);
      hide Selectable;
      var fine, reason, evaluated, candidate, score, _, _ := Consider(seen);
      if evaluated { count := count + 1; }
      if fine {
        known, chosen := Admit(records, seen, promotions, candidate, score, parent, iteration);
        LoggedAdded(es, records.entries, Entry(candidate, score, parent, iteration, 1, score), rejected, iteration);
      } else {
        refused := rejected + [Rejection(iteration, parent, reason)];
        LaterIsSound(records.entries, budget, promotions, iteration - 1);
        LoggedRefused(es, rejected, Rejection(iteration, parent, reason), iteration);
      }
    }

    /** The main loop of `search`. */
    method Explore(initial: WorkflowSpec, initialScore: real)
      returns (archive: seq<Entry>, promotions: seq<nat>, rejected: seq<Rejection>, used: nat, evaluations: nat, stop: StopReason)
      requires Acceptable(initial, budget) && maxArchiveEntries >= 1 && topK >= 1
      ensures Sound(archive, budget, promotions, used)
      ensures archive != [] && archive[0].workflow == initial && archive[0].score == initialScore
      ensures |archive| + |rejected| == 1 + used && used <= maxIterations && |archive| <= maxArchiveEntries
      ensures evaluations == |archive| + Failures(rejected) && Logged(archive, rejected, used)
      ensures stop == ArchiveBudgetExhausted ==> |archive| == maxArchiveEntries && used < maxIterations
      ensures stop == IterationBudgetExhausted ==> used == maxIterations
    {
      var root := Entry(initial, initialScore, -1, 0, 1, initialScore);
      var records := new Records(root);
      SeedIsSound(root, budget);
      KnowsSeed(root);
      var seen := {initial};
      promotions, rejected, evaluations, used, stop := [0], [], 1, 0, IterationBudgetExhausted;
      assert State(records.entries, seen, promotions, rejected, evaluations, used);
      hide Sound;
      hide Knows;
      hide Failures;
      hide Acceptable;
      var iteration := 1;
      while iteration <= maxIterations
        invariant 1 <= iteration == used + 1 <= maxIterations + 1 && stop == IterationBudgetExhausted
        invariant State(records.entries, seen, promotions, rejected, evaluations, used)
        invariant FirstStays([root], records.entries)
      {
        if |records.entries| >= maxArchiveEntries { stop := ArchiveBudgetExhausted; break; }
        used := iteration;
        seen, promotions, rejected, evaluations := Iterate(records, seen, promotions, rejected, evaluations, iteration);
        iteration := iteration + 1;
      }
      archive := records.entries;
    }

    /** `search`. */
    method Search(initial: WorkflowSpec) returns (outcome: Outcome, ghost scored: Reply<real>)
      requires maxArchiveEntries >= 1 && topK >= 1
      ensures outcome.InvalidInitial? <==> !Acceptable(initial, budget)
      ensures outcome.InitialNotScored? <==> scored == Raised
      ensures outcome.Searched? ==> Logged(outcome.archive, outcome.rejected, outcome.iterationsUsed)
      ensures outcome.Searched? ==> Sound(outcome.archive, budget, outcome.promotions, outcome.iterationsUsed)
      ensures outcome.Searched? ==> outcome.archive[0].workflow == initial && scored == Gave(outcome.archive[0].score)
      ensures outcome.Searched? ==> exists b: nat :: FirstBest(outcome.archive, b) && outcome.best == outcome.archive[b]
      ensures outcome.Searched? ==> outcome.best.score >= outcome.archive[0].score
      ensures outcome.Searched? ==> |outcome.archive| + |outcome.rejected| == 1 + outcome.iterationsUsed
      ensures outcome.Searched? ==> outcome.evaluations == |outcome.archive| + Failures(outcome.rejected)
      ensures outcome.Searched? ==> outcome.iterationsUsed <= maxIterations && |outcome.archive| <= maxArchiveEntries
      ensures outcome.Searched? && outcome.stop == ArchiveBudgetExhausted ==>
        |outcome.archive| == maxArchiveEntries && outcome.iterationsUsed < maxIterations
      ensures outcome.Searched? && outcome.stop == IterationBudgetExhausted ==> outcome.iterationsUsed == maxIterations
    {
      hide Acceptable;
      scored := NotAsked;
      var verdict := Validate(initial, budget);
      if verdict.Invalid? { return InvalidInitial(verdict.defect), scored; }
      var ok, score;
      ok, score, scored := Evaluate();
      if !ok { return InitialNotScored, scored; }
      hide Sound;
      hide Logged;
      var archive, promotions, rejected, used, evaluations, stop := Explore(initial, score);
      SoundIsRooted(archive, budget, promotions, used);
      var best := promotions[|promotions| - 1];
      outcome := Searched(archive[best], archive, promotions, rejected, used, evaluations, stop);
    }
  }

  /** Every iteration so far is in the archive or among the rejections, once, and both
      are in the order of the iterations. */
  ghost predicate Logged(es: seq<Entry>, rejected: seq<Rejection>, used: nat) {
    && (forall i :: 1 <= i <= used ==> (InArchive(es, i) <==> !InRejected(rejected, i)))
    && (forall k :: 0 <= k < |rejected| ==> 1 <= rejected[k].iteration <= used)
    && (forall j, k :: 0 <= j < k < |rejected| ==> rejected[j].iteration < rejected[k].iteration)
  }

  ghost predicate InArchive(es: seq<Entry>, iteration: nat) {
    exists k :: 0 <= k < |es| && es[k].iteration == iteration
  }

  ghost predicate InRejected(rejected: seq<Rejection>, iteration: nat) {
    exists k :: 0 <= k < |rejected| && rejected[k].iteration == iteration
  }

  lemma LoggedAdded(before: seq<Entry>, after: seq<Entry>, added: Entry, rejected: seq<Rejection>, iteration: nat)
    requires Added(before, after, added) && iteration >= 1 && added.iteration == iteration && Logged(before, rejected, iteration - 1)
    ensures Logged(after, rejected, iteration)
  {
    AddedKeeps(before, after, added);
    forall i | 1 <= i <= iteration ensures InArchive(after, i) <==> !InRejected(rejected, i) {
      if i == iteration { assert after[|before|].iteration == i; }
      if InArchive(before, i) {
        var k :| 0 <= k < |before| && before[k].iteration == i;
        assert after[k].iteration == i;
      }
    }
    hide Added;
  }

  lemma LoggedRefused(es: seq<Entry>, rejected: seq<Rejection>, r: Rejection, iteration: nat)
    requires iteration >= 1 && r.iteration == iteration && Logged(es, rejected, iteration - 1)
    requires forall k :: 0 <= k < |es| ==> es[k].iteration < iteration
    ensures Logged(es, rejected + [r], iteration)
  {
    var refused := rejected + [r];
    forall i | 1 <= i <= iteration ensures InArchive(es, i) <==> !InRejected(refused, i) {
      if i == iteration { assert refused[|rejected|].iteration == i; }
      if InRejected(rejected, i) {
        var k :| 0 <= k < |rejected| && rejected[k].iteration == i;
        assert refused[k].iteration == i;
      }
    }
  }

  ghost predicate Knows(es: seq<Entry>, seen: set<WorkflowSpec>) {
    forall w :: w in seen <==> Holds(es, w)
  }

  lemma AddedKnows(before: seq<Entry>, after: seq<Entry>, added: Entry, seen: set<WorkflowSpec>)
    requires Added(before, after, added) && Knows(before, seen)
    ensures Knows(after, seen + {added.workflow})
  {
    AddedHolds(before, after, added);
    hide Added;
    hide Holds;
  }

  lemma FailuresGrow()
    ensures Failures([]) == 0
    ensures forall rejected: seq<Rejection>, r ::
      Failures(rejected + [r]) == Failures(rejected) + (if r.reason == EvaluationError then 1 else 0)
  {
    forall rejected: seq<Rejection>, r
      ensures Failures(rejected + [r]) == Failures(rejected) + (if r.reason == EvaluationError then 1 else 0)
    {
      assert (rejected + [r])[..|rejected|] == rejected;
    }
  }

  /** The first entry is still the one of the initial workflow. */
  ghost predicate FirstStays(before: seq<Entry>, after: seq<Entry>) {
    before != [] && after != [] && after[0].workflow == before[0].workflow && after[0].score == before[0].score
  }

  lemma KnowsSeed(e: Entry)
    ensures Knows([e], {e.workflow})
  {
    assert [e][0].workflow == e.workflow;
  }

  /** How many candidates were evaluated without success. */
  function Failures(rejected: seq<Rejection>): nat {
    if rejected == [] then 0
    else Failures(rejected[..|rejected| - 1]) + (if rejected[|rejected| - 1].reason == EvaluationError then 1 else 0)
  }

  lemma AddedHolds(before: seq<Entry>, after: seq<Entry>, added: Entry)
    requires Added(before, after, added)
    ensures forall w :: Holds(after, w) <==> Holds(before, w) || w == added.workflow
  {
    AddedKeeps(before, after, added);
    forall w ensures Holds(after, w) <==> Holds(before, w) || w == added.workflow {
      if i :| 0 <= i < |before| && before[i].workflow == w { assert after[i].workflow == w; }
      if w == added.workflow { assert after[|before|].workflow == w; }
    }
  }
}
