/** The archive tree of `AFlowOptimizer` in `cogni_flow/aflow.py` as a value:
    subtree sums, strict maxima, and the ranking that selects a parent. */
module Archive {
  import opened WorkflowValidator

  datatype Entry = Entry(workflow: WorkflowSpec, score: real, parent: int, iteration: nat, visits: nat, valueSum: real)

  /** The root comes first; every other entry has an earlier parent. */
  ghost predicate Rooted(es: seq<Entry>) {
    && es != [] && es[0].parent == -1
    && forall i :: 0 < i < |es| ==> 0 <= es[i].parent < i
  }

  /** `n` lies in the subtree of `root`. */
  ghost predicate Under(es: seq<Entry>, root: nat, n: nat)
    requires Rooted(es) && n < |es|
    decreases n
  {
    n == root || (n > 0 && Under(es, root, es[n].parent))
  }

  /** Size and score sum of the subtree, over the first `k` entries. */
  ghost function Size(es: seq<Entry>, root: nat, k: nat): nat
    requires Rooted(es) && k <= |es|
  {
    if k == 0 then 0 else Size(es, root, k - 1) + (if Under(es, root, k - 1) then 1 else 0)
  }

  ghost function Weight(es: seq<Entry>, root: nat, k: nat): real
    requires Rooted(es) && k <= |es|
  {
    if k == 0 then 0.0 else Weight(es, root, k - 1) + (if Under(es, root, k - 1) then es[k - 1].score else 0.0)
  }

  /** Every entry carries the size and the score sum of its own subtree. */
  ghost predicate Summed(es: seq<Entry>) {
    Rooted(es) && forall r :: 0 <= r < |es| ==> SummedAt(es, r)
  }

  ghost predicate SummedAt(es: seq<Entry>, r: nat)
    requires Rooted(es) && r < |es|
  {
    es[r].visits == Size(es, r, |es|) && es[r].valueSum == Weight(es, r, |es|)
  }

  /** What an addition to the archive leaves: the new entry, and one more visit and
      its score for everything above it. */
  ghost predicate Added(before: seq<Entry>, after: seq<Entry>, added: Entry) {
    && Rooted(before) && 0 <= added.parent < |before| && added.visits == 1 && added.valueSum == added.score
    && |after| == |before| + 1 && after[|before|] == added
    && forall r :: 0 <= r < |before| ==> after[r] == Bumped(before, r, added.parent, added.score)
  }

  ghost function Bumped(es: seq<Entry>, r: nat, parent: nat, score: real): Entry
    requires Rooted(es) && r < |es| && parent < |es|
  {
    if Under(es, r, parent) then es[r].(visits := es[r].visits + 1, valueSum := es[r].valueSum + score) else es[r]
  }

  lemma AddedRooted(before: seq<Entry>, after: seq<Entry>, added: Entry)
    requires Added(before, after, added)
    ensures Rooted(after)
  {
    forall i | 0 < i < |after| ensures 0 <= after[i].parent < i {
      if i < |before| { assert after[i].parent == before[i].parent; }
    }
    assert after[0].parent == before[0].parent;
  }

  lemma {:induction false} AddedUnder(before: seq<Entry>, after: seq<Entry>, added: Entry, root: nat, n: nat)
    requires Added(before, after, added) && Rooted(after) && n < |before|
    ensures Under(after, root, n) == Under(before, root, n)
    decreases n
  {
    assert after[n].parent == before[n].parent;
    if n > 0 { AddedUnder(before, after, added, root, before[n].parent); }
  }

  lemma {:induction false} AddedSums(before: seq<Entry>, after: seq<Entry>, added: Entry, root: nat, k: nat)
    requires Added(before, after, added) && Rooted(after) && k <= |before|
    ensures Size(after, root, k) == Size(before, root, k) && Weight(after, root, k) == Weight(before, root, k)
  {
    if k > 0 {
      AddedSums(before, after, added, root, k - 1);
      AddedUnder(before, after, added, root, k - 1);
      assert after[k - 1].score == before[k - 1].score;
    }
  }

  lemma {:induction false} NothingUnder(es: seq<Entry>, root: nat, n: nat)
    requires Rooted(es) && n < |es| && n < root
    ensures !Under(es, root, n)
    decreases n
  {
    if n > 0 { NothingUnder(es, root, es[n].parent); }
  }

  lemma {:induction false} NewIsAlone(es: seq<Entry>, root: nat, k: nat)
    requires Rooted(es) && k <= root && k <= |es|
    ensures Size(es, root, k) == 0 && Weight(es, root, k) == 0.0
  {
    if k > 0 {
      NewIsAlone(es, root, k - 1);
      NothingUnder(es, root, k - 1);
    }
  }

  /** Sums stay subtree sums. */
  lemma AddedSummed(before: seq<Entry>, after: seq<Entry>, added: Entry)
    requires Summed(before) && Added(before, after, added)
    ensures Summed(after)
  {
    AddedRooted(before, after, added);
    var n := |before|;
    forall r | 0 <= r < |after| ensures SummedAt(after, r) {
      if r < n {
        assert SummedAt(before, r);
        AddedSums(before, after, added, r, n);
        AddedUnder(before, after, added, r, added.parent);
      } else {
        NewIsAlone(after, n, n);
      }
    }
  }

  /** Visits are one for the entry and the visits of its children, and likewise for
      the scores: the root carries everything. */
  lemma {:induction false} RootCarriesAll(es: seq<Entry>, k: nat)
    requires Rooted(es) && k <= |es|
    ensures Size(es, 0, k) == k && Weight(es, 0, k) == ScoreSum(es, k)
  {
    if k > 0 {
      RootCarriesAll(es, k - 1);
      RootIsAbove(es, k - 1);
    }
  }

  ghost function ScoreSum(es: seq<Entry>, k: nat): real
    requires k <= |es|
  {
    if k == 0 then 0.0 else ScoreSum(es, k - 1) + es[k - 1].score
  }

  lemma {:induction false} RootIsAbove(es: seq<Entry>, n: nat)
    requires Rooted(es) && n < |es|
    ensures Under(es, 0, n)
    decreases n
  {
    if n > 0 { RootIsAbove(es, es[n].parent); }
  }

  // ------------------------------------------------------------------
  // Walking up
  // ------------------------------------------------------------------

  /** What lies above `n` and is not `n` lies above its parent. */
  lemma {:induction false} AboveParent(es: seq<Entry>, r: nat, n: nat)
    requires Rooted(es) && n < |es| && Under(es, r, n)
    ensures r <= n
    ensures r != n ==> n > 0 && r <= es[n].parent && Under(es, r, es[n].parent)
    decreases n
  {
    if r != n { AboveParent(es, r, es[n].parent); }
  }

  /** The ancestors of `n` form a chain. */
  lemma {:induction false} Chain(es: seq<Entry>, r: nat, m: nat, n: nat)
    requires Rooted(es) && n < |es| && m < |es| && Under(es, r, n) && Under(es, m, n) && r <= m
    ensures Under(es, r, m)
    decreases n
  {
    if m != n {
      AboveParent(es, m, n);
      AboveParent(es, r, n);
      Chain(es, r, m, es[n].parent);
    }
  }

  // ------------------------------------------------------------------
  // Promotions
  // ------------------------------------------------------------------

  /** The entry beats everything before it. */
  ghost predicate StrictMaximum(es: seq<Entry>, i: nat) {
    i < |es| && forall j :: 0 <= j < i ==> es[j].score < es[i].score
  }

  /** The promotions are the left-to-right strict maxima, in order. */
  ghost predicate Promoted(es: seq<Entry>, promotions: seq<nat>) {
    && promotions != []
    && (forall i :: i in promotions <==> StrictMaximum(es, i))
    && (forall i, j :: 0 <= i < j < |promotions| ==> promotions[i] < promotions[j])
  }

  ghost predicate FirstBest(es: seq<Entry>, best: nat) {
    && best < |es|
    && (forall i :: 0 <= i < |es| ==> es[i].score <= es[best].score)
    && (forall i :: 0 <= i < best ==> es[i].score < es[best].score)
  }

  /** The last promotion is the first best entry. */
  lemma LastPromotionIsBest(es: seq<Entry>, promotions: seq<nat>)
    requires es != [] && Promoted(es, promotions)
    ensures FirstBest(es, promotions[|promotions| - 1])
  {
    var best := promotions[|promotions| - 1];
    assert best in promotions;
    forall i | 0 <= i < |es| ensures es[i].score <= es[best].score {
      NoneLater(es, promotions, i);
    }
  }

  lemma {:induction false} NoneLater(es: seq<Entry>, promotions: seq<nat>, i: nat)
    requires Promoted(es, promotions) && i < |es|
    ensures promotions[|promotions| - 1] < |es| && es[i].score <= es[promotions[|promotions| - 1]].score
    decreases i
  {
    var best := promotions[|promotions| - 1];
    assert best in promotions && StrictMaximum(es, best);
    if StrictMaximum(es, i) {
      var k :| 0 <= k < |promotions| && promotions[k] == i;
      if i != best { assert i < best; }
    } else {
      var j :| 0 <= j < i && es[j].score >= es[i].score;
      NoneLater(es, promotions, j);
    }
  }

  /** One more entry, with the same scores before it. */
  lemma PromotedStep(before: seq<Entry>, after: seq<Entry>, promotions: seq<nat>, best: nat)
    requires Promoted(before, promotions) && best == promotions[|promotions| - 1] && before != []
    requires |after| == |before| + 1 && forall i :: 0 <= i < |before| ==> after[i].score == before[i].score
    ensures best < |before|
    ensures Promoted(after, if after[|before|].score > before[best].score then promotions + [|before|] else promotions)
    ensures forall i :: i in promotions ==> i < |before|
  {
    LastPromotionIsBest(before, promotions);
    var n := |before|;
    forall i: nat | i < n ensures StrictMaximum(after, i) <==> StrictMaximum(before, i) {
      if StrictMaximum(after, i) { forall j | 0 <= j < i ensures before[j].score < before[i].score { assert after[j].score < after[i].score; } }
      if StrictMaximum(before, i) { forall j | 0 <= j < i ensures after[j].score < after[i].score { assert before[j].score < before[i].score; } }
    }
    assert StrictMaximum(after, n) <==> after[n].score > before[best].score by {
      if StrictMaximum(after, n) { assert after[best].score < after[n].score; }
    }
    forall i | i in promotions ensures i < n { assert StrictMaximum(before, i); }
  }

  // ------------------------------------------------------------------
  // Ranking
  // ------------------------------------------------------------------

  ghost predicate Visited(es: seq<Entry>) {
    forall i :: 0 <= i < |es| ==> es[i].visits >= 1
  }

  lemma {:induction false} SizeCountsSelf(es: seq<Entry>, r: nat, k: nat)
    requires Rooted(es) && r < k <= |es|
    ensures Size(es, r, k) >= 1
  {
    if k - 1 > r { SizeCountsSelf(es, r, k - 1); }
  }

  lemma SummedVisited(es: seq<Entry>)
    requires Summed(es)
    ensures Visited(es)
  {
    forall i | 0 <= i < |es| ensures es[i].visits >= 1 {
      assert SummedAt(es, i);
      SizeCountsSelf(es, i, |es|);
    }
  }

  function MeanOf(e: Entry): real {
    if e.visits == 0 then 0.0 else e.valueSum / e.visits as real
  }

  /** Higher mean first, then higher score, then the older entry. */
  predicate Better(es: seq<Entry>, i: nat, j: nat)
    requires i < |es| && j < |es|
  {
    var a, b := MeanOf(es[i]), MeanOf(es[j]);
    a > b || (a == b && (es[i].score > es[j].score || (es[i].score == es[j].score && i < j)))
  }

  ghost predicate Ranked(es: seq<Entry>, order: seq<nat>) {
    && (forall p :: 0 <= p < |order| ==> order[p] < |es|)
    && forall p, q :: 0 <= p < q < |order| ==> Better(es, order[p], order[q])
  }

  function Insert(es: seq<Entry>, order: seq<nat>, i: nat): (r: seq<nat>)
    requires i < |es| && forall p :: 0 <= p < |order| ==> order[p] < |es|
    ensures |r| == |order| + 1 && forall p :: 0 <= p < |r| ==> r[p] < |es|
  {
    if order == [] then [i]
    else if Better(es, i, order[0]) then [i] + order
    else [order[0]] + Insert(es, order[1..], i)
  }

  lemma {:induction false} InsertRanks(es: seq<Entry>, order: seq<nat>, i: nat)
    requires Ranked(es, order) && i < |es| && i !in order
    ensures Ranked(es, Insert(es, order, i))
    ensures forall j :: j in Insert(es, order, i) <==> j == i || j in order
  {
    if order != [] {
      assert order == [order[0]] + order[1..];
      if !Better(es, i, order[0]) {
        assert Ranked(es, order[1..]);
        InsertRanks(es, order[1..], i);
        var tail := Insert(es, order[1..], i);
        forall p | 0 <= p < |tail| ensures Better(es, order[0], tail[p]) {
          assert tail[p] in tail;
          if tail[p] != i {
            var q :| 0 <= q < |order[1..]| && order[1..][q] == tail[p];
            assert order[q + 1] == tail[p];
          }
        }
      } else {
        forall p | 0 <= p < |order| ensures Better(es, i, order[p]) {
          if p > 0 { assert Better(es, order[0], order[p]); }
        }
      }
    }
  }

  ghost function Rivals(es: seq<Entry>, i: nat): set<nat>
    requires i < |es|
  {
    set j: nat | j < |es| && Better(es, j, i)
  }

  lemma {:induction false} PlaceSize(order: seq<nat>, p: nat) returns (front: set<nat>)
    requires p <= |order| && forall a, b :: 0 <= a < b < |order| ==> order[a] != order[b]
    ensures |front| == p && forall j :: j in front <==> j in order[..p]
  {
    if p == 0 {
      front := {};
    } else {
      var less := PlaceSize(order, p - 1);
      assert order[..p] == order[..p - 1] + [order[p - 1]];
      assert order[p - 1] !in order[..p - 1];
      front := less + {order[p - 1]};
    }
  }

  /** The place of an entry is the number of entries that are better. */
  lemma PlaceIsRivals(es: seq<Entry>, order: seq<nat>, p: nat)
    requires Ranked(es, order) && p < |order| && forall i: nat :: i < |es| ==> i in order
    ensures |Rivals(es, order[p])| == p
  {
    forall a, b | 0 <= a < b < |order| ensures order[a] != order[b] {
      assert Better(es, order[a], order[b]);
    }
    var front := PlaceSize(order, p);
    assert forall q :: p < q < |order| ==> Better(es, order[p], order[q]);
    forall j: nat ensures j in front <==> j in Rivals(es, order[p]) {
      if j in front {
        var a :| 0 <= a < p && order[a] == j;
        assert Better(es, order[a], order[p]);
      }
      if j in Rivals(es, order[p]) {
        assert j in order;
        var a :| 0 <= a < |order| && order[a] == j;
        assert a < p;
        assert order[..p][a] == j;
      }
    }
    assert front == Rivals(es, order[p]);
  }
}
