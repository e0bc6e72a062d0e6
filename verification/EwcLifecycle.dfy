/** `FPEWCRegularizer` of `cogni_core/fp_ewc.py` and the domain lifecycle of
    `cogni_core/adaptation.py`: what consolidation keeps over a whole run. */
module EwcLifecycle {
  import opened Basics
  import opened EwcMerge
  import opened EwcMoments

  datatype Domain = Domain(id: string, samples: nat)

  function Join(a: Domain, b: Domain): Domain {
    Domain(a.id + "+" + b.id, a.samples + b.samples)
  }

  /** The record of the first `k` domains. */
  ghost function Joined(records: seq<Domain>, k: nat): Domain
    requires 1 <= k <= |records|
  {
    if k == 1 then records[0] else Join(Joined(records, k - 1), records[k - 1])
  }

  ghost function Samples(records: seq<Domain>, k: nat): nat
    requires k <= |records|
  {
    if k == 0 then 0 else Samples(records, k - 1) + records[k - 1].samples
  }

  /** Joining records loses no sample. */
  lemma {:induction false} JoinedSamples(records: seq<Domain>, k: nat)
    requires 1 <= k <= |records|
    ensures Joined(records, k).samples == Samples(records, k)
    decreases k
  {
    if k > 1 {
      JoinedSamples(records, k - 1);
    } else {
      assert Samples(records, 0) == 0;
    }
  }

  class FPEWCRegularizer {
    const strength: real
    var snapshots: seq<Snapshot>

    constructor (strength: real)
      ensures this.strength == strength && snapshots == []
    {
      this.strength, snapshots := strength, [];
    }

    /** `consolidate`: squares the scores and keeps every parameter as anchor. */
    method Consolidate(parameters: Parameters, scores: map<string, Vector>)
      modifies this
      ensures snapshots == old(snapshots) + [Anchored(parameters, scores)]
    {
      snapshots := snapshots + [Anchored(parameters, scores)];
    }

    /** `penalty`, entry by entry; the names of a snapshot come in any order. */
    method ComputePenalty(parameters: Parameters) returns (total: real)
      requires forall i, n :: 0 <= i < |snapshots| && n in snapshots[i].fisher && n in parameters ==>
        n in snapshots[i].anchor && |snapshots[i].fisher[n]| == |snapshots[i].anchor[n]| == |parameters[n]|
      ensures total == Penalty(strength, snapshots, parameters)
    {
      total := 0.0;
      var k := 0;
      while k < |snapshots|
        invariant k <= |snapshots| && total == Penalty(strength, snapshots[..k], parameters)
      {
        total := AddSnapshot(total, snapshots[k], parameters);
        PenaltySnoc(strength, snapshots, k, parameters);
        k := k + 1;
      }
      assert snapshots[..k] == snapshots;
    }

    method AddSnapshot(before: real, s: Snapshot, parameters: Parameters) returns (total: real)
      requires forall n :: n in s.fisher && n in parameters ==>
        n in s.anchor && |s.fisher[n]| == |s.anchor[n]| == |parameters[n]|
      ensures total == before + Weighted(strength, Energy(s, parameters))
    {
      total := before;
      var todo := s.fisher.Keys;
      ghost var done := 0.0;
      WeightedZero(strength);
      assert SumOver(s, parameters, {}) == 0.0;
      hide Weighted;
      hide SumOver;
      hide Quad;
      while todo != {}
        invariant todo <= s.fisher.Keys && done + SumOver(s, parameters, todo) == Energy(s, parameters)
        invariant total == before + Weighted(strength, done)
        decreases |todo|
      {
        var n :| n in todo;
        Pick(s, parameters, todo, n);
        WeightedSum(strength, done, Term(s, parameters, n));
        done := done + Term(s, parameters, n);
        total := AddName(total, s, parameters, n);
        todo := todo - {n};
      }
    }

    /** One name of a snapshot; a name that is no parameter is skipped. */
    method AddName(before: real, s: Snapshot, parameters: Parameters, n: string) returns (total: real)
      requires n in s.fisher
      requires n in parameters ==> n in s.anchor && |s.fisher[n]| == |s.anchor[n]| == |parameters[n]|
      ensures total == before + Weighted(strength, Term(s, parameters, n))
    {
      total := before;
      if n in parameters {
        total := total + Weighted(strength, Quad(s.fisher[n], parameters[n], s.anchor[n]));
      } else {
        WeightedZero(strength);
      }
    }
  }

  lemma WeightedSum(strength: real, a: real, b: real)
    ensures Weighted(strength, a + b) == Weighted(strength, a) + Weighted(strength, b)
  {
  }

  lemma WeightedZero(strength: real)
    ensures Weighted(strength, 0.0) == 0.0
  {
  }

  lemma PenaltySnoc(strength: real, snapshots: seq<Snapshot>, k: nat, x: Parameters)
    requires k < |snapshots|
    ensures Penalty(strength, snapshots[..k + 1], x) == Penalty(strength, snapshots[..k], x) + Weighted(strength, Energy(snapshots[k], x))
  {
    TotalSnoc(snapshots, k + 1, x);
    hide TotalEnergy;
    hide Energy;
    WeightedSum(strength, TotalEnergy(snapshots[..k], x), Energy(snapshots[k], x));
  }

  function SquaredAll(v: Vector): Vector {
    seq(|v|, i requires 0 <= i < |v| => Square(v[i]))
  }

  function Anchored(parameters: Parameters, scores: map<string, Vector>): Snapshot {
    Snapshot(map n | n in parameters && n in scores :: SquaredAll(scores[n]), parameters)
  }

  /** The Fisher entries that match a parameter. */
  function Matched(parameters: Parameters, fisher: map<string, Vector>): map<string, Vector> {
    map n | n in fisher && n in parameters :: fisher[n]
  }

  /** Square roots of the matched Fisher entries. */
  ghost predicate Roots(scores: map<string, Vector>, fisher: map<string, Vector>) {
    scores.Keys == fisher.Keys && forall n :: n in scores ==> SquaredAll(scores[n]) == fisher[n]
  }

  ghost predicate WellShaped(parameters: Parameters, fisher: map<string, Vector>) {
    forall n :: n in fisher && n in parameters ==>
      |fisher[n]| == |parameters[n]| && forall i :: 0 <= i < |fisher[n]| ==> fisher[n][i] >= 0.0
  }

  class FixedPointDomainLifecycle {
    const regularizer: FPEWCRegularizer
    const maxDomains: Option<nat>
    const eps: real
    var domains: seq<Domain>
    /** Everything that was ever consolidated, and how much of it is merged. */
    ghost var history: seq<Snapshot>
    ghost var records: seq<Domain>
    ghost var merged: nat

    ghost predicate Parallel()
      reads this, regularizer
    {
      && eps > 0.0 && |history| == |records|
      && (history == [] ==> regularizer.snapshots == [] && domains == [])
      && (history != [] ==>
            && 1 <= merged <= |history|
            && regularizer.snapshots == Bounded(history, merged, eps)
            && domains == [Joined(records, merged)] + records[merged..])
    }

    /** Snapshots and domain records stay parallel and within the budget, and only
        as much is merged as the budget asks for. */
    ghost predicate Valid()
      reads this, regularizer
    {
      && Parallel()
      && (maxDomains.Some? ==> maxDomains.value >= 1 && |domains| <= maxDomains.value)
      && (history != [] && merged > 1 ==> maxDomains.Some? && |domains| == maxDomains.value)
    }

    constructor (strength: real, maxDomains: Option<nat>, eps: real)
      requires eps > 0.0 && (maxDomains.Some? ==> maxDomains.value >= 1)
      ensures Valid() && history == [] && records == [] && this.maxDomains == maxDomains && this.eps == eps
      ensures fresh(regularizer) && regularizer.strength == strength
    {
      this.maxDomains, this.eps := maxDomains, eps;
      regularizer := new FPEWCRegularizer(strength);
      domains, history, records, merged := [], [], [], 1;
    }

    /** `_enforce_domain_budget`. */
    method EnforceDomainBudget()
      requires Parallel() && history != [] && (maxDomains.Some? ==> maxDomains.value >= 1)
      requires merged > 1 ==> maxDomains.Some? && |domains| >= maxDomains.value
      modifies this`domains, this`merged, regularizer
      ensures Valid()
    {
      if maxDomains.None? { return; }
      while |regularizer.snapshots| > maxDomains.value
        invariant Parallel() && history == old(history) && records == old(records)
        invariant merged > 1 ==> |domains| >= maxDomains.value
        decreases |regularizer.snapshots|
      {
        var first, second := regularizer.snapshots[0], regularizer.snapshots[1];
        MergedOnce(history, merged, eps);
        JoinedOnce(records, merged);
        regularizer.snapshots := [Merge(first, second, eps)] + regularizer.snapshots[2..];
        domains := [Join(domains[0], domains[1])] + domains[2..];
        merged := merged + 1;
      }
    }

    /** `consolidate`; `scores` are the square roots that the source takes itself. */
    method Consolidate(id: string, parameters: Parameters, fisher: map<string, Vector>, scores: map<string, Vector>, samples: int)
      returns (ok: bool)
      requires Valid() && Roots(scores, Matched(parameters, fisher))
      modifies this, regularizer
      ensures Valid()
      ensures ok <==> id != "" && samples > 0 && WellShaped(parameters, fisher) && Matched(parameters, fisher) != map[]
      ensures !ok ==> history == old(history) && records == old(records) && domains == old(domains)
      ensures !ok ==> regularizer.snapshots == old(regularizer.snapshots)
      ensures ok ==> history == old(history) + [Snapshot(Matched(parameters, fisher), parameters)]
      ensures ok ==> records == old(records) + [Domain(id, samples)]
    {
      ok := id != "" && samples > 0 && CheckFisher(parameters, fisher) && Matched(parameters, fisher) != map[];
      if !ok { return; }
      MatchesRoots(parameters, fisher, scores);
      ghost var snapshot := Snapshot(Matched(parameters, fisher), parameters);
      Extended(history, merged, snapshot, eps);
      ExtendedRecords(records, merged, Domain(id, samples));
      regularizer.Consolidate(parameters, scores);
      domains := domains + [Domain(id, samples)];
      history, records := history + [snapshot], records + [Domain(id, samples)];
      if |history| == 1 { merged := 1; }
      EnforceDomainBudget();
    }

    /** The checks on the Fisher entries. */
    predicate CheckFisher(parameters: Parameters, fisher: map<string, Vector>)
      ensures CheckFisher(parameters, fisher) <==> WellShaped(parameters, fisher)
    {
      forall n | n in fisher.Keys :: n in parameters ==>
        |fisher[n]| == |parameters[n]| && forall i :: 0 <= i < |fisher[n]| ==> fisher[n][i] >= 0.0
    }

    /** No sample is lost, however often records were joined. */
    lemma SamplesAreKept()
      requires Valid() && history != []
      ensures |domains| == |regularizer.snapshots|
      ensures Samples(domains, |domains|) == Samples(records, |records|)
    {
      JoinedSamples(records, merged);
      SamplesSplit(records, merged, |records|);
      SamplesFront(Joined(records, merged), records[merged..], |records| - merged);
    }

    /** While no merge did harm, the penalty of the bounded snapshots and that of all
        snapshots differ by a constant. */
    lemma PenaltyIsKept(shapes: Shapes, x: Parameters, y: Parameters)
      requires Valid() && Shaped(x, shapes) && Shaped(y, shapes)
      requires history != [] ==> HarmlessFold(history, merged, eps, shapes)
      ensures Penalty(regularizer.strength, history, x) - Penalty(regularizer.strength, regularizer.snapshots, x) ==
        Penalty(regularizer.strength, history, y) - Penalty(regularizer.strength, regularizer.snapshots, y)
    {
      if history != [] { RunIsConstant(regularizer.strength, history, merged, eps, shapes, x, y); }
    }

    /** And they do so exactly when the merged snapshot has the moments of all that
        were merged into it. */
    lemma PenaltyIsKeptIff(shapes: Shapes)
      requires Valid() && history != [] && AllSane(history, shapes) && regularizer.strength != 0.0
      ensures MomentsKept(history, merged, eps, shapes) <==>
        forall x :: Shaped(x, shapes) ==> Beyond(x) == Beyond(Zeros(shapes))
    {
      RunIsConstantIff(regularizer.strength, history, merged, eps, shapes);
      forall x ensures Beyond(x) == PenaltyGap(regularizer.strength, history, merged, eps, x) { }
      hide Shaped;
      hide MomentsKept;
      hide PenaltyGap;
    }

    /** What the penalty of all snapshots is beyond that of the bounded ones. */
    ghost function Beyond(x: Parameters): real
      reads this, regularizer
    {
      Penalty(regularizer.strength, history, x) - Penalty(regularizer.strength, regularizer.snapshots, x)
    }
  }

  lemma MatchesRoots(parameters: Parameters, fisher: map<string, Vector>, scores: map<string, Vector>)
    requires Roots(scores, Matched(parameters, fisher))
    ensures Anchored(parameters, scores) == Snapshot(Matched(parameters, fisher), parameters)
  {
    assert Anchored(parameters, scores).fisher == Matched(parameters, fisher);
  }

  lemma MergedOnce(history: seq<Snapshot>, k: nat, eps: real)
    requires 1 <= k < |history| && eps > 0.0
    ensures var held := Bounded(history, k, eps);
      Bounded(history, k + 1, eps) == [Merge(held[0], held[1], eps)] + held[2..]
  {
    var held := Bounded(history, k, eps);
    assert held[1] == history[k] && held[2..] == history[k + 1..];
  }

  lemma JoinedOnce(records: seq<Domain>, k: nat)
    requires 1 <= k < |records|
    ensures var held := [Joined(records, k)] + records[k..];
      [Joined(records, k + 1)] + records[k + 1..] == [Join(held[0], held[1])] + held[2..]
  {
    var held := [Joined(records, k)] + records[k..];
    assert held[1] == records[k] && held[2..] == records[k + 1..];
  }

  lemma {:induction false} FoldExtended(history: seq<Snapshot>, k: nat, s: Snapshot, eps: real)
    requires 1 <= k <= |history| && eps > 0.0
    ensures Fold(history + [s], k, eps) == Fold(history, k, eps)
    decreases k
  {
    if k > 1 { FoldExtended(history, k - 1, s, eps); }
  }

  lemma {:induction false} JoinedExtended(records: seq<Domain>, k: nat, d: Domain)
    requires 1 <= k <= |records|
    ensures Joined(records + [d], k) == Joined(records, k)
    decreases k
  {
    if k > 1 { JoinedExtended(records, k - 1, d); }
  }

  lemma Extended(history: seq<Snapshot>, k: nat, s: Snapshot, eps: real)
    requires eps > 0.0 && (history != [] ==> 1 <= k <= |history|)
    ensures history != [] ==> Bounded(history + [s], k, eps) == Bounded(history, k, eps) + [s]
    ensures history == [] ==> Bounded(history + [s], 1, eps) == [s]
  {
    if history != [] {
      FoldExtended(history, k, s, eps);
      assert (history + [s])[k..] == history[k..] + [s];
    }
  }

  lemma ExtendedRecords(records: seq<Domain>, k: nat, d: Domain)
    requires records != [] ==> 1 <= k <= |records|
    ensures records != [] ==> [Joined(records + [d], k)] + (records + [d])[k..] == [Joined(records, k)] + records[k..] + [d]
    ensures records == [] ==> [Joined(records + [d], 1)] + (records + [d])[1..] == [d]
  {
    if records != [] {
      JoinedExtended(records, k, d);
      assert (records + [d])[k..] == records[k..] + [d];
    }
  }

  lemma {:induction false} SamplesSplit(records: seq<Domain>, k: nat, n: nat)
    requires k <= n <= |records|
    ensures Samples(records, n) == Samples(records, k) + Samples(records[k..], n - k)
    decreases n
  {
    if n > k {
      SamplesSplit(records, k, n - 1);
      assert records[k..][n - 1 - k] == records[n - 1];
    } else {
      assert Samples(records[k..], 0) == 0;
    }
  }

  lemma {:induction false} SamplesFront(d: Domain, rest: seq<Domain>, n: nat)
    requires n <= |rest|
    ensures Samples([d] + rest, n + 1) == d.samples + Samples(rest, n)
    decreases n
  {
    if n > 0 {
      SamplesFront(d, rest, n - 1);
      assert ([d] + rest)[n] == rest[n - 1];
    } else {
      assert Samples([d] + rest, 0) == 0;
    }
  }
}
