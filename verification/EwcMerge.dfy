/** Merging of domain snapshots: `_enforce_domain_budget` of
    `cogni_core/adaptation.py` against the penalty of `cogni_core/fp_ewc.py`.

    Numbers are `real`; a tensor is the vector of its entries. */
module EwcMerge {

  type Vector = seq<real>

  /** The parameter vectors by name. */
  type Parameters = map<string, Vector>

  datatype Snapshot = Snapshot(fisher: map<string, Vector>, anchor: map<string, Vector>)

  /** The shapes of the model. */
  type Shapes = map<string, nat>

  predicate Shaped(x: Parameters, shapes: Shapes) {
    x.Keys == shapes.Keys && forall n :: n in x ==> |x[n]| == shapes[n]
  }

  ghost predicate Sane(s: Snapshot, shapes: Shapes) {
    forall n :: n in s.fisher ==>
      && n in s.anchor && n in shapes && |s.fisher[n]| == |s.anchor[n]| == shapes[n]
      && forall i :: 0 <= i < |s.fisher[n]| ==> s.fisher[n][i] >= 0.0
  }

  // ------------------------------------------------------------------
  // The penalty
  // ------------------------------------------------------------------

  function Square(x: real): real { x * x }

  /** What one entry costs. */
  function Cost(f: real, x: real, a: real): real { f * Square(x - a) }

  /** The sum of f * (x - a)^2 over all entries. */
  function Quad(f: Vector, x: Vector, a: Vector): real
    requires |f| == |x| == |a|
  {
    if f == [] then 0.0 else Cost(f[0], x[0], a[0]) + Quad(f[1..], x[1..], a[1..])
  }

  /** What one name adds; a name that is no parameter adds nothing. */
  function Term(s: Snapshot, x: Parameters, n: string): real {
    if n in s.fisher && n in s.anchor && n in x && |s.fisher[n]| == |s.anchor[n]| == |x[n]|
    then Quad(s.fisher[n], x[n], s.anchor[n]) else 0.0
  }

  ghost function SumOver(s: Snapshot, x: Parameters, names: set<string>): real {
    if names == {} then 0.0
    else var n :| n in names; Term(s, x, n) + SumOver(s, x, names - {n})
  }

  ghost function Energy(s: Snapshot, x: Parameters): real {
    SumOver(s, x, s.fisher.Keys)
  }

  ghost function TotalEnergy(snapshots: seq<Snapshot>, x: Parameters): real {
    if snapshots == [] then 0.0
    else TotalEnergy(snapshots[..|snapshots| - 1], x) + Energy(snapshots[|snapshots| - 1], x)
  }

  function Weighted(strength: real, energy: real): real {
    0.5 * strength * energy
  }

  /** `penalty`. */
  ghost function Penalty(strength: real, snapshots: seq<Snapshot>, x: Parameters): real {
    Weighted(strength, TotalEnergy(snapshots, x))
  }

  // ------------------------------------------------------------------
  // Merging two snapshots
  // ------------------------------------------------------------------

  function Max(a: real, b: real): real { if a >= b then a else b }

  function Mean(f1: real, a1: real, f2: real, a2: real, eps: real): real
    requires eps > 0.0
  {
    (f1 * a1 + f2 * a2) / Max(f1 + f2, eps)
  }

  function Added(f1: Vector, f2: Vector): Vector
    requires |f1| == |f2|
  {
    seq(|f1|, i requires 0 <= i < |f1| => f1[i] + f2[i])
  }

  function Averaged(f1: Vector, a1: Vector, f2: Vector, a2: Vector, eps: real): Vector
    requires |f1| == |f2| == |a1| == |a2| && eps > 0.0
  {
    seq(|f1|, i requires 0 <= i < |f1| => Mean(f1[i], a1[i], f2[i], a2[i], eps))
  }

  function MergedFisher(s: Snapshot, t: Snapshot, n: string): Vector
    requires n in s.fisher || n in t.fisher
  {
    if n !in s.fisher || n !in s.anchor then (if n in t.fisher then t.fisher[n] else [])
    else if n !in t.fisher || n !in t.anchor then s.fisher[n]
    else if |s.fisher[n]| == |t.fisher[n]| then Added(s.fisher[n], t.fisher[n]) else []
  }

  function MergedAnchor(s: Snapshot, t: Snapshot, n: string, eps: real): Vector
    requires (n in s.fisher || n in t.fisher) && eps > 0.0
  {
    if n !in s.fisher || n !in s.anchor then (if n in t.anchor then t.anchor[n] else [])
    else if n !in t.fisher || n !in t.anchor then s.anchor[n]
    else if |s.fisher[n]| == |t.fisher[n]| == |s.anchor[n]| == |t.anchor[n]|
    then Averaged(s.fisher[n], s.anchor[n], t.fisher[n], t.anchor[n], eps) else []
  }

  /** One turn of the budget loop on the two oldest snapshots. */
  function Merge(s: Snapshot, t: Snapshot, eps: real): Snapshot
    requires eps > 0.0
  {
    Snapshot(map n | n in s.fisher.Keys + t.fisher.Keys :: MergedFisher(s, t, n),
             map n | n in s.fisher.Keys + t.fisher.Keys :: MergedAnchor(s, t, n, eps))
  }

  /** The guard on the denominator does no harm to this entry. */
  predicate Harmless(f1: real, a1: real, f2: real, a2: real, eps: real) {
    f1 + f2 >= eps || f1 * a1 + f2 * a2 == 0.0
  }

  predicate HarmlessVectors(f1: Vector, a1: Vector, f2: Vector, a2: Vector, eps: real)
    requires |f1| == |f2| == |a1| == |a2|
  {
    forall i :: 0 <= i < |f1| ==> Harmless(f1[i], a1[i], f2[i], a2[i], eps)
  }

  /** No shared entry is harmed. */
  ghost predicate Mergeable(s: Snapshot, t: Snapshot, eps: real, shapes: Shapes)
    requires Sane(s, shapes) && Sane(t, shapes)
  {
    forall n :: n in s.fisher && n in t.fisher ==> HarmlessVectors(s.fisher[n], s.anchor[n], t.fisher[n], t.anchor[n], eps)
  }

  // ------------------------------------------------------------------
  // One entry
  // ------------------------------------------------------------------

  /** What two quadratics cost at `x` beyond a third one. */
  function Gap(f1: real, a1: real, f2: real, a2: real, f: real, m: real, x: real): real {
    Cost(f1, x, a1) + Cost(f2, x, a2) - Cost(f, x, m)
  }

  /** How the gradients differ. */
  function Pull(f1: real, a1: real, f2: real, a2: real, f: real, m: real): real {
    2.0 * (f * m - (f1 * a1 + f2 * a2))
  }

  /** What two entries cost beyond the merged one. */
  function Excess(f1: real, a1: real, f2: real, a2: real, x: real, eps: real): real
    requires eps > 0.0
  {
    Gap(f1, a1, f2, a2, f1 + f2, Mean(f1, a1, f2, a2, eps), x)
  }

  /** How fast the excess grows with the parameter. */
  function Slope(f1: real, a1: real, f2: real, a2: real, eps: real): real
    requires eps > 0.0
  {
    Pull(f1, a1, f2, a2, f1 + f2, Mean(f1, a1, f2, a2, eps))
  }

  lemma Moved(f: real, x: real, a: real)
    ensures f * Square(x - a) - f * Square(0.0 - a) == f * Square(x) - 2.0 * (x * (f * a))
  {
    var sx, sa := Square(x), Square(a);
    assert Square(x - a) == sx - 2.0 * (x * a) + sa;
    assert Square(0.0 - a) == sa;
    var xa := x * a;
    assert f * (sx - 2.0 * xa + sa) == f * sx - 2.0 * (f * xa) + f * sa;
    assert f * xa == x * (f * a);
  }

  lemma Linear(x: real, p: real, q: real, r: real)
    ensures 2.0 * (x * r) - 2.0 * (x * p) - 2.0 * (x * q) == x * (2.0 * (r - (p + q)))
  {
  }

  lemma Gathered(f1: real, f2: real, y: real)
    ensures (f1 + f2) * y == f1 * y + f2 * y
  {
  }

  function Along(x: real, slope: real): real { x * slope }

  lemma Spread(f1: real, a1: real, f2: real, a2: real, f: real, m: real, x: real)
    requires f * Square(x) == f1 * Square(x) + f2 * Square(x)
    ensures Gap(f1, a1, f2, a2, f, m, x) == Gap(f1, a1, f2, a2, f, m, 0.0) + Along(x, Pull(f1, a1, f2, a2, f, m))
  {
    Moved(f1, x, a1);
    Moved(f2, x, a2);
    Moved(f, x, m);
    Linear(x, f1 * a1, f2 * a2, f * m);
    hide Square;
  }

  /** The excess is linear in the parameter. */
  lemma ExcessIsLinear(f1: real, a1: real, f2: real, a2: real, x: real, eps: real)
    requires eps > 0.0
    ensures Excess(f1, a1, f2, a2, x, eps) == Excess(f1, a1, f2, a2, 0.0, eps) + Along(x, Slope(f1, a1, f2, a2, eps))
  {
    Gathered(f1, f2, Square(x));
    Spread(f1, a1, f2, a2, f1 + f2, Mean(f1, a1, f2, a2, eps), x);
    hide Square;
    hide Mean;
    hide Gap;
    hide Pull;
    hide Along;
  }

  /** The slope vanishes exactly when the guard does no harm. */
  lemma SlopeVanishes(f1: real, a1: real, f2: real, a2: real, eps: real)
    requires eps > 0.0 && f1 >= 0.0 && f2 >= 0.0
    ensures Slope(f1, a1, f2, a2, eps) == 0.0 <==> Harmless(f1, a1, f2, a2, eps)
  {
    var total, m := f1 + f2, f1 * a1 + f2 * a2;
    var mean := Mean(f1, a1, f2, a2, eps);
    if total >= eps {
      assert mean == m / total && total * mean == m;
    } else {
      assert mean == m / eps && eps * mean == m;
      assert total * mean - m == (total - eps) * mean;
      if m != 0.0 {
        assert mean != 0.0;
        assert (total - eps) * mean != 0.0;
      }
    }
  }

  // ------------------------------------------------------------------
  // One vector
  // ------------------------------------------------------------------

  lemma TailsAgree(f1: Vector, a1: Vector, f2: Vector, a2: Vector, eps: real)
    requires |f1| == |f2| == |a1| == |a2| > 0 && eps > 0.0
    ensures Added(f1, f2)[1..] == Added(f1[1..], f2[1..])
    ensures Averaged(f1, a1, f2, a2, eps)[1..] == Averaged(f1[1..], a1[1..], f2[1..], a2[1..], eps)
  {
  }

  /** What two vectors cost beyond the merged one. */
  function VectorExcess(f1: Vector, a1: Vector, f2: Vector, a2: Vector, x: Vector, eps: real): real
    requires |f1| == |f2| == |a1| == |a2| == |x| && eps > 0.0
  {
    Quad(f1, x, a1) + Quad(f2, x, a2) - Quad(Added(f1, f2), x, Averaged(f1, a1, f2, a2, eps))
  }

  lemma VectorExcessStep(f1: Vector, a1: Vector, f2: Vector, a2: Vector, x: Vector, eps: real)
    requires |f1| == |f2| == |a1| == |a2| == |x| > 0 && eps > 0.0
    ensures VectorExcess(f1, a1, f2, a2, x, eps) ==
      Excess(f1[0], a1[0], f2[0], a2[0], x[0], eps) + VectorExcess(f1[1..], a1[1..], f2[1..], a2[1..], x[1..], eps)
  {
    TailsAgree(f1, a1, f2, a2, eps);
    assert Added(f1, f2)[0] == f1[0] + f2[0];
    assert Averaged(f1, a1, f2, a2, eps)[0] == Mean(f1[0], a1[0], f2[0], a2[0], eps);
    hide Cost;
    hide Mean;
  }

  ghost predicate NonNegative(f: Vector) {
    forall i :: 0 <= i < |f| ==> f[i] >= 0.0
  }

  /** With harmless entries the excess is the same for all parameters. */
  lemma {:induction false} VectorExcessIsConstant(f1: Vector, a1: Vector, f2: Vector, a2: Vector, x: Vector, y: Vector, eps: real)
    requires |f1| == |f2| == |a1| == |a2| == |x| == |y| && eps > 0.0
    requires NonNegative(f1) && NonNegative(f2) && HarmlessVectors(f1, a1, f2, a2, eps)
    ensures VectorExcess(f1, a1, f2, a2, x, eps) == VectorExcess(f1, a1, f2, a2, y, eps)
    decreases |f1|
  {
    if f1 != [] {
      VectorExcessStep(f1, a1, f2, a2, x, eps);
      VectorExcessStep(f1, a1, f2, a2, y, eps);
      EntryIsConstant(f1[0], a1[0], f2[0], a2[0], x[0], y[0], eps);
      VectorExcessIsConstant(f1[1..], a1[1..], f2[1..], a2[1..], x[1..], y[1..], eps);
      hide *;
    }
  }

  lemma EntryIsConstant(f1: real, a1: real, f2: real, a2: real, x: real, y: real, eps: real)
    requires eps > 0.0 && f1 >= 0.0 && f2 >= 0.0 && Harmless(f1, a1, f2, a2, eps)
    ensures Excess(f1, a1, f2, a2, x, eps) == Excess(f1, a1, f2, a2, y, eps)
  {
    ExcessIsLinear(f1, a1, f2, a2, x, eps);
    ExcessIsLinear(f1, a1, f2, a2, y, eps);
    SlopeVanishes(f1, a1, f2, a2, eps);
    assert Along(x, 0.0) == Along(y, 0.0) == 0.0;
    hide *;
  }

  /** Moving one entry by one moves the excess by its slope. */
  lemma {:induction false} VectorExcessMoves(f1: Vector, a1: Vector, f2: Vector, a2: Vector, x: Vector, i: nat, eps: real)
    requires |f1| == |f2| == |a1| == |a2| == |x| && i < |f1| && eps > 0.0
    ensures VectorExcess(f1, a1, f2, a2, x[i := x[i] + 1.0], eps) ==
      VectorExcess(f1, a1, f2, a2, x, eps) + Slope(f1[i], a1[i], f2[i], a2[i], eps)
    decreases i
  {
    var y := x[i := x[i] + 1.0];
    VectorExcessStep(f1, a1, f2, a2, x, eps);
    VectorExcessStep(f1, a1, f2, a2, y, eps);
    if i == 0 {
      assert y[1..] == x[1..];
      EntryMoves(f1[0], a1[0], f2[0], a2[0], x[0], eps);
      hide *;
    } else {
      assert y[1..] == x[1..][i - 1 := x[1..][i - 1] + 1.0] && y[0] == x[0];
      VectorExcessMoves(f1[1..], a1[1..], f2[1..], a2[1..], x[1..], i - 1, eps);
      hide *;
    }
  }

  lemma EntryMoves(f1: real, a1: real, f2: real, a2: real, x: real, eps: real)
    requires eps > 0.0
    ensures Excess(f1, a1, f2, a2, x + 1.0, eps) == Excess(f1, a1, f2, a2, x, eps) + Slope(f1, a1, f2, a2, eps)
  {
    ExcessIsLinear(f1, a1, f2, a2, x, eps);
    ExcessIsLinear(f1, a1, f2, a2, x + 1.0, eps);
    OneMore(x, Slope(f1, a1, f2, a2, eps));
    hide *;
  }

  lemma OneMore(x: real, s: real)
    ensures Along(x + 1.0, s) == Along(x, s) + s
  {
  }

  // ------------------------------------------------------------------
  // One merge
  // ------------------------------------------------------------------

  /** The sum may be taken in any order. */
  lemma {:induction false} Pick(s: Snapshot, x: Parameters, names: set<string>, n: string)
    requires n in names
    ensures SumOver(s, x, names) == Term(s, x, n) + SumOver(s, x, names - {n})
    decreases |names|
  {
    var m :| m in names && SumOver(s, x, names) == Term(s, x, m) + SumOver(s, x, names - {m});
    if m != n {
      Pick(s, x, names - {m}, n);
      Pick(s, x, names - {n}, m);
      assert names - {m} - {n} == names - {n} - {m};
    }
  }

  /** Names without entries add nothing. */
  lemma {:induction false} Wider(s: Snapshot, x: Parameters, names: set<string>)
    requires s.fisher.Keys <= names
    ensures SumOver(s, x, names) == Energy(s, x)
    decreases |names|
  {
    if names != s.fisher.Keys {
      var n :| n in names && n !in s.fisher;
      Pick(s, x, names, n);
      Wider(s, x, names - {n});
    }
  }

  /** What the two snapshots cost beyond the merged one. */
  ghost function MergeExcess(s: Snapshot, t: Snapshot, x: Parameters, eps: real): real
    requires eps > 0.0
  {
    Energy(s, x) + Energy(t, x) - Energy(Merge(s, t, eps), x)
  }

  ghost function NameExcess(s: Snapshot, t: Snapshot, x: Parameters, eps: real, n: string): real
    requires eps > 0.0
  {
    Term(s, x, n) + Term(t, x, n) - Term(Merge(s, t, eps), x, n)
  }

  lemma SharedName(s: Snapshot, t: Snapshot, x: Parameters, eps: real, n: string, shapes: Shapes)
    requires Sane(s, shapes) && Sane(t, shapes) && Shaped(x, shapes) && eps > 0.0
    requires n in s.fisher && n in t.fisher
    ensures n in shapes && |x[n]| == |s.fisher[n]| == |t.fisher[n]| == |s.anchor[n]| == |t.anchor[n]|
    ensures NameExcess(s, t, x, eps, n) == VectorExcess(s.fisher[n], s.anchor[n], t.fisher[n], t.anchor[n], x[n], eps)
  {
    hide Quad;
  }

  lemma OtherName(s: Snapshot, t: Snapshot, x: Parameters, eps: real, n: string, shapes: Shapes)
    requires Sane(s, shapes) && Sane(t, shapes) && Shaped(x, shapes) && eps > 0.0
    requires n in s.fisher.Keys + t.fisher.Keys && !(n in s.fisher && n in t.fisher)
    ensures NameExcess(s, t, x, eps, n) == 0.0
  {
    hide Quad;
  }

  lemma NameIsConstant(s: Snapshot, t: Snapshot, x: Parameters, y: Parameters, eps: real, n: string, shapes: Shapes)
    requires Sane(s, shapes) && Sane(t, shapes) && Shaped(x, shapes) && Shaped(y, shapes) && eps > 0.0
    requires Mergeable(s, t, eps, shapes) && n in s.fisher.Keys + t.fisher.Keys
    ensures NameExcess(s, t, x, eps, n) == NameExcess(s, t, y, eps, n)
  {
    if n in s.fisher && n in t.fisher {
      SharedName(s, t, x, eps, n, shapes);
      SharedName(s, t, y, eps, n, shapes);
      VectorExcessIsConstant(s.fisher[n], s.anchor[n], t.fisher[n], t.anchor[n], x[n], y[n], eps);
    } else {
      OtherName(s, t, x, eps, n, shapes);
      OtherName(s, t, y, eps, n, shapes);
    }
  }

  /** The excess over some names, at two parameters that agree on all other names. */
  lemma {:induction false} NamesAgree(s: Snapshot, t: Snapshot, x: Parameters, y: Parameters, eps: real, names: set<string>)
    requires eps > 0.0 && forall n :: n in names ==> NameExcess(s, t, x, eps, n) == NameExcess(s, t, y, eps, n)
    ensures SumOver(s, x, names) + SumOver(t, x, names) - SumOver(Merge(s, t, eps), x, names) ==
      SumOver(s, y, names) + SumOver(t, y, names) - SumOver(Merge(s, t, eps), y, names)
    decreases |names|
  {
    if names != {} {
      var n :| n in names;
      var m := Merge(s, t, eps);
      Pick(s, x, names, n);
      Pick(t, x, names, n);
      Pick(m, x, names, n);
      Pick(s, y, names, n);
      Pick(t, y, names, n);
      Pick(m, y, names, n);
      NamesAgree(s, t, x, y, eps, names - {n});
      assert NameExcess(s, t, x, eps, n) == NameExcess(s, t, y, eps, n);
      hide SumOver;
      hide Term;
      hide Merge;
    }
  }

  lemma ExcessOverUnion(s: Snapshot, t: Snapshot, x: Parameters, eps: real)
    requires eps > 0.0
    ensures var names := s.fisher.Keys + t.fisher.Keys;
      MergeExcess(s, t, x, eps) == SumOver(s, x, names) + SumOver(t, x, names) - SumOver(Merge(s, t, eps), x, names)
  {
    var names := s.fisher.Keys + t.fisher.Keys;
    Wider(s, x, names);
    Wider(t, x, names);
    assert Merge(s, t, eps).fisher.Keys == names;
  }

  /** A harmless merge changes the penalty by a constant. */
  lemma MergeIsConstant(s: Snapshot, t: Snapshot, x: Parameters, y: Parameters, eps: real, shapes: Shapes)
    requires Sane(s, shapes) && Sane(t, shapes) && Shaped(x, shapes) && Shaped(y, shapes) && eps > 0.0
    requires Mergeable(s, t, eps, shapes)
    ensures MergeExcess(s, t, x, eps) == MergeExcess(s, t, y, eps)
  {
    var names := s.fisher.Keys + t.fisher.Keys;
    forall n | n in names ensures NameExcess(s, t, x, eps, n) == NameExcess(s, t, y, eps, n) {
      NameIsConstant(s, t, x, y, eps, n, shapes);
    }
    ExcessOverUnion(s, t, x, eps);
    ExcessOverUnion(s, t, y, eps);
    NamesAgree(s, t, x, y, eps, names);
  }

  function Zeros(shapes: Shapes): Parameters {
    map n | n in shapes :: seq(shapes[n], _ => 0.0)
  }

  ghost function ExcessSum(s: Snapshot, t: Snapshot, x: Parameters, eps: real, names: set<string>): real
    requires eps > 0.0
  {
    SumOver(s, x, names) + SumOver(t, x, names) - SumOver(Merge(s, t, eps), x, names)
  }

  lemma ExcessPick(s: Snapshot, t: Snapshot, x: Parameters, eps: real, names: set<string>, n: string)
    requires eps > 0.0 && n in names
    ensures ExcessSum(s, t, x, eps, names) == NameExcess(s, t, x, eps, n) + ExcessSum(s, t, x, eps, names - {n})
  {
    Pick(s, x, names, n);
    Pick(t, x, names, n);
    Pick(Merge(s, t, eps), x, names, n);
    hide SumOver;
    hide Term;
    hide Merge;
  }

  lemma OtherNameSame(s: Snapshot, t: Snapshot, x: Parameters, y: Parameters, eps: real, m: string)
    requires eps > 0.0 && (m in x <==> m in y) && (m in x ==> x[m] == y[m])
    ensures NameExcess(s, t, x, eps, m) == NameExcess(s, t, y, eps, m)
  {
    hide Quad;
    hide Merge;
  }

  /** A harmed entry makes the merged penalty of its vector pull differently. */
  lemma HarmMovesName(s: Snapshot, t: Snapshot, eps: real, shapes: Shapes, n: string, i: nat)
    requires Sane(s, shapes) && Sane(t, shapes) && eps > 0.0
    requires n in s.fisher && n in t.fisher && i < |s.fisher[n]|
    requires !Harmless(s.fisher[n][i], s.anchor[n][i], t.fisher[n][i], t.anchor[n][i], eps)
    ensures var x := Zeros(shapes);
      && Shaped(x, shapes) && n in x && i < |x[n]| && Shaped(x[n := x[n][i := 1.0]], shapes)
      && NameExcess(s, t, x, eps, n) != NameExcess(s, t, x[n := x[n][i := 1.0]], eps, n)
  {
    var x := Zeros(shapes);
    var y := x[n := x[n][i := 1.0]];
    hide Harmless;
    hide Term;
    hide Merge;
    SharedName(s, t, x, eps, n, shapes);
    assert x[n][i] == 0.0 && 0.0 + 1.0 == 1.0;
    assert Shaped(y, shapes);
    SharedName(s, t, y, eps, n, shapes);
    VectorExcessMoves(s.fisher[n], s.anchor[n], t.fisher[n], t.anchor[n], x[n], i, eps);
    SlopeVanishes(s.fisher[n][i], s.anchor[n][i], t.fisher[n][i], t.anchor[n][i], eps);
    hide NameExcess;
    hide VectorExcess;
    hide Slope;
  }

  /** And so that of the whole. */
  lemma HarmShows(s: Snapshot, t: Snapshot, eps: real, shapes: Shapes, n: string, i: nat)
    requires Sane(s, shapes) && Sane(t, shapes) && eps > 0.0
    requires n in s.fisher && n in t.fisher && i < |s.fisher[n]|
    requires !Harmless(s.fisher[n][i], s.anchor[n][i], t.fisher[n][i], t.anchor[n][i], eps)
    ensures var x := Zeros(shapes);
      && Shaped(x, shapes) && n in x && i < |x[n]| && Shaped(x[n := x[n][i := 1.0]], shapes)
      && MergeExcess(s, t, x, eps) != MergeExcess(s, t, x[n := x[n][i := 1.0]], eps)
  {
    HarmMovesName(s, t, eps, shapes, n, i);
    var x := Zeros(shapes);
    var y := x[n := x[n][i := 1.0]];
    var names := s.fisher.Keys + t.fisher.Keys;
    forall m | m in names - {n} ensures NameExcess(s, t, x, eps, m) == NameExcess(s, t, y, eps, m) {
      OtherNameSame(s, t, x, y, eps, m);
    }
    ExcessOverUnion(s, t, x, eps);
    ExcessOverUnion(s, t, y, eps);
    ExcessPick(s, t, x, eps, names, n);
    ExcessPick(s, t, y, eps, names, n);
    NamesAgree(s, t, x, y, eps, names - {n});
    hide *;
  }

  /** A merge preserves the penalty up to a constant exactly when the guard on the
      denominator harms no shared entry. */
  lemma MergeIsExactIff(s: Snapshot, t: Snapshot, eps: real, shapes: Shapes)
    requires Sane(s, shapes) && Sane(t, shapes) && eps > 0.0
    ensures Mergeable(s, t, eps, shapes) <==>
      forall x, y :: Shaped(x, shapes) && Shaped(y, shapes) ==> MergeExcess(s, t, x, eps) == MergeExcess(s, t, y, eps)
  {
    if Mergeable(s, t, eps, shapes) {
      forall x, y | Shaped(x, shapes) && Shaped(y, shapes) ensures MergeExcess(s, t, x, eps) == MergeExcess(s, t, y, eps) {
        MergeIsConstant(s, t, x, y, eps, shapes);
      }
    } else {
      var n :| n in s.fisher && n in t.fisher && !HarmlessVectors(s.fisher[n], s.anchor[n], t.fisher[n], t.anchor[n], eps);
      var i: nat :| i < |s.fisher[n]| && !Harmless(s.fisher[n][i], s.anchor[n][i], t.fisher[n][i], t.anchor[n][i], eps);
      HarmShows(s, t, eps, shapes, n, i);
    }
  }

  // ------------------------------------------------------------------
  // A whole run
  // ------------------------------------------------------------------

  /** The first `k` snapshots, merged from the oldest on. */
  ghost function Fold(history: seq<Snapshot>, k: nat, eps: real): Snapshot
    requires 1 <= k <= |history| && eps > 0.0
  {
    if k == 1 then history[0] else Merge(Fold(history, k - 1, eps), history[k - 1], eps)
  }

  lemma MergeIsSane(s: Snapshot, t: Snapshot, eps: real, shapes: Shapes)
    requires Sane(s, shapes) && Sane(t, shapes) && eps > 0.0
    ensures Sane(Merge(s, t, eps), shapes)
  {
  }

  ghost predicate AllSane(history: seq<Snapshot>, shapes: Shapes) {
    forall i :: 0 <= i < |history| ==> Sane(history[i], shapes)
  }

  lemma {:induction false} FoldIsSane(history: seq<Snapshot>, k: nat, eps: real, shapes: Shapes)
    requires 1 <= k <= |history| && eps > 0.0 && AllSane(history, shapes)
    ensures Sane(Fold(history, k, eps), shapes)
    decreases k
  {
    if k > 1 {
      FoldIsSane(history, k - 1, eps, shapes);
      MergeIsSane(Fold(history, k - 1, eps), history[k - 1], eps, shapes);
    }
  }

  /** Every merge on the way was harmless. */
  ghost predicate HarmlessFold(history: seq<Snapshot>, k: nat, eps: real, shapes: Shapes)
    requires 1 <= k <= |history| && eps > 0.0
  {
    forall i :: 1 <= i < k ==> HarmlessStep(history, i, eps, shapes)
  }

  ghost predicate HarmlessStep(history: seq<Snapshot>, i: nat, eps: real, shapes: Shapes)
    requires 1 <= i < |history| && eps > 0.0
  {
    && Sane(Fold(history, i, eps), shapes) && Sane(history[i], shapes)
    && Mergeable(Fold(history, i, eps), history[i], eps, shapes)
  }

  lemma TotalSnoc(history: seq<Snapshot>, k: nat, x: Parameters)
    requires 1 <= k <= |history|
    ensures TotalEnergy(history[..k], x) == TotalEnergy(history[..k - 1], x) + Energy(history[k - 1], x)
  {
    assert history[..k][..k - 1] == history[..k - 1];
  }

  lemma {:induction false} TotalSplits(a: seq<Snapshot>, b: seq<Snapshot>, x: Parameters)
    ensures TotalEnergy(a + b, x) == TotalEnergy(a, x) + TotalEnergy(b, x)
    decreases |b|
  {
    if b == [] {
      assert a + b == a;
    } else {
      var n := |b| - 1;
      assert (a + b)[..|a + b| - 1] == a + b[..n];
      TotalSplits(a, b[..n], x);
    }
  }

  lemma {:induction false} FoldIsConstant(history: seq<Snapshot>, k: nat, eps: real, shapes: Shapes, x: Parameters, y: Parameters)
    requires 1 <= k <= |history| && eps > 0.0 && Shaped(x, shapes) && Shaped(y, shapes)
    requires HarmlessFold(history, k, eps, shapes)
    ensures TotalEnergy(history[..k], x) - Energy(Fold(history, k, eps), x) == TotalEnergy(history[..k], y) - Energy(Fold(history, k, eps), y)
    decreases k
  {
    TotalSnoc(history, k, x);
    TotalSnoc(history, k, y);
    assert TotalEnergy([], x) == TotalEnergy([], y) == 0.0;
    hide HarmlessStep;
    hide Energy;
    hide TotalEnergy;
    hide Merge;
    hide Shaped;
    if k == 1 {
      assert history[..0] == [];
    } else {
      assert HarmlessStep(history, k - 1, eps, shapes);
      FoldIsConstant(history, k - 1, eps, shapes, x, y);
      StepIsConstant(history, k - 1, eps, shapes, x, y);
      hide Fold;
      assert Fold(history, k - 1 + 1, eps) == Fold(history, k, eps);
    }
  }

  lemma StepIsConstant(history: seq<Snapshot>, i: nat, eps: real, shapes: Shapes, x: Parameters, y: Parameters)
    requires 1 <= i < |history| && eps > 0.0 && Shaped(x, shapes) && Shaped(y, shapes)
    requires HarmlessStep(history, i, eps, shapes)
    ensures Energy(Fold(history, i, eps), x) + Energy(history[i], x) - Energy(Fold(history, i + 1, eps), x) ==
      Energy(Fold(history, i, eps), y) + Energy(history[i], y) - Energy(Fold(history, i + 1, eps), y)
  {
    MergeIsConstant(Fold(history, i, eps), history[i], x, y, eps, shapes);
    assert Fold(history, i + 1, eps) == Merge(Fold(history, i, eps), history[i], eps);
    hide Energy;
    hide Merge;
  }

  /** What the lifecycle holds: the oldest `k` snapshots as one, and the others. */
  ghost function Bounded(history: seq<Snapshot>, k: nat, eps: real): seq<Snapshot>
    requires 1 <= k <= |history| && eps > 0.0
  {
    [Fold(history, k, eps)] + history[k..]
  }

  /** Over a whole run of consolidations, the bounded penalty and the unbounded one
      differ by a constant, so they have the same gradient. */
  lemma RunIsConstant(strength: real, history: seq<Snapshot>, k: nat, eps: real, shapes: Shapes, x: Parameters, y: Parameters)
    requires 1 <= k <= |history| && eps > 0.0 && Shaped(x, shapes) && Shaped(y, shapes)
    requires HarmlessFold(history, k, eps, shapes)
    ensures Penalty(strength, history, x) - Penalty(strength, Bounded(history, k, eps), x) ==
      Penalty(strength, history, y) - Penalty(strength, Bounded(history, k, eps), y)
  {
    FoldIsConstant(history, k, eps, shapes, x, y);
    BoundedEnergy(history, k, eps, x);
    BoundedEnergy(history, k, eps, y);
    hide *;
    SamePenalty(strength, history, Bounded(history, k, eps), x, y);
  }

  lemma SamePenalty(strength: real, a: seq<Snapshot>, b: seq<Snapshot>, x: Parameters, y: Parameters)
    requires TotalEnergy(a, x) - TotalEnergy(b, x) == TotalEnergy(a, y) - TotalEnergy(b, y)
    ensures Penalty(strength, a, x) - Penalty(strength, b, x) == Penalty(strength, a, y) - Penalty(strength, b, y)
  {
    hide TotalEnergy;
    WeightedDifference(strength, TotalEnergy(a, x), TotalEnergy(b, x));
    WeightedDifference(strength, TotalEnergy(a, y), TotalEnergy(b, y));
    hide Weighted;
  }

  lemma WeightedDifference(strength: real, a: real, b: real)
    ensures Weighted(strength, a) - Weighted(strength, b) == Weighted(strength, a - b)
  {
  }

  lemma BoundedEnergy(history: seq<Snapshot>, k: nat, eps: real, x: Parameters)
    requires 1 <= k <= |history| && eps > 0.0
    ensures TotalEnergy(history, x) - TotalEnergy(Bounded(history, k, eps), x) ==
      TotalEnergy(history[..k], x) - Energy(Fold(history, k, eps), x)
  {
    assert history == history[..k] + history[k..];
    TotalSplits(history[..k], history[k..], x);
    var front := [Fold(history, k, eps)];
    TotalSplits(front, history[k..], x);
    assert front[..0] == [];
  }

  // ------------------------------------------------------------------
  // A condition on the Fisher entries alone
  // ------------------------------------------------------------------

  /** Every entry is zero, or at least as large as the guard. */
  ghost predicate Granular(s: Snapshot, eps: real) {
    forall n :: n in s.fisher ==> forall i :: 0 <= i < |s.fisher[n]| ==> s.fisher[n][i] == 0.0 || s.fisher[n][i] >= eps
  }

  lemma GranularIsMergeable(s: Snapshot, t: Snapshot, eps: real, shapes: Shapes)
    requires Sane(s, shapes) && Sane(t, shapes) && Granular(s, eps) && Granular(t, eps) && eps > 0.0
    ensures Mergeable(s, t, eps, shapes) && Granular(Merge(s, t, eps), eps)
  {
    forall n | n in s.fisher && n in t.fisher
      ensures HarmlessVectors(s.fisher[n], s.anchor[n], t.fisher[n], t.anchor[n], eps)
    {
      forall i | 0 <= i < |s.fisher[n]| ensures Harmless(s.fisher[n][i], s.anchor[n][i], t.fisher[n][i], t.anchor[n][i], eps) {
        if s.fisher[n][i] == 0.0 && t.fisher[n][i] == 0.0 { assert 0.0 * s.anchor[n][i] + 0.0 * t.anchor[n][i] == 0.0; }
      }
    }
  }

  /** Whatever the order and number of consolidations: if no Fisher entry lies
      strictly between zero and the guard, no merge ever does harm. */
  lemma {:induction false} GranularRunIsHarmless(history: seq<Snapshot>, k: nat, eps: real, shapes: Shapes)
    requires 1 <= k <= |history| && eps > 0.0 && AllSane(history, shapes)
    requires forall i :: 0 <= i < |history| ==> Granular(history[i], eps)
    ensures HarmlessFold(history, k, eps, shapes) && Granular(Fold(history, k, eps), eps)
    decreases k
  {
    hide Granular;
    hide Sane;
    hide Mergeable;
    hide Merge;
    if k > 1 {
      GranularRunIsHarmless(history, k - 1, eps, shapes);
      FoldIsSane(history, k - 1, eps, shapes);
      assert Granular(history[k - 1], eps) && Sane(history[k - 1], shapes);
      GranularIsMergeable(Fold(history, k - 1, eps), history[k - 1], eps, shapes);
      assert HarmlessStep(history, k - 1, eps, shapes);
    }
  }
}
