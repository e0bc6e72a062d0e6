/** The exact condition under which a whole run of merges in
    `cogni_core/adaptation.py` keeps the penalty up to a constant.

    The gradient of a snapshot depends on its Fisher entries and on the products of
    Fisher entry and anchor, its moments. Merging adds the Fisher entries; whether it
    adds the moments is what decides. */
module EwcMoments {
  import opened EwcMerge

  // ------------------------------------------------------------------
  // Vectors
  // ------------------------------------------------------------------

  /** What one entry adds to the penalty between zero and `x`. */
  function Rise(f: real, p: real, x: real): real {
    f * Square(x) - 2.0 * (x * p)
  }

  function Poly(f: Vector, p: Vector, x: Vector): real
    requires |f| == |p| == |x|
  {
    if f == [] then 0.0 else Rise(f[0], p[0], x[0]) + Poly(f[1..], p[1..], x[1..])
  }

  function Times(f: Vector, a: Vector): Vector
    requires |f| == |a|
  {
    seq(|f|, i requires 0 <= i < |f| => Product(f[i], a[i]))
  }

  function Product(f: real, a: real): real { f * a }

  lemma TimesTail(f: Vector, a: Vector)
    requires |f| == |a| > 0
    ensures Times(f, a)[1..] == Times(f[1..], a[1..]) && Times(f, a)[0] == Product(f[0], a[0])
  {
    hide Product;
  }

  lemma NullsAdded(f: Vector)
    ensures Added(Nulls(|f|), f) == f
  {
  }

  function Nulls(n: nat): Vector {
    seq(n, _ => 0.0)
  }

  function Unit(n: nat, i: nat): Vector
    requires i < n
  {
    Nulls(n)[i := 1.0]
  }

  lemma CostRises(f: real, x: real, a: real)
    ensures Cost(f, x, a) == Cost(f, 0.0, a) + Rise(f, Product(f, a), x)
  {
    Moved(f, x, a);
    hide Square;
  }

  lemma {:induction false} QuadRises(f: Vector, x: Vector, a: Vector)
    requires |f| == |x| == |a|
    ensures Quad(f, x, a) == Quad(f, Nulls(|f|), a) + Poly(f, Times(f, a), x)
    decreases |f|
  {
    if f != [] {
      TimesTail(f, a);
      assert Nulls(|f|)[1..] == Nulls(|f[1..]|) && Nulls(|f|)[0] == 0.0;
      CostRises(f[0], x[0], a[0]);
      QuadRises(f[1..], x[1..], a[1..]);
      hide Cost;
      hide Rise;
      hide Times;
      hide Nulls;
      hide Product;
    }
  }

  lemma RiseAdds(f: real, p: real, g: real, q: real, x: real)
    ensures Rise(f + g, p + q, x) == Rise(f, p, x) + Rise(g, q, x)
  {
    Gathered(f, g, Square(x));
    hide Square;
  }

  lemma {:induction false} PolyAdds(f: Vector, p: Vector, g: Vector, q: Vector, x: Vector)
    requires |f| == |p| == |g| == |q| == |x|
    ensures Poly(Added(f, g), Added(p, q), x) == Poly(f, p, x) + Poly(g, q, x)
    decreases |f|
  {
    if f != [] {
      RiseAdds(f[0], p[0], g[0], q[0], x[0]);
      PolyAdds(f[1..], p[1..], g[1..], q[1..], x[1..]);
      assert Added(f, g)[1..] == Added(f[1..], g[1..]) && Added(p, q)[1..] == Added(p[1..], q[1..]);
      hide Rise;
    }
  }

  lemma {:induction false} PolyAtNulls(f: Vector, p: Vector)
    requires |f| == |p|
    ensures Poly(f, p, Nulls(|f|)) == 0.0
    decreases |f|
  {
    if f != [] {
      assert Nulls(|f|)[1..] == Nulls(|f[1..]|);
      PolyAtNulls(f[1..], p[1..]);
      assert Square(0.0) == 0.0 && f[0] * 0.0 == 0.0;
    }
  }

  /** One entry is read off at its unit vector. */
  lemma {:induction false} PolyAtUnit(f: Vector, p: Vector, i: nat)
    requires |f| == |p| && i < |f|
    ensures Poly(f, p, Unit(|f|, i)) == f[i] - 2.0 * p[i]
    decreases i
  {
    var u := Unit(|f|, i);
    if i == 0 {
      assert u[1..] == Nulls(|f[1..]|);
      PolyAtNulls(f[1..], p[1..]);
      assert Square(1.0) == 1.0;
    } else {
      assert u[1..] == Unit(|f[1..]|, i - 1);
      PolyAtUnit(f[1..], p[1..], i - 1);
      assert Square(0.0) == 0.0 && f[0] * 0.0 == 0.0;
    }
  }

  // ------------------------------------------------------------------
  // Snapshots
  // ------------------------------------------------------------------

  /** The Fisher entries of a name; zero where the snapshot does not know it. */
  function Mass(s: Snapshot, shapes: Shapes, n: string): Vector
    requires n in shapes
  {
    if n in s.fisher && |s.fisher[n]| == shapes[n] then s.fisher[n] else Nulls(shapes[n])
  }

  /** The moments of a name. */
  function Moment(s: Snapshot, shapes: Shapes, n: string): Vector
    requires n in shapes
  {
    if n in s.fisher && n in s.anchor && |s.fisher[n]| == |s.anchor[n]| == shapes[n] then Times(s.fisher[n], s.anchor[n])
    else Nulls(shapes[n])
  }

  /** Of all snapshots together. */
  function TotalMass(history: seq<Snapshot>, k: nat, shapes: Shapes, n: string): (f: Vector)
    requires k <= |history| && n in shapes
    ensures |f| == shapes[n]
  {
    if k == 0 then Nulls(shapes[n]) else Added(TotalMass(history, k - 1, shapes, n), Mass(history[k - 1], shapes, n))
  }

  function TotalMoment(history: seq<Snapshot>, k: nat, shapes: Shapes, n: string): (p: Vector)
    requires k <= |history| && n in shapes
    ensures |p| == shapes[n]
  {
    if k == 0 then Nulls(shapes[n]) else Added(TotalMoment(history, k - 1, shapes, n), Moment(history[k - 1], shapes, n))
  }

  /** What the snapshots cost for one name between zero and `x`. */
  lemma {:induction false} TermRises(s: Snapshot, x: Parameters, shapes: Shapes, n: string)
    requires Sane(s, shapes) && Shaped(x, shapes) && n in shapes
    ensures Term(s, x, n) - Term(s, Zeros(shapes), n) == Poly(Mass(s, shapes, n), Moment(s, shapes, n), x[n])
  {
    if n in s.fisher {
      QuadRises(s.fisher[n], x[n], s.anchor[n]);
      assert Zeros(shapes)[n] == Nulls(shapes[n]);
    } else {
      NullPoly(x[n]);
    }
    hide Quad;
    hide Poly;
  }

  lemma {:induction false} NullPoly(x: Vector)
    ensures Poly(Nulls(|x|), Nulls(|x|), x) == 0.0
    decreases |x|
  {
    if x != [] {
      NullPoly(x[1..]);
      assert Nulls(|x|)[1..] == Nulls(|x[1..]|);
      assert 0.0 * Square(x[0]) == 0.0;
    }
  }

  /** The sum over the names of what `k` snapshots cost between zero and `x`. */
  ghost function RiseOver(history: seq<Snapshot>, k: nat, x: Parameters, shapes: Shapes, names: set<string>): real
    requires k <= |history| && Shaped(x, shapes) && names <= shapes.Keys
  {
    if names == {} then 0.0
    else
      var n :| n in names;
      Poly(TotalMass(history, k, shapes, n), TotalMoment(history, k, shapes, n), x[n]) + RiseOver(history, k, x, shapes, names - {n})
  }

  lemma {:induction false} RisePick(history: seq<Snapshot>, k: nat, x: Parameters, shapes: Shapes, names: set<string>, n: string)
    requires k <= |history| && Shaped(x, shapes) && names <= shapes.Keys && n in names
    ensures RiseOver(history, k, x, shapes, names) ==
      Poly(TotalMass(history, k, shapes, n), TotalMoment(history, k, shapes, n), x[n]) + RiseOver(history, k, x, shapes, names - {n})
    decreases |names|
  {
    var m :| m in names && RiseOver(history, k, x, shapes, names) ==
      Poly(TotalMass(history, k, shapes, m), TotalMoment(history, k, shapes, m), x[m]) + RiseOver(history, k, x, shapes, names - {m});
    if m != n {
      RisePick(history, k, x, shapes, names - {m}, n);
      RisePick(history, k, x, shapes, names - {n}, m);
      assert names - {m} - {n} == names - {n} - {m};
    }
  }

  lemma {:induction false} RiseNothing(history: seq<Snapshot>, x: Parameters, shapes: Shapes, names: set<string>)
    requires Shaped(x, shapes) && names <= shapes.Keys
    ensures RiseOver(history, 0, x, shapes, names) == 0.0
    decreases |names|
  {
    if names != {} {
      var n :| n in names;
      RisePick(history, 0, x, shapes, names, n);
      RiseNothing(history, x, shapes, names - {n});
      NullPoly(x[n]);
    }
  }

  /** One more snapshot. */
  lemma {:induction false} RiseSnoc(history: seq<Snapshot>, k: nat, x: Parameters, shapes: Shapes, names: set<string>)
    requires k < |history| && Sane(history[k], shapes) && Shaped(x, shapes) && names <= shapes.Keys
    ensures RiseOver(history, k + 1, x, shapes, names) ==
      RiseOver(history, k, x, shapes, names) + SumOver(history[k], x, names) - SumOver(history[k], Zeros(shapes), names)
    decreases |names|
  {
    if names != {} {
      var n :| n in names;
      PolySnoc(history, k, x, shapes, n);
      RisePick(history, k + 1, x, shapes, names, n);
      RisePick(history, k, x, shapes, names, n);
      Pick(history[k], x, names, n);
      Pick(history[k], Zeros(shapes), names, n);
      RiseSnoc(history, k, x, shapes, names - {n});
      hide *;
    }
  }

  lemma PolySnoc(history: seq<Snapshot>, k: nat, x: Parameters, shapes: Shapes, n: string)
    requires k < |history| && Sane(history[k], shapes) && Shaped(x, shapes) && n in shapes
    ensures Poly(TotalMass(history, k + 1, shapes, n), TotalMoment(history, k + 1, shapes, n), x[n]) ==
      Poly(TotalMass(history, k, shapes, n), TotalMoment(history, k, shapes, n), x[n])
      + Term(history[k], x, n) - Term(history[k], Zeros(shapes), n)
  {
    var f, p, g, q := TotalMass(history, k, shapes, n), TotalMoment(history, k, shapes, n), Mass(history[k], shapes, n), Moment(history[k], shapes, n);
    assert TotalMass(history, k + 1, shapes, n) == Added(f, g) && TotalMoment(history, k + 1, shapes, n) == Added(p, q);
    TermRises(history[k], x, shapes, n);
    PolyAdds(f, p, g, q, x[n]);
    hide *;
  }

  /** What `k` snapshots cost between zero and `x` depends on their totals alone. */
  lemma {:induction false} EnergyRises(history: seq<Snapshot>, k: nat, x: Parameters, shapes: Shapes)
    requires k <= |history| && AllSane(history, shapes) && Shaped(x, shapes)
    ensures TotalEnergy(history[..k], x) - TotalEnergy(history[..k], Zeros(shapes)) == RiseOver(history, k, x, shapes, shapes.Keys)
  {
    if k == 0 {
      RiseNothing(history, x, shapes, shapes.Keys);
    } else {
      EnergyRises(history, k - 1, x, shapes);
      TotalSnoc(history, k, x);
      TotalSnoc(history, k, Zeros(shapes));
      assert Sane(history[k - 1], shapes);
      RiseSnoc(history, k - 1, x, shapes, shapes.Keys);
      Wider(history[k - 1], x, shapes.Keys);
      Wider(history[k - 1], Zeros(shapes), shapes.Keys);
      hide TotalEnergy;
      hide Energy;
      hide RiseOver;
      hide SumOver;
    }
  }

  // ------------------------------------------------------------------
  // Merging adds the Fisher entries
  // ------------------------------------------------------------------

  lemma MergeAddsMass(s: Snapshot, t: Snapshot, eps: real, shapes: Shapes, n: string)
    requires Sane(s, shapes) && Sane(t, shapes) && eps > 0.0 && n in shapes
    ensures Mass(Merge(s, t, eps), shapes, n) == Added(Mass(s, shapes, n), Mass(t, shapes, n))
  {
  }

  lemma {:induction false} FoldAddsMass(history: seq<Snapshot>, k: nat, eps: real, shapes: Shapes, n: string)
    requires 1 <= k <= |history| && eps > 0.0 && AllSane(history, shapes) && n in shapes
    ensures Mass(Fold(history, k, eps), shapes, n) == TotalMass(history, k, shapes, n)
    decreases k
  {
    hide Added;
    hide Sane;
    hide Merge;
    if k == 1 {
      MassSize(history[0], shapes, n);
      NullsAdded(Mass(history[0], shapes, n));
      assert TotalMass(history, 0, shapes, n) == Nulls(shapes[n]);
      hide Mass;
    } else {
      hide Mass;
      FoldAddsMass(history, k - 1, eps, shapes, n);
      FoldIsSane(history, k - 1, eps, shapes);
      assert Sane(history[k - 1], shapes);
      MergeAddsMass(Fold(history, k - 1, eps), history[k - 1], eps, shapes, n);
    }
  }

  lemma MassSize(s: Snapshot, shapes: Shapes, n: string)
    requires n in shapes
    ensures |Mass(s, shapes, n)| == shapes[n]
  {
  }

  /** The folded snapshot has the moments of the snapshots that went into it. */
  ghost predicate MomentsKept(history: seq<Snapshot>, k: nat, eps: real, shapes: Shapes)
    requires 1 <= k <= |history| && eps > 0.0
  {
    forall n :: n in shapes ==> Moment(Fold(history, k, eps), shapes, n) == TotalMoment(history, k, shapes, n)
  }

  lemma {:induction false} SameRise(a: seq<Snapshot>, j: nat, b: seq<Snapshot>, k: nat, x: Parameters, shapes: Shapes, names: set<string>)
    requires j <= |a| && k <= |b| && Shaped(x, shapes) && names <= shapes.Keys
    requires forall n :: n in names ==>
      TotalMass(a, j, shapes, n) == TotalMass(b, k, shapes, n) && TotalMoment(a, j, shapes, n) == TotalMoment(b, k, shapes, n)
    ensures RiseOver(a, j, x, shapes, names) == RiseOver(b, k, x, shapes, names)
    decreases |names|
  {
    if names != {} {
      var n :| n in names;
      RisePick(a, j, x, shapes, names, n);
      RisePick(b, k, x, shapes, names, n);
      SameRise(a, j, b, k, x, shapes, names - {n});
      hide RiseOver;
      hide Poly;
    }
  }

  /** Only one name counts where all other parameters are zero. */
  lemma {:induction false} RiseAtUnit(history: seq<Snapshot>, k: nat, shapes: Shapes, n: string, i: nat, names: set<string>)
    requires k <= |history| && n in shapes && i < shapes[n] && names <= shapes.Keys
    requires Shaped(Zeros(shapes)[n := Unit(shapes[n], i)], shapes)
    ensures RiseOver(history, k, Zeros(shapes)[n := Unit(shapes[n], i)], shapes, names) ==
      if n in names then TotalMass(history, k, shapes, n)[i] - 2.0 * TotalMoment(history, k, shapes, n)[i] else 0.0
    decreases |names|
  {
    if names != {} {
      var x := Zeros(shapes)[n := Unit(shapes[n], i)];
      var m :| m in names;
      RisePick(history, k, x, shapes, names, m);
      RiseAtUnit(history, k, shapes, n, i, names - {m});
      if m == n {
        PolyAtUnit(TotalMass(history, k, shapes, n), TotalMoment(history, k, shapes, n), i);
      } else {
        assert x[m] == Nulls(shapes[m]);
        PolyAtNulls(TotalMass(history, k, shapes, m), TotalMoment(history, k, shapes, m));
      }
      hide RiseOver;
      hide Poly;
      hide TotalMass;
      hide TotalMoment;
    }
  }

  lemma SingleTotals(s: Snapshot, shapes: Shapes, n: string)
    requires n in shapes
    ensures TotalMass([s], 1, shapes, n) == Mass(s, shapes, n) && TotalMoment([s], 1, shapes, n) == Moment(s, shapes, n)
  {
    assert TotalMass([s], 0, shapes, n) == Nulls(shapes[n]) == TotalMoment([s], 0, shapes, n);
    assert Added(Nulls(shapes[n]), Mass(s, shapes, n)) == Mass(s, shapes, n);
    assert Added(Nulls(shapes[n]), Moment(s, shapes, n)) == Moment(s, shapes, n);
  }

  /** What the history costs beyond the folded snapshot. */
  ghost function FoldExcess(history: seq<Snapshot>, k: nat, eps: real, x: Parameters): real
    requires 1 <= k <= |history| && eps > 0.0
  {
    TotalEnergy(history[..k], x) - Energy(Fold(history, k, eps), x)
  }

  lemma FoldExcessRises(history: seq<Snapshot>, k: nat, eps: real, shapes: Shapes, x: Parameters)
    requires 1 <= k <= |history| && eps > 0.0 && AllSane(history, shapes) && Shaped(x, shapes)
    ensures FoldExcess(history, k, eps, x) - FoldExcess(history, k, eps, Zeros(shapes)) ==
      RiseOver(history, k, x, shapes, shapes.Keys) - RiseOver([Fold(history, k, eps)], 1, x, shapes, shapes.Keys)
  {
    var front := [Fold(history, k, eps)];
    FoldIsSane(history, k, eps, shapes);
    EnergyRises(history, k, x, shapes);
    EnergyRises(front, 1, x, shapes);
    assert front[..1] == front && front[..0] == [];
    TotalSnoc(front, 1, x);
    TotalSnoc(front, 1, Zeros(shapes));
    hide Energy;
    hide RiseOver;
  }

  lemma KeptIsConstant(history: seq<Snapshot>, k: nat, eps: real, shapes: Shapes, x: Parameters)
    requires 1 <= k <= |history| && eps > 0.0 && AllSane(history, shapes) && Shaped(x, shapes)
    requires MomentsKept(history, k, eps, shapes)
    ensures FoldExcess(history, k, eps, x) == FoldExcess(history, k, eps, Zeros(shapes))
  {
    FoldExcessRises(history, k, eps, shapes, x);
    var front := [Fold(history, k, eps)];
    forall n | n in shapes
      ensures TotalMass(history, k, shapes, n) == TotalMass(front, 1, shapes, n) && TotalMoment(history, k, shapes, n) == TotalMoment(front, 1, shapes, n)
    {
      SingleTotals(front[0], shapes, n);
      FoldAddsMass(history, k, eps, shapes, n);
    }
    SameRise(history, k, front, 1, x, shapes, shapes.Keys);
  }

  /** A moment that was not kept shows: moving its parameter by one moves the excess. */
  lemma LostMomentShows(history: seq<Snapshot>, k: nat, eps: real, shapes: Shapes, n: string, i: nat)
    requires 1 <= k <= |history| && eps > 0.0 && AllSane(history, shapes)
    requires n in shapes && i < shapes[n] && |Moment(Fold(history, k, eps), shapes, n)| == shapes[n]
    requires Moment(Fold(history, k, eps), shapes, n)[i] != TotalMoment(history, k, shapes, n)[i]
    ensures var x := Zeros(shapes)[n := Unit(shapes[n], i)];
      Shaped(x, shapes) && FoldExcess(history, k, eps, x) != FoldExcess(history, k, eps, Zeros(shapes))
  {
    var x, front := Zeros(shapes)[n := Unit(shapes[n], i)], [Fold(history, k, eps)];
    assert Shaped(x, shapes);
    FoldExcessRises(history, k, eps, shapes, x);
    RiseAtUnit(history, k, shapes, n, i, shapes.Keys);
    RiseAtUnit(front, 1, shapes, n, i, shapes.Keys);
    SingleTotals(front[0], shapes, n);
    FoldAddsMass(history, k, eps, shapes, n);
    hide RiseOver;
    hide FoldExcess;
    hide TotalMass;
    hide TotalMoment;
    hide Mass;
    hide Moment;
  }

  lemma MomentSize(s: Snapshot, shapes: Shapes, n: string)
    requires n in shapes
    ensures |Moment(s, shapes, n)| == shapes[n]
  {
  }

  /** Over a whole run, the bounded penalty and the unbounded one differ by a constant
      exactly when the folded snapshot has the moments of what was folded. */
  lemma RunIsConstantIff(strength: real, history: seq<Snapshot>, k: nat, eps: real, shapes: Shapes)
    requires strength != 0.0 && 1 <= k <= |history| && eps > 0.0 && AllSane(history, shapes)
    ensures MomentsKept(history, k, eps, shapes) <==>
      forall x :: Shaped(x, shapes) ==> PenaltyGap(strength, history, k, eps, x) == PenaltyGap(strength, history, k, eps, Zeros(shapes))
  {
    forall x ensures PenaltyGap(strength, history, k, eps, x) == Weighted(strength, FoldExcess(history, k, eps, x)) {
      ExcessIs(strength, history, k, eps, x);
    }
    if MomentsKept(history, k, eps, shapes) {
      forall x | Shaped(x, shapes) ensures PenaltyGap(strength, history, k, eps, x) == PenaltyGap(strength, history, k, eps, Zeros(shapes)) {
        KeptIsConstant(history, k, eps, shapes, x);
      }
    } else {
      var n :| n in shapes && Moment(Fold(history, k, eps), shapes, n) != TotalMoment(history, k, shapes, n);
      MomentSize(Fold(history, k, eps), shapes, n);
      var i: nat :| i < shapes[n] && Moment(Fold(history, k, eps), shapes, n)[i] != TotalMoment(history, k, shapes, n)[i];
      LostMomentShows(history, k, eps, shapes, n, i);
      var x := Zeros(shapes)[n := Unit(shapes[n], i)];
      WeightedTells(strength, FoldExcess(history, k, eps, x), FoldExcess(history, k, eps, Zeros(shapes)));
    }
    hide Weighted;
    hide FoldExcess;
    hide PenaltyGap;
    hide Moment;
    hide TotalMoment;
    hide Shaped;
  }

  /** What the unbounded penalty is beyond the bounded one. */
  ghost function PenaltyGap(strength: real, history: seq<Snapshot>, k: nat, eps: real, x: Parameters): real
    requires 1 <= k <= |history| && eps > 0.0
  {
    Penalty(strength, history, x) - Penalty(strength, Bounded(history, k, eps), x)
  }

  lemma ExcessIs(strength: real, history: seq<Snapshot>, k: nat, eps: real, x: Parameters)
    requires 1 <= k <= |history| && eps > 0.0
    ensures PenaltyGap(strength, history, k, eps, x) == Weighted(strength, FoldExcess(history, k, eps, x))
  {
    BoundedEnergy(history, k, eps, x);
    WeightedDifference(strength, TotalEnergy(history, x), TotalEnergy(Bounded(history, k, eps), x));
    hide TotalEnergy;
    hide Weighted;
    hide Energy;
    hide Bounded;
  }

  lemma WeightedTells(strength: real, a: real, b: real)
    requires strength != 0.0 && a != b
    ensures Weighted(strength, a) != Weighted(strength, b)
  {
    assert Weighted(strength, a) - Weighted(strength, b) == 0.5 * (strength * (a - b));
    assert strength * (a - b) != 0.0;
  }
}
