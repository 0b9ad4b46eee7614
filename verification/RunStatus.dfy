/** What the statuses of a run's result say. */
module RunStatus {
  import opened Numerics
  import opened Properties
  import opened Models
  import opened Balances
  import opened Compiler
  import opened Runner
  import opened Sums
  import opened Conservation

  predicate SomeIs(evaluations: seq<Evaluation>, v: Validity) {
    exists i :: 0 <= i < |evaluations| && evaluations[i].validity == v
  }

  lemma SomeIsSplits(evaluations: seq<Evaluation>, v: Validity)
    requires evaluations != []
    ensures var n := |evaluations| - 1;
      SomeIs(evaluations, v) <==> SomeIs(evaluations[..n], v) || evaluations[n].validity == v
  {
    var n := |evaluations| - 1;
    if SomeIs(evaluations[..n], v) {
      var i :| 0 <= i < n && evaluations[..n][i].validity == v;
      assert evaluations[i].validity == v;
    }
    if SomeIs(evaluations, v) {
      var i :| 0 <= i <= n && evaluations[i].validity == v;
      assert i < n ==> evaluations[..n][i].validity == v;
    }
  }

  /** The reported validity: invalid if any unit is, else extrapolated if any is, else valid if any
      is, else unknown. */
  lemma {:induction false} WorstIsReported(evaluations: seq<Evaluation>)
    ensures WorstValidity(evaluations) == Invalid <==> SomeIs(evaluations, Invalid)
    ensures WorstValidity(evaluations) == Extrapolated <==>
      SomeIs(evaluations, Extrapolated) && !SomeIs(evaluations, Invalid)
    ensures WorstValidity(evaluations) == Valid <==>
      SomeIs(evaluations, Valid) && !SomeIs(evaluations, Extrapolated) && !SomeIs(evaluations, Invalid)
    decreases |evaluations|
  {
    if evaluations != [] {
      WorstIsReported(evaluations[..|evaluations| - 1]);
      SomeIsSplits(evaluations, Invalid);
      SomeIsSplits(evaluations, Extrapolated);
      SomeIsSplits(evaluations, Valid);
      hide SomeIs;
    }
  }

  const RELATIVE: real := 0.00000001

  /** The magnitude is small against one of the quantities, or against one. */
  predicate Negligible(x: real, sizes: seq<real>) {
    Abs(x) <= RELATIVE || exists i :: 0 <= i < |sizes| && Abs(x) <= sizes[i] * RELATIVE
  }

  /** What leaves a complete run on outlets nothing is connected to. */
  ghost function Escaping(m: Measure, c: Case, evaluations: seq<Evaluation>): real {
    SetSum(DanglingOutlets(c, evaluations), k => FlowAt(m, OutputsOf(evaluations), k))
  }

  /** A balance passes exactly when what escapes is negligible against what came in and went out, and
      against the duties; the whole closure passes when both do. */
  lemma PassesIffNegligible(c: Case, services: Services, evaluations: seq<Evaluation>)
    requires Complete(c, services, evaluations)
    ensures forall e :: e in evaluations ==> Defined(c.units, e.unit)
    ensures var outputs := OutputsOf(evaluations);
      var (mass, energy) := ReportedBalances(c, evaluations);
      && (mass.status == Passed <==>
            Negligible(Escaping(Mass, c, evaluations),
                       [SourceTotal(Mass, c.units, evaluations), SinkTotal(Mass, c, outputs, evaluations)]))
      && (energy.status == Passed <==>
            Negligible(Escaping(Heat, c, evaluations),
                       [Abs(SourceTotal(Heat, c.units, evaluations)), Abs(AddedTotal(Heat, evaluations)),
                        Abs(SinkTotal(Heat, c, outputs, evaluations))]))
  {
    hide Complete, OutputsOf, FlowAt, SourceTotal, SinkTotal, AddedTotal, DanglingOutlets, IsDangling, Negligible;
    OverallConservation(c, services, evaluations);
    var outputs := OutputsOf(evaluations);
    var source, sink := SourceTotal(Mass, c.units, evaluations), SinkTotal(Mass, c, outputs, evaluations);
    MassPasses(source, sink);
    EnergyPasses(SourceTotal(Heat, c.units, evaluations), AddedTotal(Heat, evaluations),
                 SinkTotal(Heat, c, outputs, evaluations));
  }

  lemma MassPasses(source: real, sink: real)
    ensures MassBalance(source, sink).status == Passed <==>
      Negligible(MassBalance(source, sink).residual, [source, sink])
  {
    var sizes := [source, sink];
    var x := Abs(source - sink);
    if Negligible(source - sink, sizes) && x > RELATIVE {
      var i :| 0 <= i < 2 && x <= sizes[i] * RELATIVE;
      assert sizes[i] <= Max(source, sink);
    }
    assert x <= sizes[0] * RELATIVE || x <= sizes[1] * RELATIVE || x <= RELATIVE
      || x > Max(Max(source, sink), 1.0) * RELATIVE;
  }

  lemma EnergyPasses(source: real, duty: real, sink: real)
    ensures var b := EnergyBalance(source, duty, sink);
      b.status == Passed <==> Negligible(b.residual, [Abs(source), Abs(duty), Abs(sink)])
  {
    hide Abs;
    var sizes := [Abs(source), Abs(duty), Abs(sink)];
    var x := Abs(source + duty - sink);
    if Negligible(source + duty - sink, sizes) && x > RELATIVE {
      var i :| 0 <= i < 3 && x <= sizes[i] * RELATIVE;
      assert i == 0 || i == 1 || i == 2;
    }
    assert x <= sizes[0] * RELATIVE || x <= sizes[1] * RELATIVE || x <= sizes[2] * RELATIVE || x <= RELATIVE
      || x > Max(Max(sizes[0], sizes[1]), Max(sizes[2], 1.0)) * RELATIVE;
  }
}
