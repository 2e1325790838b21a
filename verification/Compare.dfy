/** The doctor's comparison report: the curve stepped over a recorded trace, sample by sample,
    against what the firmware did. */
module Compare {
  import opened Basics
  import opened Policy
  import opened PolicyTheorems

  /** One recorded sample: the effective temperature, if any, and the firmware's fan speed. */
  datatype Sample = Sample(tEff: Option<int>, smcRpm: nat)

  datatype Row = Row(tEff: Option<int>, smcRpm: nat, ourRpm: Option<nat>, delta: Option<int>)

  datatype Verdict = NoSamples | NeverLouder | NeverQuieter | Mixed

  /** The report. */
  datatype Report = Report(
    samples: nat,
    lost: nat,
    mean: real,
    maxAbs: nat,
    quieter: nat,
    louder: nat,
    equal: nat,
    verdict: Verdict,
    rows: seq<Row>)

  function Abs(d: int): nat { if d >= 0 then d else -d }

  function Sum(ds: seq<int>): int { if ds == [] then 0 else Sum(ds[..|ds| - 1]) + ds[|ds| - 1] }

  /** The mean delta, zero when there is none. */
  function Mean(ds: seq<int>): real { if ds == [] then 0.0 else Sum(ds) as real / |ds| as real }

  function MaxAbs(ds: seq<int>): nat { if ds == [] then 0 else Max(MaxAbs(ds[..|ds| - 1]), Abs(ds[|ds| - 1])) }

  predicate Quieter(d: int) { d < 0 }

  predicate Louder(d: int) { d > 0 }

  predicate Equal(d: int) { d == 0 }

  function Count(ds: seq<int>, p: int -> bool): nat {
    if ds == [] then 0 else Count(ds[..|ds| - 1], p) + if p(ds[|ds| - 1]) then 1 else 0
  }

  function VerdictOf(samples: nat, quieter: nat, louder: nat): Verdict {
    if samples == 0 then NoSamples
    else if louder == 0 then NeverLouder
    else if quieter == 0 then NeverQuieter
    else Mixed
  }

  // ---- the reference: the controller folded over the first samples ----

  function ReadingsOf(trace: seq<Sample>): (r: seq<Readings>)
    ensures |r| == |trace|
  {
    seq(|trace|, i requires 0 <= i < |trace| => [trace[i].tEff])
  }

  /** Row `i`: what the controller, folded over the samples before, decides on sample `i`. */
  function RowAt(c: Curve, trace: seq<Sample>, i: nat): Row
    requires c.Ok() && i < |trace|
  {
    var ours := CurveOutput(c, Start(c), ReadingsOf(trace[..i + 1]));
    Row(trace[i].tEff, trace[i].smcRpm, ours, if ours.Some? then Some(ours.value - trace[i].smcRpm) else None)
  }

  /** The deltas of the comparable rows, in order. */
  function Deltas(rows: seq<Row>): seq<int> {
    if rows == [] then []
    else
      var last := rows[|rows| - 1];
      Deltas(rows[..|rows| - 1]) + if last.delta.Some? then [last.delta.value] else []
  }

  /** The row for one sample, given the controller's state before it. */
  function RowFrom(c: Curve, k: Track, sample: Sample): Row
    requires c.Ok()
  {
    var ours := Output(c, StepCurve(c, k, [sample.tEff]).1);
    Row(sample.tEff, sample.smcRpm, ours, if ours.Some? then Some(ours.value - sample.smcRpm) else None)
  }

  lemma OneMoreSample(c: Curve, trace: seq<Sample>, i: nat)
    requires c.Ok() && i < |trace|
    ensures var k := CurveRun(c, Start(c), ReadingsOf(trace[..i]));
            && CurveRun(c, Start(c), ReadingsOf(trace[..i + 1])) == StepCurve(c, k, [trace[i].tEff]).0
            && RowAt(c, trace, i) == RowFrom(c, k, trace[i])
  {
    var longer := ReadingsOf(trace[..i + 1]);
    assert longer[..|longer| - 1] == ReadingsOf(trace[..i]);
  }

  method StepRow(controller: Controller, sample: Sample) returns (row: Row)
    requires controller.curve.Ok()
    modifies controller
    ensures controller.View() == StepCurve(controller.curve, old(controller.View()), [sample.tEff]).0
    ensures row == RowFrom(controller.curve, old(controller.View()), sample)
  {
    var d := controller.CurveStep([sample.tEff]);
    var ours := match d
                case SetSpeed(rpm) => Some(rpm)
                case EscalateMax => Some(controller.curve.maxRpm)
                case _ => None;
    row := Row(sample.tEff, sample.smcRpm, ours, if ours.Some? then Some(ours.value - sample.smcRpm) else None);
  }

  lemma DeltasOneMore(rows: seq<Row>, row: Row)
    ensures Deltas(rows + [row]) == Deltas(rows) + if row.delta.Some? then [row.delta.value] else []
  {
    assert (rows + [row])[..|rows|] == rows;
  }

  /** Step the curve over the trace, pair each sample with the firmware's speed, and summarize. */
  method CompareFromTrace(c: Curve, trace: seq<Sample>, dropped: nat) returns (report: Report)
    requires c.Ok()
    ensures |report.rows| == |trace|
    ensures forall i :: 0 <= i < |trace| ==> report.rows[i] == RowAt(c, trace, i)
    ensures report.samples + report.lost == |trace| + dropped
    ensures var ds := Deltas(report.rows);
            report == Report(|ds|, report.lost, Mean(ds), MaxAbs(ds), Count(ds, Quieter), Count(ds, Louder), Count(ds, Equal),
                             VerdictOf(|ds|, Count(ds, Quieter), Count(ds, Louder)), report.rows)
  {
    hide StepCurve;
    hide RowAt;
    hide RowFrom;
    var controller := new Controller(c);
    var rows: seq<Row> := [];
    var deltas: seq<int> := [];
    var lost := dropped;
    for i := 0 to |trace|
      invariant controller.curve == c
      invariant controller.View() == CurveRun(c, Start(c), ReadingsOf(trace[..i]))
      invariant |rows| == i && forall j :: 0 <= j < i ==> rows[j] == RowAt(c, trace, j)
      invariant deltas == Deltas(rows)
      invariant |deltas| + lost == i + dropped
    {
      OneMoreSample(c, trace, i);
      var row := StepRow(controller, trace[i]);
      DeltasOneMore(rows, row);
      if row.delta.Some? {
        deltas := deltas + [row.delta.value];
      } else {
        lost := lost + 1;
      }
      rows := rows + [row];
    }
    var quieter, louder, equal := Count(deltas, Quieter), Count(deltas, Louder), Count(deltas, Equal);
    report := Report(|deltas|, lost, Mean(deltas), MaxAbs(deltas), quieter, louder, equal,
                     VerdictOf(|deltas|, quieter, louder), rows);
  }

  /** A row pairs its sample with our speed: the commanded one, the maximum on escalation, and none
      when the fan is returned or nothing is commanded. Its delta is ours less the firmware's. */
  lemma RowIsExact(c: Curve, trace: seq<Sample>, i: nat)
    requires c.Ok() && i < |trace|
    ensures var row := RowAt(c, trace, i);
            var d := StepCurve(c, CurveRun(c, Start(c), ReadingsOf(trace[..i])), [trace[i].tEff]).1;
            && row.tEff == trace[i].tEff && row.smcRpm == trace[i].smcRpm
            && (row.ourRpm.Some? <==> d.SetSpeed? || d == EscalateMax)
            && (d.SetSpeed? ==> row.ourRpm == Some(d.rpm)) && (d == EscalateMax ==> row.ourRpm == Some(c.maxRpm))
            && (row.delta.Some? <==> row.ourRpm.Some?)
            && (row.delta.Some? ==> row.smcRpm + row.delta.value == row.ourRpm.value)
  {
    OneMoreSample(c, trace, i);
    hide StepCurve;
    hide RowAt;
  }

  // ---- what the summary says about the deltas ----

  /** The sum and the counts are taken delta by delta. */
  lemma {:induction false} SummaryAdds(a: seq<int>, b: seq<int>, p: int -> bool)
    ensures Sum(a + b) == Sum(a) + Sum(b)
    ensures Count(a + b, p) == Count(a, p) + Count(b, p)
    ensures forall d :: Sum([d]) == d && Count([d], p) == if p(d) then 1 else 0
  {
    assert forall d: int :: [d][..0] == [];
    if b == [] {
      assert a + b == a;
    } else {
      assert (a + b)[..|a + b| - 1] == a + b[..|b| - 1];
      SummaryAdds(a, b[..|b| - 1], p);
    }
  }

  lemma DeltasOfOne(row: Row)
    ensures Deltas([row]) == if row.delta.Some? then [row.delta.value] else []
  {
    assert [row][..0] == [];
  }

  /** The deltas are those of the rows that have one, in their order. */
  lemma {:induction false} DeltasAdd(a: seq<Row>, b: seq<Row>)
    ensures Deltas(a + b) == Deltas(a) + Deltas(b)
  {
    if b == [] {
      assert a + b == a;
    } else {
      assert (a + b)[..|a + b| - 1] == a + b[..|b| - 1];
      DeltasAdd(a, b[..|b| - 1]);
    }
  }

  /** Every comparable sample is exactly one of quieter, louder and equal. */
  lemma {:induction false} CountsPartition(ds: seq<int>)
    ensures Count(ds, Quieter) + Count(ds, Louder) + Count(ds, Equal) == |ds|
  {
    if ds != [] { CountsPartition(ds[..|ds| - 1]); }
  }

  lemma {:induction false} CountIsZero(ds: seq<int>, p: int -> bool)
    ensures Count(ds, p) == 0 <==> forall i :: 0 <= i < |ds| ==> !p(ds[i])
  {
    if ds != [] {
      var q := ds[..|ds| - 1];
      CountIsZero(q, p);
      assert forall i :: 0 <= i < |q| ==> ds[i] == q[i];
      if forall i :: 0 <= i < |ds| ==> !p(ds[i]) {
        assert !p(ds[|q|]);
      }
    }
  }

  /** The reported maximum bounds every delta and is reached by one of them. */
  lemma {:induction false} MaxAbsIsMaximum(ds: seq<int>)
    ensures forall i :: 0 <= i < |ds| ==> Abs(ds[i]) <= MaxAbs(ds)
    ensures ds != [] ==> exists i :: 0 <= i < |ds| && Abs(ds[i]) == MaxAbs(ds)
  {
    if ds != [] {
      var q := ds[..|ds| - 1];
      MaxAbsIsMaximum(q);
      assert forall i :: 0 <= i < |q| ==> ds[i] == q[i];
      assert MaxAbs([]) == 0;
      if MaxAbs(ds) == Abs(ds[|ds| - 1]) {
        assert Abs(ds[|ds| - 1]) == MaxAbs(ds);
      } else {
        assert q != [];
        var i :| 0 <= i < |q| && Abs(q[i]) == MaxAbs(q);
        assert Abs(ds[i]) == MaxAbs(ds);
      }
    }
  }

  /** The sum lies between the extremes the counts allow. */
  lemma {:induction false} SumBetween(ds: seq<int>)
    ensures -(Count(ds, Quieter) * MaxAbs(ds)) <= Sum(ds) <= Count(ds, Louder) * MaxAbs(ds)
  {
    if ds != [] {
      var q, d := ds[..|ds| - 1], ds[|ds| - 1];
      SumBetween(q);
      Scale(Count(q, Quieter), MaxAbs(q), MaxAbs(ds));
      Scale(Count(q, Louder), MaxAbs(q), MaxAbs(ds));
      OneMore(Count(q, Quieter), MaxAbs(ds));
      OneMore(Count(q, Louder), MaxAbs(ds));
    }
  }

  lemma Scale(n: nat, a: nat, b: nat)
    requires a <= b
    ensures n * a <= n * b
  {}

  lemma OneMore(n: nat, b: nat)
    ensures (n + 1) * b == n * b + b
  {}

  lemma MeanHasSignOfSum(ds: seq<int>)
    requires ds != []
    ensures Mean(ds) <= 0.0 <==> Sum(ds) <= 0
  {
    var total, n := Sum(ds) as real, |ds| as real;
    assert Mean(ds) * n == total;
    if total <= 0.0 { assert total / n <= 0.0; }
  }

  lemma RealQuotientBetween(a: real, n: real, b: real)
    requires n > 0.0 && -(b * n) <= a <= b * n
    ensures -b <= a / n <= b
  {
    assert (b - a / n) * n >= 0.0;
    assert (a / n + b) * n >= 0.0;
  }

  /** The sum of `n` deltas of size at most `m`. */
  lemma SumWithin(ds: seq<int>)
    ensures -(MaxAbs(ds) * |ds|) <= Sum(ds) <= MaxAbs(ds) * |ds|
  {
    SumBetween(ds);
    CountsPartition(ds);
    MoreOfThem(Count(ds, Quieter), |ds|, MaxAbs(ds));
    MoreOfThem(Count(ds, Louder), |ds|, MaxAbs(ds));
  }

  lemma MoreOfThem(a: nat, b: nat, m: nat)
    requires a <= b
    ensures a * m <= m * b
  {}

  lemma ProductInReals(m: nat, n: nat)
    ensures (m * n) as real == m as real * n as real
  {}

  /** No mean is larger than the largest delta. */
  lemma MeanBetween(ds: seq<int>)
    ensures -(MaxAbs(ds) as real) <= Mean(ds) <= MaxAbs(ds) as real
  {
    hide Sum;
    hide MaxAbs;
    if ds != [] {
      SumWithin(ds);
      ProductInReals(MaxAbs(ds), |ds|);
      RealQuotientBetween(Sum(ds) as real, |ds| as real, MaxAbs(ds) as real);
    }
  }

  /** The verdict means what it says, delta by delta, and the mean agrees with it. */
  lemma VerdictMeans(ds: seq<int>)
    ensures var v := VerdictOf(|ds|, Count(ds, Quieter), Count(ds, Louder));
            && (v == NoSamples <==> ds == [])
            && (v == NeverLouder <==> ds != [] && forall i :: 0 <= i < |ds| ==> ds[i] <= 0)
            && (v == NeverLouder ==> Sum(ds) <= 0 && Mean(ds) <= 0.0)
            && (v == NeverQuieter ==> Sum(ds) > 0 && Mean(ds) > 0.0 && forall i :: 0 <= i < |ds| ==> ds[i] >= 0)
            && (v == Mixed ==> (exists i :: 0 <= i < |ds| && ds[i] > 0) && (exists i :: 0 <= i < |ds| && ds[i] < 0))
  {
    CountIsZero(ds, Quieter);
    CountIsZero(ds, Louder);
    SumBetween(ds);
    if ds != [] { MeanHasSignOfSum(ds); }
    if Count(ds, Louder) > 0 && Count(ds, Quieter) == 0 { LouderSumIsPositive(ds); }
    if Count(ds, Louder) > 0 {
      var i :| 0 <= i < |ds| && Louder(ds[i]);
      assert ds[i] > 0;
    }
    if Count(ds, Quieter) > 0 {
      var i :| 0 <= i < |ds| && Quieter(ds[i]);
      assert ds[i] < 0;
    }
    if Count(ds, Louder) == 0 {
      assert forall i :: 0 <= i < |ds| ==> !Louder(ds[i]);
    }
  }

  lemma {:induction false} LouderSumIsPositive(ds: seq<int>)
    requires Count(ds, Quieter) == 0
    ensures Sum(ds) >= Count(ds, Louder)
  {
    if ds != [] { LouderSumIsPositive(ds[..|ds| - 1]); }
  }
}
