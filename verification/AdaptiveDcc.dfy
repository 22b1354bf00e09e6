/** The adaptive congestion control LIMERIC (TS 102 687 V1.2.1, clause 5.4): every station steers
    the share of the channel it uses by the channel load it measures.  Floating point is taken as
    real numbers. */
module AdaptiveDcc {
  import opened Outcomes

  datatype Parameters = Parameters(
    alpha: real, beta: real, cbrTarget: real, deltaMax: real, deltaMin: real, deltaUpMax: real, deltaDownMax: real)
  {
    /** What the standard's parameter table demands. */
    predicate Sound() {
      0.0 <= alpha <= 1.0 && 0.0 <= beta && deltaDownMax <= 0.0 <= deltaUpMax
    }
  }

  /** The smoothed channel busy ratio and the duty cycle. */
  datatype State = State(cbr: real, delta: real)

  datatype Inputs = Inputs(local: real, localPrevious: real, global_: Option<real>, globalPrevious: Option<real>)

  predicate IsRatio(x: real) {
    0.0 <= x <= 1.0
  }

  /** Only the local measurements are checked. */
  predicate Checked(i: Inputs) {
    IsRatio(i.local) && IsRatio(i.localPrevious)
  }

  /** Step 1: global measurements replace the local ones only as a pair. */
  function Average(i: Inputs): real {
    if i.global_.Some? && i.globalPrevious.Some? then (i.global_.value + i.globalPrevious.value) / 2.0
    else (i.local + i.localPrevious) / 2.0
  }

  function Smoothed(cbr: real, avg: real): real {
    0.5 * cbr + 0.5 * avg
  }

  /** A product by name, so that proofs can hide that it is one. */
  function Times(x: real, y: real): real {
    x * y
  }

  /** Step 2. */
  function Offset(p: Parameters, cbr: real): real {
    var diff := p.cbrTarget - cbr;
    if diff > 0.0 then Min(Times(p.beta, diff), p.deltaUpMax) else Max(Times(p.beta, diff), p.deltaDownMax)
  }

  function Min(x: real, y: real): real {
    if y < x then y else x
  }

  function Max(x: real, y: real): real {
    if y > x then y else x
  }

  /** Steps 4 and 5, in this order. */
  function Clamped(p: Parameters, delta: real): real {
    Max(Min(delta, p.deltaMax), p.deltaMin)
  }

  /** Steps 3 to 5. */
  function NextDelta(p: Parameters, delta: real, cbr: real): real {
    Clamped(p, Times(1.0 - p.alpha, delta) + Offset(p, cbr))
  }

  function Updated(p: Parameters, s: State, avg: real): State {
    var cbr := Smoothed(s.cbr, avg);
    State(cbr, NextDelta(p, s.delta, cbr))
  }

  class DccAdaptive {
    const parameters: Parameters
    var cbr: real
    var delta: real

    function View(): State
      reads this
    {
      State(cbr, delta)
    }

    constructor (p: Parameters)
      ensures parameters == p && View() == State(0.0, p.deltaMin)
    {
      parameters := p;
      cbr, delta := 0.0, p.deltaMin;
    }

    method Update(i: Inputs) returns (r: Result<real>)
      modifies this
      ensures r == if Checked(i) then Ok(delta) else Err(ValueError)
      ensures View() == if Checked(i) then Updated(parameters, old(View()), Average(i)) else old(View())
    {
      if !IsRatio(i.local) || !IsRatio(i.localPrevious) {
        return Err(ValueError);
      }
      var p := parameters;
      var avg := Average(i);
      cbr := 0.5 * cbr + 0.5 * avg;
      var diff := p.cbrTarget - cbr;
      var offset;
      if diff > 0.0 {
        offset := Min(p.beta * diff, p.deltaUpMax);
      } else {
        offset := Max(p.beta * diff, p.deltaDownMax);
      }
      delta := (1.0 - p.alpha) * delta + offset;
      if delta > p.deltaMax {
        delta := p.deltaMax;
      }
      if delta < p.deltaMin {
        delta := p.deltaMin;
      }
      r := Ok(delta);
    }
  }

  // ---------------------------------------------------------------- runs

  function Run(p: Parameters, s: State, avgs: seq<real>): State {
    if avgs == [] then s else Updated(p, Run(p, s, avgs[..|avgs| - 1]), avgs[|avgs| - 1])
  }

  function Abs(x: real): (r: real)
    ensures 0.0 <= r
  {
    if x < 0.0 then -x else x
  }

  function Power(b: real, k: nat): real {
    if k == 0 then 1.0 else b * Power(b, k - 1)
  }

  // ---------------------------------------------------------------- contraction

  lemma Product(x: real, y: real)
    requires x >= 0.0 && y >= 0.0
    ensures x * y >= 0.0
  {
  }

  lemma Ordered(c: real, x: real, y: real)
    requires c >= 0.0 && x <= y
    ensures Times(c, x) <= Times(c, y)
  {
  }

  lemma Distributed(c: real, x: real, y: real)
    ensures Times(c, x) - Times(c, y) == Times(c, x - y)
  {
  }

  lemma AbsScaled(c: real, x: real, y: real)
    requires c >= 0.0
    ensures Abs(Times(c, x) - Times(c, y)) == Times(c, Abs(x - y))
  {
  }

  /** The smoothed ratios of two stations hearing the same load halve their gap exactly. */
  lemma GapHalves(cbr1: real, cbr2: real, avg: real)
    ensures Abs(Smoothed(cbr1, avg) - Smoothed(cbr2, avg)) == 0.5 * Abs(cbr1 - cbr2)
  {
  }

  function Cut(diff: real, x: real, up: real, down: real): real {
    if diff > 0.0 then Min(x, up) else Max(x, down)
  }

  lemma CutOrdered(d1: real, d2: real, x1: real, x2: real, up: real, down: real)
    requires down <= 0.0 <= up && d2 <= d1 && x2 <= x1
    requires (d1 > 0.0 ==> x1 >= 0.0) && (d1 <= 0.0 ==> x1 <= 0.0)
    requires (d2 > 0.0 ==> x2 >= 0.0) && (d2 <= 0.0 ==> x2 <= 0.0)
    ensures 0.0 <= Cut(d1, x1, up, down) - Cut(d2, x2, up, down) <= x1 - x2
  {
  }

  lemma SignOfProduct(c: real, d: real)
    requires c >= 0.0
    ensures (d > 0.0 ==> Times(c, d) >= 0.0) && (d <= 0.0 ==> Times(c, d) <= 0.0)
  {
  }

  lemma OffsetOrdered(p: Parameters, cbr1: real, cbr2: real)
    requires p.Sound() && cbr1 <= cbr2
    ensures 0.0 <= Offset(p, cbr1) - Offset(p, cbr2) <= Times(p.beta, cbr2 - cbr1)
  {
    hide Min, Max, Cut, Times;
    var d1, d2 := p.cbrTarget - cbr1, p.cbrTarget - cbr2;
    Ordered(p.beta, d2, d1);
    SignOfProduct(p.beta, d1);
    SignOfProduct(p.beta, d2);
    Distributed(p.beta, d1, d2);
    CutOrdered(d1, d2, Times(p.beta, d1), Times(p.beta, d2), p.deltaUpMax, p.deltaDownMax);
    OffsetIsCut(p, cbr1);
    OffsetIsCut(p, cbr2);
    assert d1 - d2 == cbr2 - cbr1;
  }

  lemma OffsetIsCut(p: Parameters, cbr: real)
    ensures Offset(p, cbr) == Cut(p.cbrTarget - cbr, Times(p.beta, p.cbrTarget - cbr), p.deltaUpMax, p.deltaDownMax)
  {
  }

  lemma OffsetLipschitz(p: Parameters, cbr1: real, cbr2: real)
    requires p.Sound()
    ensures Abs(Offset(p, cbr1) - Offset(p, cbr2)) <= Times(p.beta, Abs(cbr1 - cbr2))
  {
    hide Offset, Times;
    if cbr1 <= cbr2 {
      OffsetOrdered(p, cbr1, cbr2);
    } else {
      OffsetOrdered(p, cbr2, cbr1);
    }
  }

  lemma ClampContracts(p: Parameters, x1: real, x2: real, o1: real, o2: real)
    ensures Abs(Clamped(p, x1 + o1) - Clamped(p, x2 + o2)) <= Abs(x1 - x2) + Abs(o1 - o2)
    ensures x1 >= x2 && o1 >= o2 ==> Clamped(p, x1 + o1) >= Clamped(p, x2 + o2)
  {
  }

  /** One step on two stations with the same parameters. */
  lemma StepContracts(p: Parameters, d1: real, d2: real, cbr1: real, cbr2: real)
    requires p.Sound()
    ensures Abs(NextDelta(p, d1, cbr1) - NextDelta(p, d2, cbr2)) <= Times(1.0 - p.alpha, Abs(d1 - d2)) + Times(p.beta, Abs(cbr1 - cbr2))
  {
    hide Offset, Clamped, Abs, Times;
    var c := 1.0 - p.alpha;
    OffsetLipschitz(p, cbr1, cbr2);
    AbsScaled(c, d1, d2);
    ClampContracts(p, Times(c, d1), Times(c, d2), Offset(p, cbr1), Offset(p, cbr2));
  }

  lemma ProductOfRatios(b: real, q: real)
    requires IsRatio(b) && IsRatio(q)
    ensures IsRatio(b * q)
  {
    Product(b, q);
    Product(1.0 - b, q);
    assert (1.0 - b) * q == q - b * q;
  }

  lemma {:induction false} PowerBounds(b: real, k: nat)
    requires IsRatio(b)
    ensures IsRatio(Power(b, k))
  {
    if k > 0 {
      PowerBounds(b, k - 1);
      ProductOfRatios(b, Power(b, k - 1));
    }
  }

  lemma {:induction false} CbrGap(p: Parameters, s1: State, s2: State, avgs: seq<real>)
    ensures Abs(Run(p, s1, avgs).cbr - Run(p, s2, avgs).cbr) == Power(0.5, |avgs|) * Abs(s1.cbr - s2.cbr)
  {
    hide NextDelta;
    if avgs != [] {
      var before := avgs[..|avgs| - 1];
      CbrGap(p, s1, s2, before);
      GapHalves(Run(p, s1, before).cbr, Run(p, s2, before).cbr, avgs[|avgs| - 1]);
    }
  }

  /** The bound after k steps, carried one step on. */
  lemma BoundStep(c: real, beta: real, gap: real, cbrGap: real, pc: real, ph: real, d0: real, s0: real)
    requires 0.0 <= c <= 1.0 && 0.0 <= beta && 0.0 <= s0 && 0.0 <= ph <= 1.0
    requires gap <= pc * d0 + beta * s0 * (1.0 - ph)
    requires cbrGap == 0.5 * ph * s0
    ensures c * gap + beta * cbrGap <= c * pc * d0 + beta * s0 * (1.0 - 0.5 * ph)
  {
    var bs := beta * s0;
    Product(beta, s0);
    Product(bs, 1.0 - ph);
    Ordered(c, gap, pc * d0 + bs * (1.0 - ph));
    Product(1.0 - c, bs * (1.0 - ph));
    assert c * gap <= c * (pc * d0 + bs * (1.0 - ph));
    assert c * (pc * d0 + bs * (1.0 - ph)) == c * pc * d0 + c * (bs * (1.0 - ph));
    assert c * (bs * (1.0 - ph)) <= bs * (1.0 - ph);
    assert beta * cbrGap == bs * (0.5 * ph);
    assert bs * (1.0 - ph) + bs * (0.5 * ph) == bs * (1.0 - 0.5 * ph);
  }

  /** What k steps leave of gaps d0 and s0. */
  function Bound(p: Parameters, k: nat, d0: real, s0: real): real {
    Power(1.0 - p.alpha, k) * d0 + p.beta * s0 * (1.0 - Power(0.5, k))
  }

  lemma BoundNext(p: Parameters, k: nat, d0: real, s0: real, gap: real, cbrGap: real)
    requires p.Sound() && 0.0 <= s0 && gap <= Bound(p, k, d0, s0) && cbrGap == Power(0.5, k + 1) * s0
    ensures Times(1.0 - p.alpha, gap) + Times(p.beta, cbrGap) <= Bound(p, k + 1, d0, s0)
  {
    PowerBounds(0.5, k);
    BoundStep(1.0 - p.alpha, p.beta, gap, cbrGap, Power(1.0 - p.alpha, k), Power(0.5, k), d0, s0);
  }

  /** After k steps on the same measurements the deltas of two stations differ by at most
      (1 - alpha)^k times the initial difference, plus what the initial difference of the
      smoothed ratios can contribute. */
  lemma {:induction false} Fairness(p: Parameters, s1: State, s2: State, avgs: seq<real>)
    requires p.Sound()
    ensures Abs(Run(p, s1, avgs).delta - Run(p, s2, avgs).delta)
            <= Bound(p, |avgs|, Abs(s1.delta - s2.delta), Abs(s1.cbr - s2.cbr))
  {
    hide NextDelta, Smoothed, Abs, Bound, Times;
    if avgs == [] {
      NoSteps(p, Abs(s1.delta - s2.delta), Abs(s1.cbr - s2.cbr));
    } else {
      var before, avg, k := avgs[..|avgs| - 1], avgs[|avgs| - 1], |avgs| - 1;
      var r1, r2 := Run(p, s1, before), Run(p, s2, before);
      Fairness(p, s1, s2, before);
      CbrGap(p, s1, s2, avgs);
      StepContracts(p, r1.delta, r2.delta, Smoothed(r1.cbr, avg), Smoothed(r2.cbr, avg));
      BoundNext(p, k, Abs(s1.delta - s2.delta), Abs(s1.cbr - s2.cbr), Abs(r1.delta - r2.delta),
                Abs(Smoothed(r1.cbr, avg) - Smoothed(r2.cbr, avg)));
    }
  }

  lemma NoSteps(p: Parameters, d0: real, s0: real)
    ensures Bound(p, 0, d0, s0) == d0
  {
  }

  /** (1 - a)^k falls at least as fast as 1 / (1 + k a). */
  lemma {:induction false} PowerDecays(a: real, k: nat)
    requires 0.0 <= a <= 1.0
    ensures Power(1.0 - a, k) * (1.0 + k as real * a) <= 1.0
  {
    if k > 0 {
      PowerDecays(a, k - 1);
      PowerBounds(1.0 - a, k - 1);
      var q, n := Power(1.0 - a, k - 1), (k - 1) as real;
      assert k as real == n + 1.0;
      Product(n + 1.0, a * a);
      Product(q, (n + 1.0) * (a * a));
      assert (1.0 - a) * (1.0 + (n + 1.0) * a) == 1.0 + n * a - (n + 1.0) * (a * a);
      assert Power(1.0 - a, k) * (1.0 + k as real * a) == q * ((1.0 - a) * (1.0 + (n + 1.0) * a));
      assert q * (1.0 + n * a - (n + 1.0) * (a * a)) == q * (1.0 + n * a) - q * ((n + 1.0) * (a * a));
    }
  }

  lemma RateFromBound(gap: real, factor: real, pc: real, d0: real)
    requires gap <= pc * d0 && pc * factor <= 1.0 && 0.0 <= d0 && 0.0 <= factor
    ensures gap * factor <= d0
  {
  }

  lemma EqualRatios(p: Parameters, k: nat, d0: real)
    ensures Bound(p, k, d0, 0.0) == Times(Power(1.0 - p.alpha, k), d0)
  {
  }

  lemma EqualStart(p: Parameters, s1: State, s2: State, avgs: seq<real>)
    requires p.Sound() && s1.cbr == s2.cbr
    ensures Abs(Run(p, s1, avgs).delta - Run(p, s2, avgs).delta) <= Times(Power(1.0 - p.alpha, |avgs|), Abs(s1.delta - s2.delta))
  {
    hide Run, Bound, Power;
    Fairness(p, s1, s2, avgs);
    EqualRatios(p, |avgs|, Abs(s1.delta - s2.delta));
  }

  /** By how much k evaluations have closed a gap, at least. */
  function Speed(k: nat, alpha: real): real {
    1.0 + k as real * alpha
  }

  /** So stations that start with equal smoothed ratios become fair: after k evaluations their
      gap times Speed, 1 + k alpha, is no more than the gap they started with. */
  lemma FairnessRate(p: Parameters, s1: State, s2: State, avgs: seq<real>)
    requires p.Sound() && s1.cbr == s2.cbr
    ensures Times(Abs(Run(p, s1, avgs).delta - Run(p, s2, avgs).delta), Speed(|avgs|, p.alpha)) <= Abs(s1.delta - s2.delta)
  {
    hide *;
    EqualStart(p, s1, s2, avgs);
    RateAfter(p, |avgs|, Abs(Run(p, s1, avgs).delta - Run(p, s2, avgs).delta), Abs(s1.delta - s2.delta));
  }

  lemma RateAfter(p: Parameters, k: nat, gap: real, d0: real)
    requires p.Sound() && 0.0 <= d0 && gap <= Times(Power(1.0 - p.alpha, k), d0)
    ensures Times(gap, Speed(k, p.alpha)) <= d0
  {
    hide Power;
    PowerDecays(p.alpha, k);
    Product(k as real, p.alpha);
    RateFromBound(gap, 1.0 + k as real * p.alpha, Power(1.0 - p.alpha, k), d0);
  }

  // ---------------------------------------------------------------- how delta follows the load

  /** x, or the nearer of two limits. */
  function Middle(low: real, x: real, high: real): real {
    if x < low then low else if x > high then high else x
  }

  /** The new smoothed ratio weighs half the old one and half the mean of two measurements. */
  lemma SmoothedIs(s: State, i: Inputs)
    ensures var pair := i.global_.Some? && i.globalPrevious.Some?;
            4.0 * Smoothed(s.cbr, Average(i)) ==
            2.0 * s.cbr + if pair then i.global_.value + i.globalPrevious.value else i.local + i.localPrevious
  {
  }

  lemma SignOfTimes(b: real, x: real)
    requires b > 0.0
    ensures (Times(b, x) > 0.0 <==> x > 0.0) && (Times(b, x) < 0.0 <==> x < 0.0)
  {
  }

  /** Where the limits of delta do not cut, an evaluation raises delta above what is left of it exactly
      when the smoothed ratio is below the target, and lowers it exactly when it is above; by beta times
      the distance to the target, as far as the limits of a step allow. */
  lemma DeltaReacts(p: Parameters, s: State, avg: real)
    requires p.beta > 0.0 && p.deltaDownMax < 0.0 < p.deltaUpMax
    requires p.deltaMin < Updated(p, s, avg).delta < p.deltaMax
    ensures var n := Updated(p, s, avg); var step := n.delta - (1.0 - p.alpha) * s.delta;
            && n.cbr == 0.5 * s.cbr + 0.5 * avg
            && (step > 0.0 <==> n.cbr < p.cbrTarget) && (step < 0.0 <==> n.cbr > p.cbrTarget)
            && step == Middle(p.deltaDownMax, p.beta * (p.cbrTarget - n.cbr), p.deltaUpMax)
  {
    hide Times;
    var diff := p.cbrTarget - Smoothed(s.cbr, avg);
    SignOfTimes(p.beta, diff);
    assert Times(p.beta, diff) == p.beta * diff by { TimesIs(p.beta, diff); }
    assert Times(1.0 - p.alpha, s.delta) == (1.0 - p.alpha) * s.delta by { TimesIs(1.0 - p.alpha, s.delta); }
  }

  lemma TimesIs(x: real, y: real)
    ensures Times(x, y) == x * y
  {
  }

  /** The delta that a constant load leads to. */
  function SteadyDelta(p: Parameters, load: real): real
    requires p.alpha > 0.0
  {
    Middle(p.deltaMin, Middle(p.deltaDownMax, p.beta * (p.cbrTarget - load), p.deltaUpMax) / p.alpha, p.deltaMax)
  }

  /** A load that every evaluation finds. */
  predicate Constant(avgs: seq<real>, load: real) {
    forall i | 0 <= i < |avgs| :: avgs[i] == load
  }

  /** Leaking alpha and adding it times x stays at x; above or below x it moves towards x. */
  lemma LeakAndAdd(a: real, d: real, x: real, o: real)
    requires 0.0 < a <= 1.0 && x * a == o
    ensures d == x ==> Times(1.0 - a, d) + o == d
    ensures d < x ==> Times(1.0 - a, d) + o > d
    ensures d > x ==> Times(1.0 - a, d) + o < d
  {
    hide Times;
    Stretched(a, d, x);
    Stretched(a, x, d);
    TimesIs(1.0 - a, d);
    Leaked(a, d);
    assert a * x == x * a;
  }

  lemma Leaked(a: real, d: real)
    ensures (1.0 - a) * d == d - a * d
  {
  }

  lemma Stretched(d: real, x: real, y: real)
    requires d > 0.0
    ensures x < y <==> d * x < d * y
  {
  }

  lemma OffsetIsMiddle(p: Parameters, cbr: real)
    requires p.Sound()
    ensures Offset(p, cbr) == Middle(p.deltaDownMax, p.beta * (p.cbrTarget - cbr), p.deltaUpMax)
  {
    hide Times;
    var diff := p.cbrTarget - cbr;
    TimesIs(p.beta, diff);
    if diff > 0.0 {
      Product(p.beta, diff);
    } else {
      NotPositive(p.beta, diff);
    }
  }

  lemma NotPositive(b: real, x: real)
    requires b >= 0.0 && x <= 0.0
    ensures b * x <= 0.0
  {
  }

  lemma SteadyIsKept(p: Parameters, load: real)
    requires p.Sound() && p.alpha > 0.0 && p.deltaMin <= p.deltaMax
    ensures NextDelta(p, SteadyDelta(p, load), load) == SteadyDelta(p, load)
  {
    hide Offset, Times;
    OffsetIsMiddle(p, load);
    var o := Offset(p, load);
    var x := o / p.alpha;
    assert x * p.alpha == o;
    LeakAndAdd(p.alpha, SteadyDelta(p, load), x, o);
  }

  lemma {:induction false} SteadyRun(p: Parameters, load: real, avgs: seq<real>)
    requires p.Sound() && p.alpha > 0.0 && p.deltaMin <= p.deltaMax && Constant(avgs, load)
    ensures Run(p, State(load, SteadyDelta(p, load)), avgs) == State(load, SteadyDelta(p, load))
  {
    hide NextDelta, SteadyDelta;
    if avgs != [] {
      SteadyRun(p, load, avgs[..|avgs| - 1]);
      SteadyIsKept(p, load);
    }
  }

  lemma {:induction false} RunSplit(p: Parameters, s: State, avgs: seq<real>, m: nat)
    requires m <= |avgs|
    ensures Run(p, s, avgs) == Run(p, Run(p, s, avgs[..m]), avgs[m..])
    decreases |avgs|
  {
    hide Updated;
    if m < |avgs| {
      var k := |avgs| - 1;
      RunSplit(p, s, avgs[..k], m);
      assert avgs[..k][..m] == avgs[..m] && avgs[..k][m..] == avgs[m..k];
      assert avgs[m..][..|avgs[m..]| - 1] == avgs[m..k];
    } else {
      assert avgs[..m] == avgs && avgs[m..] == [];
    }
  }

  /** How far a state is from where a load leads. */
  function DeltaGap(p: Parameters, s: State, load: real): real
    requires p.alpha > 0.0
  {
    Abs(s.delta - SteadyDelta(p, load))
  }

  function LoadGap(s: State, load: real): real {
    Abs(s.cbr - load)
  }

  lemma BoundAtMost(p: Parameters, k: nat, d0: real, s0: real)
    requires p.Sound() && 0.0 <= d0 && 0.0 <= s0
    ensures Bound(p, k, d0, s0) <= Times(Power(1.0 - p.alpha, k), d0) + Times(p.beta, s0)
    ensures Bound(p, k, d0, s0) <= d0 + Times(p.beta, s0)
  {
    PowerBounds(1.0 - p.alpha, k);
    PowerBounds(0.5, k);
    Product(p.beta, s0);
    var bs, h, q := p.beta * s0, Power(0.5, k), Power(1.0 - p.alpha, k);
    Product(bs, h);
    assert bs * (1.0 - h) == bs - bs * h;
    Product(d0, 1.0 - q);
    assert d0 * (1.0 - q) == d0 - q * d0;
  }

  /** After m evaluations of the load the smoothed ratio is half as far from it for each; the k
      evaluations that follow shrink the gap of delta by (1 - alpha) each, up to what that leaves. */
  lemma LoadApproached(p: Parameters, s: State, load: real, avgs: seq<real>, m: nat, k: nat)
    requires p.Sound() && p.alpha > 0.0 && p.deltaMin <= p.deltaMax && Constant(avgs, load) && |avgs| == m + k
    ensures LoadGap(Run(p, s, avgs), load) == Power(0.5, |avgs|) * LoadGap(s, load)
    ensures DeltaGap(p, Run(p, s, avgs), load)
            <= Times(Power(1.0 - p.alpha, k), DeltaGap(p, Run(p, s, avgs[..m]), load))
               + Times(p.beta, Times(Power(0.5, m), LoadGap(s, load)))
    ensures DeltaGap(p, Run(p, s, avgs), load) <= DeltaGap(p, s, load) + Times(p.beta, LoadGap(s, load))
  {
    hide Run, SteadyDelta, Bound, Power, Abs;
    var steady, early := State(load, SteadyDelta(p, load)), Run(p, s, avgs[..m]);
    SteadyRun(p, load, avgs);
    SteadyRun(p, load, avgs[..m]);
    SteadyRun(p, load, avgs[m..]);
    CbrGap(p, s, steady, avgs);
    CbrGap(p, s, steady, avgs[..m]);
    RunSplit(p, s, avgs, m);
    Fairness(p, s, steady, avgs);
    Fairness(p, early, steady, avgs[m..]);
    BoundAtMost(p, |avgs|, DeltaGap(p, s, load), LoadGap(s, load));
    BoundAtMost(p, k, DeltaGap(p, early, load), LoadGap(early, load));
    assert |avgs[m..]| == k && |avgs[..m]| == m;
    assert LoadGap(early, load) == Times(Power(0.5, m), LoadGap(s, load));
  }

  lemma Quotient(x: real, f: real, y: real)
    requires f > 0.0 && x * f <= 1.0 && y >= 0.0
    ensures x * y <= y / f
  {
    assert (y / f) * f == y;
    Product(y, 1.0 - x * f);
    assert y * (1.0 - x * f) == y - (x * y) * f;
    assert (y / f - x * y) * f >= 0.0;
  }

  /** What 2 k evaluations leave of gaps d of delta and c of the smoothed ratio, at most. */
  function Remaining(p: Parameters, k: nat, d: real, c: real): real
    requires p.Sound()
  {
    var lag := Times(p.beta, c);
    Over(d + lag, Speed(k, p.alpha)) + Over(lag, Speed(k, 0.5))
  }

  /** A share by name; the divisors here are at least 1. */
  function Over(x: real, f: real): real {
    if f > 0.0 then x / f else x
  }

  /** So a load that stays leads delta, from any state, to beta times its distance to the target over
      alpha, cut to the limits: after 2 k evaluations delta is that close to it. */
  lemma LoadSettles(p: Parameters, s: State, load: real, avgs: seq<real>, k: nat)
    requires p.Sound() && p.alpha > 0.0 && p.deltaMin <= p.deltaMax && Constant(avgs, load) && |avgs| == 2 * k
    ensures DeltaGap(p, Run(p, s, avgs), load) <= Remaining(p, k, DeltaGap(p, s, load), LoadGap(s, load))
  {
    hide Run, DeltaGap, LoadGap, Power, Times, SteadyDelta, Remaining;
    var d, c := DeltaGap(p, s, load), LoadGap(s, load);
    LoadApproached(p, s, load, avgs, k, k);
    LoadApproached(p, s, load, avgs[..k], 0, k);
    GapsNotNegative(p, s, load);
    Settling(p, k, DeltaGap(p, Run(p, s, avgs[..k]), load), d, c);
  }

  lemma Settling(p: Parameters, k: nat, early: real, d: real, c: real)
    requires p.Sound() && 0.0 <= d && 0.0 <= c && early <= d + Times(p.beta, c)
    ensures Times(Power(1.0 - p.alpha, k), early) + Times(p.beta, Times(Power(0.5, k), c)) <= Remaining(p, k, d, c)
  {
    hide Power, Times, Over, Speed;
    PowerShrinks(p.alpha, k);
    PowerShrinks(0.5, k);
    assert 1.0 - 0.5 == 0.5;
    Shares(p.beta, Power(1.0 - p.alpha, k), Power(0.5, k), early, d, c, Speed(k, p.alpha), Speed(k, 0.5));
  }

  lemma PowerShrinks(a: real, k: nat)
    requires 0.0 <= a <= 1.0
    ensures 0.0 <= Power(1.0 - a, k) && Speed(k, a) > 0.0 && Times(Power(1.0 - a, k), Speed(k, a)) <= 1.0
  {
    hide Power;
    PowerBounds(1.0 - a, k);
    PowerDecays(a, k);
    Product(k as real, a);
  }

  lemma Shares(beta: real, q: real, h: real, early: real, d: real, c: real, f: real, g: real)
    requires 0.0 <= q && 0.0 <= h && 0.0 <= beta && 0.0 <= d && 0.0 <= c && early <= d + Times(beta, c)
    requires f > 0.0 && g > 0.0 && Times(q, f) <= 1.0 && Times(h, g) <= 1.0
    ensures Times(q, early) + Times(beta, Times(h, c)) <= Over(d + Times(beta, c), f) + Over(Times(beta, c), g)
  {
    var lag := beta * c;
    Product(beta, c);
    Quotient(q, f, d + lag);
    Quotient(h, g, lag);
    Ordered(q, early, d + lag);
    assert beta * (h * c) == h * lag;
  }

  lemma GapsNotNegative(p: Parameters, s: State, load: real)
    requires p.alpha > 0.0
    ensures DeltaGap(p, s, load) >= 0.0 && LoadGap(s, load) >= 0.0
  {
  }

  // ---------------------------------------------------------------- order and bounds

  /** One station is no more loaded than another and holds no smaller delta. */
  predicate NoWorse(s1: State, s2: State) {
    s1.cbr <= s2.cbr && s1.delta >= s2.delta
  }

  lemma StepKeepsOrder(p: Parameters, s1: State, s2: State, avg1: real, avg2: real)
    requires p.Sound() && NoWorse(s1, s2) && avg1 <= avg2
    ensures NoWorse(Updated(p, s1, avg1), Updated(p, s2, avg2))
  {
    hide Offset, Clamped, Times;
    var cbr1, cbr2, c := Smoothed(s1.cbr, avg1), Smoothed(s2.cbr, avg2), 1.0 - p.alpha;
    OffsetOrdered(p, cbr1, cbr2);
    Ordered(c, s2.delta, s1.delta);
    ClampContracts(p, Times(c, s1.delta), Times(c, s2.delta), Offset(p, cbr1), Offset(p, cbr2));
  }

  /** The less loaded station never gets the smaller delta. */
  lemma {:induction false} OrderPreserved(p: Parameters, s1: State, s2: State, avgs1: seq<real>, avgs2: seq<real>)
    requires p.Sound() && NoWorse(s1, s2) && |avgs1| == |avgs2|
    requires forall i | 0 <= i < |avgs1| :: avgs1[i] <= avgs2[i]
    ensures NoWorse(Run(p, s1, avgs1), Run(p, s2, avgs2))
  {
    hide Updated;
    if avgs1 != [] {
      var k := |avgs1| - 1;
      OrderPreserved(p, s1, s2, avgs1[..k], avgs2[..k]);
      StepKeepsOrder(p, Run(p, s1, avgs1[..k]), Run(p, s2, avgs2[..k]), avgs1[k], avgs2[k]);
    }
  }

  /** delta stays within its limits from the start on, exactly if the limits are in order. */
  lemma {:induction false} DeltaInLimits(p: Parameters, avgs: seq<real>)
    ensures p.deltaMin <= Run(p, State(0.0, p.deltaMin), avgs).delta
    ensures Run(p, State(0.0, p.deltaMin), avgs).delta <= p.deltaMax <==> p.deltaMin <= p.deltaMax
  {
  }

  /** The smoothed ratio is a ratio as long as the averaged measurements are. */
  lemma {:induction false} CbrIsRatio(p: Parameters, s: State, avgs: seq<real>)
    requires IsRatio(s.cbr) && forall i | 0 <= i < |avgs| :: IsRatio(avgs[i])
    ensures IsRatio(Run(p, s, avgs).cbr)
  {
    hide NextDelta;
    if avgs != [] {
      CbrIsRatio(p, s, avgs[..|avgs| - 1]);
    }
  }

  /** The global measurements, when both are given, have a sum that two ratios can have. */
  predicate GlobalSumFits(i: Inputs) {
    i.global_.Some? && i.globalPrevious.Some? ==> 0.0 <= i.global_.value + i.globalPrevious.value <= 2.0
  }

  /** Only the local measurements are checked: accepted measurements keep every smoothed ratio
      within 0 and 1 if and only if the sum of the global ones, when both are given, does fit. */
  lemma SmoothedRatioExactly(i: Inputs)
    requires Checked(i)
    ensures (forall cbr | IsRatio(cbr) :: IsRatio(Smoothed(cbr, Average(i)))) <==> GlobalSumFits(i)
  {
    assert IsRatio(0.0) && IsRatio(1.0);
    assert Smoothed(0.0, Average(i)) == 0.5 * Average(i) && Smoothed(1.0, Average(i)) == 0.5 + 0.5 * Average(i);
  }

  /** A pair of global loads of 1.25 is accepted and lifts a full channel's ratio to 1.125. */
  lemma SmoothedRatioLost()
    ensures var i := Inputs(1.0, 1.0, Some(1.25), Some(1.25));
            Checked(i) && Smoothed(1.0, Average(i)) == 1.125 && !IsRatio(1.125)
  {
  }
}
