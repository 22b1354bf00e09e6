/** The gate keeper of the adaptive congestion control (TS 102 687 V1.2.1, annex B): after a
    packet the gate stays closed long enough that the station's share of the channel is at most
    delta.  Times in seconds, floating point taken as real numbers. */
module GateKeepers {
  import opened Outcomes

  const MIN_INTERVAL := 0.025
  const MAX_INTERVAL := 1.0
  const T_EPSILON := 0.000000001

  /** When the gate closed last and is scheduled to open. */
  datatype Closing = Closing(tPg: real, tGo: real)

  datatype Gate = Gate(delta: real, closing: Option<Closing>)

  predicate IsOpenAt(g: Gate, t: real) {
    g.closing.Some? ==> t >= g.closing.value.tGo - T_EPSILON
  }

  function Clamped(x: real): real {
    if x < MIN_INTERVAL then MIN_INTERVAL else if x > MAX_INTERVAL then MAX_INTERVAL else x
  }

  /** admit_packet at an open gate, equation B.1. */
  function Admitted(g: Gate, t: real, tOn: real): Gate
    requires g.delta != 0.0
  {
    g.(closing := Some(Closing(t, t + Clamped(tOn / g.delta))))
  }

  /** A closed interval rescaled by the ratio of the deltas. */
  function Scaled(deltaOld: real, deltaNew: real, interval: real): real
    requires deltaNew != 0.0
  {
    deltaOld / deltaNew * interval
  }

  /** update_delta, equation B.2. */
  function Rescheduled(g: Gate, t: real, delta: real): Gate
    requires delta > 0.0
  {
    if IsOpenAt(g, t) then g.(delta := delta)
    else
      var c := g.closing.value;
      Gate(delta, Some(Closing(c.tPg, c.tPg + Clamped(Scaled(g.delta, delta, c.tGo - c.tPg)))))
  }

  class GateKeeper {
    var delta: real
    var tPg: Option<real>
    var tGo: Option<real>

    ghost predicate Valid()
      reads this
    {
      tPg.Some? <==> tGo.Some?
    }

    function View(): Gate
      reads this
      requires Valid()
    {
      Gate(delta, if tPg.Some? then Some(Closing(tPg.value, tGo.value)) else None)
    }

    constructor (delta: real)
      ensures Valid() && View() == Gate(delta, None)
    {
      this.delta, tPg, tGo := delta, None, None;
    }

    method IsOpen(t: real) returns (open: bool)
      requires Valid()
      ensures open == IsOpenAt(View(), t)
    {
      if tGo.None? {
        return true;
      }
      open := t >= tGo.value - T_EPSILON;
    }

    method AdmitPacket(t: real, tOn: real) returns (r: Result<bool>)
      requires Valid() && delta != 0.0
      modifies this
      ensures Valid()
      ensures r == if tOn <= 0.0 then Err(ValueError) else Ok(IsOpenAt(old(View()), t))
      ensures View() == if r == Ok(true) then Admitted(old(View()), t, tOn) else old(View())
    {
      if tOn <= 0.0 {
        return Err(ValueError);
      }
      var open := IsOpen(t);
      if !open {
        return Ok(false);
      }
      tPg := Some(t);
      var interval := tOn / delta;
      if interval < MIN_INTERVAL {
        interval := MIN_INTERVAL;
      }
      if interval > MAX_INTERVAL {
        interval := MAX_INTERVAL;
      }
      tGo := Some(t + interval);
      r := Ok(true);
    }

    method UpdateDelta(t: real, deltaNew: real) returns (r: Result<()>)
      requires Valid()
      modifies this
      ensures Valid()
      ensures r == if deltaNew <= 0.0 then Err(ValueError) else Ok(())
      ensures View() == if deltaNew <= 0.0 then old(View()) else Rescheduled(old(View()), t, deltaNew)
    {
      hide Scaled;
      if deltaNew <= 0.0 {
        return Err(ValueError);
      }
      var deltaOld := delta;
      delta := deltaNew;
      r := Ok(());
      var open := IsOpen(t);
      if tPg.None? || tGo.None? || open {
        return;
      }
      var interval := Scaled(deltaOld, deltaNew, tGo.value - tPg.value);
      if interval < MIN_INTERVAL {
        interval := MIN_INTERVAL;
      }
      if interval > MAX_INTERVAL {
        interval := MAX_INTERVAL;
      }
      tGo := Some(tPg.value + interval);
    }
  }

  // ---------------------------------------------------------------- one packet

  function Interval(g: Gate): real
    requires g.closing.Some?
  {
    g.closing.value.tGo - g.closing.value.tPg
  }

  /** The gate is closed long enough for the packet at the present delta. */
  predicate Honours(g: Gate, tOn: real) {
    g.closing.Some? ==> tOn <= g.delta * Interval(g)
  }

  lemma Quotient(x: real, d: real)
    requires d > 0.0
    ensures d * (x / d) == x
  {
  }

  lemma Stretched(d: real, x: real, y: real)
    requires d > 0.0
    ensures x < y <==> d * x < d * y
  {
  }

  lemma ClampHonours(d: real, x: real, tOn: real)
    requires d > 0.0 && tOn <= d * x
    ensures tOn <= d * Clamped(x) <==> tOn <= d * 1.0 || x <= MAX_INTERVAL
    ensures x <= MAX_INTERVAL ==> tOn <= d * 1.0
  {
  }

  /** An admission honours the duty cycle exactly if the packet is no longer than delta. */
  lemma AdmissionHonoursExactly(g: Gate, t: real, tOn: real)
    requires g.delta > 0.0 && tOn > 0.0
    ensures Honours(Admitted(g, t, tOn), tOn) <==> tOn <= g.delta
  {
    Quotient(tOn, g.delta);
    ClampHonours(g.delta, tOn / g.delta, tOn);
    Stretched(g.delta, tOn / g.delta, 1.0);
  }

  lemma Rescaled(d: real, d2: real, x: real)
    requires d2 > 0.0
    ensures d2 * Scaled(d, d2, x) == d * x
  {
  }

  /** So does a rescheduling of a gate that honoured it. */
  lemma RescheduleHonoursExactly(g: Gate, t: real, delta: real, tOn: real)
    requires delta > 0.0 && !IsOpenAt(g, t) && Honours(g, tOn)
    ensures Honours(Rescheduled(g, t, delta), tOn) <==> tOn <= delta
  {
    hide Clamped, Scaled;
    var x := Scaled(g.delta, delta, Interval(g));
    Rescaled(g.delta, delta, Interval(g));
    ClampHonours(delta, x, tOn);
    assert Interval(Rescheduled(g, t, delta)) == Clamped(x);
  }

  // ---------------------------------------------------------------- when the gate opens again

  /** The closed interval that makes a share of the time worth an amount of air time, as near as the
      limits of an interval allow. */
  predicate Worth(share: real, interval: real, airtime: real) {
    if airtime < share * 0.025 then interval == 0.025
    else if airtime > share * 1.0 then interval == 1.0
    else share * interval == airtime
  }

  lemma ClampedWorth(d: real, x: real)
    requires d > 0.0
    ensures Worth(d, Clamped(x), d * x)
  {
    Stretched(d, x, 0.025);
    Stretched(d, 1.0, x);
  }

  /** After an admission the gate is closed from then on, for the interval that is worth the packet at
      the present delta. */
  lemma AdmittedExactly(g: Gate, t: real, tOn: real)
    requires g.delta > 0.0
    ensures var n := Admitted(g, t, tOn);
            n.delta == g.delta && n.closing.Some? && n.closing.value.tPg == t && Worth(g.delta, Interval(n), tOn)
  {
    hide Clamped;
    Quotient(tOn, g.delta);
    ClampedWorth(g.delta, tOn / g.delta);
    assert Interval(Admitted(g, t, tOn)) == Clamped(tOn / g.delta);
  }

  /** A new delta leaves an open gate as it is and gives a closed one, from the same start, the interval
      that is worth at the new delta what the old one was at the old. */
  lemma RescheduledExactly(g: Gate, t: real, delta: real)
    requires delta > 0.0
    ensures var n := Rescheduled(g, t, delta);
            && n.delta == delta && (g.closing.None? <==> n.closing.None?)
            && (IsOpenAt(g, t) ==> n.closing == g.closing)
            && (!IsOpenAt(g, t) ==> n.closing.value.tPg == g.closing.value.tPg
                                    && Worth(delta, Interval(n), g.delta * Interval(g)))
  {
    hide Clamped, Scaled;
    if !IsOpenAt(g, t) {
      Rescaled(g.delta, delta, Interval(g));
      ClampedWorth(delta, Scaled(g.delta, delta, Interval(g)));
      assert Interval(Rescheduled(g, t, delta)) == Clamped(Scaled(g.delta, delta, Interval(g)));
    }
  }

  // ---------------------------------------------------------------- whole runs

  datatype Op = Admit(t: real, tOn: real) | Update(t: real, delta: real)

  datatype Packet = Packet(t: real, tOn: real)

  /** The gate and the packets it let through. */
  datatype Trace = Trace(gate: Gate, admitted: seq<Packet>)

  predicate Accepts(g: Gate, op: Op) {
    op.Admit? && op.tOn > 0.0 && IsOpenAt(g, op.t)
  }

  function Step(tr: Trace, op: Op): Trace
    requires tr.gate.delta > 0.0
  {
    match op
    case Admit(t, tOn) =>
      if Accepts(tr.gate, op) then Trace(Admitted(tr.gate, t, tOn), tr.admitted + [Packet(t, tOn)]) else tr
    case Update(t, delta) =>
      if delta <= 0.0 then tr else tr.(gate := Rescheduled(tr.gate, t, delta))
  }

  function Run(delta: real, ops: seq<Op>): (tr: Trace)
    requires delta > 0.0
    ensures tr.gate.delta > 0.0
  {
    if ops == [] then Trace(Gate(delta, None), []) else Step(Run(delta, ops[..|ops| - 1]), ops[|ops| - 1])
  }

  predicate Chronological(ops: seq<Op>) {
    forall i, j | 0 <= i < j < |ops| :: ops[i].t <= ops[j].t
  }

  function LastOn(tr: Trace): real {
    if tr.admitted == [] then 0.0 else tr.admitted[|tr.admitted| - 1].tOn
  }

  /** While the gate is closed for a packet, delta never goes below its duration nor above dMax. */
  predicate Fits(delta: real, ops: seq<Op>, dMax: real)
    requires delta > 0.0
  {
    if ops == [] then delta <= dMax
    else
      var before, op := Run(delta, ops[..|ops| - 1]), ops[|ops| - 1];
      && Fits(delta, ops[..|ops| - 1], dMax)
      && (Accepts(before.gate, op) ==> op.tOn <= before.gate.delta)
      && (op.Update? ==> op.delta <= dMax && (op.delta > 0.0 && !IsOpenAt(before.gate, op.t) ==> LastOn(before) <= op.delta))
  }

  function Airtime(ps: seq<Packet>): real {
    if ps == [] then 0.0 else Airtime(ps[..|ps| - 1]) + ps[|ps| - 1].tOn
  }

  /** The time from packet p to the next one q, with the tolerance, pays for p. */
  predicate Pays(p: Packet, q: Packet, dMax: real) {
    p.tOn <= dMax * (q.t - p.t + T_EPSILON)
  }

  predicate GapsPay(ps: seq<Packet>, dMax: real) {
    forall i | 0 < i < |ps| :: Pays(ps[i - 1], ps[i], dMax)
  }

  ghost predicate Inv(tr: Trace, now: real, dMax: real) {
    var g, ps := tr.gate, tr.admitted;
    && 0.0 < g.delta <= dMax
    && (ps == [] <==> g.closing.None?)
    && (ps != [] ==>
          && g.closing.value.tPg == ps[|ps| - 1].t && MIN_INTERVAL <= Interval(g) <= MAX_INTERVAL
          && LastOn(tr) <= dMax * Interval(g)
          && (IsOpenAt(g, now) || Honours(g, LastOn(tr))))
    && GapsPay(ps, dMax)
  }

  lemma Grown(d: real, dMax: real, x: real, tOn: real)
    requires d <= dMax && 0.0 <= x && tOn <= d * x
    ensures tOn <= dMax * x
  {
  }

  /** One more admission comes when the interval of the previous packet is over. */
  lemma AdmitKeeps(tr: Trace, now: real, dMax: real, t: real, tOn: real)
    requires Inv(tr, now, dMax) && Accepts(tr.gate, Admit(t, tOn)) && tOn <= tr.gate.delta
    ensures Inv(Step(tr, Admit(t, tOn)), t, dMax)
  {
    hide Pays;
    var n := Step(tr, Admit(t, tOn));
    AdmissionHonoursExactly(tr.gate, t, tOn);
    Grown(n.gate.delta, dMax, Interval(n.gate), tOn);
    if tr.admitted != [] {
      GapPays(tr, dMax, t, tOn);
    }
  }

  lemma GapPays(tr: Trace, dMax: real, t: real, tOn: real)
    requires dMax > 0.0 && tr.admitted != [] && tr.gate.closing.Some? && IsOpenAt(tr.gate, t)
    requires tr.gate.closing.value.tPg == tr.admitted[|tr.admitted| - 1].t && LastOn(tr) <= dMax * Interval(tr.gate)
    ensures Pays(tr.admitted[|tr.admitted| - 1], Packet(t, tOn), dMax)
  {
    var last := tr.admitted[|tr.admitted| - 1];
    Longer(dMax, Interval(tr.gate), t - last.t + T_EPSILON);
  }

  lemma Longer(d: real, x: real, y: real)
    requires d > 0.0 && x <= y
    ensures d * x <= d * y
  {
  }

  lemma UpdateKeeps(tr: Trace, now: real, dMax: real, t: real, delta: real)
    requires Inv(tr, now, dMax) && now <= t && 0.0 < delta <= dMax
    requires !IsOpenAt(tr.gate, t) ==> LastOn(tr) <= delta
    ensures Inv(Step(tr, Update(t, delta)), t, dMax)
  {
    hide Pays;
    if !IsOpenAt(tr.gate, t) {
      var n := Step(tr, Update(t, delta));
      RescheduleHonoursExactly(tr.gate, t, delta, LastOn(tr));
      Grown(n.gate.delta, dMax, Interval(n.gate), LastOn(tr));
    }
  }

  lemma {:induction false} RunKeepsInv(delta: real, ops: seq<Op>, dMax: real)
    requires delta > 0.0 && Chronological(ops) && Fits(delta, ops, dMax) && ops != []
    ensures Inv(Run(delta, ops), ops[|ops| - 1].t, dMax)
  {
    hide Inv, Step, Chronological;
    var before, op := ops[..|ops| - 1], ops[|ops| - 1];
    var tr := Run(delta, before);
    var now := if before == [] then op.t else before[|before| - 1].t;
    assert Inv(tr, now, dMax) by {
      if before == [] {
        StartInv(delta, now, dMax);
      } else {
        EarlierChronological(ops);
        RunKeepsInv(delta, before, dMax);
      }
    }
    assert now <= op.t by {
      EarlierChronological(ops);
    }
    StepKeeps(tr, now, dMax, op);
  }

  lemma StartInv(delta: real, now: real, dMax: real)
    requires 0.0 < delta <= dMax
    ensures Inv(Trace(Gate(delta, None), []), now, dMax)
  {
  }

  lemma EarlierChronological(ops: seq<Op>)
    requires Chronological(ops) && ops != []
    ensures Chronological(ops[..|ops| - 1]) && (|ops| > 1 ==> ops[|ops| - 2].t <= ops[|ops| - 1].t)
  {
  }

  lemma StepKeeps(tr: Trace, now: real, dMax: real, op: Op)
    requires tr.gate.delta > 0.0 && Inv(tr, now, dMax) && now <= op.t
    requires Accepts(tr.gate, op) ==> op.tOn <= tr.gate.delta
    requires op.Update? ==> op.delta <= dMax && (op.delta > 0.0 && !IsOpenAt(tr.gate, op.t) ==> LastOn(tr) <= op.delta)
    ensures Inv(Step(tr, op), op.t, dMax)
  {
    match op
    case Admit(t, tOn) =>
      if Accepts(tr.gate, op) {
        AdmitKeeps(tr, now, dMax, t, tOn);
      }
    case Update(t, delta) =>
      if delta > 0.0 {
        UpdateKeeps(tr, now, dMax, t, delta);
      }
  }

  lemma {:induction false} WindowPays(ps: seq<Packet>, dMax: real, i: nat, j: nat)
    requires GapsPay(ps, dMax) && i <= j < |ps|
    ensures Airtime(ps[i..j]) <= dMax * (ps[j].t - ps[i].t + (j - i) as real * T_EPSILON)
  {
    if i < j {
      WindowPays(ps, dMax, i, j - 1);
      assert ps[i..j][..j - 1 - i] == ps[i..j - 1];
      assert Pays(ps[j - 1], ps[j], dMax);
    }
  }

  lemma RunPays(delta: real, ops: seq<Op>, dMax: real)
    requires delta > 0.0 && Chronological(ops) && Fits(delta, ops, dMax)
    ensures GapsPay(Run(delta, ops).admitted, dMax)
  {
    hide Fits, Chronological, Pays;
    if ops != [] {
      RunKeepsInv(delta, ops, dMax);
    }
  }

  /** The duty cycle over any run, through any number of reschedulings, and in any window of it: the
      time from each admitted packet to the next, and from any packet to any later one, pays for the
      air time between. */
  lemma DutyCycle(delta: real, ops: seq<Op>, dMax: real, i: nat, j: nat)
    requires delta > 0.0 && Chronological(ops) && Fits(delta, ops, dMax)
    requires i <= j < |Run(delta, ops).admitted|
    ensures var ps := Run(delta, ops).admitted;
            Airtime(ps[i..j]) <= dMax * (ps[j].t - ps[i].t + (j - i) as real * T_EPSILON)
  {
    hide Run, Fits, Chronological, Airtime, GapsPay;
    RunPays(delta, ops, dMax);
    WindowPays(Run(delta, ops).admitted, dMax, i, j);
  }

  /** Deltas between bounds and packets no longer than the lower one always fit. */
  lemma {:induction false} BoundedFits(delta: real, ops: seq<Op>, dMin: real, dMax: real)
    requires 0.0 < dMin <= delta <= dMax
    requires forall i | 0 <= i < |ops| :: if ops[i].Admit? then ops[i].tOn <= dMin else dMin <= ops[i].delta <= dMax
    ensures Fits(delta, ops, dMax) && dMin <= Run(delta, ops).gate.delta && LastOn(Run(delta, ops)) <= dMin
  {
    if ops != [] {
      BoundedFits(delta, ops[..|ops| - 1], dMin, dMax);
    }
  }

  // ---------------------------------------------------------------- spacing

  /** Whatever the deltas and durations: the scheduled interval stays within its limits, and the
      last admission is recorded. */
  lemma {:induction false} IntervalInLimits(delta: real, ops: seq<Op>)
    requires delta > 0.0
    ensures var tr := Run(delta, ops); var ps := tr.admitted;
            && (ps == [] <==> tr.gate.closing.None?)
            && (ps != [] ==> tr.gate.closing.value.tPg == ps[|ps| - 1].t && MIN_INTERVAL <= Interval(tr.gate) <= MAX_INTERVAL)
  {
    if ops != [] {
      IntervalInLimits(delta, ops[..|ops| - 1]);
    }
  }

  /** Admissions are at least 25 ms apart, and a packet offered a second after the last one
      always passes. */
  lemma SpacingAndProgress(delta: real, ops: seq<Op>, t: real, tOn: real)
    requires delta > 0.0 && tOn > 0.0 && Run(delta, ops).admitted != []
    ensures var tr := Run(delta, ops); var last := tr.admitted[|tr.admitted| - 1].t;
            && (Accepts(tr.gate, Admit(t, tOn)) ==> t - last >= MIN_INTERVAL - T_EPSILON)
            && (t - last >= MAX_INTERVAL ==> Accepts(tr.gate, Admit(t, tOn)))
  {
    IntervalInLimits(delta, ops);
  }

  // ---------------------------------------------------------------- which packets pass

  /** A packet offered after the run passes exactly if it has a duration and comes no earlier than a
      tolerance before the scheduled opening. */
  predicate PassesFrom(tr: Trace, t: real, tOn: real) {
    tOn > 0.0 && (tr.admitted != [] ==>
      tr.gate.closing.Some? && t - tr.admitted[|tr.admitted| - 1].t >= Interval(tr.gate) - 0.000000001)
  }

  lemma PassesExactly(delta: real, ops: seq<Op>, t: real, tOn: real)
    requires delta > 0.0
    ensures Accepts(Run(delta, ops).gate, Admit(t, tOn)) <==> PassesFrom(Run(delta, ops), t, tOn)
  {
    hide Run;
    IntervalInLimits(delta, ops);
  }

  /** While the gate is closed for a packet, its duration lies between 0.025 delta and delta. */
  predicate Plain(delta: real, ops: seq<Op>)
    requires delta > 0.0
  {
    ops == [] ||
    (var before, op := Run(delta, ops[..|ops| - 1]), ops[|ops| - 1];
     && Plain(delta, ops[..|ops| - 1])
     && (Accepts(before.gate, op) ==> 0.025 * before.gate.delta <= op.tOn <= before.gate.delta)
     && (op.Update? && op.delta > 0.0 && !IsOpenAt(before.gate, op.t) ==> 0.025 * op.delta <= LastOn(before) <= op.delta))
  }

  /** The closed interval is worth the last packet at the delta in force, or over. */
  predicate Paid(tr: Trace, now: real) {
    && (tr.admitted == [] <==> tr.gate.closing.None?)
    && (tr.admitted != [] ==>
          && tr.gate.closing.value.tPg == tr.admitted[|tr.admitted| - 1].t
          && (IsOpenAt(tr.gate, now) || tr.gate.delta * Interval(tr.gate) == LastOn(tr)))
  }

  lemma AdmitPaid(tr: Trace, t: real, tOn: real)
    requires tr.gate.delta > 0.0 && Accepts(tr.gate, Admit(t, tOn)) && 0.025 * tr.gate.delta <= tOn <= tr.gate.delta
    ensures Paid(Step(tr, Admit(t, tOn)), t)
  {
    hide Admitted;
    AdmittedExactly(tr.gate, t, tOn);
  }

  lemma UpdatePaid(tr: Trace, now: real, t: real, delta: real)
    requires tr.gate.delta > 0.0 && delta > 0.0 && Paid(tr, now) && now <= t
    requires !IsOpenAt(tr.gate, t) ==> 0.025 * delta <= LastOn(tr) <= delta
    ensures Paid(Step(tr, Update(t, delta)), t)
  {
    hide Rescheduled;
    RescheduledExactly(tr.gate, t, delta);
  }

  lemma StaysPaid(tr: Trace, now: real, t: real)
    requires Paid(tr, now) && now <= t
    ensures Paid(tr, t)
  {
  }

  lemma {:induction false} RunPaid(delta: real, ops: seq<Op>)
    requires delta > 0.0 && Chronological(ops) && Plain(delta, ops) && ops != []
    ensures Paid(Run(delta, ops), ops[|ops| - 1].t)
  {
    hide Paid, Admitted, Rescheduled, Chronological;
    var before, op := ops[..|ops| - 1], ops[|ops| - 1];
    var tr := Run(delta, before);
    var now := if before == [] then op.t else before[|before| - 1].t;
    EarlierChronological(ops);
    assert Paid(tr, now) by {
      if before == [] {
        StartPaid(delta, now);
      } else {
        RunPaid(delta, before);
      }
    }
    StaysPaid(tr, now, op.t);
    if Accepts(tr.gate, op) {
      AdmitPaid(tr, op.t, op.tOn);
    } else if op.Update? && op.delta > 0.0 {
      UpdatePaid(tr, now, op.t, op.delta);
    }
  }

  lemma StartPaid(delta: real, now: real)
    ensures Paid(Trace(Gate(delta, None), []), now)
  {
  }

  /** So over every such run, through any number of reschedulings: a packet passes a closed gate exactly
      when the time since the last one, and the tolerance, at the delta in force now have paid for it. */
  lemma OpensWhenPaid(delta: real, ops: seq<Op>, t: real, tOn: real)
    requires delta > 0.0 && Chronological(ops) && Plain(delta, ops) && ops != [] && tOn > 0.0
    ensures var tr := Run(delta, ops); var ps := tr.admitted;
            !IsOpenAt(tr.gate, ops[|ops| - 1].t) ==>
              ps != [] && (Accepts(tr.gate, Admit(t, tOn)) <==>
                             tr.gate.delta * (t - ps[|ps| - 1].t + 0.000000001) >= ps[|ps| - 1].tOn)
  {
    hide Run, Plain, Chronological;
    RunPaid(delta, ops);
    var tr := Run(delta, ops);
    if !IsOpenAt(tr.gate, ops[|ops| - 1].t) {
      var elapsed := t - tr.admitted[|tr.admitted| - 1].t + 0.000000001;
      Stretched(tr.gate.delta, elapsed, Interval(tr.gate));
    }
  }
}
