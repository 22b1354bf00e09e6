/** The timers of the CAM check: start, stop and the chain in which each check schedules the next
    (cam_transmission_management.py, start, stop, _schedule_next_check and _check_cam_conditions). */
module CheckTimers {
  import opened Outcomes
  import opened CamTransmission

  /** A timer waits until it is due; then its thread enters the callback, checks, and at the end
      schedules the next timer if it finds the service active.  The clock counts milliseconds;
      checks are those of the activation. */
  datatype Timers = Timers(
    active: bool,               // _active
    timer: Option<nat>,         // _timer
    nextTimer: nat,
    waiting: map<nat, int>,     // with the time each is due
    entered: set<nat>, checking: set<nat>, arming: set<nat>,
    clock: int, checks: seq<int>)

  datatype Step =
    | Start(delay: nat)         // the random first delay
    | Stop
    | Elapse(ms: nat)
    | Fire(t: nat)              // the timer is past cancelling
    | Check(t: nat)             // the callback looks whether the service is active, and checks
    | Finish(t: nat)            // the check is over; _schedule_next_check looks whether the service is active
    | Arm(t: nat)               // and starts the next timer, also when stop came in between

  predicate Enabled(w: Timers, step: Step) {
    match step
    case Fire(t) => t in w.waiting && w.waiting[t] <= w.clock
    case Check(t) => t in w.entered
    case Finish(t) => t in w.checking
    case Arm(t) => t in w.arming
    case _ => true
  }

  function WithTimer(w: Timers, delay: int): Timers {
    w.(timer := Some(w.nextTimer), nextTimer := w.nextTimer + 1, waiting := w.waiting[w.nextTimer := w.clock + delay])
  }

  function Next(w: Timers, step: Step): Timers
    requires Enabled(w, step)
  {
    match step
    case Start(delay) => if w.active then w else WithTimer(w.(active := true, checks := []), delay)
    case Stop => w.(active := false, timer := None, waiting := if w.timer.Some? then w.waiting - {w.timer.value} else w.waiting)
    case Elapse(ms) => w.(clock := w.clock + ms)
    case Fire(t) => w.(waiting := w.waiting - {t}, entered := w.entered + {t})
    case Check(t) =>
      var n := w.(entered := w.entered - {t});
      if w.active then n.(checking := w.checking + {t}, checks := w.checks + [w.clock]) else n
    case Finish(t) =>
      var n := w.(checking := w.checking - {t});
      if w.active then n.(arming := w.arming + {t}) else n
    case Arm(t) => WithTimer(w.(arming := w.arming - {t}), T_CHECK_CAM_GEN)
  }

  const IDLE := Timers(false, None, 0, map[], {}, {}, {}, 0, [])

  predicate IsRun(steps: seq<Step>)
    decreases |steps|, 0
  {
    steps == [] || (IsRun(steps[..|steps| - 1]) && Enabled(Final(steps[..|steps| - 1]), steps[|steps| - 1]))
  }

  function Final(steps: seq<Step>): Timers
    requires IsRun(steps)
    decreases |steps|, 1
  {
    if steps == [] then IDLE else Next(Final(steps[..|steps| - 1]), steps[|steps| - 1])
  }

  // ---------------------------------------------------------------- one chain

  /** Timers are numbered afresh and in one place each. */
  predicate Numbered(w: Timers) {
    && (forall t | t in w.waiting :: t < w.nextTimer && t !in w.entered && t !in w.checking && t !in w.arming)
    && (forall t | t in w.entered :: t < w.nextTimer && t !in w.checking && t !in w.arming)
    && (forall t | t in w.checking :: t < w.nextTimer && t !in w.arming)
    && (forall t | t in w.arming :: t < w.nextTimer)
  }

  /** The timers that wait or are in their callback. */
  function Live(w: Timers): set<nat> {
    w.waiting.Keys + w.entered + w.checking + w.arming
  }

  /** There is at most one, and if it waits it is the one that stop would cancel. */
  predicate OneChain(w: Timers) {
    && (forall t, u | t in Live(w) && u in Live(w) :: t == u)
    && (forall t | t in w.waiting :: w.timer == Some(t))
  }

  /** The service is started again while a timer of before is live. */
  predicate Overlaps(w: Timers, step: Step) {
    step.Start? && !w.active && Live(w) != {}
  }

  lemma StaysNumbered(w: Timers, step: Step)
    requires Enabled(w, step) && Numbered(w)
    ensures Numbered(Next(w, step))
  {
  }

  /** A new timer comes up only when the service starts or a callback ends. */
  lemma LiveAfter(w: Timers, step: Step)
    requires Enabled(w, step) && Numbered(w)
    ensures var live := Live(Next(w, step));
            match step
            case Start(_) => live == Live(w) + (if w.active then {} else {w.nextTimer})
            case Arm(t) => t in Live(w) && live <= Live(w) - {t} + {w.nextTimer}
            case _ => live <= Live(w)
  {
  }

  lemma WaitingAfter(w: Timers, step: Step)
    requires Enabled(w, step) && Numbered(w) && OneChain(w) && !Overlaps(w, step)
    ensures forall t | t in Next(w, step).waiting :: Next(w, step).timer == Some(t)
  {
    assert forall t | t in w.waiting :: t in Live(w);
    if step.Arm? {
      assert step.t in Live(w);
    }
  }

  lemma LiveNumbered(w: Timers)
    requires Numbered(w)
    ensures w.nextTimer !in Live(w)
  {
  }

  /** A step makes a second chain of checks exactly if it starts the service again over a live
      timer. */
  lemma OneChainExactly(w: Timers, step: Step)
    requires Enabled(w, step) && Numbered(w) && OneChain(w)
    ensures Numbered(Next(w, step))
    ensures OneChain(Next(w, step)) <==> !Overlaps(w, step)
  {
    hide Next, Live, Numbered;
    StaysNumbered(w, step);
    LiveAfter(w, step);
    LiveNumbered(w);
    if Overlaps(w, step) {
      var t :| t in Live(w);
      assert t in Live(Next(w, step)) && w.nextTimer in Live(Next(w, step)) && t != w.nextTimer;
    } else {
      WaitingAfter(w, step);
    }
  }

  /** The checks of the activation are at least a period apart, and so is any still to come. */
  predicate Apart(w: Timers) {
    && (forall i | 0 < i < |w.checks| :: w.checks[i] - w.checks[i - 1] >= T_CHECK_CAM_GEN)
    && (w.checks != [] ==>
          var last := w.checks[|w.checks| - 1];
          && last <= w.clock
          && (forall t | t in w.waiting :: w.waiting[t] - last >= T_CHECK_CAM_GEN)
          && (w.entered != {} ==> w.clock - last >= T_CHECK_CAM_GEN))
  }

  lemma StaysApart(w: Timers, step: Step)
    requires Enabled(w, step) && Numbered(w) && OneChain(w) && Apart(w) && !Overlaps(w, step)
    ensures Apart(Next(w, step))
  {
  }

  predicate NeverOverlaps(steps: seq<Step>)
    requires IsRun(steps)
    decreases |steps|
  {
    steps == [] || (var before := steps[..|steps| - 1];
                    NeverOverlaps(before) && !Overlaps(Final(before), steps[|steps| - 1]))
  }

  predicate AlwaysOneChain(steps: seq<Step>)
    requires IsRun(steps)
    decreases |steps|
  {
    OneChain(Final(steps)) && (steps != [] ==> AlwaysOneChain(steps[..|steps| - 1]))
  }

  lemma {:induction false} RunNumbered(steps: seq<Step>)
    requires IsRun(steps)
    ensures Numbered(Final(steps))
    decreases |steps|
  {
    hide Next, Numbered;
    if steps == [] {
      NothingLive();
    } else {
      RunNumbered(steps[..|steps| - 1]);
      StaysNumbered(Final(steps[..|steps| - 1]), steps[|steps| - 1]);
    }
  }

  /** In every run of starts, stops and expiries there is one chain of checks all along if and only
      if the service is never started again over a live timer. */
  lemma {:induction false} OneChainRunsExactly(steps: seq<Step>)
    requires IsRun(steps)
    ensures AlwaysOneChain(steps) <==> NeverOverlaps(steps)
    decreases |steps|
  {
    hide Next, Numbered, OneChain, Overlaps;
    if steps == [] {
      NothingLive();
    } else {
      var before := steps[..|steps| - 1];
      OneChainRunsExactly(before);
      RunNumbered(before);
      if AlwaysOneChain(before) {
        assert OneChain(Final(before));
        OneChainExactly(Final(before), steps[|steps| - 1]);
      }
    }
  }

  lemma NothingLive()
    ensures Numbered(IDLE) && OneChain(IDLE) && Apart(IDLE)
  {
  }

  /** And then the checks of an activation are at least a check period apart. */
  lemma {:induction false} ChecksApart(steps: seq<Step>)
    requires IsRun(steps) && NeverOverlaps(steps)
    ensures Apart(Final(steps))
    decreases |steps|
  {
    hide Next, Numbered, OneChain, Overlaps, Apart;
    if steps == [] {
      NothingLive();
    } else {
      var before := steps[..|steps| - 1];
      ChecksApart(before);
      RunNumbered(before);
      OneChainRunsExactly(before);
      assert OneChain(Final(before));
      StaysApart(Final(before), steps[|steps| - 1]);
    }
  }

  // ---------------------------------------------------------------- the CAMs of an activation

  /** Ticks at the times of the checks, whatever position and outcome each finds. */
  predicate At(ticks: seq<Tick>, checks: seq<int>) {
    |ticks| == |checks| && forall i | 0 <= i < |ticks| :: ticks[i].now == checks[i]
  }

  /** Unless the service is started again over a live timer, its CAMs are at least 100 ms apart,
      recorded or not. */
  lemma CamsSpaced(steps: seq<Step>, ticks: seq<Tick>, setup: Setup)
    requires IsRun(steps) && NeverOverlaps(steps) && At(ticks, Final(steps).checks)
    ensures Timed(ticks) && Spaced(CamTransmission.Run(ticks, setup).sent)
  {
    hide IsRun, Final, NeverOverlaps;
    ChecksApart(steps);
    TimedSpaced(ticks, setup);
  }

  lemma RunOn(steps: seq<Step>, step: Step)
    requires IsRun(steps) && Enabled(Final(steps), step)
    ensures IsRun(steps + [step]) && Final(steps + [step]) == Next(Final(steps), step)
    ensures NeverOverlaps(steps + [step]) <==> NeverOverlaps(steps) && !Overlaps(Final(steps), step)
  {
    assert (steps + [step])[..|steps|] == steps;
  }

  /** The service is stopped and started during its first check, which then schedules a second chain. */
  const RESTARTED := [Start(0)] + [Fire(0)] + [Check(0)] + [Stop] + [Start(50)]

  const OVERLAPPING := RESTARTED + [Finish(0)] + [Arm(0)] + [Elapse(50)] + [Fire(1)] + [Check(1)] + [Elapse(50)] + [Fire(2)] + [Check(2)]

  lemma Restarted()
    ensures IsRun(RESTARTED) && !NeverOverlaps(RESTARTED)
    ensures Final(RESTARTED) == Timers(true, Some(1), 2, map[1 := 50], {}, {0}, {}, 0, [])
  {
    assert [] + [Start(0)] == [Start(0)];
    RunOn([], Start(0));
    RunOn([Start(0)], Fire(0));
    RunOn([Start(0)] + [Fire(0)], Check(0));
    RunOn([Start(0)] + [Fire(0)] + [Check(0)], Stop);
    assert Final([Start(0)] + [Fire(0)] + [Check(0)] + [Stop]) == Timers(false, None, 1, map[], {}, {0}, {}, 0, [0]);
    RunOn([Start(0)] + [Fire(0)] + [Check(0)] + [Stop], Start(50));
  }

  lemma Overlapping()
    ensures IsRun(OVERLAPPING) && !NeverOverlaps(OVERLAPPING) && Final(OVERLAPPING).checks == [50, 100]
  {
    Restarted();
    var steps := RESTARTED;
    RunOn(steps, Finish(0));
    RunOn(steps + [Finish(0)], Arm(0));
    steps := steps + [Finish(0)] + [Arm(0)];
    assert Final(steps) == Timers(true, Some(2), 3, map[1 := 50, 2 := 100], {}, {}, {}, 0, []);
    RunOn(steps, Elapse(50));
    RunOn(steps + [Elapse(50)], Fire(1));
    RunOn(steps + [Elapse(50)] + [Fire(1)], Check(1));
    steps := steps + [Elapse(50)] + [Fire(1)] + [Check(1)];
    assert Final(steps) == Timers(true, Some(2), 3, map[2 := 100], {}, {1}, {}, 50, [50]);
    RunOn(steps, Elapse(50));
    RunOn(steps + [Elapse(50)], Fire(2));
    RunOn(steps + [Elapse(50)] + [Fire(2)], Check(2));
  }

  /** A first CAM that was not recorded, and another check 50 ms later. */
  lemma SentTwice(tpv: Tpv, setup: Setup)
    ensures var sent := CamTransmission.Run([Tick(50, Some(tpv), SentOnly), Tick(100, Some(tpv), Recorded)], setup).sent;
            |sent| == 2 && sent[0].time == 50 && sent[1].time == 100
  {
    hide CamTransmission.Run, IncludesLf, IncludesSpecial, IncludesVlf, AfterSending;
    var t, u := Tick(50, Some(tpv), SentOnly), Tick(100, Some(tpv), Recorded);
    assert [] + [t] + [u] == [t, u];
    RunOnTwice([], t, u, setup);
    NoTicks(setup);
  }

  /** Then a CAM that was not recorded is followed by another one 50 ms later. */
  lemma OverlapBreaksSpacing(tpv: Tpv, setup: Setup)
    ensures IsRun(OVERLAPPING)
    ensures var ticks := [Tick(50, Some(tpv), SentOnly), Tick(100, Some(tpv), Recorded)];
            var sent := CamTransmission.Run(ticks, setup).sent;
            && At(ticks, Final(OVERLAPPING).checks)
            && |sent| == 2 && sent[1].time - sent[0].time == 50 && !Spaced(sent)
  {
    hide IsRun, Final, NeverOverlaps, CamTransmission.Run;
    Overlapping();
    SentTwice(tpv, setup);
  }
}
