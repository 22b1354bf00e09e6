/** CAM generation (TS 103 900 V2.2.1, clause 6.1.3): when a CAM is sent, which containers it
    carries, and what the transmission manager remembers of it. */
module CamTransmission {
  import opened Outcomes
  import D = DuplicateDetection

  const T_GEN_CAM_MIN := 100
  const T_GEN_CAM_MAX := 1000
  const T_GEN_CAM_DCC := 100
  const T_CHECK_CAM_GEN := T_GEN_CAM_MIN
  const N_GEN_CAM := 3
  const T_LF := 500
  const T_SPECIAL := 500
  const T_VLF := 10000
  const HISTORY_LENGTH := 40

  datatype Position = Position(lat: real, lon: real)

  /** The cached position report; latitude and longitude count only together. */
  datatype Tpv = Tpv(track: Option<real>, position: Option<Position>, speed: Option<real>)

  datatype PathPoint = PathPoint(position: Position, time: int)

  /** What is fixed for a station: its vehicle role and the distance between positions. */
  datatype Setup = Setup(vehicleRole: int, distance: (Position, Position) -> real)

  datatype State = State(
    tGenCam: int, counter: int,
    lastTime: Option<int>, lastHeading: Option<real>, lastPosition: Option<Position>, lastSpeed: Option<real>,
    camCount: nat, lastLf: Option<int>, lastVlf: Option<int>, lastSpecial: Option<int>,
    history: seq<PathPoint>)

  const ACTIVATED := State(T_GEN_CAM_MAX, 0, None, None, None, None, 0, None, None, None, [])

  /** A CAM handed to BTP: when, by which condition, with which containers due, with which report,
      and whether the manager recorded it.  A special-vehicle container that is due is attached only if
      the vehicle has data for it. */
  datatype Cam = Cam(
    time: int, dynamic: bool, lf: bool, special: bool, vlf: bool, tpv: Tpv, recorded: bool)

  /** What becomes of a CAM that is due: BTP and the local dynamic map take it and it is recorded;
      BTP takes it and storing it in the map raises, so it is on the air and not recorded; building,
      encoding or sending it raises. */
  datatype Outcome = Recorded | SentOnly | Failed

  // ---------------------------------------------------------------- decisions

  function HeadingDifference(a: real, b: real): real {
    var diff := if a >= b then a - b else b - a;
    if diff > 180.0 then 360.0 - diff else diff
  }

  /** _check_dynamics. */
  predicate Dynamic(s: State, tpv: Tpv, setup: Setup) {
    || s.lastHeading.None?
    || (tpv.track.Some? && HeadingDifference(tpv.track.value, s.lastHeading.value) > 4.0)
    || (tpv.position.Some? && s.lastPosition.Some? && setup.distance(s.lastPosition.value, tpv.position.value) > 4.0)
    || (tpv.speed.Some? && s.lastSpeed.Some? &&
        (tpv.speed.value - s.lastSpeed.value > 0.5 || s.lastSpeed.value - tpv.speed.value > 0.5))
  }

  predicate IncludesLf(s: State, now: int) {
    s.camCount == 0 || s.lastLf.None? || now - s.lastLf.value >= T_LF
  }

  predicate IncludesSpecial(s: State, now: int, setup: Setup) {
    setup.vehicleRole != 0 && (s.camCount == 0 || s.lastSpecial.None? || now - s.lastSpecial.value >= T_SPECIAL)
  }

  predicate IncludesVlf(s: State, now: int, lf: bool, special: bool) {
    s.camCount == 1 || (s.lastVlf.Some? && now - s.lastVlf.value >= T_VLF && !lf && !special)
  }

  /** The condition by which a CAM is due: None when it is not. */
  function Due(s: State, tpv: Tpv, now: int, setup: Setup): Option<bool> {
    if s.lastTime.None? then Some(true)
    else
      var elapsed := now - s.lastTime.value;
      if elapsed >= T_GEN_CAM_DCC && Dynamic(s, tpv, setup) then Some(true)
      else if elapsed >= s.tGenCam && elapsed >= T_GEN_CAM_DCC then Some(false)
      else None
  }

  function Composed(s: State, tpv: Tpv, now: int, dynamic: bool, recorded: bool, setup: Setup): Cam {
    var lf, special := IncludesLf(s, now), IncludesSpecial(s, now, setup);
    Cam(now, dynamic, lf, special, IncludesVlf(s, now, lf, special), tpv, recorded)
  }

  function Clamped(ms: int): int {
    if ms < T_GEN_CAM_MIN then T_GEN_CAM_MIN else if ms > T_GEN_CAM_MAX then T_GEN_CAM_MAX else ms
  }

  function Remembered(history: seq<PathPoint>, point: PathPoint): seq<PathPoint> {
    var longer := history + [point];
    if |longer| > HISTORY_LENGTH then longer[1..] else longer
  }

  /** _update_send_state. */
  function AfterSending(s: State, tpv: Tpv, cam: Cam): State {
    var elapsed := if s.lastTime.Some? then cam.time - s.lastTime.value else 0;
    var full := !cam.dynamic || s.counter + 1 >= N_GEN_CAM;
    State(
      if full then T_GEN_CAM_MAX else Clamped(elapsed), if full then 0 else s.counter + 1,
      Some(cam.time),
      if tpv.track.Some? then tpv.track else s.lastHeading,
      if tpv.position.Some? then tpv.position else s.lastPosition,
      if tpv.speed.Some? then tpv.speed else s.lastSpeed,
      s.camCount + 1,
      if cam.lf then Some(cam.time) else s.lastLf,
      if cam.vlf then Some(cam.time) else s.lastVlf,
      if cam.special then Some(cam.time) else s.lastSpecial,
      if tpv.position.Some? then Remembered(s.history, PathPoint(tpv.position.value, cam.time)) else s.history)
  }

  /** One check of the conditions: the CAM sent, if any. */
  function Check(s: State, tpv: Option<Tpv>, now: int, outcome: Outcome, setup: Setup): Option<Cam> {
    if tpv.None? || outcome.Failed? then None
    else
      var due := Due(s, tpv.value, now, setup);
      if due.None? then None else Some(Composed(s, tpv.value, now, due.value, outcome.Recorded?, setup))
  }

  /** An exception skips the update of the state, also when the CAM is already sent. */
  function Checked(s: State, tpv: Option<Tpv>, now: int, outcome: Outcome, setup: Setup): State {
    var cam := Check(s, tpv, now, outcome, setup);
    if cam.Some? && outcome.Recorded? then AfterSending(s, tpv.value, cam.value) else s
  }

  // ---------------------------------------------------------------- the object

  class CamTransmissionManagement {
    const setup: Setup
    var active: bool
    var currentTpv: Option<Tpv>
    var tGenCam: int
    var nGenCamCounter: int
    var lastCamTimeMs: Option<int>
    var lastCamHeading: Option<real>
    var lastCamPosition: Option<Position>
    var lastCamSpeed: Option<real>
    var camCount: nat
    var lastLfTimeMs: Option<int>
    var lastVlfTimeMs: Option<int>
    var lastSpecialTimeMs: Option<int>
    var pathHistory: seq<PathPoint>
    var sent: seq<Cam>

    function View(): State
      reads this
    {
      State(tGenCam, nGenCamCounter, lastCamTimeMs, lastCamHeading, lastCamPosition, lastCamSpeed,
            camCount, lastLfTimeMs, lastVlfTimeMs, lastSpecialTimeMs, pathHistory)
    }

    constructor (setup: Setup)
      ensures this.setup == setup && !active && currentTpv == None && View() == ACTIVATED && sent == []
    {
      this.setup := setup;
      active, currentTpv, sent := false, None, [];
      tGenCam, nGenCamCounter := T_GEN_CAM_MAX, 0;
      lastCamTimeMs, lastCamHeading, lastCamPosition, lastCamSpeed := None, None, None, None;
      camCount, lastLfTimeMs, lastVlfTimeMs, lastSpecialTimeMs := 0, None, None, None;
      pathHistory := [];
    }

    /** Activation resets everything that is counted per activation. */
    method Start()
      modifies this
      ensures active && sent == old(sent) && currentTpv == old(currentTpv)
      ensures View() == if old(active) then old(View()) else ACTIVATED
    {
      if active {
        return;
      }
      active := true;
      ResetReference();
      ResetContainerTimes();
      pathHistory := [];
      tGenCam, nGenCamCounter := T_GEN_CAM_MAX, 0;
    }

    method ResetReference()
      modifies this`camCount, this`lastCamTimeMs, this`lastCamHeading, this`lastCamPosition, this`lastCamSpeed
      ensures camCount == 0 && lastCamTimeMs == None && lastCamHeading == None
      ensures lastCamPosition == None && lastCamSpeed == None
    {
      camCount, lastCamTimeMs, lastCamHeading, lastCamPosition, lastCamSpeed := 0, None, None, None, None;
    }

    method ResetContainerTimes()
      modifies this`lastLfTimeMs, this`lastVlfTimeMs, this`lastSpecialTimeMs
      ensures lastLfTimeMs == None && lastVlfTimeMs == None && lastSpecialTimeMs == None
    {
      lastLfTimeMs, lastVlfTimeMs, lastSpecialTimeMs := None, None, None;
    }

    method Stop()
      modifies this`active
      ensures !active
    {
      active := false;
    }

    method LocationServiceCallback(tpv: Tpv)
      modifies this`currentTpv
      ensures currentTpv == Some(tpv)
    {
      currentTpv := Some(tpv);
    }

    method CheckCamConditions(now: int, outcome: Outcome)
      modifies this
      ensures active == old(active) && currentTpv == old(currentTpv)
      ensures !active ==> View() == old(View()) && sent == old(sent)
      ensures active ==>
                && View() == Checked(old(View()), currentTpv, now, outcome, setup)
                && var cam := Check(old(View()), currentTpv, now, outcome, setup);
                   sent == old(sent) + if cam.Some? then [cam.value] else []
    {
      if !active {
        return;
      }
      EvaluateAndMaybeSend(now, outcome);
    }

    method EvaluateAndMaybeSend(now: int, outcome: Outcome)
      modifies this
      ensures active == old(active) && currentTpv == old(currentTpv)
      ensures View() == Checked(old(View()), currentTpv, now, outcome, setup)
      ensures var cam := Check(old(View()), currentTpv, now, outcome, setup);
              sent == old(sent) + if cam.Some? then [cam.value] else []
    {
      hide Dynamic, AfterSending, Composed;
      if currentTpv.None? {
        return;
      }
      var tpv := currentTpv.value;
      if lastCamTimeMs.None? {
        GenerateAndSendCam(tpv, now, true, outcome);
        return;
      }
      var elapsed := now - lastCamTimeMs.value;
      if elapsed >= T_GEN_CAM_DCC && Dynamic(View(), tpv, setup) {
        GenerateAndSendCam(tpv, now, true, outcome);
        return;
      }
      if elapsed >= tGenCam && elapsed >= T_GEN_CAM_DCC {
        GenerateAndSendCam(tpv, now, false, outcome);
      }
    }

    method GenerateAndSendCam(tpv: Tpv, now: int, dynamic: bool, outcome: Outcome)
      modifies this
      ensures active == old(active) && currentTpv == old(currentTpv)
      ensures var cam := Composed(old(View()), tpv, now, dynamic, outcome.Recorded?, setup);
              && View() == (if outcome.Recorded? then AfterSending(old(View()), tpv, cam) else old(View()))
              && sent == old(sent) + if outcome.Failed? then [] else [cam]
    {
      hide AfterSending;
      var elapsed := if lastCamTimeMs.Some? then now - lastCamTimeMs.value else 0;
      var includeLf := IncludesLf(View(), now);
      var includeSpecial := IncludesSpecial(View(), now, setup);
      var includeVlf := IncludesVlf(View(), now, includeLf, includeSpecial);
      if outcome.Failed? {
        return;
      }
      sent := sent + [Cam(now, dynamic, includeLf, includeSpecial, includeVlf, tpv, outcome.Recorded?)];
      if outcome.SentOnly? {
        return;
      }
      UpdateSendState(tpv, now, elapsed, dynamic, includeLf, includeSpecial, includeVlf);
    }

    method UpdateGenCam(elapsed: int, dynamic: bool)
      modifies this`tGenCam, this`nGenCamCounter
      ensures var full := !dynamic || old(nGenCamCounter) + 1 >= N_GEN_CAM;
              && tGenCam == (if full then T_GEN_CAM_MAX else Clamped(elapsed))
              && nGenCamCounter == if full then 0 else old(nGenCamCounter) + 1
    {
      if dynamic {
        tGenCam := Clamped(elapsed);
        nGenCamCounter := nGenCamCounter + 1;
        if nGenCamCounter >= N_GEN_CAM {
          tGenCam := T_GEN_CAM_MAX;
          nGenCamCounter := 0;
        }
      } else {
        nGenCamCounter := 0;
        tGenCam := T_GEN_CAM_MAX;
      }
    }

    method UpdateReference(tpv: Tpv)
      modifies this`lastCamHeading, this`lastCamPosition, this`lastCamSpeed
      ensures lastCamHeading == if tpv.track.Some? then tpv.track else old(lastCamHeading)
      ensures lastCamPosition == if tpv.position.Some? then tpv.position else old(lastCamPosition)
      ensures lastCamSpeed == if tpv.speed.Some? then tpv.speed else old(lastCamSpeed)
    {
      if tpv.track.Some? {
        lastCamHeading := tpv.track;
      }
      if tpv.position.Some? {
        lastCamPosition := tpv.position;
      }
      if tpv.speed.Some? {
        lastCamSpeed := tpv.speed;
      }
    }

    method UpdatePathHistory(position: Option<Position>, now: int)
      modifies this`pathHistory
      ensures pathHistory == if position.Some? then Remembered(old(pathHistory), PathPoint(position.value, now)) else old(pathHistory)
    {
      if position.Some? {
        pathHistory := pathHistory + [PathPoint(position.value, now)];
        if |pathHistory| > HISTORY_LENGTH {
          pathHistory := pathHistory[1..];
        }
      }
    }

    method UpdateContainerTimes(now: int, lf: bool, special: bool, vlf: bool)
      modifies this`lastLfTimeMs, this`lastSpecialTimeMs, this`lastVlfTimeMs
      ensures lastLfTimeMs == if lf then Some(now) else old(lastLfTimeMs)
      ensures lastSpecialTimeMs == if special then Some(now) else old(lastSpecialTimeMs)
      ensures lastVlfTimeMs == if vlf then Some(now) else old(lastVlfTimeMs)
    {
      if lf {
        lastLfTimeMs := Some(now);
      }
      if special {
        lastSpecialTimeMs := Some(now);
      }
      if vlf {
        lastVlfTimeMs := Some(now);
      }
    }

    method UpdateSendState(tpv: Tpv, now: int, elapsed: int, dynamic: bool, lf: bool, special: bool, vlf: bool)
      requires elapsed == if lastCamTimeMs.Some? then now - lastCamTimeMs.value else 0
      modifies this
      ensures active == old(active) && currentTpv == old(currentTpv) && sent == old(sent)
      ensures View() == AfterSending(old(View()), tpv, Cam(now, dynamic, lf, special, vlf, tpv, true))
    {
      hide Clamped, Remembered;
      UpdateGenCam(elapsed, dynamic);
      lastCamTimeMs := Some(now);
      UpdateReference(tpv);
      UpdatePathHistory(tpv.position, now);
      UpdateContainerTimes(now, lf, special, vlf);
      camCount := camCount + 1;
    }
  }

  // ---------------------------------------------------------------- runs

  /** One expiry of the check timer. */
  datatype Tick = Tick(now: int, tpv: Option<Tpv>, outcome: Outcome)

  datatype Activation = Activation(state: State, sent: seq<Cam>)

  function Ticked(a: Activation, t: Tick, setup: Setup): Activation {
    var cam := Check(a.state, t.tpv, t.now, t.outcome, setup);
    Activation(Checked(a.state, t.tpv, t.now, t.outcome, setup), a.sent + if cam.Some? then [cam.value] else [])
  }

  function Run(ticks: seq<Tick>, setup: Setup): Activation {
    if ticks == [] then Activation(ACTIVATED, []) else Ticked(Run(ticks[..|ticks| - 1], setup), ticks[|ticks| - 1], setup)
  }

  /** The CAMs the manager recorded. */
  function Noted(sent: seq<Cam>): seq<Cam> {
    if sent == [] then []
    else Noted(sent[..|sent| - 1]) + if sent[|sent| - 1].recorded then [sent[|sent| - 1]] else []
  }

  predicate AllRecorded(sent: seq<Cam>) {
    forall i | 0 <= i < |sent| :: sent[i].recorded
  }

  /** How many CAMs in a row, up to the last, were sent for their dynamics. */
  function Streak(sent: seq<Cam>): nat {
    if sent == [] || !sent[|sent| - 1].dynamic then 0 else Streak(sent[..|sent| - 1]) + 1
  }

  function LastGap(sent: seq<Cam>): int {
    if |sent| < 2 then 0 else sent[|sent| - 1].time - sent[|sent| - 2].time
  }

  datatype Container = LowFrequency | SpecialVehicle | VeryLowFrequency

  predicate Has(cam: Cam, c: Container) {
    match c
    case LowFrequency => cam.lf
    case SpecialVehicle => cam.special
    case VeryLowFrequency => cam.vlf
  }

  function LastWith(sent: seq<Cam>, c: Container): Option<int> {
    if sent == [] then None
    else if Has(sent[|sent| - 1], c) then Some(sent[|sent| - 1].time)
    else LastWith(sent[..|sent| - 1], c)
  }

  function Points(sent: seq<Cam>): seq<PathPoint> {
    if sent == [] then []
    else
      var cam := sent[|sent| - 1];
      Points(sent[..|sent| - 1]) + if cam.tpv.position.Some? then [PathPoint(cam.tpv.position.value, cam.time)] else []
  }

  /** The newest heading, position and speed reported with the CAMs. */
  function NewestTrack(sent: seq<Cam>): Option<real> {
    if sent == [] then None
    else if sent[|sent| - 1].tpv.track.Some? then sent[|sent| - 1].tpv.track
    else NewestTrack(sent[..|sent| - 1])
  }

  function NewestPosition(sent: seq<Cam>): Option<Position> {
    if sent == [] then None
    else if sent[|sent| - 1].tpv.position.Some? then sent[|sent| - 1].tpv.position
    else NewestPosition(sent[..|sent| - 1])
  }

  function NewestSpeed(sent: seq<Cam>): Option<real> {
    if sent == [] then None
    else if sent[|sent| - 1].tpv.speed.Some? then sent[|sent| - 1].tpv.speed
    else NewestSpeed(sent[..|sent| - 1])
  }

  /** CAMs at least 100 ms apart, each from its predecessor. */
  predicate Spaced(sent: seq<Cam>) {
    forall i | 0 < i < |sent| :: sent[i].time - sent[i - 1].time >= T_GEN_CAM_MIN
  }

  /** What the manager remembers if these were the CAMs of the activation. */
  ghost predicate Remembers(s: State, sent: seq<Cam>) {
    && s.camCount == |sent|
    && s.lastTime == (if sent == [] then None else Some(sent[|sent| - 1].time))
    && s.counter == Streak(sent) % N_GEN_CAM
    && s.tGenCam == (if Streak(sent) % N_GEN_CAM == 0 then T_GEN_CAM_MAX else Clamped(LastGap(sent)))
    && s.lastLf == LastWith(sent, LowFrequency)
    && s.lastSpecial == LastWith(sent, SpecialVehicle)
    && s.lastVlf == LastWith(sent, VeryLowFrequency)
    && s.history == D.LastOf(Points(sent), HISTORY_LENGTH)
    && s.lastHeading == NewestTrack(sent) && s.lastPosition == NewestPosition(sent) && s.lastSpeed == NewestSpeed(sent)
  }

  lemma OneMore(sent: seq<Cam>, cam: Cam)
    ensures Streak(sent + [cam]) == if cam.dynamic then Streak(sent) + 1 else 0
    ensures LastGap(sent + [cam]) == if sent == [] then 0 else cam.time - sent[|sent| - 1].time
    ensures Points(sent + [cam]) == Points(sent) + if cam.tpv.position.Some? then [PathPoint(cam.tpv.position.value, cam.time)] else []
  {
  }

  lemma OneMoreReport(sent: seq<Cam>, cam: Cam)
    ensures NewestTrack(sent + [cam]) == if cam.tpv.track.Some? then cam.tpv.track else NewestTrack(sent)
    ensures NewestPosition(sent + [cam]) == if cam.tpv.position.Some? then cam.tpv.position else NewestPosition(sent)
    ensures NewestSpeed(sent + [cam]) == if cam.tpv.speed.Some? then cam.tpv.speed else NewestSpeed(sent)
  {
    assert (sent + [cam])[..|sent|] == sent;
  }

  lemma OneMoreWith(sent: seq<Cam>, cam: Cam, c: Container)
    ensures LastWith(sent + [cam], c) == if Has(cam, c) then Some(cam.time) else LastWith(sent, c)
  {
  }

  lemma OneMorePoint(points: seq<PathPoint>, p: PathPoint)
    ensures D.LastOf(points + [p], HISTORY_LENGTH) == Remembered(D.LastOf(points, HISTORY_LENGTH), p)
  {
  }

  lemma StreakCounts(streak: nat, counter: int)
    requires counter == streak % N_GEN_CAM
    ensures (streak + 1) % N_GEN_CAM == if counter + 1 >= N_GEN_CAM then 0 else counter + 1
  {
  }

  lemma SendingRemembers(s: State, sent: seq<Cam>, tpv: Tpv, cam: Cam)
    requires Remembers(s, sent) && cam.tpv == tpv
    ensures Remembers(AfterSending(s, tpv, cam), sent + [cam])
  {
    hide Streak, LastGap, LastWith, Points, Clamped, D.LastOf, Remembered, NewestTrack, NewestPosition, NewestSpeed;
    OneMore(sent, cam);
    OneMoreReport(sent, cam);
    OneMoreWith(sent, cam, LowFrequency);
    OneMoreWith(sent, cam, SpecialVehicle);
    OneMoreWith(sent, cam, VeryLowFrequency);
    StreakCounts(Streak(sent), s.counter);
    if tpv.position.Some? {
      OneMorePoint(Points(sent), PathPoint(tpv.position.value, cam.time));
    } else {
      assert Points(sent) + [] == Points(sent);
    }
  }

  lemma OneMoreNoted(sent: seq<Cam>, cam: Cam)
    ensures Noted(sent + [cam]) == Noted(sent) + if cam.recorded then [cam] else []
  {
    assert (sent + [cam])[..|sent|] == sent;
  }

  /** No CAM was recorded later than the last recorded one, and none sent earlier. */
  predicate UpToLast(s: State, sent: seq<Cam>) {
    && (forall i | 0 <= i < |sent| && sent[i].recorded :: s.lastTime.Some? && sent[i].time <= s.lastTime.value)
    && (s.lastTime.Some? ==> sent != [] && s.lastTime.value <= sent[|sent| - 1].time)
  }

  lemma DueLater(s: State, tpv: Option<Tpv>, now: int, outcome: Outcome, setup: Setup)
    ensures var cam := Check(s, tpv, now, outcome, setup);
            cam.Some? ==>
              && tpv.Some? && cam.value.time == now && cam.value.tpv == tpv.value && cam.value.recorded == outcome.Recorded?
              && (s.lastTime.Some? ==> now - s.lastTime.value >= T_GEN_CAM_MIN)
  {
    hide IncludesLf, IncludesSpecial, IncludesVlf, Dynamic;
  }

  /** T_GenCam, the counter, the container times and the path history are exactly what the CAMs
      recorded so far determine. */
  lemma {:induction false} RunRemembers(ticks: seq<Tick>, setup: Setup)
    ensures Remembers(Run(ticks, setup).state, Noted(Run(ticks, setup).sent))
    ensures Spaced(Noted(Run(ticks, setup).sent)) && UpToLast(Run(ticks, setup).state, Run(ticks, setup).sent)
  {
    hide Remembers, Check, Noted, Spaced;
    if ticks == [] {
      NothingSent();
    } else {
      var a, t := Run(ticks[..|ticks| - 1], setup), ticks[|ticks| - 1];
      RunRemembers(ticks[..|ticks| - 1], setup);
      var cam := Check(a.state, t.tpv, t.now, t.outcome, setup);
      DueLater(a.state, t.tpv, t.now, t.outcome, setup);
      if cam.Some? {
        OneMoreNoted(a.sent, cam.value);
        if t.outcome.Recorded? {
          SendingRemembers(a.state, Noted(a.sent), t.tpv.value, cam.value);
          LastTimeIs(a.state, Noted(a.sent));
          OneMoreSpaced(Noted(a.sent), cam.value);
        } else {
          assert Noted(a.sent) + [] == Noted(a.sent);
        }
      } else {
        assert a.sent + [] == a.sent;
      }
    }
  }

  lemma OneMoreSpaced(sent: seq<Cam>, cam: Cam)
    requires Spaced(sent) && (sent != [] ==> cam.time - sent[|sent| - 1].time >= T_GEN_CAM_MIN)
    ensures Spaced(sent + [cam])
  {
  }

  lemma NothingSent()
    ensures Remembers(ACTIVATED, Noted([])) && Spaced(Noted([]))
  {
  }

  lemma LastTimeIs(s: State, sent: seq<Cam>)
    requires Remembers(s, sent)
    ensures s.lastTime == (if sent == [] then None else Some(sent[|sent| - 1].time))
  {
  }

  lemma NotedFront(sent: seq<Cam>)
    requires sent != []
    ensures var front, last := sent[..|sent| - 1], sent[|sent| - 1];
            && Noted(sent) == Noted(front) + (if last.recorded then [last] else [])
            && (AllRecorded(sent) <==> AllRecorded(front) && last.recorded)
  {
  }

  lemma {:induction false} NotedCount(sent: seq<Cam>)
    ensures |Noted(sent)| <= |sent|
    ensures |Noted(sent)| == |sent| <==> AllRecorded(sent)
    ensures AllRecorded(sent) ==> Noted(sent) == sent
  {
    hide AllRecorded;
    if sent == [] {
      NothingNoted();
    } else {
      NotedFront(sent);
      NotedCount(sent[..|sent| - 1]);
    }
  }

  lemma NothingNoted()
    ensures AllRecorded([]) && Noted([]) == []
  {
  }

  /** So the memory is that of the CAMs sent if and only if none was sent without being recorded. */
  lemma RemembersExactly(ticks: seq<Tick>, setup: Setup)
    ensures Remembers(Run(ticks, setup).state, Run(ticks, setup).sent) <==> AllRecorded(Run(ticks, setup).sent)
  {
    hide Run, Streak, LastGap, LastWith, Points, Noted;
    RunRemembers(ticks, setup);
    NotedCount(Run(ticks, setup).sent);
  }

  /** T_GenCam stays in its range, the counter below three, and T_GenCam is lowered only after
      one or two dynamic CAMs since the last reset. */
  lemma GenCamInRange(ticks: seq<Tick>, setup: Setup)
    ensures var s := Run(ticks, setup).state;
            && T_GEN_CAM_MIN <= s.tGenCam <= T_GEN_CAM_MAX && 0 <= s.counter < N_GEN_CAM
            && (s.tGenCam < T_GEN_CAM_MAX ==> s.counter in {1, 2})
            && s.counter == Streak(Noted(Run(ticks, setup).sent)) % N_GEN_CAM
  {
    hide Run;
    RunRemembers(ticks, setup);
  }

  // ---------------------------------------------------------------- which CAMs are sent

  /** Two headings are more than 4 degrees apart: their difference is neither small nor nearly a turn. */
  predicate HeadingsApart(a: real, b: real) {
    var d := if a < b then b - a else a - b;
    4.0 < d < 356.0
  }

  /** On the circle, that is: whatever whole turns are added. */
  lemma HeadingsApartExactly(a: real, b: real)
    requires 0.0 <= a <= 360.0 && 0.0 <= b <= 360.0
    ensures HeadingsApart(a, b) <==> forall turns: int :: !(-4.0 <= a - b + 360.0 * Turns(turns) <= 4.0)
  {
    if HeadingsApart(a, b) {
      forall turns: int ensures !(-4.0 <= a - b + 360.0 * Turns(turns) <= 4.0) {
        if turns >= 2 {
          assert Turns(turns) >= 2.0;
        } else if turns <= -2 {
          assert Turns(turns) <= -2.0;
        } else {
          assert turns in {-1, 0, 1};
        }
      }
    } else {
      assert Turns(0) == 0.0 && Turns(1) == 1.0 && Turns(-1) == -1.0;
    }
  }

  function Turns(n: int): real {
    n as real
  }

  /** Against the newest values of the CAMs recorded, the heading, the position or the speed of the
      report changed; without a heading to compare with, anything counts as a change. */
  predicate Changed(recorded: seq<Cam>, tpv: Tpv, setup: Setup) {
    var track, position, speed := NewestTrack(recorded), NewestPosition(recorded), NewestSpeed(recorded);
    || track.None?
    || (tpv.track.Some? && HeadingsApart(tpv.track.value, track.value))
    || (tpv.position.Some? && position.Some? && setup.distance(position.value, tpv.position.value) > 4.0)
    || (tpv.speed.Some? && speed.Some? && !(-0.5 <= tpv.speed.value - speed.value <= 0.5))
  }

  /** The longest wait after the CAMs recorded: the gap of the last two while one or two dynamic ones
      have come in a row, or a second. */
  function LongestWait(recorded: seq<Cam>): int {
    if Streak(recorded) % 3 == 0 || LastGap(recorded) > 1000 then 1000
    else if LastGap(recorded) < 100 then 100 else LastGap(recorded)
  }

  /** A check in the state of the recorded CAMs sends a CAM that is marked dynamic. */
  predicate DynamicDue(recorded: seq<Cam>, tpv: Tpv, now: int, setup: Setup) {
    recorded == [] || (now - recorded[|recorded| - 1].time >= 100 && Changed(recorded, tpv, setup))
  }

  lemma DynamicExactly(s: State, recorded: seq<Cam>, tpv: Tpv, setup: Setup)
    requires Remembers(s, recorded)
    ensures Dynamic(s, tpv, setup) <==> Changed(recorded, tpv, setup)
  {
    hide Streak, LastGap, LastWith, Points, NewestTrack, NewestPosition, NewestSpeed, D.LastOf;
  }

  lemma WaitIs(s: State, recorded: seq<Cam>)
    requires Remembers(s, recorded)
    ensures s.tGenCam == LongestWait(recorded)
  {
    hide Streak, LastGap, LastWith, Points, NewestTrack, NewestPosition, NewestSpeed, D.LastOf;
  }

  /** In every activation: a check sends a CAM exactly if it finds a position, nothing fails, and it is
      the first to be recorded, or at least 100 ms after the last recorded one something changed or the
      longest wait is over; and it is marked dynamic exactly if it is the first or something changed. */
  lemma SentExactly(ticks: seq<Tick>, t: Tick, setup: Setup)
    ensures var a := Run(ticks, setup); var recorded := Noted(a.sent);
            var cam := Check(a.state, t.tpv, t.now, t.outcome, setup);
            && (cam.Some? <==>
                  && t.tpv.Some? && !t.outcome.Failed?
                  && (DynamicDue(recorded, t.tpv.value, t.now, setup)
                      || t.now - recorded[|recorded| - 1].time >= LongestWait(recorded)))
            && (cam.Some? ==> cam.value.dynamic == DynamicDue(recorded, t.tpv.value, t.now, setup)
                              && cam.value.time == t.now && cam.value.tpv == t.tpv.value
                              && cam.value.recorded == t.outcome.Recorded?)
            && Run(ticks + [t], setup).sent == a.sent + (if cam.Some? then [cam.value] else [])
  {
    hide Run, Noted, Remembers, Dynamic, Changed, LongestWait, Spaced, IncludesLf, IncludesSpecial, IncludesVlf;
    RunRemembers(ticks, setup);
    RunOn(ticks, t, setup);
    var a := Run(ticks, setup);
    var recorded := Noted(a.sent);
    LastTimeIs(a.state, recorded);
    WaitIs(a.state, recorded);
    WaitInRange(recorded);
    if t.tpv.Some? {
      DynamicExactly(a.state, recorded, t.tpv.value, setup);
    }
  }

  lemma WaitInRange(recorded: seq<Cam>)
    ensures 100 <= LongestWait(recorded) <= 1000
  {
  }

  /** So of the CAMs sent, recorded or not, exactly those are marked dynamic. */
  lemma {:induction false} MarkedExactly(ticks: seq<Tick>, setup: Setup, j: nat)
    requires j < |Run(ticks, setup).sent|
    ensures var sent := Run(ticks, setup).sent;
            sent[j].dynamic <==> DynamicDue(Noted(sent[..j]), sent[j].tpv, sent[j].time, setup)
  {
    hide Check, Checked, Noted, DynamicDue, LongestWait;
    var before, t := ticks[..|ticks| - 1], ticks[|ticks| - 1];
    var sent := Run(before, setup).sent;
    SentExactly(before, t, setup);
    assert before + [t] == ticks;
    if j < |sent| {
      MarkedExactly(before, setup, j);
      assert Run(ticks, setup).sent[..j] == sent[..j];
    } else {
      assert Run(ticks, setup).sent[..j] == sent;
    }
  }

  // ---------------------------------------------------------------- pacing

  /** Checks at most p apart, with a position cached and CAMs that can be sent. */
  predicate Regular(ticks: seq<Tick>, p: int) {
    && (forall i | 0 <= i < |ticks| :: ticks[i].tpv.Some? && !ticks[i].outcome.Failed?)
    && (forall i | 0 < i < |ticks| :: ticks[i].now - ticks[i - 1].now <= p)
  }

  predicate GapsBelow(sent: seq<Cam>, limit: int) {
    forall i | 0 < i < |sent| :: sent[i].time - sent[i - 1].time < limit
  }

  /** A check that can send and does not follows the last recorded CAM by less than a second. */
  lemma CheckedRecently(s: State, t: Tick, setup: Setup)
    requires t.tpv.Some? && !t.outcome.Failed? && T_GEN_CAM_MIN <= s.tGenCam <= T_GEN_CAM_MAX
    ensures var cam := Check(s, t.tpv, t.now, t.outcome, setup);
            if cam.Some? then cam.value.time == t.now
            else s.lastTime.Some? && t.now - s.lastTime.value < T_GEN_CAM_MAX
  {
  }

  /** The CAMs are paced, and the last of them is recent at time now. */
  predicate Paced(sent: seq<Cam>, now: int, p: int) {
    GapsBelow(sent, T_GEN_CAM_MAX + p) && sent != [] && now - sent[|sent| - 1].time < T_GEN_CAM_MAX
  }

  lemma PacedOn(sent: seq<Cam>, before: int, now: int, p: int, cam: Option<Cam>)
    requires sent != [] ==> Paced(sent, before, p) && now - before <= p
    requires if cam.Some? then cam.value.time == now else sent != [] && now - sent[|sent| - 1].time < T_GEN_CAM_MAX
    ensures Paced(sent + (if cam.Some? then [cam.value] else []), now, p)
  {
  }

  /** A check that can send leaves a CAM less than a second old. */
  lemma RecentCam(ticks: seq<Tick>, t: Tick, setup: Setup)
    requires t.tpv.Some? && !t.outcome.Failed?
    ensures var a := Run(ticks, setup); var cam := Check(a.state, t.tpv, t.now, t.outcome, setup);
            if cam.Some? then cam.value.time == t.now
            else a.sent != [] && t.now - a.sent[|a.sent| - 1].time < T_GEN_CAM_MAX
  {
    hide Run, Check, Noted, Remembers, Spaced, Streak;
    var a := Run(ticks, setup);
    RunRemembers(ticks, setup);
    GenCamInRange(ticks, setup);
    CheckedRecently(a.state, t, setup);
  }

  lemma RegularFront(ticks: seq<Tick>, p: int)
    requires Regular(ticks, p) && ticks != []
    ensures var before, t := ticks[..|ticks| - 1], ticks[|ticks| - 1];
            && Regular(before, p) && t.tpv.Some? && !t.outcome.Failed?
            && (before != [] ==> t.now - before[|before| - 1].now <= p)
  {
  }

  lemma {:induction false} RegularPacing(ticks: seq<Tick>, setup: Setup, p: int)
    requires Regular(ticks, p) && p >= 0 && ticks != []
    ensures Paced(Run(ticks, setup).sent, ticks[|ticks| - 1].now, p)
  {
    hide Check, Checked, Paced, Regular;
    var before, t := ticks[..|ticks| - 1], ticks[|ticks| - 1];
    var a := Run(before, setup);
    RegularFront(ticks, p);
    RecentCam(before, t, setup);
    if before != [] {
      RegularPacing(before, setup, p);
    }
    PacedOn(a.sent, if before == [] then t.now else before[|before| - 1].now, t.now, p,
            Check(a.state, t.tpv, t.now, t.outcome, setup));
  }

  /** A CAM is sent at least 100 ms after every recorded one before it. */
  lemma {:induction false} AfterRecorded(ticks: seq<Tick>, setup: Setup, i: nat, j: nat)
    requires i < j < |Run(ticks, setup).sent| && Run(ticks, setup).sent[i].recorded
    ensures Run(ticks, setup).sent[j].time - Run(ticks, setup).sent[i].time >= T_GEN_CAM_MIN
  {
    hide Remembers, Check, Checked;
    var a, t := Run(ticks[..|ticks| - 1], setup), ticks[|ticks| - 1];
    if j < |a.sent| {
      AfterRecorded(ticks[..|ticks| - 1], setup, i, j);
    } else {
      RunRemembers(ticks[..|ticks| - 1], setup);
      DueLater(a.state, t.tpv, t.now, t.outcome, setup);
    }
  }

  /** Each check at least a check period after the one before, as one chain of timers makes them. */
  predicate Timed(ticks: seq<Tick>) {
    forall i | 0 < i < |ticks| :: ticks[i].now - ticks[i - 1].now >= T_CHECK_CAM_GEN
  }

  lemma TimedFront(ticks: seq<Tick>)
    requires Timed(ticks) && ticks != []
    ensures var before := ticks[..|ticks| - 1];
            && Timed(before)
            && (before != [] ==> ticks[|ticks| - 1].now - before[|before| - 1].now >= T_CHECK_CAM_GEN)
  {
  }

  lemma TimeOfCheck(s: State, t: Tick, setup: Setup)
    ensures var cam := Check(s, t.tpv, t.now, t.outcome, setup); cam.Some? ==> cam.value.time == t.now
  {
  }

  /** Then the CAMs are at least 100 ms apart, recorded or not. */
  lemma {:induction false} TimedSpaced(ticks: seq<Tick>, setup: Setup)
    requires Timed(ticks)
    ensures var sent := Run(ticks, setup).sent;
            Spaced(sent) && (sent != [] ==> ticks != [] && sent[|sent| - 1].time <= ticks[|ticks| - 1].now)
  {
    hide Check, Checked, Timed;
    if ticks != [] {
      var before, t := ticks[..|ticks| - 1], ticks[|ticks| - 1];
      TimedFront(ticks);
      TimedSpaced(before, setup);
      TimeOfCheck(Run(before, setup).state, t, setup);
    }
  }

  /** In every activation a CAM follows a recorded one after at least 100 ms, and with timed checks
      any CAM its predecessor; with regular checks within less than a second and one check period. */
  lemma Pacing(ticks: seq<Tick>, setup: Setup, p: int, i: nat)
    requires 0 < i < |Run(ticks, setup).sent| && p >= 0
    ensures var sent := Run(ticks, setup).sent;
            && (sent[i - 1].recorded || Timed(ticks) ==> sent[i].time - sent[i - 1].time >= T_GEN_CAM_MIN)
            && (Regular(ticks, p) ==> sent[i].time - sent[i - 1].time < T_GEN_CAM_MAX + p)
  {
    hide Run, Regular, Timed;
    if Run(ticks, setup).sent[i - 1].recorded {
      AfterRecorded(ticks, setup, i - 1, i);
    }
    if Timed(ticks) {
      TimedSpaced(ticks, setup);
    }
    if Regular(ticks, p) {
      assert ticks != [] by { NoTicks(setup); }
      RegularPacing(ticks, setup, p);
    }
  }

  lemma NoTicks(setup: Setup)
    ensures Run([], setup) == Activation(ACTIVATED, [])
  {
  }

  /** A check sends a CAM less than 100 ms after one that was not recorded. */
  predicate TooSoon(a: Activation, u: Tick, setup: Setup) {
    a.sent != [] && !a.sent[|a.sent| - 1].recorded && u.now - a.sent[|a.sent| - 1].time < T_GEN_CAM_MIN
    && Check(a.state, u.tpv, u.now, u.outcome, setup).Some?
  }

  /** One check more breaks the spacing exactly in that way. */
  lemma SpacingStepExactly(ticks: seq<Tick>, u: Tick, setup: Setup)
    requires Spaced(Run(ticks, setup).sent)
    ensures Spaced(Run(ticks + [u], setup).sent) <==> !TooSoon(Run(ticks, setup), u, setup)
  {
    hide Run, Check, Checked;
    var a, b := Run(ticks, setup), Run(ticks + [u], setup);
    RunOn(ticks, u, setup);
    TimeOfCheck(a.state, u, setup);
    if b.sent == a.sent + [] {
    } else if a.sent != [] {
      var n := |a.sent|;
      assert b.sent[n - 1] == a.sent[n - 1];
      if a.sent[n - 1].recorded {
        AfterRecorded(ticks + [u], setup, n - 1, n);
      }
      if u.now - a.sent[n - 1].time >= T_GEN_CAM_MIN {
        OneMoreSpaced(a.sent, b.sent[n]);
      } else {
        assert b.sent[n].time - b.sent[n - 1].time < T_GEN_CAM_MIN;
      }
    }
  }

  /** So over every run, with checks at any times: the CAMs are at least 100 ms apart if and only if
      no check is of that kind. */
  lemma {:induction false} SpacedExactly(ticks: seq<Tick>, setup: Setup)
    ensures Spaced(Run(ticks, setup).sent)
            <==> forall k | 0 <= k < |ticks| :: !TooSoon(Run(ticks[..k], setup), ticks[k], setup)
  {
    hide Run, TooSoon;
    if ticks == [] {
      NoTicks(setup);
    } else {
      var n := |ticks| - 1;
      var before, t := ticks[..n], ticks[n];
      assert before + [t] == ticks;
      assert forall k | 0 <= k < n :: before[..k] == ticks[..k];
      SpacedExactly(before, setup);
      RunOn(before, t, setup);
      if Spaced(Run(ticks, setup).sent) {
        SpacedBefore(Run(before, setup), t, setup);
      }
      if Spaced(Run(before, setup).sent) {
        SpacingStepExactly(before, t, setup);
      }
    }
  }

  lemma SpacedBefore(a: Activation, t: Tick, setup: Setup)
    requires Spaced(Ticked(a, t, setup).sent)
    ensures Spaced(a.sent)
  {
    hide Check, Checked;
    var b := Ticked(a, t, setup);
    assert forall i | 0 <= i < |a.sent| :: b.sent[i] == a.sent[i];
  }

  lemma RunOn(ticks: seq<Tick>, t: Tick, setup: Setup)
    ensures Run(ticks + [t], setup) == Ticked(Run(ticks, setup), t, setup)
  {
    assert (ticks + [t])[..|ticks|] == ticks;
  }

  lemma RunOnTwice(ticks: seq<Tick>, t: Tick, u: Tick, setup: Setup)
    ensures Run(ticks + [t] + [u], setup) == Ticked(Ticked(Run(ticks, setup), t, setup), u, setup)
  {
    hide Ticked;
    RunOn(ticks, t, setup);
    RunOn(ticks + [t], u, setup);
  }

  // ---------------------------------------------------------------- container schedules

  /** No CAM before index j carries c within interval of time. */
  predicate FreeOf(sent: seq<Cam>, j: nat, c: Container, time: int, interval: int)
    requires j <= |sent|
  {
    forall i | 0 <= i < j :: Has(sent[i], c) ==> time - sent[i].time >= interval
  }

  /** The containers of the CAM at index j, by the CAMs before it. */
  predicate Scheduled(sent: seq<Cam>, j: nat, setup: Setup)
    requires j < |sent|
  {
    var cam := sent[j];
    && (cam.lf <==> FreeOf(sent, j, LowFrequency, cam.time, T_LF))
    && (cam.special <==> setup.vehicleRole != 0 && FreeOf(sent, j, SpecialVehicle, cam.time, T_SPECIAL))
    && (cam.vlf <==> j == 1 || (j > 1 && !cam.lf && !cam.special && FreeOf(sent, j, VeryLowFrequency, cam.time, T_VLF)))
  }

  lemma {:induction false} LastWithIsLatest(sent: seq<Cam>, c: Container)
    requires Spaced(sent)
    ensures LastWith(sent, c).None? <==> forall i | 0 <= i < |sent| :: !Has(sent[i], c)
    ensures LastWith(sent, c).Some? ==>
              && (exists i | 0 <= i < |sent| :: Has(sent[i], c) && sent[i].time == LastWith(sent, c).value)
              && (forall i | 0 <= i < |sent| :: Has(sent[i], c) ==> sent[i].time <= LastWith(sent, c).value)
  {
    hide Has;
    if sent != [] {
      var front := sent[..|sent| - 1];
      assert Spaced(front);
      LastWithIsLatest(front, c);
      if Has(sent[|sent| - 1], c) {
        forall i | 0 <= i < |sent| ensures sent[i].time <= sent[|sent| - 1].time {
          TimesGrow(sent, i, |sent| - 1);
        }
      }
    }
  }

  lemma {:induction false} TimesGrow(sent: seq<Cam>, i: nat, j: nat)
    requires Spaced(sent) && i <= j < |sent|
    ensures sent[i].time <= sent[j].time
    decreases j
  {
    if i < j {
      TimesGrow(sent, i, j - 1);
    }
  }

  /** Far enough from the last CAM with a container means far enough from all. */
  lemma FreeExactly(sent: seq<Cam>, c: Container, time: int, interval: int)
    requires Spaced(sent)
    ensures FreeOf(sent, |sent|, c, time, interval) <==> LastWith(sent, c).None? || time - LastWith(sent, c).value >= interval
  {
    hide Has;
    LastWithIsLatest(sent, c);
  }

  lemma FreeEarlier(sent: seq<Cam>, cam: Cam, j: nat, c: Container, time: int, interval: int)
    requires j <= |sent|
    ensures FreeOf(sent + [cam], j, c, time, interval) <==> FreeOf(sent, j, c, time, interval)
  {
    assert forall i | 0 <= i < j :: (sent + [cam])[i] == sent[i];
  }

  lemma ScheduledEarlier(sent: seq<Cam>, cam: Cam, j: nat, setup: Setup)
    requires j < |sent| && Scheduled(sent, j, setup)
    ensures Scheduled(sent + [cam], j, setup)
  {
    hide FreeOf;
    var longer := sent + [cam];
    assert longer[j] == sent[j];
    FreeEarlier(sent, cam, j, LowFrequency, sent[j].time, T_LF);
    FreeEarlier(sent, cam, j, SpecialVehicle, sent[j].time, T_SPECIAL);
    FreeEarlier(sent, cam, j, VeryLowFrequency, sent[j].time, T_VLF);
  }

  lemma NewScheduled(s: State, sent: seq<Cam>, tpv: Tpv, now: int, dynamic: bool, recorded: bool, setup: Setup)
    requires Remembers(s, sent) && Spaced(sent)
    requires |sent| > 1 ==> sent[1].vlf
    ensures Scheduled(sent + [Composed(s, tpv, now, dynamic, recorded, setup)], |sent|, setup)
  {
    hide FreeOf, Streak, Points;
    var cam := Composed(s, tpv, now, dynamic, recorded, setup);
    FreeEarlier(sent, cam, |sent|, LowFrequency, now, T_LF);
    FreeEarlier(sent, cam, |sent|, SpecialVehicle, now, T_SPECIAL);
    FreeEarlier(sent, cam, |sent|, VeryLowFrequency, now, T_VLF);
    FreeExactly(sent, LowFrequency, now, T_LF);
    FreeExactly(sent, SpecialVehicle, now, T_SPECIAL);
    FreeExactly(sent, VeryLowFrequency, now, T_VLF);
    LastWithIsLatest(sent, VeryLowFrequency);
    if |sent| > 1 {
      assert Has(sent[1], VeryLowFrequency);
    }
  }

  predicate AllScheduled(sent: seq<Cam>, setup: Setup) {
    forall j | 0 <= j < |sent| :: Scheduled(sent, j, setup)
  }

  lemma ScheduledOn(sent: seq<Cam>, cam: Cam, setup: Setup)
    requires AllScheduled(sent, setup) && Scheduled(sent + [cam], |sent|, setup)
    ensures AllScheduled(sent + [cam], setup)
  {
    hide Scheduled;
    forall j | 0 <= j < |sent| ensures Scheduled(sent + [cam], j, setup) {
      ScheduledEarlier(sent, cam, j, setup);
    }
  }

  /** In every activation the containers due in each recorded CAM are exactly those that the
      recorded CAMs before make due. */
  lemma {:induction false} RecordedSchedules(ticks: seq<Tick>, setup: Setup)
    ensures AllScheduled(Noted(Run(ticks, setup).sent), setup)
  {
    hide Remembers, Checked, AllScheduled, Composed, Due, Noted, Scheduled;
    if ticks == [] {
      NothingScheduled(setup);
    } else {
      var a, t := Run(ticks[..|ticks| - 1], setup), ticks[|ticks| - 1];
      RecordedSchedules(ticks[..|ticks| - 1], setup);
      var cam := Check(a.state, t.tpv, t.now, t.outcome, setup);
      if cam.Some? {
        OneMoreNoted(a.sent, cam.value);
        if t.outcome.Recorded? {
          DueScheduled(ticks[..|ticks| - 1], t, setup);
          ScheduledOn(Noted(a.sent), cam.value, setup);
        }
        DueLater(a.state, t.tpv, t.now, t.outcome, setup);
        assert Noted(a.sent) + [] == Noted(a.sent);
      } else {
        assert a.sent + [] == a.sent;
      }
    }
  }

  lemma NothingScheduled(setup: Setup)
    ensures AllScheduled(Noted([]), setup)
  {
  }

  /** A CAM that is due is scheduled after the recorded ones. */
  lemma DueScheduled(ticks: seq<Tick>, t: Tick, setup: Setup)
    requires AllScheduled(Noted(Run(ticks, setup).sent), setup)
    ensures var a := Run(ticks, setup); var cam := Check(a.state, t.tpv, t.now, t.outcome, setup);
            cam.Some? ==> Scheduled(Noted(a.sent) + [cam.value], |Noted(a.sent)|, setup)
  {
    hide Run, Remembers, Scheduled, Composed, Due, Noted;
    var a := Run(ticks, setup);
    RunRemembers(ticks, setup);
    SecondHasVlf(Noted(a.sent), setup);
    if Check(a.state, t.tpv, t.now, t.outcome, setup).Some? {
      NewScheduled(a.state, Noted(a.sent), t.tpv.value, t.now, Due(a.state, t.tpv.value, t.now, setup).value,
                   t.outcome.Recorded?, setup);
    }
  }

  lemma SecondHasVlf(sent: seq<Cam>, setup: Setup)
    requires AllScheduled(sent, setup)
    ensures |sent| > 0 ==> sent[0].lf
    ensures |sent| > 1 ==> sent[1].vlf
  {
    if |sent| > 0 {
      assert Scheduled(sent, 0, setup);
    }
    if |sent| > 1 {
      assert Scheduled(sent, 1, setup);
    }
  }

  /** The CAM carries none of the scheduled containers. */
  predicate Bare(cam: Cam) {
    !cam.lf && !cam.special && !cam.vlf
  }

  /** Every CAM with a container was recorded. */
  predicate ContainersRecorded(sent: seq<Cam>) {
    forall i | 0 <= i < |sent| :: sent[i].recorded || Bare(sent[i])
  }

  lemma {:induction false} NotedFree(sent: seq<Cam>, c: Container, time: int, interval: int)
    requires ContainersRecorded(sent)
    ensures FreeOf(Noted(sent), |Noted(sent)|, c, time, interval) <==> FreeOf(sent, |sent|, c, time, interval)
  {
    if sent != [] {
      var front, last := sent[..|sent| - 1], sent[|sent| - 1];
      NotedFree(front, c, time, interval);
      FreeSplit(front, last, c, time, interval);
      FreeSplit(Noted(front), last, c, time, interval);
      assert sent == front + [last];
      NotedFront(sent);
      if last.recorded {
        assert Noted(sent) == Noted(front) + [last];
      } else {
        assert Noted(sent) == Noted(front) && !Has(last, c);
      }
    }
  }

  lemma FreeSplit(sent: seq<Cam>, cam: Cam, c: Container, time: int, interval: int)
    ensures FreeOf(sent + [cam], |sent| + 1, c, time, interval)
            <==> FreeOf(sent, |sent|, c, time, interval) && (Has(cam, c) ==> time - cam.time >= interval)
  {
    hide Has;
    FreeEarlier(sent, cam, |sent|, c, time, interval);
    assert (sent + [cam])[|sent|] == cam;
  }

  lemma {:induction false} NotedGrows(sent: seq<Cam>, k: nat)
    requires k <= |sent|
    ensures |Noted(sent[..k])| <= |Noted(sent)|
  {
    if k < |sent| {
      NotedGrows(sent[..|sent| - 1], k);
      assert sent[..|sent| - 1][..k] == sent[..k];
    } else {
      assert sent[..k] == sent;
    }
  }

  /** The first two CAMs carry containers, so they were recorded and count alike. */
  lemma FirstTwoNoted(sent: seq<Cam>, setup: Setup)
    requires ContainersRecorded(sent) && AllScheduled(sent, setup)
    ensures (|Noted(sent)| == 1 <==> |sent| == 1) && (|Noted(sent)| > 1 <==> |sent| > 1)
  {
    SecondHasVlf(sent, setup);
    NotedCount(sent);
    if |sent| > 0 {
      NotedCount(sent[..1]);
      NotedGrows(sent, 1);
    }
    if |sent| > 1 {
      NotedCount(sent[..2]);
      NotedGrows(sent, 2);
    }
  }

  lemma ScheduledAlike(sent: seq<Cam>, cam: Cam, setup: Setup)
    requires ContainersRecorded(sent) && AllScheduled(sent, setup)
    requires Scheduled(Noted(sent) + [cam], |Noted(sent)|, setup)
    ensures Scheduled(sent + [cam], |sent|, setup)
  {
    hide FreeOf, Noted, AllScheduled, ContainersRecorded;
    FirstTwoNoted(sent, setup);
    NotedFree(sent, LowFrequency, cam.time, T_LF);
    NotedFree(sent, SpecialVehicle, cam.time, T_SPECIAL);
    NotedFree(sent, VeryLowFrequency, cam.time, T_VLF);
    BothEarlier(sent, cam);
    BothEarlier(Noted(sent), cam);
  }

  lemma BothEarlier(sent: seq<Cam>, cam: Cam)
    ensures FreeOf(sent + [cam], |sent|, LowFrequency, cam.time, T_LF) <==> FreeOf(sent, |sent|, LowFrequency, cam.time, T_LF)
    ensures FreeOf(sent + [cam], |sent|, SpecialVehicle, cam.time, T_SPECIAL) <==> FreeOf(sent, |sent|, SpecialVehicle, cam.time, T_SPECIAL)
    ensures FreeOf(sent + [cam], |sent|, VeryLowFrequency, cam.time, T_VLF) <==> FreeOf(sent, |sent|, VeryLowFrequency, cam.time, T_VLF)
  {
    hide FreeOf;
    FreeEarlier(sent, cam, |sent|, LowFrequency, cam.time, T_LF);
    FreeEarlier(sent, cam, |sent|, SpecialVehicle, cam.time, T_SPECIAL);
    FreeEarlier(sent, cam, |sent|, VeryLowFrequency, cam.time, T_VLF);
  }

  /** One check on: if every CAM with a container was recorded, the new one is scheduled. */
  lemma TickScheduled(ticks: seq<Tick>, t: Tick, setup: Setup)
    requires ContainersRecorded(Run(ticks, setup).sent) && AllScheduled(Run(ticks, setup).sent, setup)
    ensures AllScheduled(Run(ticks + [t], setup).sent, setup)
  {
    hide Run, Noted, AllScheduled, Scheduled, ContainersRecorded, Due, Composed, Checked;
    var a := Run(ticks, setup);
    RunOn(ticks, t, setup);
    RecordedSchedules(ticks, setup);
    DueScheduled(ticks, t, setup);
    var cam := Check(a.state, t.tpv, t.now, t.outcome, setup);
    if cam.Some? {
      ScheduledAlike(a.sent, cam.value, setup);
      ScheduledOn(a.sent, cam.value, setup);
    } else {
      assert a.sent + [] == a.sent;
    }
  }

  /** In every activation whose CAMs with containers were all recorded, whatever happened to the
      others, the containers due in each CAM are exactly those that the CAMs before make due. */
  lemma {:induction false} SchedulesKept(ticks: seq<Tick>, setup: Setup)
    requires ContainersRecorded(Run(ticks, setup).sent)
    ensures AllScheduled(Run(ticks, setup).sent, setup)
  {
    hide Ticked, AllScheduled;
    if ticks == [] {
      NothingScheduled(setup);
    } else {
      var before, t := ticks[..|ticks| - 1], ticks[|ticks| - 1];
      assert before + [t] == ticks;
      SentStays(Run(before, setup), t, setup);
      SchedulesKept(before, setup);
      TickScheduled(before, t, setup);
    }
  }

  lemma SentStays(a: Activation, t: Tick, setup: Setup)
    ensures a.sent <= Ticked(a, t, setup).sent
    ensures ContainersRecorded(Ticked(a, t, setup).sent) ==> ContainersRecorded(a.sent)
    ensures ContainersRecorded(a.sent) && !ContainersRecorded(Ticked(a, t, setup).sent) ==>
              var b := Ticked(a, t, setup);
              && b.sent != a.sent && !t.outcome.Recorded? && |b.sent| == |a.sent| + 1 && !Bare(b.sent[|a.sent|])
              && Check(a.state, t.tpv, t.now, t.outcome, setup) == Some(b.sent[|a.sent|])
  {
    hide Due, IncludesLf, IncludesSpecial, IncludesVlf, AfterSending;
    var b := Ticked(a, t, setup);
    assert forall i | 0 <= i < |a.sent| :: b.sent[i] == a.sent[i];
  }

  /** A very-low-frequency container alone is due, and at the next check it has to give way to one
      of the others. */
  predicate GivesWay(s: State, now: int, setup: Setup) {
    s.camCount > 1 && !IncludesLf(s, now) && !IncludesSpecial(s, now, setup)
    && (IncludesLf(s, now + T_CHECK_CAM_GEN) || IncludesSpecial(s, now + T_CHECK_CAM_GEN, setup))
  }

  predicate SharesContainer(cam: Cam, next: Cam) {
    (cam.lf && next.lf) || (cam.special && next.special) || (cam.vlf && next.vlf && !cam.lf && !cam.special)
  }

  /** Otherwise the next check finds a container due again that was sent and not recorded. */
  lemma DueAgain(a: Activation, t: Tick, setup: Setup)
    requires !t.outcome.Recorded? && Check(a.state, t.tpv, t.now, t.outcome, setup).Some?
    requires !Bare(Check(a.state, t.tpv, t.now, t.outcome, setup).value) && !GivesWay(a.state, t.now, setup)
    ensures var u, b := Tick(t.now + T_CHECK_CAM_GEN, t.tpv, t.outcome), Ticked(a, t, setup);
            var cam, next := Check(a.state, t.tpv, t.now, t.outcome, setup).value, Check(b.state, u.tpv, u.now, u.outcome, setup);
            && next.Some? && b.sent == a.sent + [cam] && Ticked(b, u, setup).sent == b.sent + [next.value]
            && SharesContainer(cam, next.value) && next.value.time == cam.time + T_CHECK_CAM_GEN
  {
    hide Dynamic, AfterSending;
  }

  /** A container sent again 100 ms later is not scheduled. */
  lemma RepeatedContainer(sent: seq<Cam>, cam: Cam, next: Cam, setup: Setup)
    requires Scheduled(sent + [cam], |sent|, setup) && SharesContainer(cam, next) && next.time == cam.time + T_CHECK_CAM_GEN
    ensures !Scheduled(sent + [cam] + [next], |sent| + 1, setup)
  {
    var longer := sent + [cam] + [next];
    assert longer[|sent|] == cam && longer[|sent| + 1] == next;
    if sent == [] {
      assert FreeOf([cam], 0, LowFrequency, cam.time, T_LF);
    }
  }

  /** When it gives way, the containers of the next CAM are as due. */
  lemma WayGiven(ticks: seq<Tick>, t: Tick, u: Tick, setup: Setup)
    requires ContainersRecorded(Run(ticks, setup).sent) && !t.outcome.Recorded?
    requires GivesWay(Run(ticks, setup).state, t.now, setup) && u.now - t.now >= T_CHECK_CAM_GEN
    ensures AllScheduled(Run(ticks + [t] + [u], setup).sent, setup)
  {
    hide Run, Noted, AllScheduled, Scheduled, ContainersRecorded, Remembers, Due, Dynamic, FreeOf;
    var a, b := Run(ticks, setup), Run(ticks + [t], setup);
    SchedulesKept(ticks, setup);
    TickScheduled(ticks, t, setup);
    RunOnTwice(ticks, t, u, setup);
    RunOn(ticks, t, setup);
    var cam, next := Check(a.state, t.tpv, t.now, t.outcome, setup), Check(b.state, u.tpv, u.now, u.outcome, setup);
    if cam.None? {
      assert a.sent + [] == a.sent;
      TickScheduled(ticks + [t], u, setup);
    } else if next.Some? {
      RecordedSchedules(ticks + [t], setup);
      DueScheduled(ticks + [t], u, setup);
      OneMoreNoted(a.sent, cam.value);
      assert Noted(a.sent) + [] == Noted(a.sent);
      SomeSent(ticks, setup);
      ScheduledAfter(a.sent, cam.value, next.value, setup);
      ScheduledOn(b.sent, next.value, setup);
    } else {
      assert b.sent + [] == b.sent;
    }
  }

  lemma SomeSent(ticks: seq<Tick>, setup: Setup)
    ensures Run(ticks, setup).state.camCount <= |Run(ticks, setup).sent|
  {
    hide Run, Noted;
    RunRemembers(ticks, setup);
    NotedCount(Run(ticks, setup).sent);
  }

  lemma ScheduledAfter(sent: seq<Cam>, cam: Cam, next: Cam, setup: Setup)
    requires ContainersRecorded(sent) && |sent| > 1
    requires !cam.lf && !cam.special && (next.lf || next.special) && !next.vlf
    requires Scheduled(Noted(sent) + [next], |Noted(sent)|, setup)
    ensures Scheduled(sent + [cam] + [next], |sent| + 1, setup)
  {
    hide FreeOf, Noted, ContainersRecorded;
    NotedFree(sent, LowFrequency, next.time, T_LF);
    NotedFree(sent, SpecialVehicle, next.time, T_SPECIAL);
    FreeSplit(sent, cam, LowFrequency, next.time, T_LF);
    FreeSplit(sent, cam, SpecialVehicle, next.time, T_SPECIAL);
    BothEarlier(sent + [cam], next);
    BothEarlier(Noted(sent), next);
  }

  /** While all CAMs with containers were recorded: the schedules are safe whatever the next check
      finds, 100 ms later or more, if and only if this check does not send such a CAM without
      recording it, or only a very-low-frequency container that gives way at the next check. */
  lemma SchedulesSafeExactly(ticks: seq<Tick>, t: Tick, setup: Setup)
    requires ContainersRecorded(Run(ticks, setup).sent)
    ensures (forall u: Tick | u.now - t.now >= T_CHECK_CAM_GEN :: AllScheduled(Run(ticks + [t] + [u], setup).sent, setup))
            <==> ContainersRecorded(Run(ticks + [t], setup).sent) || GivesWay(Run(ticks, setup).state, t.now, setup)
  {
    hide Run, Ticked, Scheduled, ContainersRecorded, GivesWay, Check;
    var a := Run(ticks, setup);
    RunOn(ticks, t, setup);
    SentStays(a, t, setup);
    SchedulesKept(ticks, setup);
    TickScheduled(ticks, t, setup);
    var b := Run(ticks + [t], setup);
    if ContainersRecorded(b.sent) {
      forall u: Tick | u.now - t.now >= T_CHECK_CAM_GEN ensures AllScheduled(Run(ticks + [t] + [u], setup).sent, setup) {
        TickScheduled(ticks + [t], u, setup);
      }
    } else if GivesWay(a.state, t.now, setup) {
      forall u: Tick | u.now - t.now >= T_CHECK_CAM_GEN ensures AllScheduled(Run(ticks + [t] + [u], setup).sent, setup) {
        WayGiven(ticks, t, u, setup);
      }
    } else {
      var u := Tick(t.now + T_CHECK_CAM_GEN, t.tpv, t.outcome);
      DueAgain(a, t, setup);
      RunOnTwice(ticks, t, u, setup);
      var cam, next := Check(a.state, t.tpv, t.now, t.outcome, setup).value, Check(b.state, u.tpv, u.now, u.outcome, setup).value;
      RepeatedContainer(a.sent, cam, next, setup);
      assert !AllScheduled(Run(ticks + [t] + [u], setup).sent, setup);
    }
  }

  /** A first CAM that the map does not take: 100 ms later a second one carries the low-frequency
      container again and no very-low-frequency one, and the manager has counted one.  The spacing is
      kept. */
  lemma UnrecordedFirstCam(tpv: Tpv, now: int, setup: Setup)
    ensures var ticks := [Tick(now, Some(tpv), SentOnly), Tick(now + 100, Some(tpv), Recorded)];
            var a := Run(ticks, setup);
            && |a.sent| == 2 && a.sent[0].lf && a.sent[1].lf && !a.sent[1].vlf && a.state.camCount == 1
            && Timed(ticks) && Spaced(a.sent)
            && !Scheduled(a.sent, 1, setup) && !Remembers(a.state, a.sent)
  {
    var t, u := Tick(now, Some(tpv), SentOnly), Tick(now + 100, Some(tpv), Recorded);
    assert [] + [t] + [u] == [t, u];
    RunOnTwice([], t, u, setup);
    assert Run([], setup) == Activation(ACTIVATED, []);
  }

  /** The history holds the last 40 positions recorded, oldest first. */
  lemma HistoryIsLast40(ticks: seq<Tick>, setup: Setup)
    ensures Run(ticks, setup).state.history == D.LastOf(Points(Noted(Run(ticks, setup).sent)), HISTORY_LENGTH)
  {
    hide Run;
    RunRemembers(ticks, setup);
  }
}
