/** The path history of the CAM's low-frequency container (_get_path_history): the newest
    positions, relative to the present one, until one is out of range or 23 are taken. */
module PathHistories {
  import opened Outcomes
  import opened CamTransmission
  import D = DuplicateDetection

  const MAX_POINTS := 23

  datatype PathEntry = PathEntry(deltaLatitude: int, deltaLongitude: int, pathDeltaTime: int)

  /** Python's round: to the nearest integer, ties to the even one. */
  function Round(x: real): int {
    var f := x.Floor;
    var rest := x - f as real;
    if rest < 0.5 then f
    else if rest > 0.5 then f + 1
    else if f % 2 == 0 then f else f + 1
  }

  function Delta(from: real, to: real): int {
    Round((from - to) * 10000000.0)
  }

  predicate InDeltaRange(d: int) {
    -131071 <= d <= 131072
  }

  function DeltaTime(now: int, time: int): int {
    var d := Round((now - time) as real / 10.0);
    if d < 1 then 1 else if d > 65534 then 65534 else d
  }

  function EntryFor(p: PathPoint, at: Position, now: int): PathEntry {
    PathEntry(Delta(p.position.lat, at.lat), Delta(p.position.lon, at.lon), DeltaTime(now, p.time))
  }

  predicate Fits(e: PathEntry) {
    InDeltaRange(e.deltaLatitude) && InDeltaRange(e.deltaLongitude)
  }

  /** The k-th newest point. */
  function Newest(history: seq<PathPoint>, k: nat): PathPoint
    requires k < |history|
  {
    history[|history| - 1 - k]
  }

  /** The longest prefix, newest first, of points in range, capped. */
  predicate IsPath(path: seq<PathEntry>, history: seq<PathPoint>, at: Position, now: int) {
    && |path| <= |history| && |path| <= MAX_POINTS
    && (forall k | 0 <= k < |path| :: path[k] == EntryFor(Newest(history, k), at, now) && Fits(path[k]))
    && (|path| == |history| || |path| == MAX_POINTS || !Fits(EntryFor(Newest(history, |path|), at, now)))
  }

  method GetPathHistory(history: seq<PathPoint>, position: Option<Position>, now: int) returns (path: seq<PathEntry>)
    ensures position.None? ==> path == []
    ensures position.Some? ==> IsPath(path, history, position.value, now)
  {
    path := [];
    if position.None? || history == [] {
      return;
    }
    var at := position.value;
    var i := |history|;
    while i > 0
      invariant 0 <= i <= |history| && |path| == |history| - i && |path| < MAX_POINTS
      invariant forall k | 0 <= k < |path| :: path[k] == EntryFor(Newest(history, k), at, now) && Fits(path[k])
    {
      i := i - 1;
      var deltaLat, deltaLon := Delta(history[i].position.lat, at.lat), Delta(history[i].position.lon, at.lon);
      assert history[i] == Newest(history, |path|);
      if !InDeltaRange(deltaLat) {
        break;
      }
      if !InDeltaRange(deltaLon) {
        break;
      }
      path := path + [PathEntry(deltaLat, deltaLon, DeltaTime(now, history[i].time))];
      if |path| >= MAX_POINTS {
        break;
      }
    }
  }

  /** No other list of entries is the path. */
  lemma PathIsUnique(a: seq<PathEntry>, b: seq<PathEntry>, history: seq<PathPoint>, at: Position, now: int)
    requires IsPath(a, history, at, now) && IsPath(b, history, at, now)
    ensures a == b
  {
  }

  /** The nearest integer, and the even one of two. */
  lemma RoundExactly(x: real)
    ensures -0.5 <= Round(x) as real - x <= 0.5
    ensures Round(x) as real - x == 0.5 || Round(x) as real - x == -0.5 ==> Round(x) % 2 == 0
  {
  }

  /** A value within a tolerance of another. */
  predicate Within(x: real, y: real, tolerance: real) {
    -tolerance <= x - y <= tolerance
  }

  /** Each entry of the path is its point, newest first, seen from the present position: latitude and
      longitude to half of a ten-millionth degree, the age to 5 ms from 10 ms up to what the field holds. */
  lemma PathAccurate(path: seq<PathEntry>, history: seq<PathPoint>, at: Position, now: int, k: nat)
    requires IsPath(path, history, at, now) && k < |path|
    ensures k < |history|
    ensures var p, e := history[|history| - 1 - k], path[k]; var age := now - p.time;
            && Within(e.deltaLatitude as real, 10000000.0 * (p.position.lat - at.lat), 0.5)
            && Within(e.deltaLongitude as real, 10000000.0 * (p.position.lon - at.lon), 0.5)
            && (if age < 10 then e.pathDeltaTime == 1
                else if age > 655340 then e.pathDeltaTime == 65534
                else Within(10.0 * e.pathDeltaTime as real, age as real, 5.0))
  {
    hide Round;
    var p := Newest(history, k);
    RoundExactly((p.position.lat - at.lat) * 10000000.0);
    RoundExactly((p.position.lon - at.lon) * 10000000.0);
    RoundExactly((now - p.time) as real / 10.0);
  }

  /** The path ends early only where the next older point is too far away for a delta. */
  lemma PathEndsExactly(path: seq<PathEntry>, history: seq<PathPoint>, at: Position, now: int)
    requires IsPath(path, history, at, now) && |path| < |history| && |path| < 23
    ensures var p := history[|history| - 1 - |path|].position;
            || 10000000.0 * (p.lat - at.lat) < -131071.0 || 10000000.0 * (p.lat - at.lat) > 131072.0
            || 10000000.0 * (p.lon - at.lon) < -131071.0 || 10000000.0 * (p.lon - at.lon) > 131072.0
  {
    hide Round;
    var p := Newest(history, |path|);
    RoundedOut((p.position.lat - at.lat) * 10000000.0);
    RoundedOut((p.position.lon - at.lon) * 10000000.0);
  }

  lemma RoundedOut(x: real)
    ensures !InDeltaRange(Round(x)) ==> x < -131071.0 || x > 131072.0
  {
  }

  lemma DeltaTimeMonotone(now: int, older: int, newer: int)
    requires older <= newer
    ensures 1 <= DeltaTime(now, newer) <= DeltaTime(now, older) <= 65534
  {
  }

  predicate Chronological(history: seq<PathPoint>) {
    forall i, j | 0 <= i <= j < |history| :: history[i].time <= history[j].time
  }

  lemma {:induction false} PointsChronological(sent: seq<Cam>)
    requires Spaced(sent)
    ensures Chronological(Points(sent))
    ensures forall p | p in Points(sent) :: sent != [] && p.time <= sent[|sent| - 1].time
  {
    if sent != [] {
      assert Spaced(sent[..|sent| - 1]);
      PointsChronological(sent[..|sent| - 1]);
    }
  }

  lemma LastOnesChronological(points: seq<PathPoint>, n: nat)
    requires Chronological(points)
    ensures Chronological(D.LastOf(points, n))
  {
  }

  lemma HistoryChronological(ticks: seq<Tick>, setup: Setup)
    ensures Chronological(Run(ticks, setup).state.history)
  {
    hide Run, Noted, Points, Spaced, D.LastOf, Chronological;
    RunRemembers(ticks, setup);
    HistoryIsLast40(ticks, setup);
    PointsChronological(Noted(Run(ticks, setup).sent));
    LastOnesChronological(Points(Noted(Run(ticks, setup).sent)), HISTORY_LENGTH);
  }

  /** The path a CAM carries during an activation: its delta times never decrease along it and
      stay between 1 and 65534. */
  lemma PathTimesOrdered(ticks: seq<Tick>, setup: Setup, at: Position, now: int, path: seq<PathEntry>, j: nat, k: nat)
    requires IsPath(path, Run(ticks, setup).state.history, at, now) && j <= k < |path|
    ensures 1 <= path[j].pathDeltaTime <= path[k].pathDeltaTime <= 65534
  {
    hide Run, Fits, DeltaTime;
    var history := Run(ticks, setup).state.history;
    HistoryChronological(ticks, setup);
    DeltaTimeMonotone(now, Newest(history, k).time, Newest(history, j).time);
  }
}
