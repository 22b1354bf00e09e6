/** The generation delta time of a CAM: a millisecond stamp modulo 65536, and its reconstruction
    at the receiver (ca_basic_service/cam_transmission_management.py). */
module GenerationDeltaTimes {

  const CYCLE := 65536
  const ITS_EPOCH_MS := 1072915200000
  const ELAPSED_MILLISECONDS := 5000

  type DeltaTime = n: int | 0 <= n < CYCLE

  /** Milliseconds on the ITS time scale. */
  function Its(utcMs: int): int {
    utcMs - ITS_EPOCH_MS + ELAPSED_MILLISECONDS
  }

  /** from_timestamp, for a stamp of whole milliseconds. */
  function FromTimestamp(utcMs: int): DeltaTime {
    Its(utcMs) % CYCLE
  }

  /** math.trunc of a quotient: towards zero. */
  function Truncated(x: int, d: int): int
    requires d > 0
  {
    if x >= 0 then x / d else -(-x / d)
  }

  /** as_timestamp_in_certain_point. */
  function AsTimestampInCertainPoint(msec: DeltaTime, utcMs: int): int {
    var cycles := Truncated(Its(utcMs), CYCLE);
    var stamp := msec + CYCLE * cycles + ITS_EPOCH_MS - ELAPSED_MILLISECONDS;
    if stamp <= utcMs then stamp
    else msec + CYCLE * (cycles - 1) + ITS_EPOCH_MS - ELAPSED_MILLISECONDS
  }

  /** A stamp that has the delta time and is at most one cycle old at reception. */
  predicate IsRecent(stamp: int, msec: DeltaTime, utcMs: int) {
    FromTimestamp(stamp) == msec && utcMs - CYCLE < stamp <= utcMs
  }

  lemma RecentIsUnique(a: int, b: int, msec: DeltaTime, utcMs: int)
    requires IsRecent(a, msec, utcMs) && IsRecent(b, msec, utcMs)
    ensures a == b
  {
  }

  /** The reconstruction finds the recent stamp exactly if the reception is not before the ITS
      epoch, or is a whole number of cycles before it, or is late enough in its cycle. */
  lemma ReconstructsExactly(msec: DeltaTime, utcMs: int)
    ensures IsRecent(AsTimestampInCertainPoint(msec, utcMs), msec, utcMs)
            <==> Its(utcMs) >= 0 || Its(utcMs) % CYCLE == 0 || msec <= Its(utcMs) % CYCLE
  {
  }

  /** A message generated at g and received less than a cycle later is dated back to g. */
  lemma RestoresGeneration(g: int, utcMs: int)
    requires Its(utcMs) >= 0 && g <= utcMs < g + CYCLE
    ensures AsTimestampInCertainPoint(FromTimestamp(g), utcMs) == g
  {
  }
}
