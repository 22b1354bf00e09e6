/** The lifetime field of the Basic Header (EN 302 636-4-1 V1.4.1, clause 9.6.4): a multiplier
    of one of four bases, and what becomes of a requested lifetime. */
module Lifetimes {
  import opened Headers

  /** get_value_in_millis. */
  function Millis(lt: LT): nat {
    if lt.base == 0 then lt.multiplier * 50
    else if lt.base == 1 then lt.multiplier * 1000
    else if lt.base == 2 then lt.multiplier * 10000
    else lt.multiplier * 100000
  }

  /** set_value_in_millis. */
  function FromMillis(ms: int): LT {
    if ms < 50 then LT(0, 0)
    else if ms < 100 then LT(1, 0)
    else if ms < 500 then LT(ms / 50 % 64, 0)
    else if ms < 1000 then LT(0, 1)
    else if ms < 10000 then LT(ms / 1000 % 64, 1)
    else if ms < 100000 then LT(ms / 10000 % 64, 2)
    else if ms < 1000000 then LT(ms / 100000 % 64, 3)
    else LT(0, 3)
  }

  /** The lifetimes below a thousand seconds that are a digit times a base. */
  predicate OneDigit(ms: int) {
    || (0 <= ms < 500 && ms % 50 == 0)
    || (1000 <= ms < 10000 && ms % 1000 == 0)
    || (10000 <= ms < 100000 && ms % 10000 == 0)
    || (100000 <= ms < 1000000 && ms % 100000 == 0)
  }

  /** A packet never lives longer than requested; it keeps its lifetime exactly if that is a
      digit times a base, and loses it altogether exactly below 50 ms, from half a second to a
      second, and from a thousand seconds on; otherwise it keeps more than half of it. */
  predicate CodedAs(ms: nat, coded: nat) {
    && coded <= ms
    && (coded == ms <==> OneDigit(ms))
    && (coded == 0 <==> ms < 50 || 500 <= ms < 1000 || ms >= 1000000)
    && (coded > 0 ==> 2 * coded > ms)
  }

  lemma LifetimeCoded(ms: nat)
    ensures CodedAs(ms, Millis(FromMillis(ms)))
  {
    if ms < 500 {
      FiftyMilliseconds(ms);
    } else if 1000 <= ms < 10000 {
      Seconds(ms);
    } else if 10000 <= ms < 100000 {
      TenSeconds(ms);
    } else if 100000 <= ms < 1000000 {
      HundredSeconds(ms);
    }
  }

  lemma FiftyMilliseconds(ms: nat)
    requires ms < 500
    ensures CodedAs(ms, Millis(FromMillis(ms)))
  {
  }

  lemma Seconds(ms: nat)
    requires 1000 <= ms < 10000
    ensures CodedAs(ms, Millis(FromMillis(ms)))
  {
  }

  lemma TenSeconds(ms: nat)
    requires 10000 <= ms < 100000
    ensures CodedAs(ms, Millis(FromMillis(ms)))
  {
  }

  lemma HundredSeconds(ms: nat)
    requires 100000 <= ms < 1000000
    ensures CodedAs(ms, Millis(FromMillis(ms)))
  {
  }
}
