/** The 32-bit millisecond clock of position vectors and its wrap-around ordering
    (EN 302 636-4-1 V1.4.1, annex C.2), and which received position a station ends up with. */
module Timestamps {
  import opened Headers

  const MODULUS := 0x1_0000_0000
  const HALF := 0x8000_0000

  /** The stamp of a true time in milliseconds. */
  function Stamp(t: int): U32 {
    t % MODULUS
  }

  predicate Gt(a: U32, b: U32) {
    (a > b && a - b <= HALF) || (b > a && b - a > HALF)
  }

  predicate Ge(a: U32, b: U32) {
    a == b || Gt(a, b)
  }

  predicate Lt(a: U32, b: U32) {
    !Ge(a, b)
  }

  /** TST subtraction: a negative difference has the modulus added once. */
  function Minus(a: U32, b: U32): int {
    if a - b < 0 then a - b + MODULUS else a - b
  }

  /** Of two different stamps exactly one is greater, also when they are half a cycle apart,
      and less-than is its converse. */
  lemma GtTotal(a: U32, b: U32)
    ensures a != b ==> (Gt(a, b) <==> !Gt(b, a))
    ensures Lt(a, b) <==> Gt(b, a)
    ensures !Gt(a, a)
  {
  }

  /** For any two true times: the stamp of x is the greater exactly when x is ahead of y,
      modulo the clock cycle, by less than half a cycle, or by exactly half a cycle and the
      stamp itself is the larger number. */
  lemma GtExactly(x: int, y: int)
    ensures Gt(Stamp(x), Stamp(y))
            <==> var d := (x - y) % MODULUS; 0 < d < HALF || (d == HALF && Stamp(x) > Stamp(y))
  {
  }

  /** Hence it is the order of true time for times less than half a cycle apart. */
  lemma GtIsTrueOrder(x: int, y: int)
    requires -HALF < x - y < HALF
    ensures Gt(Stamp(x), Stamp(y)) <==> x > y
    ensures Stamp(x) == Stamp(y) <==> x == y
  {
  }

  /** The difference of two stamps is the time between, modulo the clock cycle. */
  lemma MinusIsAge(x: int, y: int)
    ensures Minus(Stamp(x), Stamp(y)) == (x - y) % MODULUS
    ensures y <= x < y + MODULUS ==> Minus(Stamp(x), Stamp(y)) == x - y
  {
  }

  // ---------------------------------------------------------------- newest position wins

  /** update_position_vector: a stored stamp of zero means nothing stored yet. */
  function UpdatedPv(stored: LongPositionVector, received: LongPositionVector): LongPositionVector {
    if stored.tst == 0 then received
    else if Gt(received.tst, stored.tst) then received
    else stored
  }

  /** The position vector of a new location table entry. */
  const NO_POSITION := LongPositionVector(GNAddress(0, 0, 0), 0, 0, 0, false, 0, 0)

  /** What an entry stores after receiving the given position vectors in order. */
  function StoredPv(pvs: seq<LongPositionVector>): LongPositionVector {
    if pvs == [] then NO_POSITION
    else UpdatedPv(StoredPv(pvs[..|pvs| - 1]), pvs[|pvs| - 1])
  }

  /** The index of the received position vector the entry stores. */
  function StoredIndex(pvs: seq<LongPositionVector>): (i: nat)
    requires pvs != []
    ensures i < |pvs|
    ensures StoredPv(pvs) == pvs[i]
  {
    var n := |pvs| - 1;
    if n == 0 then
      assert StoredPv(pvs[..0]) == NO_POSITION;
      0
    else
      var i := StoredIndex(pvs[..n]);
      if pvs[i].tst == 0 || Gt(pvs[n].tst, pvs[i].tst) then n else i
  }

  /** Position m was the first received of those with the greatest true time. */
  predicate FirstNewest(times: seq<int>, m: nat) {
    && m < |times|
    && (forall i :: 0 <= i < |times| ==> times[i] <= times[m])
    && (forall i :: 0 <= i < m ==> times[i] < times[m])
  }

  /** True times of the received position vectors, all within half a clock cycle. */
  predicate Stamped(pvs: seq<LongPositionVector>, times: seq<int>) {
    && |pvs| == |times|
    && (forall i :: 0 <= i < |pvs| ==> pvs[i].tst == Stamp(times[i]))
    && (forall i, j :: 0 <= i < |pvs| && 0 <= j < |pvs| ==> -HALF < times[i] - times[j] < HALF)
  }

  /** Whatever the order of arrival and wherever the clock wraps, the entry stores the
      first-received vector of greatest true time, exactly unless that vector is stamped zero
      and is not the last one received. */
  lemma {:induction false} NewestWins(pvs: seq<LongPositionVector>, times: seq<int>, m: nat)
    requires Stamped(pvs, times) && FirstNewest(times, m)
    ensures StoredIndex(pvs) == m <==> pvs[m].tst != 0 || m == |pvs| - 1
  {
    var n := |pvs| - 1;
    if n > 0 {
      var before, i := pvs[..n], StoredIndex(pvs[..n]);
      GtIsTrueOrder(times[n], times[i]);
      if m < n {
        assert Stamped(before, times[..n]) && FirstNewest(times[..n], m);
        NewestWins(before, times[..n], m);
      }
    }
  }

  /** Two positions 1 ms apart: the newer is stamped zero and is lost to the older. */
  lemma NewestLost()
    ensures var newer := NO_POSITION.(tst := Stamp(MODULUS));
            var older := NO_POSITION.(tst := Stamp(MODULUS - 1));
            StoredPv([newer, older]) == older
  {
    var newer := NO_POSITION.(tst := Stamp(MODULUS));
    var older := NO_POSITION.(tst := Stamp(MODULUS - 1));
    assert [newer, older][..1] == [newer];
    assert [newer][..0] == [];
    assert StoredPv([newer]) == newer;
  }
}
