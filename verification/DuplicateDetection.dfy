/** Duplicate packet detection (EN 302 636-4-1 V1.4.1, annex A.2): a ring of the sequence
    numbers accepted last, checked against an unbounded history of what was accepted. */
module DuplicateDetection {
  import opened Headers

  /** The ring after accepting sn; the oldest number makes room when the ring is full. */
  function Pushed(ring: seq<U16>, n: nat, sn: U16): seq<U16>
    requires 0 < n
  {
    (if |ring| == n then ring[1..] else ring) + [sn]
  }

  /** The ring after the numbers sns have arrived, in this order, at an empty ring of length n. */
  function RingAfter(sns: seq<U16>, n: nat): seq<U16>
    requires 0 < n
  {
    if sns == [] then []
    else
      var ring := RingAfter(sns[..|sns| - 1], n);
      var sn := sns[|sns| - 1];
      if sn in ring then ring else Pushed(ring, n, sn)
  }

  /** All numbers accepted so far, in order. */
  function Accepted(sns: seq<U16>, n: nat): seq<U16>
    requires 0 < n
  {
    if sns == [] then []
    else
      var before, sn := sns[..|sns| - 1], sns[|sns| - 1];
      Accepted(before, n) + (if sn in RingAfter(before, n) then [] else [sn])
  }

  function LastOf<T>(s: seq<T>, n: nat): seq<T> {
    if |s| <= n then s else s[|s| - n..]
  }

  predicate Distinct<T(==)>(s: seq<T>) {
    forall i, j :: 0 <= i < j < |s| ==> s[i] != s[j]
  }

  lemma PushedIsLast(accepted: seq<U16>, n: nat, sn: U16)
    requires 0 < n
    ensures Pushed(LastOf(accepted, n), n, sn) == LastOf(accepted + [sn], n)
    ensures |LastOf(accepted, n)| <= n
  {
  }

  lemma PushedDistinct(ring: seq<U16>, n: nat, sn: U16)
    requires 0 < n && Distinct(ring) && sn !in ring
    ensures Distinct(Pushed(ring, n, sn))
  {
  }

  /** The ring is exactly the n numbers accepted last, and holds none twice. */
  lemma {:induction false} RingIsLastAccepted(sns: seq<U16>, n: nat)
    requires 0 < n
    ensures RingAfter(sns, n) == LastOf(Accepted(sns, n), n)
    ensures Distinct(RingAfter(sns, n)) && |RingAfter(sns, n)| <= n
  {
    hide Pushed, LastOf, Distinct;
    if sns == [] {
      EmptyRing(n);
    } else {
      var before, sn := sns[..|sns| - 1], sns[|sns| - 1];
      RingIsLastAccepted(before, n);
      PushedIsLast(Accepted(sns, n), n, sn);
      if sn !in RingAfter(before, n) {
        PushedIsLast(Accepted(before, n), n, sn);
        PushedDistinct(RingAfter(before, n), n, sn);
      } else {
        assert Accepted(sns, n) == Accepted(before, n);
      }
    }
  }

  lemma EmptyRing(n: nat)
    ensures LastOf<U16>([], n) == [] && Distinct<U16>([])
  {
  }

  /** So a number is accepted exactly when it is not among the last n accepted. */
  lemma AcceptedExactly(sns: seq<U16>, n: nat, sn: U16)
    requires 0 < n
    ensures Accepted(sns + [sn], n)
            == Accepted(sns, n) + (if sn in LastOf(Accepted(sns, n), n) then [] else [sn])
  {
    assert (sns + [sn])[..|sns|] == sns;
    RingIsLastAccepted(sns, n);
  }

  // ---------------------------------------------------------------- numbers of one source

  const SN_MODULUS := 0xFFFF

  /** get_sequence_number: the modulus is 65535, so 65535 itself is never issued. */
  function NextSn(sn: U16): U16 {
    (sn + 1) % SN_MODULUS
  }

  /** The first k numbers a source issues whose counter stands at start. */
  function Issued(start: U16, k: nat): (sns: seq<U16>)
    ensures |sns| == k
  {
    if k == 0 then [] else Issued(start, k - 1) + [(start + k) % SN_MODULUS]
  }

  lemma {:induction false} IssuedAt(start: U16, k: nat, i: nat)
    requires i < k
    ensures Issued(start, k)[i] == (start + i + 1) % SN_MODULUS
  {
    if i < k - 1 {
      IssuedAt(start, k - 1, i);
    }
  }

  /** Issued is what repeated calls of get_sequence_number return. */
  lemma {:induction false} IssuedIsNext(start: U16, k: nat)
    requires 0 < k
    ensures Issued(start, k)[0] == NextSn(start)
    ensures forall i :: 0 < i < k ==> Issued(start, k)[i] == NextSn(Issued(start, k)[i - 1])
  {
    IssuedAt(start, k, 0);
    forall i | 0 < i < k ensures Issued(start, k)[i] == NextSn(Issued(start, k)[i - 1]) {
      IssuedAt(start, k, i);
      IssuedAt(start, k, i - 1);
      NextOfMod(start + i);
    }
  }

  lemma NextOfMod(x: nat)
    ensures (x % SN_MODULUS + 1) % SN_MODULUS == (x + 1) % SN_MODULUS
  {
  }

  lemma SameResidue(x: nat, y: nat)
    requires x < y < x + SN_MODULUS
    ensures x % SN_MODULUS != y % SN_MODULUS
  {
  }

  /** As long as all were accepted, the next number of the stream is refused exactly when
      the ring still holds it, a whole cycle of 65535 numbers later. */
  lemma NextInRing(start: U16, k: nat, n: nat)
    requires 0 < n
    ensures (start + k + 1) % SN_MODULUS in LastOf(Issued(start, k), n) <==> SN_MODULUS <= n && SN_MODULUS <= k
  {
    hide LastOf, Issued;
    if SN_MODULUS <= n && SN_MODULUS <= k {
      IssuedAt(start, k, k - SN_MODULUS);
      var sns := Issued(start, k);
      assert sns[k - SN_MODULUS] == (start + k + 1) % SN_MODULUS;
      LastOfHolds(sns, n, k - SN_MODULUS);
    } else if (start + k + 1) % SN_MODULUS in LastOf(Issued(start, k), n) {
      NextNotInRing(start, k, n);
    }
  }

  lemma LastOfHolds<T>(s: seq<T>, n: nat, i: nat)
    requires |s| - n <= i < |s|
    ensures s[i] in LastOf(s, n)
  {
  }

  lemma NextNotInRing(start: U16, k: nat, n: nat)
    requires 0 < n && (n < SN_MODULUS || k < SN_MODULUS)
    ensures (start + k + 1) % SN_MODULUS !in LastOf(Issued(start, k), n)
  {
    var from := if k <= n then 0 else k - n;
    var last := LastOf(Issued(start, k), n);
    assert last == Issued(start, k)[from..];
    forall i | 0 <= i < |last| ensures last[i] != (start + k + 1) % SN_MODULUS {
      IssuedAt(start, k, from + i);
      SameResidue(start + from + i + 1, start + k + 1);
    }
  }

  lemma StreamStep(start: U16, k: nat, n: nat)
    requires 0 < n
    ensures Accepted(Issued(start, k + 1), n) == Issued(start, k + 1)
            <==> Accepted(Issued(start, k), n) == Issued(start, k) && !(SN_MODULUS <= n && SN_MODULUS <= k)
  {
    var before, sn := Issued(start, k), (start + k + 1) % SN_MODULUS;
    var accepted := Accepted(before, n);
    var next := if sn in LastOf(accepted, n) then [] else [sn];
    assert Issued(start, k + 1) == before + [sn];
    AcceptedExactly(before, n, sn);
    AcceptedShorter(before, n);
    OneMore(accepted, before, next, sn);
    NextInRing(start, k, n);
  }

  lemma EmptyStream(start: U16, n: nat)
    requires 0 < n
    ensures Accepted(Issued(start, 0), n) == Issued(start, 0)
  {
  }

  /** A stream received in order is accepted throughout, across any number of wraps, exactly
      when the ring is shorter than the cycle or the first cycle is not over. */
  lemma {:induction false} InOrderStreamAccepted(start: U16, k: nat, n: nat)
    requires 0 < n
    ensures Accepted(Issued(start, k), n) == Issued(start, k) <==> n < SN_MODULUS || k <= SN_MODULUS
  {
    hide Accepted, Issued;
    if k == 0 {
      EmptyStream(start, n);
    } else {
      InOrderStreamAccepted(start, k - 1, n);
      StreamStep(start, k - 1, n);
    }
  }

  lemma OneMore(accepted: seq<U16>, before: seq<U16>, next: seq<U16>, sn: U16)
    requires |accepted| <= |before| && (next == [] || next == [sn])
    ensures accepted + next == before + [sn] <==> accepted == before && next == [sn]
  {
    if accepted + next == before + [sn] {
      assert |accepted| + |next| == |before| + 1;
      assert (accepted + next)[..|before|] == before;
    }
  }

  lemma {:induction false} AcceptedShorter(sns: seq<U16>, n: nat)
    requires 0 < n
    ensures |Accepted(sns, n)| <= |sns|
    ensures |Accepted(sns, n)| == |sns| ==> Accepted(sns, n) == sns
  {
    if sns != [] {
      AcceptedShorter(sns[..|sns| - 1], n);
      assert sns == sns[..|sns| - 1] + [sns[|sns| - 1]];
    }
  }
}
