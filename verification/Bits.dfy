/** Non-negative Python integers as the header codecs use them: shifts, masks, the bitwise
    or, and big-endian byte strings.  A header is packed by or-ing shifted fields together
    and unpacked by shifting and masking; both directions are proved once, for every layout. */
module Bits {

  type Byte = n: int | 0 <= n < 256

  function Pow2(n: nat): (p: nat)
    ensures p >= 1
  {
    if n == 0 then 1 else 2 * Pow2(n - 1)
  }

  lemma {:induction false} Pow2Add(a: nat, b: nat)
    ensures Pow2(a + b) == Pow2(a) * Pow2(b)
  {
    if a != 0 {
      Pow2Add(a - 1, b);
      assert 2 * (Pow2(a - 1) * Pow2(b)) == (2 * Pow2(a - 1)) * Pow2(b);
    }
  }

  lemma Pow2Octet()
    ensures Pow2(8) == 256
  {
  }

  lemma Pow2Values()
    ensures Pow2(1) == 2 && Pow2(2) == 4 && Pow2(4) == 16 && Pow2(5) == 32 && Pow2(6) == 64
    ensures Pow2(8) == 256 && Pow2(10) == 1024 && Pow2(15) == 0x8000 && Pow2(16) == 0x1_0000
  {
  }

  lemma Pow2Wide()
    ensures Pow2(32) == 0x1_0000_0000 && Pow2(48) == 0x1_0000_0000_0000
    ensures Pow2(64) == 0x1_0000_0000_0000_0000
  {
    Pow2Values();
    Pow2Add(16, 16);
    Pow2Add(32, 16);
    Pow2Add(32, 32);
  }

  /** `a | b` on non-negative integers of any size. */
  function Or(a: nat, b: nat): nat
    decreases a
  {
    if a == 0 then b
    else 2 * Or(a / 2, b / 2) + (if a % 2 == 1 || b % 2 == 1 then 1 else 0)
  }

  lemma OrZero(a: nat)
    ensures Or(a, 0) == a && Or(0, a) == a
  {
  }

  /** `a << k` */
  function Shl(a: nat, k: nat): nat {
    if k == 0 then a else 2 * Shl(a, k - 1)
  }

  lemma {:induction false} ShlIsProduct(a: nat, k: nat)
    ensures Shl(a, k) == a * Pow2(k)
  {
    if k != 0 {
      ShlIsProduct(a, k - 1);
      MulRearranged(a, 0, Pow2(k - 1));
    }
  }

  lemma OrDoubled(x: nat, y: nat, c: nat, d: nat)
    ensures Or(2 * x + c, 2 * y + d) == 2 * Or(x + c / 2, y + d / 2) + (if c % 2 == 1 || d % 2 == 1 then 1 else 0)
  {
  }

  /** The or works independently on the bits above and below position k. */
  lemma {:induction false} OrSplit(a: nat, c: nat, k: nat, b: nat, d: nat)
    requires c < Pow2(k) && d < Pow2(k)
    ensures Or(c, d) < Pow2(k)
    ensures Or(Shl(a, k) + c, Shl(b, k) + d) == Shl(Or(a, b), k) + Or(c, d)
  {
    if k == 0 {
      assert c == 0 && d == 0;
    } else {
      OrSplit(a, c / 2, k - 1, b, d / 2);
      OrDoubled(Shl(a, k - 1), Shl(b, k - 1), c, d);
      OrDoubled(0, 0, c, d);
    }
  }

  /** Or-ing below the lowest set bit is addition; it is what makes shift-and-or a packing. */
  lemma OrDisjoint(a: nat, k: nat, b: nat)
    requires b < Pow2(k)
    ensures Or(Shl(a, k), b) == Shl(a, k) + b
  {
    OrSplit(a, 0, k, 0, b);
    ShlIsProduct(0, k);
    OrZero(a);
  }

  // ---------------------------------------------------------------- packed fields

  /** A field of a header: its nominal width in bits and the value written there. */
  datatype Field = Field(width: nat, value: nat)

  function TotalWidth(ws: seq<nat>): nat {
    if ws == [] then 0 else ws[0] + TotalWidth(ws[1..])
  }

  function Widths(fs: seq<Field>): (ws: seq<nat>)
    ensures |ws| == |fs|
  {
    if fs == [] then [] else [fs[0].width] + Widths(fs[1..])
  }

  lemma {:induction false} WidthAt(fs: seq<Field>, i: nat)
    requires i < |fs|
    ensures Widths(fs)[i] == fs[i].width
  {
    if i > 0 {
      WidthAt(fs[1..], i - 1);
    }
  }

  lemma WidthsPointwise(fs: seq<Field>)
    ensures forall i :: 0 <= i < |fs| ==> Widths(fs)[i] == fs[i].width
  {
    forall i | 0 <= i < |fs| ensures Widths(fs)[i] == fs[i].width {
      WidthAt(fs, i);
    }
  }

  predicate InRange(fs: seq<Field>) {
    forall i :: 0 <= i < |fs| ==> fs[i].value < Pow2(fs[i].width)
  }

  /** f0 << s0 | f1 << s1 | ... | fn, each shift being the width of the fields to its right.
      A value too large for its field runs into its left neighbour, as it does in Python. */
  function Pack(fs: seq<Field>): nat {
    if fs == [] then 0
    else Or(Shl(fs[0].value, TotalWidth(Widths(fs[1..]))), Pack(fs[1..]))
  }

  /** `a | b` on integers of either sign, in two's complement without end. */
  function SignedOr(a: int, b: int): int
    decreases if a < 0 then -a else a
  {
    if a == 0 then b
    else if a == -1 then -1
    else 2 * SignedOr(a / 2, b / 2) + (if a % 2 == 1 || b % 2 == 1 then 1 else 0)
  }

  lemma {:induction false} SignedOrIs(a: int, b: int)
    ensures SignedOr(a, b) < 0 <==> a < 0 || b < 0
    ensures a >= 0 && b >= 0 ==> SignedOr(a, b) == Or(a, b)
    decreases if a < 0 then -a else a
  {
    if a != 0 && a != -1 {
      SignedOrIs(a / 2, b / 2);
    }
  }

  /** Fields whose values may be negative, or-ed in the same way. */
  datatype SignedField = SignedField(width: nat, value: int)

  function SignedWidths(fs: seq<SignedField>): seq<nat> {
    seq(|fs|, i requires 0 <= i < |fs| => fs[i].width)
  }

  function SignedPack(fs: seq<SignedField>): int {
    if fs == [] then 0
    else SignedOr(fs[0].value * Pow2(TotalWidth(SignedWidths(fs[1..]))), SignedPack(fs[1..]))
  }

  lemma {:induction false} SignOfPack(fs: seq<SignedField>)
    ensures SignedPack(fs) < 0 <==> exists i | 0 <= i < |fs| :: fs[i].value < 0
  {
    if fs != [] {
      var p := Pow2(TotalWidth(SignedWidths(fs[1..])));
      SignOfPack(fs[1..]);
      SignOfShifted(fs[0].value, p);
      SignedOrIs(fs[0].value * p, SignedPack(fs[1..]));
      assert forall i | 1 <= i < |fs| :: fs[i] == fs[1..][i - 1];
    }
  }

  function Unsigned(fs: seq<SignedField>): (gs: seq<Field>)
    requires forall i | 0 <= i < |fs| :: fs[i].value >= 0
    ensures Widths(gs) == SignedWidths(fs)
  {
    var gs := seq(|fs|, i requires 0 <= i < |fs| => Field(fs[i].width, fs[i].value));
    WidthsPointwise(gs);
    gs
  }

  lemma {:induction false} UnsignedPack(fs: seq<SignedField>)
    requires forall i | 0 <= i < |fs| :: fs[i].value >= 0
    ensures SignedPack(fs) == Pack(Unsigned(fs))
  {
    hide Pow2, TotalWidth;
    if fs != [] {
      var w := TotalWidth(SignedWidths(fs[1..]));
      UnsignedPack(fs[1..]);
      assert Unsigned(fs)[1..] == Unsigned(fs[1..]);
      ShlIsProduct(fs[0].value, w);
      SignOfPack(fs[1..]);
      SignOfShifted(fs[0].value, Pow2(w));
      SignedOrIs(fs[0].value * Pow2(w), SignedPack(fs[1..]));
    }
  }

  lemma SignOfShifted(a: int, p: nat)
    requires p > 0
    ensures a * p < 0 <==> a < 0
  {
  }

  /** The fields (n >> shift) & mask of an integer, for the widths of a layout. */
  function Unpack(n: nat, ws: seq<nat>): (fs: seq<Field>)
    ensures |fs| == |ws|
    ensures Widths(fs) == ws
    ensures InRange(fs)
  {
    if ws == [] then []
    else [Field(ws[0], (n / Pow2(TotalWidth(ws[1..]))) % Pow2(ws[0]))] + Unpack(n, ws[1..])
  }

  /** Field i is one shift and one mask. */
  lemma {:induction false} UnpackAt(n: nat, ws: seq<nat>, i: nat)
    requires i < |ws|
    ensures Unpack(n, ws)[i] == Field(ws[i], (n / Pow2(TotalWidth(ws[i + 1..]))) % Pow2(ws[i]))
  {
    if i > 0 {
      UnpackAt(n, ws[1..], i - 1);
      assert ws[1..][i..] == ws[i + 1..];
    }
  }

  lemma PowZero()
    ensures Pow2(0) == 1
  {
  }

  lemma UnpackLast(n: nat, ws: seq<nat>)
    requires ws != [] && ws[|ws| - 1] == 8
    ensures Unpack(n, ws)[|ws| - 1] == Field(8, n % 256)
  {
    hide Unpack, Pow2;
    UnpackAt(n, ws, |ws| - 1);
    PowZero();
    assert n / 1 == n;
    assert ws[|ws|..] == [];
    Pow2Octet();
  }

  lemma {:induction false} PackIsSum(fs: seq<Field>)
    requires InRange(fs)
    ensures Pack(fs) < Pow2(TotalWidth(Widths(fs)))
    ensures fs != [] ==>
              Pack(fs) == fs[0].value * Pow2(TotalWidth(Widths(fs[1..]))) + Pack(fs[1..])
  {
    if fs != [] {
      var rest := fs[1..];
      PackIsSum(rest);
      var k := TotalWidth(Widths(rest));
      OrDisjoint(fs[0].value, k, Pack(rest));
      ShlIsProduct(fs[0].value, k);
      assert Widths(fs)[1..] == Widths(rest);
      Pow2Add(fs[0].width, k);
      MulMono(fs[0].value + 1, Pow2(fs[0].width), Pow2(k));
      MulRearranged(fs[0].value, 1, Pow2(k));
    }
  }

  lemma MulMono(a: nat, b: nat, p: nat)
    requires a <= b
    ensures a * p <= b * p
  {
  }

  lemma MulRearranged(a: nat, b: nat, p: nat)
    ensures (a * b) * p == a * (b * p)
    ensures (a + b) * p == a * p + b * p
    ensures (2 * a) * p == 2 * (a * p) && a * (2 * p) == 2 * (a * p)
  {
  }

  lemma QuotientUnique(n: nat, p: nat, q: nat, r: nat)
    requires 0 < p && r < p && n == q * p + r
    ensures n / p == q && n % p == r
  {
    var k := n / p;
    assert n == k * p + n % p;
    if k < q {
      MulMono(k + 1, q, p);
      MulRearranged(k, 1, p);
    } else if q < k {
      MulMono(q + 1, k, p);
      MulRearranged(q, 1, p);
    }
  }

  lemma QuotientSplit(n: nat, p: nat)
    requires 0 < p
    ensures n / p >= 0 && n == (n / p) * p + n % p
  {
  }

  lemma DivModStep(hi: nat, v: nat, w: nat, p: nat, low: nat)
    requires 0 < p && low < p && 0 < w && v < w
    ensures hi * (w * p) + v * p + low == (hi * w + v) * p + low
    ensures ((hi * (w * p) + v * p + low) / p) % w == v
  {
    MulRearranged(hi, w, p);
    MulRearranged(hi * w, v, p);
    QuotientUnique((hi * w + v) * p + low, p, hi * w + v, low);
    QuotientUnique(hi * w + v, w, hi, v);
  }

  /** The quotient by w * p, one factor at a time. */
  lemma DivModTwice(n: nat, w: nat, p: nat)
    requires 0 < p && 0 < w && 0 < w * p
    ensures n % (w * p) == ((n / p) % w) * p + n % p
  {
    var q := n / p;
    var h, v := q / w, q % w;
    QuotientSplit(n, p);
    QuotientSplit(q, w);
    DivModStep(h, v, w, p, n % p);
    MulMono(v + 1, w, p);
    MulRearranged(v, 1, p);
    QuotientUnique(n, w * p, h, v * p + n % p);
  }

  /** The first field stands above the rest, and a shift and a mask recover it. */
  lemma FirstField(fs: seq<Field>, hi: nat, n: nat, w: nat, p: nat)
    requires InRange(fs) && fs != []
    requires n == hi * Pow2(TotalWidth(Widths(fs))) + Pack(fs)
    requires w == Pow2(fs[0].width) && p == Pow2(TotalWidth(Widths(fs[1..])))
    ensures n == (hi * w + fs[0].value) * p + Pack(fs[1..])
    ensures (n / p) % w == fs[0].value
  {
    hide Pow2, Pack, Widths;
    PackIsSum(fs);
    PackIsSum(fs[1..]);
    WidthsRest(fs);
    Pow2Add(fs[0].width, TotalWidth(Widths(fs[1..])));
    assert Pow2(TotalWidth(Widths(fs))) == w * p;
    DivModStep(hi, fs[0].value, w, p, Pack(fs[1..]));
  }

  lemma WidthsRest(fs: seq<Field>)
    requires fs != []
    ensures Widths(fs) == [fs[0].width] + Widths(fs[1..])
    ensures TotalWidth(Widths(fs)) == fs[0].width + TotalWidth(Widths(fs[1..]))
  {
    assert Widths(fs)[1..] == Widths(fs[1..]);
  }

  /** Unpacking recovers what was packed, whatever stands above it. */
  lemma {:induction false} UnpackPack(fs: seq<Field>, hi: nat, n: nat)
    requires InRange(fs)
    requires n == hi * Pow2(TotalWidth(Widths(fs))) + Pack(fs)
    ensures Unpack(n, Widths(fs)) == fs
  {
    hide Pow2, Pack, TotalWidth;
    if fs != [] {
      FirstField(fs, hi, n, Pow2(fs[0].width), Pow2(TotalWidth(Widths(fs[1..]))));
      WidthsRest(fs);
      assert Widths(fs)[1..] == Widths(fs[1..]);
      UnpackPack(fs[1..], hi * Pow2(fs[0].width) + fs[0].value, n);
    }
  }

  /** Packing what was unpacked recovers the low bits of the integer. */
  lemma {:induction false} PackUnpack(n: nat, ws: seq<nat>)
    ensures Pack(Unpack(n, ws)) == n % Pow2(TotalWidth(ws))
  {
    if ws != [] {
      var fs := Unpack(n, ws);
      assert fs[1..] == Unpack(n, ws[1..]);
      PackUnpack(n, ws[1..]);
      PackIsSum(fs);
      Pow2Add(ws[0], TotalWidth(ws[1..]));
      DivModTwice(n, Pow2(ws[0]), Pow2(TotalWidth(ws[1..])));
    }
  }

  lemma FieldsSurvive(fs: seq<Field>)
    requires InRange(fs)
    ensures Pack(fs) < Pow2(TotalWidth(Widths(fs)))
    ensures Unpack(Pack(fs), Widths(fs)) == fs
  {
    PackIsSum(fs);
    UnpackPack(fs, 0, Pack(fs));
  }

  lemma IntegerSurvives(n: nat, ws: seq<nat>)
    requires n < Pow2(TotalWidth(ws))
    ensures Pack(Unpack(n, ws)) == n
  {
    PackUnpack(n, ws);
    QuotientUnique(n, Pow2(TotalWidth(ws)), 0, n);
  }

  // ---------------------------------------------------------------- byte strings

  /** n.to_bytes(length, "big"); the caller keeps n in range, as Python demands. */
  function ToBytes(n: nat, length: nat): (s: seq<Byte>)
    ensures |s| == length
  {
    if length == 0 then [] else ToBytes(n / 256, length - 1) + [n % 256]
  }

  /** int.from_bytes(s, "big") */
  function FromBytes(s: seq<Byte>): nat {
    if s == [] then 0 else FromBytes(s[..|s| - 1]) * 256 + s[|s| - 1]
  }

  lemma {:induction false} FromToBytes(n: nat, length: nat)
    requires n < Pow2(8 * length)
    ensures FromBytes(ToBytes(n, length)) == n
  {
    if length != 0 {
      var s := ToBytes(n, length);
      assert Pow2(8 * length) == 256 * Pow2(8 * (length - 1)) by { Pow2Octet(); Pow2Add(8, 8 * (length - 1)); }
      FromToBytes(n / 256, length - 1);
      assert s[..|s| - 1] == ToBytes(n / 256, length - 1);
    }
  }

  lemma {:induction false} ToFromBytes(s: seq<Byte>)
    ensures FromBytes(s) < Pow2(8 * |s|)
    ensures ToBytes(FromBytes(s), |s|) == s
  {
    if s != [] {
      var init, b := s[..|s| - 1], s[|s| - 1];
      ToFromBytes(init);
      assert Pow2(8 * |s|) == 256 * Pow2(8 * |init|) by { Pow2Octet(); Pow2Add(8, 8 * |init|); }
      assert FromBytes(s) / 256 == FromBytes(init);
      assert s == init + [b];
    }
  }

  lemma {:induction false} FromBytesConcat(s: seq<Byte>, t: seq<Byte>)
    ensures FromBytes(s + t) == FromBytes(s) * Pow2(8 * |t|) + FromBytes(t)
  {
    if t == [] {
      assert s + t == s;
    } else {
      var init, b := t[..|t| - 1], t[|t| - 1];
      assert (s + t)[..|s + t| - 1] == s + init;
      FromBytesConcat(s, init);
      assert Pow2(8 * |t|) == 256 * Pow2(8 * |init|) by { Pow2Octet(); Pow2Add(8, 8 * |init|); }
      assert (FromBytes(s) * Pow2(8 * |init|)) * 256 == FromBytes(s) * (256 * Pow2(8 * |init|));
    }
  }

  // ---------------------------------------------------------------- whole headers

  /** Writing a header of in-range fields and reading it back with the same layout. */
  lemma HeaderRoundTrip(fs: seq<Field>, length: nat)
    requires InRange(fs) && TotalWidth(Widths(fs)) == 8 * length
    ensures Unpack(FromBytes(ToBytes(Pack(fs), length)), Widths(fs)) == fs
  {
    hide Unpack, Pack, FromBytes, ToBytes, Widths, TotalWidth, Pow2;
    FieldsSurvive(fs);
    FromToBytes(Pack(fs), length);
  }

  /** Reading a header with a layout that covers it and writing the fields again. */
  lemma HeaderRewrite(data: seq<Byte>, ws: seq<nat>)
    requires TotalWidth(ws) == 8 * |data|
    ensures ToBytes(Pack(Unpack(FromBytes(data), ws)), |data|) == data
  {
    hide Unpack, Pack, FromBytes, ToBytes, Widths, TotalWidth, Pow2;
    ToFromBytes(data);
    IntegerSurvives(FromBytes(data), ws);
  }

  /** Two sets of in-range fields that pack to the same integer are the same fields. */
  lemma PackInjective(fs: seq<Field>, gs: seq<Field>)
    requires InRange(fs) && InRange(gs) && Widths(fs) == Widths(gs) && Pack(fs) == Pack(gs)
    ensures fs == gs
  {
    FieldsSurvive(fs);
    FieldsSurvive(gs);
  }

  lemma ToBytesInjective(m: nat, n: nat, length: nat)
    requires m < Pow2(8 * length) && n < Pow2(8 * length) && ToBytes(m, length) == ToBytes(n, length)
    ensures m == n
  {
    FromToBytes(m, length);
    FromToBytes(n, length);
  }

  lemma LowOctet(s: seq<Byte>)
    requires s != []
    ensures FromBytes(s) % 256 == s[|s| - 1]
  {
  }

  /** Cutting a big-endian string in two is a shift and a mask of its integer. */
  lemma CutBytes(front: seq<Byte>, back: seq<Byte>)
    ensures FromBytes(front + back) / Pow2(8 * |back|) == FromBytes(front)
    ensures FromBytes(front + back) % Pow2(8 * |back|) == FromBytes(back)
  {
    hide Pow2, FromBytes;
    FromBytesConcat(front, back);
    ToFromBytes(back);
    QuotientUnique(FromBytes(front + back), Pow2(8 * |back|), FromBytes(front), FromBytes(back));
  }

  /** Octet i of a big-endian string is a shift and a mask of its integer. */
  lemma OctetAt(s: seq<Byte>, i: nat)
    requires i < |s|
    ensures (FromBytes(s) / Pow2(8 * (|s| - 1 - i))) % 256 == s[i]
  {
    hide Pow2, FromBytes;
    var front, back := s[..i + 1], s[i + 1..];
    assert s == front + back;
    CutBytes(front, back);
    LowOctet(front);
  }

  lemma {:induction false} ShlShl(a: nat, j: nat, k: nat)
    ensures Shl(Shl(a, j), k) == Shl(a, j + k)
  {
    if k != 0 {
      ShlShl(a, j, k - 1);
    }
  }

  lemma {:induction false} WidthLast(fs: seq<Field>)
    requires fs != []
    ensures TotalWidth(Widths(fs)) == TotalWidth(Widths(fs[..|fs| - 1])) + fs[|fs| - 1].width
  {
    if |fs| > 1 {
      WidthLast(fs[1..]);
      assert fs[1..][..|fs| - 2] == fs[..|fs| - 1][1..];
      assert Widths(fs)[1..] == Widths(fs[1..]);
      assert Widths(fs[..|fs| - 1])[1..] == Widths(fs[..|fs| - 1][1..]);
    }
  }

  /** The last field, when it is an octet, is the last octet of the header. */
  lemma {:induction false} PackLast(fs: seq<Field>)
    requires InRange(fs) && fs != [] && fs[|fs| - 1].width == 8
    ensures Pack(fs) == 256 * Pack(fs[..|fs| - 1]) + fs[|fs| - 1].value
  {
    if |fs| > 1 {
      var rest, init := fs[1..], fs[..|fs| - 1];
      assert rest[..|rest| - 1] == init[1..];
      PackLast(rest);
      PackIsSum(fs);
      PackIsSum(init);
      WidthLast(rest);
      var k := TotalWidth(Widths(init[1..]));
      Pow2Octet();
      Pow2Add(8, k);
      ShiftedByOctet(fs[0].value, Pow2(k));
    } else {
      OrZero(fs[0].value);
    }
  }

  lemma ShiftedByOctet(v: nat, p: nat)
    ensures v * (256 * p) == 256 * (v * p)
  {
  }

  lemma ReplaceLast(n: nat, b: Byte, c: Byte, length: nat)
    requires 0 < length
    ensures ToBytes(256 * n + c, length) == ToBytes(256 * n + b, length)[length - 1 := c]
  {
  }

  /** Changing only the last, octet-wide, field changes only the last octet. */
  lemma LastOctet(init: seq<Field>, b: Byte, c: Byte, length: nat)
    requires InRange(init) && 0 < length
    ensures ToBytes(Pack(init + [Field(8, c)]), length) == ToBytes(Pack(init + [Field(8, b)]), length)[length - 1 := c]
  {
    hide Pack, ToBytes, InRange;
    LastPacked(init, b);
    LastPacked(init, c);
    ReplaceLast(Pack(init), b, c, length);
  }

  lemma LastPacked(init: seq<Field>, b: Byte)
    requires InRange(init)
    ensures Pack(init + [Field(8, b)]) == 256 * Pack(init) + b
  {
    var fs := init + [Field(8, b)];
    Pow2Octet();
    assert fs[..|fs| - 1] == init;
    PackLast(fs);
  }

  // ---------------------------------------------------------------- places of octets

  lemma {:induction false} WidthsConcat(a: seq<Field>, b: seq<Field>)
    requires InRange(a) && InRange(b)
    ensures InRange(a + b)
    ensures TotalWidth(Widths(a + b)) == TotalWidth(Widths(a)) + TotalWidth(Widths(b))
  {
    hide Pow2;
    if a == [] {
      assert a + b == b;
    } else {
      assert (a + b)[1..] == a[1..] + b;
      WidthsConcat(a[1..], b);
      WidthsRest(a);
      WidthsRest(a + b);
    }
  }

  /** The fields in front stand above those behind. */
  lemma {:induction false} PackConcat(a: seq<Field>, b: seq<Field>)
    requires InRange(a) && InRange(b)
    ensures InRange(a + b) && TotalWidth(Widths(a + b)) == TotalWidth(Widths(a)) + TotalWidth(Widths(b))
    ensures Pack(a + b) == Pack(a) * Pow2(TotalWidth(Widths(b))) + Pack(b)
  {
    hide Pow2, Or, Pack, InRange, Widths, TotalWidth;
    WidthsConcat(a, b);
    if a == [] {
      assert a + b == b;
      PackNothing();
    } else {
      var rest := a[1..];
      assert (a + b)[1..] == rest + b && (a + b)[0] == a[0];
      RestInRange(a);
      PackConcat(rest, b);
      PackIsSum(a + b);
      PackIsSum(a);
      Pow2Add(TotalWidth(Widths(rest)), TotalWidth(Widths(b)));
      Regrouped(a[0].value, Pow2(TotalWidth(Widths(rest))), Pow2(TotalWidth(Widths(b))), Pack(rest));
    }
  }

  lemma PackNothing()
    ensures Pack([]) == 0
  {
  }

  lemma RestInRange(fs: seq<Field>)
    requires InRange(fs) && fs != []
    ensures InRange(fs[1..])
  {
  }

  lemma Regrouped(v: nat, p: nat, q: nat, r: nat)
    ensures v * (p * q) + r * q == (v * p + r) * q
  {
    MulRearranged(v, p, q);
    MulRearranged(v * p, r, q);
  }

  /** Groups of fields that fill whole octets are written one after the other. */
  lemma OctetsConcat(a: seq<Field>, b: seq<Field>, m: nat, n: nat)
    requires InRange(a) && InRange(b) && TotalWidth(Widths(a)) == 8 * m && TotalWidth(Widths(b)) == 8 * n
    ensures ToBytes(Pack(a + b), m + n) == ToBytes(Pack(a), m) + ToBytes(Pack(b), n)
    ensures InRange(a + b) && TotalWidth(Widths(a + b)) == 8 * (m + n)
  {
    hide Pow2, Pack, ToBytes, FromBytes;
    PackConcat(a, b);
    PackIsSum(a);
    PackIsSum(b);
    var front, back := ToBytes(Pack(a), m), ToBytes(Pack(b), n);
    FromToBytes(Pack(a), m);
    FromToBytes(Pack(b), n);
    FromBytesConcat(front, back);
    ToFromBytes(front + back);
  }

  lemma OneField(w: nat, v: nat)
    requires v < Pow2(w)
    ensures InRange([Field(w, v)]) && TotalWidth(Widths([Field(w, v)])) == w && Pack([Field(w, v)]) == v
  {
    hide Pow2;
    PackIsSum([Field(w, v)]);
    PowZero();
    assert [Field(w, v)][1..] == [];
    WidthsRest([Field(w, v)]);
  }

  /** One octet of two fields. */
  lemma SplitOctet(w: nat, x: nat, v: nat, y: nat)
    requires x < Pow2(w) && y < Pow2(v) && w + v == 8
    ensures ToBytes(Pack([Field(w, x), Field(v, y)]), 1) == [(x * Pow2(v) + y) % 256]
    ensures InRange([Field(w, x), Field(v, y)]) && TotalWidth(Widths([Field(w, x), Field(v, y)])) == 8
  {
    hide Pow2, Pack;
    OneField(w, x);
    OneField(v, y);
    PackConcat([Field(w, x)], [Field(v, y)]);
    assert [Field(w, x)] + [Field(v, y)] == [Field(w, x), Field(v, y)];
    var n := x * Pow2(v) + y;
    assert ToBytes(n / 256, 0) == [];
  }

  lemma WholeField(length: nat, v: nat)
    requires v < Pow2(8 * length)
    ensures ToBytes(Pack([Field(8 * length, v)]), length) == ToBytes(v, length)
    ensures InRange([Field(8 * length, v)]) && TotalWidth(Widths([Field(8 * length, v)])) == 8 * length
  {
    OneField(8 * length, v);
  }
}
