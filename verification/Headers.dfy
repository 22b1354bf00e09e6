/** The GeoNetworking headers and their codecs (EN 302 636-4-1 V1.4.1, clause 9). */
module Headers {
  import opened Bits
  import opened Outcomes

  type U1 = n: int | 0 <= n < 2
  type U2 = n: int | 0 <= n < 4
  type U4 = n: int | 0 <= n < 16
  type U6 = n: int | 0 <= n < 64
  type U15 = n: int | 0 <= n < 0x8000
  type U16 = n: int | 0 <= n < 0x1_0000
  type U32 = n: int | 0 <= n < 0x1_0000_0000
  type U48 = n: int | 0 <= n < 0x1_0000_0000_0000
  type U64 = n: int | 0 <= n < 0x1_0000_0000_0000_0000

  /** The thirteen station types; 13 to 31 are no members of the enumeration. */
  type StationType = n: int | 0 <= n < 13

  /** A latitude or longitude in 1/10 microdegree: negative south and west of the origin,
      although the wire field is unsigned. */
  type Coordinate = n: int | -0x8000_0000 <= n < 0x1_0000_0000

  datatype GNAddress = GNAddress(m: U1, st: StationType, mid: U48)

  datatype LongPositionVector = LongPositionVector(
    gnAddr: GNAddress, tst: U32, latitude: Coordinate, longitude: Coordinate, pai: bool, s: U15, h: U16)

  datatype LT = LT(multiplier: U6, base: U2)

  datatype BasicNH = AnyNext | CommonNext | SecuredNext

  datatype BasicHeader = BasicHeader(version: U4, nh: BasicNH, reserved: Byte, lt: LT, rhl: Byte)

  datatype TrafficClass = TrafficClass(scf: bool, channelOffload: bool, tcId: U6)

  datatype Shape = Circle | Rect | Elip

  /** Header type together with the subtype that belongs to it. */
  datatype TransportType =
    | AnyTransport
    | Beacon
    | GeoUnicast
    | GeoAnycast(shape: Shape)
    | GeoBroadcast(shape: Shape)
    | SingleHop
    | MultiHop
    | LsRequest
    | LsReply

  datatype CommonHeader = CommonHeader(
    nh: U2, reserved: Byte, transport: TransportType, tc: TrafficClass, flags: Byte, pl: U16, mhl: Byte)

  /** What follows the source position vector: nothing in a TSB header, the destination area
      and a reserved field in a GBC header, the sought address in an LS Request header. */
  datatype Tail =
    | NoTail
    | AreaTail(latitude: Coordinate, longitude: Coordinate, a: U16, b: U16, angle: U16, reserved2: U16)
    | AddressTail(requestAddr: GNAddress)

  /** The TSB, GBC and LS Request extended headers. */
  datatype ExtendedHeader = ExtendedHeader(sn: U16, reserved: U16, soPv: LongPositionVector, tail: Tail)

  // ---------------------------------------------------------------- GN address

  const ADDRESS: seq<nat> := [1, 5, 10, 48]

  function AddressFields(a: GNAddress): (fs: seq<Field>)
    ensures InRange(fs) && Widths(fs) == ADDRESS && TotalWidth(ADDRESS) == 64
  {
    var fs := [Field(1, a.m), Field(5, a.st), Field(10, 0), Field(48, a.mid)];
    Pow2Values();
    Pow2Wide();
    WidthsPointwise(fs);
    assert TotalWidth([1, 5, 10, 48]) == 64;
    fs
  }

  function EncodeAddress(a: GNAddress): (n: U64) {
    PackIsSum(AddressFields(a));
    Pow2Values();
    Pow2Wide();
    Pack(AddressFields(a))
  }

  lemma AddressUnpacked(n: U64)
    ensures var f := Unpack(n, ADDRESS);
            f[0] == Field(1, f[0].value) && f[1] == Field(5, f[1].value) &&
            f[2] == Field(10, (n / 0x1_0000_0000_0000) % 1024) && f[3] == Field(48, f[3].value)
  {
    var f := Unpack(n, ADDRESS);
    WidthsPointwise(f);
    Pow2Values();
    Pow2Wide();
    assert f[2] == Unpack(n, [10, 48])[0] by {
      assert f[1..] == Unpack(n, ADDRESS[1..]);
      assert f[1..][1..] == Unpack(n, ADDRESS[1..][1..]);
      assert ADDRESS[1..][1..] == [10, 48];
    }
  }

  /** The M and ST bits of octet 0 and the MID octets 2 to 7; the ten bits between are skipped. */
  function DecodeAddress(n: U64): Result<GNAddress> {
    AddressUnpacked(n);
    Pow2Values();
    Pow2Wide();
    var f := Unpack(n, ADDRESS);
    if f[1].value >= 13 then Err(ValueError) else Ok(GNAddress(f[0].value, f[1].value, f[3].value))
  }

  /** The ten bits of an address that decoding skips are zero. */
  predicate AddressPadded(n: U64) {
    (n / 0x1_0000_0000_0000) % 1024 == 0
  }

  lemma AddressRoundTrip(a: GNAddress)
    ensures DecodeAddress(EncodeAddress(a)) == Ok(a)
  {
    FieldsSurvive(AddressFields(a));
    AddressUnpacked(EncodeAddress(a));
  }

  lemma AddressFieldsDecoded(n: U64)
    requires DecodeAddress(n).Ok?
    ensures AddressFields(DecodeAddress(n).value) == Unpack(n, ADDRESS)[2 := Field(10, 0)]
    ensures Unpack(n, ADDRESS)[2].value == (n / 0x1_0000_0000_0000) % 1024
  {
    AddressUnpacked(n);
  }

  lemma AddressIntegerSurvives(n: U64)
    ensures Pack(Unpack(n, ADDRESS)) == n
  {
    Pow2Values();
    Pow2Wide();
    assert TotalWidth([1, 5, 10, 48]) == 64;
    IntegerSurvives(n, ADDRESS);
  }

  lemma AddressRewrite(n: U64)
    requires DecodeAddress(n).Ok?
    ensures EncodeAddress(DecodeAddress(n).value) == n <==> AddressPadded(n)
  {
    var f := Unpack(n, ADDRESS);
    var fs := AddressFields(DecodeAddress(n).value);
    AddressFieldsDecoded(n);
    AddressUnpacked(n);
    AddressIntegerSurvives(n);
    assert fs == f[2 := Field(10, 0)];
    if AddressPadded(n) {
      assert fs == f;
    } else {
      assert fs[2] != f[2];
      if Pack(fs) == n {
        PackInjective(fs, f);
      }
    }
  }

  // ---------------------------------------------------------------- Basic Header

  const BASIC: seq<nat> := [4, 4, 8, 6, 2, 8]

  predicate BasicLayout(f: seq<Field>) {
    && |f| == 6
    && f[0].width == 4 && f[0].value < 16 && f[1].width == 4 && f[1].value < 16
    && f[2].width == 8 && f[2].value < 256
    && f[3].width == 6 && f[3].value < 64 && f[4].width == 2 && f[4].value < 4
    && f[5].width == 8 && f[5].value < 256
  }

  lemma BasicLayoutInRange(f: seq<Field>)
    requires BasicLayout(f)
    ensures InRange(f) && Widths(f) == BASIC && TotalWidth(BASIC) == 32
  {
    Pow2Values();
    WidthsPointwise(f);
    assert TotalWidth([4, 4, 8, 6, 2, 8]) == 32;
  }

  lemma BasicUnpacked(n: nat)
    ensures BasicLayout(Unpack(n, BASIC))
    ensures Unpack(n, BASIC)[5].value == n % 256
  {
    Pow2Values();
    WidthsPointwise(Unpack(n, BASIC));
    UnpackLast(n, BASIC);
  }

  function BasicNHCode(nh: BasicNH): U2 {
    match nh
    case AnyNext => 0
    case CommonNext => 1
    case SecuredNext => 2
  }

  function BasicFields(h: BasicHeader): (fs: seq<Field>)
    ensures BasicLayout(fs)
  {
    [Field(4, h.version), Field(4, BasicNHCode(h.nh)), Field(8, h.reserved),
     Field(6, h.lt.multiplier), Field(2, h.lt.base), Field(8, h.rhl)]
  }

  function EncodeBasic(h: BasicHeader): (r: seq<Byte>)
    ensures |r| == 4
  {
    ToBytes(Pack(BasicFields(h)), 4)
  }

  function BasicFromFields(f: seq<Field>): Result<BasicHeader>
    requires BasicLayout(f)
  {
    if f[1].value > 2 then Err(ValueError)
    else
      var nh := if f[1].value == 0 then AnyNext else if f[1].value == 1 then CommonNext else SecuredNext;
      Ok(BasicHeader(f[0].value, nh, f[2].value, LT(f[3].value, f[4].value), f[5].value))
  }

  function DecodeBasic(data: seq<Byte>): Result<BasicHeader> {
    if |data| < 4 then Err(DecodeError)
    else
      BasicUnpacked(FromBytes(data[..4]));
      BasicFromFields(Unpack(FromBytes(data[..4]), BASIC))
  }

  /** set_rhl: Python reduces the argument modulo 256. */
  function SetRhl(h: BasicHeader, rhl: int): BasicHeader {
    h.(rhl := rhl % 256)
  }

  lemma BasicRoundTrip(h: BasicHeader)
    ensures DecodeBasic(EncodeBasic(h)) == Ok(h)
  {
    hide Unpack, Pack, FromBytes, ToBytes, Widths, TotalWidth;
    BasicLayoutInRange(BasicFields(h));
    HeaderRoundTrip(BasicFields(h), 4);
    assert EncodeBasic(h)[..4] == EncodeBasic(h);
  }

  lemma BasicRewritten(f: seq<Field>)
    requires BasicLayout(f) && BasicFromFields(f).Ok?
    ensures BasicFields(BasicFromFields(f).value) == f
  {
  }

  lemma BasicOtherRhl(h: BasicHeader, rhl: Byte)
    ensures EncodeBasic(h.(rhl := rhl)) == EncodeBasic(h)[3 := rhl]
  {
    var init := BasicFields(h)[..5];
    BasicLayoutInRange(BasicFields(h));
    assert BasicFields(h) == init + [Field(8, h.rhl)];
    assert BasicFields(h.(rhl := rhl)) == init + [Field(8, rhl)];
    LastOctet(init, h.rhl, rhl, 4);
  }

  /** Every bit of a Basic Header survives decoding; only the RHL octet moves with the RHL. */
  lemma BasicRewrite(data: seq<Byte>, rhl: Byte)
    requires |data| == 4 && DecodeBasic(data).Ok?
    ensures DecodeBasic(data).value.rhl == data[3]
    ensures EncodeBasic(DecodeBasic(data).value.(rhl := rhl)) == data[3 := rhl]
  {
    hide Unpack, Pack, ToBytes, Widths, TotalWidth;
    assert data[..4] == data;
    var f := Unpack(FromBytes(data), BASIC);
    BasicUnpacked(FromBytes(data));
    BasicRewritten(f);
    BasicLayoutInRange(f);
    HeaderRewrite(data, BASIC);
    BasicOtherRhl(DecodeBasic(data).value, rhl);
  }

  // ---------------------------------------------------------------- Common Header

  function ShapeCode(shape: Shape): U4 {
    match shape
    case Circle => 0
    case Rect => 1
    case Elip => 2
  }

  function TypeCode(t: TransportType): U4 {
    match t
    case AnyTransport => 0
    case Beacon => 1
    case GeoUnicast => 2
    case GeoAnycast(_) => 3
    case GeoBroadcast(_) => 4
    case SingleHop => 5
    case MultiHop => 5
    case LsRequest => 6
    case LsReply => 6
  }

  function SubtypeCode(t: TransportType): U4 {
    match t
    case GeoAnycast(shape) => ShapeCode(shape)
    case GeoBroadcast(shape) => ShapeCode(shape)
    case MultiHop => 1
    case LsReply => 1
    case _ => 0
  }

  /** The subtype enumeration depends on the header type. */
  function DecodeTransport(ht: nat, hst: nat): (r: Result<TransportType>)
    ensures r.Ok? ==> TypeCode(r.value) == ht && SubtypeCode(r.value) == hst
  {
    if ht == 3 && hst == 0 then Ok(GeoAnycast(Circle))
    else if ht == 3 && hst == 1 then Ok(GeoAnycast(Rect))
    else if ht == 3 && hst == 2 then Ok(GeoAnycast(Elip))
    else if ht == 4 && hst == 0 then Ok(GeoBroadcast(Circle))
    else if ht == 4 && hst == 1 then Ok(GeoBroadcast(Rect))
    else if ht == 4 && hst == 2 then Ok(GeoBroadcast(Elip))
    else if ht == 5 && hst == 0 then Ok(SingleHop)
    else if ht == 5 && hst == 1 then Ok(MultiHop)
    else if ht == 6 && hst == 0 then Ok(LsRequest)
    else if ht == 6 && hst == 1 then Ok(LsReply)
    else if ht == 0 && hst == 0 then Ok(AnyTransport)
    else if ht == 1 && hst == 0 then Ok(Beacon)
    else if ht == 2 && hst == 0 then Ok(GeoUnicast)
    else Err(ValueError)
  }

  function Bit(b: bool): U1 {
    if b then 1 else 0
  }

  /** Octets 1 to 7 of the Common Header; the traffic class octet is three fields. */
  function CommonTail(h: CommonHeader): seq<Field> {
    [Field(4, TypeCode(h.transport)), Field(4, SubtypeCode(h.transport)),
     Field(1, Bit(h.tc.scf)), Field(1, Bit(h.tc.channelOffload)), Field(6, h.tc.tcId),
     Field(8, h.flags), Field(16, h.pl), Field(8, h.mhl), Field(8, h.reserved)]
  }

  /** The terms or-ed together by encode_to_int: the eight reserved bits go both to the low
      half of octet 0 and to octet 7, so a value above 15 runs into the next-header bits. */
  function CommonTerms(h: CommonHeader): seq<Field> {
    [Field(4, h.nh), Field(4, h.reserved)] + CommonTail(h)
  }

  function EncodeCommon(h: CommonHeader): (r: seq<Byte>)
    ensures |r| == 8
  {
    ToBytes(Pack(CommonTerms(h)), 8)
  }

  const COMMON: seq<nat> := [8, 4, 4, 1, 1, 6, 8, 16, 8, 8]

  /** The ten fields of a Common Header, octet 0 as a whole, each within its width. */
  predicate CommonLayout(f: seq<Field>) {
    && |f| == 10
    && f[0].width == 8 && f[0].value < 256
    && f[1].width == 4 && f[1].value < 16 && f[2].width == 4 && f[2].value < 16
    && f[3].width == 1 && f[3].value < 2 && f[4].width == 1 && f[4].value < 2
    && f[5].width == 6 && f[5].value < 64
    && f[6].width == 8 && f[6].value < 256
    && f[7].width == 16 && f[7].value < 0x1_0000
    && f[8].width == 8 && f[8].value < 256 && f[9].width == 8 && f[9].value < 256
  }

  lemma CommonLayoutInRange(f: seq<Field>)
    requires CommonLayout(f)
    ensures InRange(f) && Widths(f) == COMMON && TotalWidth(COMMON) == 64
  {
    hide Pow2;
    Pow2Values();
    WidthsPointwise(f);
    assert TotalWidth([8, 4, 4, 1, 1, 6, 8, 16, 8, 8]) == 64;
  }

  lemma CommonUnpacked(n: nat)
    ensures CommonLayout(Unpack(n, COMMON))
  {
    hide Pow2;
    Pow2Values();
    WidthsPointwise(Unpack(n, COMMON));
  }

  /** What octet 0 becomes. */
  function CommonOctet0(nh: U2, reserved: Byte): Byte {
    OrSplit(0, 16 * nh, 8, 0, reserved);
    Pow2Octet();
    ShlIsProduct(0, 8);
    Or(16 * nh, reserved)
  }

  function CommonFields(h: CommonHeader): (fs: seq<Field>)
    ensures CommonLayout(fs)
  {
    [Field(8, CommonOctet0(h.nh, h.reserved))] + CommonTail(h)
  }

  lemma CommonTailInRange(h: CommonHeader)
    ensures InRange(CommonTail(h))
  {
    Pow2Values();
  }

  lemma CommonTailFacts(h: CommonHeader)
    ensures InRange(CommonTail(h)) && TotalWidth(Widths(CommonTail(h))) == 56
  {
    hide Pow2, InRange;
    CommonTailInRange(h);
    WidthsPointwise(CommonTail(h));
    assert Widths(CommonTail(h)) == [4, 4, 1, 1, 6, 8, 16, 8, 8];
    assert TotalWidth([4, 4, 1, 1, 6, 8, 16, 8, 8]) == 56;
  }

  lemma CommonTermsParts(h: CommonHeader)
    ensures CommonTerms(h)[1..][1..] == CommonTail(h) && CommonFields(h)[1..] == CommonTail(h)
    ensures TotalWidth(Widths(CommonTerms(h)[1..])) == 60 && TotalWidth(Widths(CommonTail(h))) == 56
  {
    CommonTailFacts(h);
    var terms := CommonTerms(h)[1..];
    assert terms == [Field(4, h.reserved)] + CommonTail(h);
    assert terms[1..] == CommonTail(h);
    assert Widths(terms) == [4] + Widths(CommonTail(h));
    assert Widths(terms)[1..] == Widths(CommonTail(h));
  }

  /** The overlapping terms are the in-range fields of octet 0 and the tail. */
  lemma CommonTermsPacked(h: CommonHeader)
    ensures Pack(CommonTerms(h)) == Pack(CommonFields(h))
  {
    CommonTailFacts(h);
    PackIsSum(CommonTail(h));
    CommonTermsParts(h);
    CommonOctetsOr(h.nh, h.reserved, 56, Pack(CommonTail(h)));
  }

  lemma CommonOctetsOr(nh: U2, reserved: Byte, k: nat, low: nat)
    requires low < Pow2(k)
    ensures Or(Shl(nh, 4 + k), Or(Shl(reserved, k), low)) == Or(Shl(CommonOctet0(nh, reserved), k), low)
  {
    hide Or, Shl;
    ShlShl(nh, 4, k);
    ShlIsProduct(nh, 4);
    assert Pow2(4) == 16;
    OrDisjoint(reserved, k, low);
    OrDisjoint(CommonOctet0(nh, reserved), k, low);
    ShlIsProduct(16 * nh, k);
    OrSplit(16 * nh, 0, k, reserved, low);
    OrZero(low);
  }

  function CommonFromFields(f: seq<Field>): Result<CommonHeader>
    requires CommonLayout(f)
  {
    if f[0].value / 16 > 3 then Err(ValueError)
    else
      var transport :- DecodeTransport(f[1].value, f[2].value);
      Ok(CommonHeader(f[0].value / 16, f[9].value, transport,
                      TrafficClass(f[3].value == 1, f[4].value == 1, f[5].value),
                      f[6].value / 128 * 128, f[7].value, f[8].value))
  }

  function DecodeCommon(data: seq<Byte>): Result<CommonHeader> {
    if |data| < 8 then Err(DecodeError)
    else
      CommonUnpacked(FromBytes(data[..8]));
      CommonFromFields(Unpack(FromBytes(data[..8]), COMMON))
  }

  lemma CommonEncoded(h: CommonHeader)
    ensures EncodeCommon(h) == ToBytes(Pack(CommonFields(h)), 8)
  {
    CommonTermsPacked(h);
  }

  /** Which fields change when a Common Header is decoded and encoded. */
  lemma CommonRewritten(f: seq<Field>)
    requires CommonLayout(f) && CommonFromFields(f).Ok?
    ensures CommonFields(CommonFromFields(f).value) == f
            <==> f[6].value % 128 == 0 && Or(16 * (f[0].value / 16), f[9].value) == f[0].value
  {
  }

  lemma CommonReread(h: CommonHeader)
    ensures CommonFromFields(CommonFields(h)) == Ok(h)
            <==> h.flags % 128 == 0 && Or(16 * h.nh, h.reserved) / 16 == h.nh
  {
  }

  /** A Common Header comes back unchanged exactly when only flag bit 7 is used and the
      reserved bits did not reach the next-header bits. */
  lemma CommonRoundTrip(h: CommonHeader)
    ensures DecodeCommon(EncodeCommon(h)) == Ok(h)
            <==> h.flags % 128 == 0 && Or(16 * h.nh, h.reserved) / 16 == h.nh
  {
    hide Unpack, Pack, FromBytes, ToBytes, Widths, TotalWidth;
    CommonEncoded(h);
    CommonLayoutInRange(CommonFields(h));
    HeaderRoundTrip(CommonFields(h), 8);
    assert EncodeCommon(h)[..8] == EncodeCommon(h);
    CommonReread(h);
  }

  /** The octets of a received Common Header that decoding and encoding preserve. */
  predicate CommonPreserved(data: seq<Byte>)
    requires |data| == 8
  {
    data[3] % 128 == 0 && Or(16 * (data[0] / 16), data[7]) == data[0]
  }

  lemma FieldIsOctet(data: seq<Byte>, ws: seq<nat>, j: nat, i: nat)
    requires j < |ws| && i < |data| && ws[j] == 8 && TotalWidth(ws[j + 1..]) == 8 * (|data| - 1 - i)
    ensures Unpack(FromBytes(data), ws)[j] == Field(8, data[i])
  {
    OctetAt(data, i);
    UnpackAt(FromBytes(data), ws, j);
    Pow2Octet();
  }

  lemma CommonShifts()
    ensures TotalWidth(COMMON[1..]) == 56 && TotalWidth(COMMON[7..]) == 32 && TotalWidth(COMMON[10..]) == 0
  {
    assert COMMON[1..] == [4, 4, 1, 1, 6, 8, 16, 8, 8];
    assert COMMON[7..] == [16, 8, 8];
    assert TotalWidth([4, 4, 1, 1, 6, 8, 16, 8, 8]) == 56 && TotalWidth([16, 8, 8]) == 32;
  }

  lemma CommonOctets(data: seq<Byte>)
    requires |data| == 8
    ensures var f := Unpack(FromBytes(data), COMMON);
            f[0] == Field(8, data[0]) && f[6] == Field(8, data[3]) && f[9] == Field(8, data[7])
  {
    CommonOctet(data, 0, 0);
    CommonOctet(data, 6, 3);
    CommonOctet(data, 9, 7);
  }

  lemma CommonOctet(data: seq<Byte>, j: nat, i: nat)
    requires |data| == 8 && ((j == 0 && i == 0) || (j == 6 && i == 3) || (j == 9 && i == 7))
    ensures Unpack(FromBytes(data), COMMON)[j] == Field(8, data[i])
  {
    CommonShifts();
    FieldIsOctet(data, COMMON, j, i);
  }

  /** Two field lists of one layout give the same octets only when they are the same. */
  lemma SameOctets(f: seq<Field>, g: seq<Field>, length: nat)
    requires InRange(f) && InRange(g) && Widths(f) == Widths(g) && TotalWidth(Widths(f)) == 8 * length
    ensures ToBytes(Pack(f), length) == ToBytes(Pack(g), length) <==> f == g
  {
    HeaderRoundTrip(f, length);
    HeaderRoundTrip(g, length);
  }

  lemma CommonRewrite(data: seq<Byte>)
    requires |data| == 8 && DecodeCommon(data).Ok?
    ensures EncodeCommon(DecodeCommon(data).value) == data <==> CommonPreserved(data)
  {
    hide Unpack, Pack, FromBytes, ToBytes, Widths, TotalWidth;
    assert data[..8] == data;
    var f := Unpack(FromBytes(data), COMMON);
    CommonUnpacked(FromBytes(data));
    CommonLayoutInRange(f);
    var g := CommonFields(CommonFromFields(f).value);
    CommonLayoutInRange(g);
    CommonEncoded(CommonFromFields(f).value);
    HeaderRewrite(data, COMMON);
    SameOctets(f, g, 8);
    CommonRewritten(f);
    CommonOctets(data);
  }

  // ---------------------------------------------------------------- Long Position Vector

  const LPV: seq<nat> := [64, 32, 32, 32, 1, 15, 16]

  predicate LpvLayout(f: seq<Field>) {
    && |f| == 7
    && f[0].width == 64 && f[0].value < 0x1_0000_0000_0000_0000
    && f[1].width == 32 && f[1].value < 0x1_0000_0000
    && f[2].width == 32 && f[2].value < 0x1_0000_0000
    && f[3].width == 32 && f[3].value < 0x1_0000_0000
    && f[4].width == 1 && f[4].value < 2
    && f[5].width == 15 && f[5].value < 0x8000
    && f[6].width == 16 && f[6].value < 0x1_0000
  }

  lemma LpvLayoutInRange(f: seq<Field>)
    requires LpvLayout(f)
    ensures InRange(f) && Widths(f) == LPV && TotalWidth(LPV) == 192
  {
    hide Pow2;
    Pow2Values();
    Pow2Wide();
    WidthsPointwise(f);
    assert TotalWidth([64, 32, 32, 32, 1, 15, 16]) == 192;
  }

  lemma LpvUnpacked(n: nat)
    ensures LpvLayout(Unpack(n, LPV))
  {
    hide Pow2;
    Pow2Values();
    Pow2Wide();
    WidthsPointwise(Unpack(n, LPV));
  }

  function LpvFields(pv: LongPositionVector): (fs: seq<Field>)
    requires pv.latitude >= 0 && pv.longitude >= 0
    ensures LpvLayout(fs)
  {
    [Field(64, EncodeAddress(pv.gnAddr)), Field(32, pv.tst), Field(32, pv.latitude),
     Field(32, pv.longitude), Field(1, Bit(pv.pai)), Field(15, pv.s), Field(16, pv.h)]
  }

  /** Or-ing a negative coordinate makes the whole integer negative and to_bytes raises. */
  function EncodeLpv(pv: LongPositionVector): (r: Result<seq<Byte>>)
    ensures r.Ok? ==> |r.value| == 24
  {
    if pv.latitude < 0 || pv.longitude < 0 then Err(OverflowError)
    else Ok(ToBytes(Pack(LpvFields(pv)), 24))
  }

  /** The shifted values that LongPositionVector.encode ors, coordinates with their sign. */
  function LpvSigned(pv: LongPositionVector): seq<SignedField> {
    [SignedField(64, EncodeAddress(pv.gnAddr)), SignedField(32, pv.tst), SignedField(32, pv.latitude),
     SignedField(32, pv.longitude), SignedField(1, Bit(pv.pai)), SignedField(15, pv.s), SignedField(16, pv.h)]
  }

  /** The or of them is negative, so that to_bytes raises, exactly if a coordinate is; otherwise it
      is the integer whose octets are sent. */
  lemma LpvOred(pv: LongPositionVector)
    ensures SignedPack(LpvSigned(pv)) < 0 <==> EncodeLpv(pv) == Err(OverflowError)
    ensures EncodeLpv(pv).Ok? ==>
              SignedPack(LpvSigned(pv)) >= 0 && EncodeLpv(pv) == Ok(ToBytes(SignedPack(LpvSigned(pv)), 24))
  {
    hide Pack, SignedPack, ToBytes, EncodeAddress;
    var fs := LpvSigned(pv);
    SignOfPack(fs);
    assert pv.latitude < 0 ==> fs[2].value < 0;
    assert pv.longitude < 0 ==> fs[3].value < 0;
    if pv.latitude >= 0 && pv.longitude >= 0 {
      UnsignedPack(fs);
      assert Unsigned(fs) == LpvFields(pv);
    }
  }

  function LpvFromFields(f: seq<Field>): (r: Result<LongPositionVector>)
    requires LpvLayout(f)
    ensures r.Ok? ==> r.value.latitude >= 0 && r.value.longitude >= 0
  {
    var gnAddr :- DecodeAddress(f[0].value);
    Ok(LongPositionVector(gnAddr, f[1].value, f[2].value, f[3].value, f[4].value == 1, f[5].value, f[6].value))
  }

  function DecodeLpv(data: seq<Byte>): (r: Result<LongPositionVector>)
    ensures r.Ok? ==> |data| >= 24 && r.value.latitude >= 0 && r.value.longitude >= 0
  {
    if |data| < 24 then Err(DecodeError)
    else
      LpvUnpacked(FromBytes(data[..24]));
      LpvFromFields(Unpack(FromBytes(data[..24]), LPV))
  }

  /** A position vector survives the wire exactly when it lies north and east of the origin. */
  lemma LpvRoundTrip(pv: LongPositionVector)
    ensures EncodeLpv(pv).Ok? <==> pv.latitude >= 0 && pv.longitude >= 0
    ensures EncodeLpv(pv).Ok? ==> DecodeLpv(EncodeLpv(pv).value) == Ok(pv)
  {
    hide Unpack, Pack, FromBytes, ToBytes, Widths, TotalWidth;
    if pv.latitude >= 0 && pv.longitude >= 0 {
      var data := EncodeLpv(pv).value;
      LpvLayoutInRange(LpvFields(pv));
      HeaderRoundTrip(LpvFields(pv), 24);
      AddressRoundTrip(pv.gnAddr);
      assert data[..24] == data;
    }
  }

  /** The address octets that decoding and encoding preserve. */
  predicate AddressPreserved(data: seq<Byte>)
    requires |data| == 8
  {
    data[0] % 4 == 0 && data[1] == 0
  }

  lemma TwoOctets(a: Byte, b: Byte)
    ensures FromBytes([a, b]) == 256 * a + b
  {
    assert [a, b][..1] == [a];
    assert [a][..0] == [];
    assert FromBytes([a]) == a;
  }

  lemma TenBits(a: Byte, b: Byte)
    ensures (256 * a + b) % 1024 == 0 <==> a % 4 == 0 && b == 0
  {
  }

  lemma AddressOctets(data: seq<Byte>)
    requires |data| == 8
    ensures FromBytes(data) < 0x1_0000_0000_0000_0000
    ensures AddressPadded(FromBytes(data)) <==> AddressPreserved(data)
  {
    hide Pow2, FromBytes, ToBytes;
    ToFromBytes(data);
    Pow2Wide();
    var high, low := data[..2], data[2..];
    assert data == high + low;
    CutBytes(high, low);
    assert high == [data[0], data[1]];
    TwoOctets(data[0], data[1]);
    TenBits(data[0], data[1]);
  }

  /** The first field is the integer of the first eight octets. */
  lemma LpvAddress(data: seq<Byte>)
    requires |data| == 24
    ensures Unpack(FromBytes(data), LPV)[0].value == FromBytes(data[..8])
  {
    hide Pow2, Unpack;
    hide FromBytes;
    var high, low := data[..8], data[8..];
    assert data == high + low;
    CutBytes(high, low);
    ToFromBytes(high);
    UnpackAt(FromBytes(data), LPV, 0);
    LpvShift();
    QuotientUnique(FromBytes(high), Pow2(64), 0, FromBytes(high));
  }

  lemma LpvShift()
    ensures TotalWidth(LPV[1..]) == 128
  {
    assert LPV[1..] == [32, 32, 32, 1, 15, 16];
    assert TotalWidth([32, 32, 32, 1, 15, 16]) == 128;
  }

  lemma LpvRewritten(f: seq<Field>)
    requires LpvLayout(f) && LpvFromFields(f).Ok?
    ensures LpvFields(LpvFromFields(f).value) == f <==> AddressPadded(f[0].value)
  {
    AddressRewrite(f[0].value);
    var g := LpvFields(LpvFromFields(f).value);
    assert g[1] == f[1] && g[2] == f[2] && g[3] == f[3] && g[4] == f[4] && g[5] == f[5] && g[6] == f[6];
    if AddressPadded(f[0].value) {
      assert g[0] == f[0];
    }
  }

  lemma LpvRewrite(data: seq<Byte>)
    requires |data| == 24 && DecodeLpv(data).Ok?
    ensures EncodeLpv(DecodeLpv(data).value) == Ok(data) <==> AddressPreserved(data[..8])
  {
    hide Unpack, Pack, FromBytes, ToBytes, Widths, TotalWidth;
    assert data[..24] == data;
    var f := Unpack(FromBytes(data), LPV);
    LpvUnpacked(FromBytes(data));
    LpvLayoutInRange(f);
    var g := LpvFields(LpvFromFields(f).value);
    LpvLayoutInRange(g);
    HeaderRewrite(data, LPV);
    SameOctets(f, g, 24);
    LpvRewritten(f);
    LpvAddress(data);
    AddressOctets(data[..8]);
  }

  // ---------------------------------------------------------------- places of the fields

  lemma OctetIs(n: nat)
    requires n < 256
    ensures ToBytes(n, 1) == [n]
  {
    assert ToBytes(n / 256, 0) == [];
  }

  lemma OctetPairIs(n: nat)
    requires n < 0x1_0000
    ensures ToBytes(n, 2) == [n / 256, n % 256]
  {
    OctetIs(n / 256);
  }

  lemma OctetField(v: Byte)
    ensures ToBytes(Pack([Field(8, v)]), 1) == [v]
    ensures InRange([Field(8, v)]) && TotalWidth(Widths([Field(8, v)])) == 8
  {
    Pow2Values();
    WholeField(1, v);
    OctetIs(v);
  }

  /** The octets of a Basic Header: version and next header, reserved, lifetime, hop limit. */
  lemma BasicPlaces(h: BasicHeader)
    ensures var nh := match h.nh case AnyNext => 0 case CommonNext => 1 case SecuredNext => 2;
            EncodeBasic(h) == [16 * h.version + nh, h.reserved, 4 * h.lt.multiplier + h.lt.base, h.rhl]
  {
    hide Pow2, Pack, ToBytes, InRange, Widths, TotalWidth;
    Pow2Values();
    var f := BasicFields(h);
    SplitOctet(4, f[0].value, 4, f[1].value);
    OctetField(h.reserved);
    SplitOctet(6, f[3].value, 2, f[4].value);
    OctetField(h.rhl);
    var a, b, c, d := [f[0], f[1]], [f[2]], [f[3], f[4]], [f[5]];
    OctetsConcat(a, b, 1, 1);
    OctetsConcat(a + b, c, 2, 1);
    OctetsConcat(a + b + c, d, 3, 1);
    assert f == a + b + c + d;
  }

  /** The octet of header type and subtype. */
  function TransportOctet(t: TransportType): Byte {
    match t
    case AnyTransport => 0x00
    case Beacon => 0x10
    case GeoUnicast => 0x20
    case GeoAnycast(Circle) => 0x30
    case GeoAnycast(Rect) => 0x31
    case GeoAnycast(Elip) => 0x32
    case GeoBroadcast(Circle) => 0x40
    case GeoBroadcast(Rect) => 0x41
    case GeoBroadcast(Elip) => 0x42
    case SingleHop => 0x50
    case MultiHop => 0x51
    case LsRequest => 0x60
    case LsReply => 0x61
  }

  lemma TypeOctet(t: TransportType)
    ensures ToBytes(Pack([Field(4, TypeCode(t)), Field(4, SubtypeCode(t))]), 1) == [TransportOctet(t)]
    ensures InRange([Field(4, TypeCode(t)), Field(4, SubtypeCode(t))])
    ensures TotalWidth(Widths([Field(4, TypeCode(t)), Field(4, SubtypeCode(t))])) == 8
  {
    hide Pow2, Pack, ToBytes, InRange, Widths, TotalWidth;
    Pow2Values();
    SplitOctet(4, TypeCode(t), 4, SubtypeCode(t));
  }

  lemma ClassOctet(tc: TrafficClass)
    ensures var fs := [Field(1, Bit(tc.scf)), Field(1, Bit(tc.channelOffload)), Field(6, tc.tcId)];
            ToBytes(Pack(fs), 1) == [128 * Bit(tc.scf) + 64 * Bit(tc.channelOffload) + tc.tcId]
            && InRange(fs) && TotalWidth(Widths(fs)) == 8
  {
    hide Pow2, Pack, ToBytes, InRange, Widths, TotalWidth;
    Pow2Values();
    var a, b, c := Field(1, Bit(tc.scf)), Field(1, Bit(tc.channelOffload)), Field(6, tc.tcId);
    OneField(1, a.value);
    OneField(1, b.value);
    OneField(6, c.value);
    PackConcat([a], [b]);
    PackConcat([a] + [b], [c]);
    assert [a] + [b] + [c] == [a, b, c];
    OctetIs(128 * Bit(tc.scf) + 64 * Bit(tc.channelOffload) + tc.tcId);
  }

  /** The octets of a Common Header: next header, or-ed with the reserved bits; type and subtype;
      traffic class; flags; payload length; maximum hop limit; the reserved bits again. */
  lemma CommonPlaces(h: CommonHeader)
    ensures EncodeCommon(h) ==
            [CommonOctet0(h.nh, h.reserved), TransportOctet(h.transport),
             128 * Bit(h.tc.scf) + 64 * Bit(h.tc.channelOffload) + h.tc.tcId, h.flags]
            + ToBytes(h.pl, 2) + [h.mhl, h.reserved]
    ensures h.reserved == 0 ==> CommonOctet0(h.nh, h.reserved) == 16 * h.nh
  {
    hide Pow2, Pack, ToBytes, InRange, Widths, TotalWidth, CommonOctet0, TypeCode, SubtypeCode, TransportOctet;
    CommonEncoded(h);
    NoReservedBits(h.nh);
    Pow2Values();
    var f := CommonFields(h);
    var a, b, c := [f[0]], [f[1], f[2]], [f[3], f[4], f[5]];
    var d, e, g, i := [f[6]], [f[7]], [f[8]], [f[9]];
    OctetField(f[0].value);
    TypeOctet(h.transport);
    ClassOctet(h.tc);
    OctetField(h.flags);
    WholeField(2, h.pl);
    OctetField(h.mhl);
    OctetField(h.reserved);
    OctetsConcat(a, b, 1, 1);
    OctetsConcat(a + b, c, 2, 1);
    OctetsConcat(a + b + c, d, 3, 1);
    OctetsConcat(a + b + c + d, e, 4, 2);
    OctetsConcat(a + b + c + d + e, g, 6, 1);
    OctetsConcat(a + b + c + d + e + g, i, 7, 1);
    assert f == a + b + c + d + e + g + i;
  }

  lemma NoReservedBits(nh: U2)
    ensures CommonOctet0(nh, 0) == 16 * nh
  {
    OrZero(16 * nh);
  }

  /** The octets of an address: M bit and station type, zero padding, the 48 bits of the MID. */
  lemma AddressPlaces(a: GNAddress)
    ensures ToBytes(EncodeAddress(a), 8) == [128 * a.m + 4 * a.st, 0] + ToBytes(a.mid, 6)
  {
    hide Pow2, Pack, ToBytes, InRange, Widths, TotalWidth;
    Pow2Values();
    Pow2Wide();
    var fs := AddressFields(a);
    var m, st, pad, mid := Field(1, a.m), Field(5, a.st), Field(10, 0), Field(48, a.mid);
    OneField(1, a.m);
    OneField(5, a.st);
    OneField(10, 0);
    PackConcat([m], [st]);
    PackConcat([m] + [st], [pad]);
    WholeField(6, a.mid);
    OctetsConcat([m] + [st] + [pad], [mid], 2, 6);
    assert [m, st, pad, mid] == [m] + [st] + [pad] + [mid];
    OctetPairIs(1024 * (32 * a.m + a.st));
  }

  /** The octets of a long position vector: address, time stamp, latitude, longitude, accuracy bit with
      speed, heading. */
  lemma LpvPlaces(pv: LongPositionVector)
    requires pv.latitude >= 0 && pv.longitude >= 0
    ensures EncodeLpv(pv) ==
            Ok(ToBytes(EncodeAddress(pv.gnAddr), 8) + ToBytes(pv.tst, 4) + ToBytes(pv.latitude, 4) + ToBytes(pv.longitude, 4)
               + ToBytes((if pv.pai then 0x8000 else 0) + pv.s, 2) + ToBytes(pv.h, 2))
  {
    hide Pow2, Pack, ToBytes, InRange, Widths, TotalWidth, EncodeAddress;
    Pow2Values();
    Pow2Wide();
    var f := LpvFields(pv);
    var a, b, c, d, e, g := [f[0]], [f[1]], [f[2]], [f[3]], [f[4], f[5]], [f[6]];
    WholeField(8, f[0].value);
    WholeField(4, pv.tst);
    WholeField(4, pv.latitude);
    WholeField(4, pv.longitude);
    OneField(1, f[4].value);
    OneField(15, pv.s);
    PackConcat([f[4]], [f[5]]);
    assert [f[4]] + [f[5]] == e;
    WholeField(2, pv.h);
    OctetsConcat(a, b, 8, 4);
    OctetsConcat(a + b, c, 12, 4);
    OctetsConcat(a + b + c, d, 16, 4);
    OctetsConcat(a + b + c + d, e, 20, 2);
    OctetsConcat(a + b + c + d + e, g, 22, 2);
    assert f == a + b + c + d + e + g;
  }

  // ---------------------------------------------------------------- which octets decode

  /** The fields within an octet: its halves, and the station type in an address. */
  predicate InOctet(width: nat, low: nat) {
    (width == 4 && (low == 0 || low == 4)) || (width == 5 && low == 2)
  }

  function BitsOf(octet: nat, width: nat, low: nat): nat
    requires InOctet(width, low)
  {
    if width == 5 then octet / 4 % 32 else if low == 0 then octet % 16 else octet / 16 % 16
  }

  /** Bits of an integer by name, so that proofs can hide the division. */
  function Cut(n: nat, shift: nat, width: nat): nat {
    n / Pow2(shift) % Pow2(width)
  }

  lemma FieldIsCut(n: nat, ws: seq<nat>, j: nat)
    requires j < |ws|
    ensures Unpack(n, ws)[j] == Field(ws[j], Cut(n, TotalWidth(ws[j + 1..]), ws[j]))
  {
    hide Pow2, Unpack, TotalWidth;
    UnpackAt(n, ws, j);
  }

  lemma OctetIsCut(data: seq<Byte>, i: nat)
    requires i < |data|
    ensures Cut(FromBytes(data), 8 * (|data| - 1 - i), 8) == data[i]
  {
    hide Pow2, FromBytes;
    OctetAt(data, i);
    Pow2Octet();
  }

  lemma CutWithin(n: nat, above: nat, width: nat, low: nat)
    requires InOctet(width, low)
    ensures 0 <= Cut(n, above, 8) < 256 && Cut(n, above + low, width) == BitsOf(Cut(n, above, 8), width, low)
  {
    hide Pow2;
    Pow2Octet();
    Pow2Quotient(n, above, low);
    MaskInOctet(n / Pow2(above), width, low);
  }

  lemma FieldInOctet(data: seq<Byte>, ws: seq<nat>, j: nat, i: nat, low: nat)
    requires j < |ws| && i < |data| && TotalWidth(ws[j + 1..]) == 8 * (|data| - 1 - i) + low && InOctet(ws[j], low)
    ensures Unpack(FromBytes(data), ws)[j] == Field(ws[j], BitsOf(data[i], ws[j], low))
  {
    hide Pow2, FromBytes, Unpack, TotalWidth, BitsOf, Cut;
    FieldIsCut(FromBytes(data), ws, j);
    OctetIsCut(data, i);
    CutWithin(FromBytes(data), 8 * (|data| - 1 - i), ws[j], low);
  }

  lemma Pow2Quotient(n: nat, a: nat, b: nat)
    ensures n / Pow2(a + b) == n / Pow2(a) / Pow2(b)
  {
    hide Pow2;
    Pow2Add(a, b);
    DividedTwice(n, Pow2(a), Pow2(b));
  }

  lemma MaskInOctet(m: nat, width: nat, low: nat)
    requires InOctet(width, low)
    ensures m / Pow2(low) % Pow2(width) == BitsOf(m % 256, width, low)
  {
    hide Pow2;
    Pow2Values();
    PowZero();
    BitsOfOctet(m);
  }

  lemma BitsOfOctet(m: nat)
    ensures m / 1 % 16 == m % 256 % 16 && m / 16 % 16 == m % 256 / 16 % 16 && m / 4 % 32 == m % 256 / 4 % 32
  {
    var q, r := m / 256, m % 256;
    assert m == 256 * q + r;
    QuotientUnique(m, 16, 16 * q + r / 16, r % 16);
    QuotientUnique(16 * q + r / 16, 16, q, r / 16);
    QuotientUnique(m, 4, 64 * q + r / 4, r % 4);
    QuotientUnique(64 * q + r / 4, 32, 2 * q + r / 4 / 32, r / 4 % 32);
  }

  lemma DividedTwice(n: nat, p: nat, q: nat)
    requires p > 0 && q > 0
    ensures p * q > 0 && n / (p * q) == n / p / q
  {
    var m := n / p;
    QuotientSplit(n, p);
    QuotientSplit(m, q);
    MulMono(m % q + 1, q, p);
    MulRearranged(m % q, 1, p);
    MulRearranged(m / q, q, p);
    MulRearranged((m / q) * q, m % q, p);
    QuotientUnique(n, p * q, m / q, m % q * p + n % p);
  }

  /** A Basic Header decodes exactly if it is long enough and names a next header that exists. */
  lemma BasicDecodesExactly(data: seq<Byte>)
    ensures DecodeBasic(data).Ok? <==> |data| >= 4 && data[0] % 16 <= 2
    ensures DecodeBasic(data).Ok? ==>
              var h := DecodeBasic(data).value;
              h.version == data[0] / 16 && h.rhl == data[3] && (h.nh == AnyNext <==> data[0] % 16 == 0) && (h.nh == CommonNext <==> data[0] % 16 == 1)
  {
    hide FromBytes, Unpack;
    if |data| >= 4 {
      var d := data[..4];
      BasicUnpacked(FromBytes(d));
      BasicFieldsAt(d);
    }
  }

  lemma BasicFieldsAt(data: seq<Byte>)
    requires |data| == 4
    ensures var f := Unpack(FromBytes(data), BASIC);
            f[0].value == data[0] / 16 && f[1].value == data[0] % 16 && f[5].value == data[3]
  {
    hide FromBytes, Unpack, Pow2, TotalWidth, BitsOf;
    BasicShifts();
    HalvesOf(data[0]);
    FieldInOctet(data, BASIC, 0, 0, 4);
    FieldInOctet(data, BASIC, 1, 0, 0);
    FieldIsOctet(data, BASIC, 5, 3);
  }

  lemma HalvesOf(octet: Byte)
    ensures BitsOf(octet, 4, 4) == octet / 16 && BitsOf(octet, 4, 0) == octet % 16
  {
  }

  lemma BasicShifts()
    ensures TotalWidth(BASIC[1..]) == 28 && TotalWidth(BASIC[2..]) == 24 && TotalWidth(BASIC[6..]) == 0
  {
    assert BASIC[1..] == [4, 8, 6, 2, 8] && BASIC[2..] == [8, 6, 2, 8];
    assert TotalWidth([4, 8, 6, 2, 8]) == 28 && TotalWidth([8, 6, 2, 8]) == 24;
  }

  /** A Common Header decodes exactly if it is long enough, its first two bits are zero and its type and
      subtype exist together. */
  lemma CommonDecodesExactly(data: seq<Byte>)
    ensures DecodeCommon(data).Ok? <==> |data| >= 8 && data[0] < 64 && exists t: TransportType :: TransportOctet(t) == data[1]
    ensures DecodeCommon(data).Ok? ==>
              var h := DecodeCommon(data).value;
              h.nh == data[0] / 16 && TransportOctet(h.transport) == data[1] && h.mhl == data[6]
  {
    hide FromBytes, Unpack, Pow2;
    if |data| >= 8 {
      var d := data[..8];
      CommonUnpacked(FromBytes(d));
      CommonFieldsAt(d);
      TransportDecodesExactly(d[1]);
    }
  }

  lemma CommonFieldsAt(data: seq<Byte>)
    requires |data| == 8
    ensures var f := Unpack(FromBytes(data), COMMON);
            f[0].value == data[0] && f[1].value == data[1] / 16 && f[2].value == data[1] % 16 && f[8].value == data[6]
  {
    hide FromBytes, Unpack, Pow2, TotalWidth, BitsOf;
    TypeShifts();
    HalvesOf(data[1]);
    CommonOctet(data, 0, 0);
    FieldInOctet(data, COMMON, 1, 1, 4);
    FieldInOctet(data, COMMON, 2, 1, 0);
    FieldIsOctet(data, COMMON, 8, 6);
  }

  lemma TypeShifts()
    ensures TotalWidth(COMMON[2..]) == 52 && TotalWidth(COMMON[3..]) == 48 && TotalWidth(COMMON[9..]) == 8
  {
    assert COMMON[2..] == [4, 1, 1, 6, 8, 16, 8, 8] && COMMON[3..] == [1, 1, 6, 8, 16, 8, 8] && COMMON[9..] == [8];
    assert TotalWidth([4, 1, 1, 6, 8, 16, 8, 8]) == 52 && TotalWidth([1, 1, 6, 8, 16, 8, 8]) == 48 && TotalWidth([8]) == 8;
  }

  lemma TransportDecodesExactly(octet: Byte)
    ensures var r := DecodeTransport(octet / 16, octet % 16);
            && (r.Ok? <==> exists t: TransportType :: TransportOctet(t) == octet)
            && (r.Ok? ==> TransportOctet(r.value) == octet)
  {
    hide DecodeTransport;
    var r := DecodeTransport(octet / 16, octet % 16);
    if r.Ok? {
      TransportOctetIs(r.value);
      assert TransportOctet(r.value) == octet;
    }
    if t: TransportType :| TransportOctet(t) == octet {
      TransportOctetIs(t);
      TransportKnown(t);
    }
  }

  lemma TransportOctetIs(t: TransportType)
    ensures TransportOctet(t) == 16 * TypeCode(t) + SubtypeCode(t)
  {
  }

  lemma TransportKnown(t: TransportType)
    ensures DecodeTransport(TypeCode(t), SubtypeCode(t)) == Ok(t)
  {
  }

  /** An address decodes exactly if its station type exists; the MID are its last six octets. */
  lemma AddressDecodesExactly(data: seq<Byte>)
    requires |data| == 8
    ensures FromBytes(data) < 0x1_0000_0000_0000_0000
    ensures DecodeAddress(FromBytes(data)).Ok? <==> data[0] / 4 % 32 < 13
    ensures DecodeAddress(FromBytes(data)).Ok? ==> DecodeAddress(FromBytes(data)).value.mid == FromBytes(data[2..])
  {
    hide FromBytes, Unpack, Pow2;
    AddressOctets(data);
    AddressUnpacked(FromBytes(data));
    assert ADDRESS[2..] == [10, 48] && ADDRESS[4..] == [];
    assert TotalWidth([10, 48]) == 58;
    FieldInOctet(data, ADDRESS, 1, 0, 2);
    Pow2Values();
    Pow2Wide();
    var front, back := data[..2], data[2..];
    assert data == front + back;
    CutBytes(front, back);
    UnpackAt(FromBytes(data), ADDRESS, 3);
    PowZero();
    assert FromBytes(data) / 1 == FromBytes(data);
  }

  /** And a position vector exactly if it is long enough and its address does. */
  lemma LpvDecodesExactly(data: seq<Byte>)
    ensures DecodeLpv(data).Ok? <==> |data| >= 24 && data[0] / 4 % 32 < 13
    ensures DecodeLpv(data).Ok? ==> DecodeLpv(data).value.gnAddr.mid == FromBytes(data[2..8])
    ensures |data| >= 24 && DecodeLpv(data).Err? ==> DecodeLpv(data) == Err(ValueError)
    ensures |data| < 24 ==> DecodeLpv(data) == Err(DecodeError)
  {
    hide FromBytes, Unpack;
    if |data| >= 24 {
      LpvUnpacked(FromBytes(data[..24]));
      LpvAddress(data[..24]);
      assert data[..24][..8] == data[..8] && data[..8][2..] == data[2..8];
      AddressDecodesExactly(data[..8]);
    }
  }
}
