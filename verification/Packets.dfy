/** Multi-hop packets as octets: the extended headers, what a forwarder puts on the air, and
    when that differs from what it received in nothing but the remaining hop limit. */
module Packets {
  import opened Bits
  import opened Outcomes
  import opened Headers

  /** The three multi-hop broadcast packets a forwarder repeats unchanged. */
  datatype Kind = TsbKind | GbcKind | LsKind

  function KindOf(tail: Tail): Kind {
    match tail
    case NoTail => TsbKind
    case AreaTail(_, _, _, _, _, _) => GbcKind
    case AddressTail(_) => LsKind
  }

  function TailLength(kind: Kind): nat {
    match kind
    case TsbKind => 0
    case GbcKind => 16
    case LsKind => 8
  }

  /** int.from_bytes of two or four octets. */
  function Number16(data: seq<Byte>): U16
    requires |data| == 2
  {
    ToFromBytes(data);
    Pow2Values();
    FromBytes(data)
  }

  function Number32(data: seq<Byte>): U32
    requires |data| == 4
  {
    ToFromBytes(data);
    Pow2Wide();
    FromBytes(data)
  }

  function Address(data: seq<Byte>): Result<GNAddress>
    requires |data| == 8
  {
    AddressOctets(data);
    DecodeAddress(FromBytes(data))
  }

  lemma Number16RoundTrip(n: U16)
    ensures Number16(ToBytes(n, 2)) == n
  {
    Pow2Values();
    FromToBytes(n, 2);
  }

  lemma Number32RoundTrip(n: U32)
    ensures Number32(ToBytes(n, 4)) == n
  {
    Pow2Wide();
    FromToBytes(n, 4);
  }

  lemma AddressOctetsRoundTrip(a: GNAddress)
    ensures Address(ToBytes(EncodeAddress(a), 8)) == Ok(a)
  {
    Pow2Wide();
    FromToBytes(EncodeAddress(a), 8);
    AddressRoundTrip(a);
  }

  lemma AddressOctetsRewrite(data: seq<Byte>)
    requires |data| == 8 && Address(data).Ok?
    ensures ToBytes(EncodeAddress(Address(data).value), 8) == data <==> AddressPreserved(data)
  {
    AddressOctets(data);
    AddressRewrite(FromBytes(data));
    ToFromBytes(data);
    Pow2Wide();
    if ToBytes(EncodeAddress(Address(data).value), 8) == data {
      ToBytesInjective(EncodeAddress(Address(data).value), FromBytes(data), 8);
    }
  }

  // ---------------------------------------------------------------- the tail

  function EncodeTail(t: Tail): (r: Result<seq<Byte>>)
    ensures r.Ok? ==> |r.value| == TailLength(KindOf(t))
  {
    match t
    case NoTail => Ok([])
    case AreaTail(latitude, longitude, a, b, angle, reserved2) =>
      if latitude < 0 || longitude < 0 then Err(OverflowError)
      else Ok(ToBytes(latitude, 4) + ToBytes(longitude, 4)
              + ToBytes(a, 2) + ToBytes(b, 2) + ToBytes(angle, 2) + ToBytes(reserved2, 2))
    case AddressTail(requestAddr) => Ok(ToBytes(EncodeAddress(requestAddr), 8))
  }

  function DecodeTail(kind: Kind, data: seq<Byte>): (r: Result<Tail>)
    requires |data| == TailLength(kind)
    ensures r.Ok? ==> KindOf(r.value) == kind && EncodeTail(r.value).Ok?
  {
    match kind
    case TsbKind => Ok(NoTail)
    case GbcKind => Ok(AreaTail(Number32(data[0..4]), Number32(data[4..8]), Number16(data[8..10]),
                                Number16(data[10..12]), Number16(data[12..14]), Number16(data[14..16])))
    case LsKind =>
      var addr :- Address(data);
      Ok(AddressTail(addr))
  }

  lemma TailRoundTrip(t: Tail)
    requires EncodeTail(t).Ok?
    ensures DecodeTail(KindOf(t), EncodeTail(t).value) == Ok(t)
  {
    match t {
      case NoTail =>
      case AddressTail(requestAddr) => AddressOctetsRoundTrip(requestAddr);
      case AreaTail(latitude, longitude, a, b, angle, reserved2) =>
        var data := EncodeTail(t).value;
        assert data[0..4] == ToBytes(latitude, 4) && data[4..8] == ToBytes(longitude, 4);
        assert data[8..10] == ToBytes(a, 2) && data[10..12] == ToBytes(b, 2);
        assert data[12..14] == ToBytes(angle, 2) && data[14..16] == ToBytes(reserved2, 2);
        Number32RoundTrip(latitude);
        Number32RoundTrip(longitude);
        Number16RoundTrip(a);
        Number16RoundTrip(b);
        Number16RoundTrip(angle);
        Number16RoundTrip(reserved2);
    }
  }

  lemma AreaRewrite(data: seq<Byte>)
    requires |data| == 16
    ensures EncodeTail(DecodeTail(GbcKind, data).value) == Ok(data)
  {
    hide FromBytes, ToBytes;
    ToFromBytes(data[0..4]);
    ToFromBytes(data[4..8]);
    ToFromBytes(data[8..10]);
    ToFromBytes(data[10..12]);
    ToFromBytes(data[12..14]);
    ToFromBytes(data[14..16]);
    assert data == data[0..4] + data[4..8] + data[8..10] + data[10..12] + data[12..14] + data[14..16];
  }

  lemma TailRewrite(kind: Kind, data: seq<Byte>)
    requires |data| == TailLength(kind) && DecodeTail(kind, data).Ok?
    ensures EncodeTail(DecodeTail(kind, data).value) == Ok(data)
            <==> (kind == LsKind ==> AddressPreserved(data))
  {
    match kind {
      case TsbKind =>
      case GbcKind => AreaRewrite(data);
      case LsKind => AddressOctetsRewrite(data);
    }
  }

  // ---------------------------------------------------------------- extended headers

  function EncodeExtended(h: ExtendedHeader): (r: Result<seq<Byte>>)
    ensures r.Ok? ==> |r.value| == 28 + TailLength(KindOf(h.tail))
  {
    var pv :- EncodeLpv(h.soPv);
    var tail :- EncodeTail(h.tail);
    Ok(ToBytes(h.sn, 2) + ToBytes(h.reserved, 2) + pv + tail)
  }

  function DecodeExtended(kind: Kind, data: seq<Byte>): (r: Result<ExtendedHeader>)
    ensures r.Ok? ==> KindOf(r.value.tail) == kind && |data| >= 28 + TailLength(kind)
    ensures r.Ok? ==> EncodeExtended(r.value).Ok?
  {
    if |data| < 28 + TailLength(kind) then Err(DecodeError)
    else
      var pv :- DecodeLpv(data[4..28]);
      var tail :- DecodeTail(kind, data[28..28 + TailLength(kind)]);
      Ok(ExtendedHeader(Number16(data[0..2]), Number16(data[2..4]), pv, tail))
  }

  /** Whatever can be encoded at all is recovered by the receiver. */
  lemma ExtendedRoundTrip(h: ExtendedHeader)
    requires EncodeExtended(h).Ok?
    ensures DecodeExtended(KindOf(h.tail), EncodeExtended(h).value) == Ok(h)
  {
    hide EncodeLpv, DecodeLpv, EncodeTail, DecodeTail;
    var data := EncodeExtended(h).value;
    var tail := EncodeTail(h.tail).value;
    assert data == ToBytes(h.sn, 2) + ToBytes(h.reserved, 2) + EncodeLpv(h.soPv).value + tail;
    assert data[0..2] == ToBytes(h.sn, 2) && data[2..4] == ToBytes(h.reserved, 2);
    assert data[4..28] == EncodeLpv(h.soPv).value;
    assert data[28..28 + TailLength(KindOf(h.tail))] == tail;
    Number16RoundTrip(h.sn);
    Number16RoundTrip(h.reserved);
    LpvRoundTrip(h.soPv);
    TailRoundTrip(h.tail);
  }

  /** The octets of an extended header that decoding and encoding preserve. */
  predicate ExtendedPreserved(kind: Kind, data: seq<Byte>)
    requires |data| == 28 + TailLength(kind)
  {
    AddressPreserved(data[4..12]) && (kind == LsKind ==> AddressPreserved(data[28..36]))
  }

  lemma ExtendedRewrite(kind: Kind, data: seq<Byte>)
    requires |data| == 28 + TailLength(kind) && DecodeExtended(kind, data).Ok?
    ensures EncodeExtended(DecodeExtended(kind, data).value) == Ok(data) <==> ExtendedPreserved(kind, data)
  {
    hide DecodeLpv, EncodeLpv, DecodeTail, EncodeTail;
    var pv, tail := data[4..28], data[28..];
    assert data[28..28 + TailLength(kind)] == tail;
    LpvRewrite(pv);
    assert pv[..8] == data[4..12];
    TailRewrite(kind, tail);
    assert kind == LsKind ==> tail == data[28..36];
    ToFromBytes(data[0..2]);
    ToFromBytes(data[2..4]);
    FourParts(data[0..2], data[2..4], EncodeLpv(DecodeLpv(pv).value).value,
              EncodeTail(DecodeTail(kind, tail).value).value, data);
  }

  /** A concatenation equals a string exactly when its parts do. */
  lemma FourParts(a: seq<Byte>, b: seq<Byte>, c: seq<Byte>, d: seq<Byte>, whole: seq<Byte>)
    requires |a| + |b| + |c| + |d| == |whole|
    ensures a + b + c + d == whole
            <==> a == whole[..|a|] && b == whole[|a|..|a| + |b|]
                 && c == whole[|a| + |b|..|a| + |b| + |c|] && d == whole[|a| + |b| + |c|..]
  {
  }

  // ---------------------------------------------------------------- whole packets

  /** A packet taken apart: both fixed headers, the extended header, the payload. */
  datatype Packet = Packet(basic: BasicHeader, common: CommonHeader, extended: ExtendedHeader, payload: seq<Byte>)

  /** Python's data[i:], empty beyond the end. */
  function Drop(data: seq<Byte>, i: nat): seq<Byte> {
    if i <= |data| then data[i..] else []
  }

  /** process_basic_header, process_common_header, and the extended header of the kind. */
  function DecodePacket(kind: Kind, p: seq<Byte>): Result<Packet> {
    var basic :- DecodeBasic(p);
    var common :- DecodeCommon(Drop(p, 4));
    if basic.rhl > common.mhl then Err(DecapError)
    else
      var ext :- DecodeExtended(kind, Drop(p, 12));
      Ok(Packet(basic, common, ext, Drop(p, 40 + TailLength(kind))))
  }

  function EncodePacket(p: Packet): Result<seq<Byte>> {
    var ext :- EncodeExtended(p.extended);
    Ok(EncodeBasic(p.basic) + EncodeCommon(p.common) + ext + p.payload)
  }

  /** What a forwarder of the packet sends: the headers encoded again with RHL - 1. */
  function Forwarded(kind: Kind, p: seq<Byte>): Result<seq<Byte>> {
    var packet :- DecodePacket(kind, p);
    EncodePacket(packet.(basic := SetRhl(packet.basic, packet.basic.rhl - 1)))
  }

  lemma BasicPrefix(p: seq<Byte>)
    requires |p| >= 4
    ensures DecodeBasic(p) == DecodeBasic(p[..4])
  {
    assert p[..4][..4] == p[..4];
  }

  lemma CommonPrefix(p: seq<Byte>)
    requires |p| >= 8
    ensures DecodeCommon(p) == DecodeCommon(p[..8])
  {
    assert p[..8][..8] == p[..8];
  }

  lemma ExtendedPrefix(kind: Kind, p: seq<Byte>, n: nat)
    requires n == 28 + TailLength(kind) <= |p|
    ensures DecodeExtended(kind, p) == DecodeExtended(kind, p[..n])
  {
    assert p[..n][4..28] == p[4..28] && p[..n][28..n] == p[28..n];
    assert p[..n][0..2] == p[0..2] && p[..n][2..4] == p[2..4];
  }

  lemma DecodedParts(kind: Kind, p: seq<Byte>)
    requires DecodePacket(kind, p).Ok?
    ensures |p| >= 40 + TailLength(kind)
    ensures DecodeBasic(p[..4]) == Ok(DecodePacket(kind, p).value.basic)
    ensures DecodeCommon(p[4..12]) == Ok(DecodePacket(kind, p).value.common)
    ensures DecodeExtended(kind, p[12..40 + TailLength(kind)]) == Ok(DecodePacket(kind, p).value.extended)
    ensures p[40 + TailLength(kind)..] == DecodePacket(kind, p).value.payload
  {
    hide DecodeBasic, DecodeCommon, DecodeExtended;
    BasicPrefix(p);
    CommonPrefix(p[4..]);
    ExtendedPrefix(kind, p[12..], 28 + TailLength(kind));
    assert p[4..][..8] == p[4..12];
    assert p[12..][..28 + TailLength(kind)] == p[12..40 + TailLength(kind)];
  }

  /** The received octets a forwarder repeats as they are, all but octet 3. */
  predicate PacketPreserved(kind: Kind, p: seq<Byte>)
    requires |p| >= 40 + TailLength(kind)
  {
    CommonPreserved(p[4..12]) && ExtendedPreserved(kind, p[12..40 + TailLength(kind)])
  }

  /** Four parts against a string with octet 3 replaced. */
  lemma FourPartsAgainst(a: seq<Byte>, b: seq<Byte>, c: seq<Byte>, d: seq<Byte>, p: seq<Byte>, v: Byte)
    requires |a| == 4 && |b| == 8 && |p| == 12 + |c| + |d|
    requires a == p[..4][3 := v] && d == p[12 + |c|..]
    ensures a + b + c + d == p[3 := v] <==> b == p[4..12] && c == p[12..12 + |c|]
  {
    var want := p[3 := v];
    assert want[..4] == a;
    assert want[4..12] == p[4..12] && want[12..12 + |c|] == p[12..12 + |c|] && want[12 + |c|..] == d;
    FourParts(a, b, c, d, want);
  }

  /** The forwarder's octets are the received ones with octet 3 lowered by one. */
  predicate OnlyRhlChanges(kind: Kind, p: seq<Byte>)
    requires |p| >= 4
  {
    p[3] >= 1 && Forwarded(kind, p) == Ok(p[3 := p[3] - 1])
  }

  /** A forwarder changes octet 3 and nothing else exactly when the received packet has no
      flag bit but bit 7, no reserved bit of octet 11 missing from octet 4, and zero padding
      in its addresses.  Payload and every other field are repeated for all packets. */
  lemma ForwardingTransparent(kind: Kind, p: seq<Byte>)
    requires DecodePacket(kind, p).Ok? && p[3] >= 1
    ensures |p| >= 40 + TailLength(kind) && Forwarded(kind, p).Ok?
    ensures OnlyRhlChanges(kind, p) <==> PacketPreserved(kind, p)
  {
    hide DecodeBasic, DecodeCommon, EncodeBasic, EncodeCommon, DecodeExtended, EncodeExtended;
    DecodedParts(kind, p);
    var n := 40 + TailLength(kind);
    var q := DecodePacket(kind, p).value;
    BasicRewrite(p[..4], p[3] - 1);
    CommonRewrite(p[4..12]);
    ExtendedRewrite(kind, p[12..n]);
    FourPartsAgainst(EncodeBasic(SetRhl(q.basic, q.basic.rhl - 1)), EncodeCommon(q.common),
                     EncodeExtended(q.extended).value, q.payload, p, p[3] - 1);
  }

  // ---------------------------------------------------------------- packets this stack sends

  lemma SourceCommonReread(h: CommonHeader)
    requires h.reserved == 0
    ensures CommonFromFields(CommonFields(h)) == Ok(h.(flags := h.flags / 128 * 128))
    ensures CommonFields(h)[6] == Field(8, h.flags)
  {
    hide Or;
    OrZero(16 * h.nh);
  }

  /** Sources leave the reserved bits zero; then only the flags can fail to survive. */
  lemma SourceCommonDecoded(h: CommonHeader)
    requires h.reserved == 0
    ensures DecodeCommon(EncodeCommon(h)) == Ok(h.(flags := h.flags / 128 * 128))
    ensures EncodeCommon(h)[3] == h.flags
  {
    hide Unpack, Pack, FromBytes, ToBytes, Widths, TotalWidth, CommonFromFields, CommonFields;
    CommonEncoded(h);
    CommonLayoutInRange(CommonFields(h));
    HeaderRoundTrip(CommonFields(h), 8);
    assert EncodeCommon(h)[..8] == EncodeCommon(h);
    CommonOctet(EncodeCommon(h), 6, 3);
    SourceCommonReread(h);
  }

  lemma SourceCommonPreserved(h: CommonHeader)
    requires h.reserved == 0
    ensures CommonPreserved(EncodeCommon(h)) <==> h.flags % 128 == 0
  {
    hide EncodeCommon, DecodeCommon;
    SourceCommonDecoded(h);
    if h.flags % 128 == 0 {
      CommonRewrite(EncodeCommon(h));
    }
  }

  /** A received source packet decodes to what was sent, flags apart. */
  lemma SourceDecoded(q: Packet, p: seq<Byte>)
    requires EncodePacket(q) == Ok(p) && q.common.reserved == 0 && q.basic.rhl <= q.common.mhl
    ensures |p| == 40 + TailLength(KindOf(q.extended.tail)) + |q.payload|
    ensures p[3] == q.basic.rhl && p[4..12] == EncodeCommon(q.common)
    ensures Ok(p[12..40 + TailLength(KindOf(q.extended.tail))]) == EncodeExtended(q.extended)
    ensures DecodePacket(KindOf(q.extended.tail), p)
            == Ok(q.(common := q.common.(flags := q.common.flags / 128 * 128)))
  {
    hide DecodeBasic, DecodeCommon, EncodeBasic, EncodeCommon, DecodeExtended, EncodeExtended;
    var kind := KindOf(q.extended.tail);
    var n := 40 + TailLength(kind);
    var a, b, c := EncodeBasic(q.basic), EncodeCommon(q.common), EncodeExtended(q.extended).value;
    assert p == a + b + c + q.payload;
    assert p[..4] == a && p[4..12] == b && p[12..n] == c && p[n..] == q.payload;
    assert p[4..][..8] == b && p[12..][..n - 12] == c;
    BasicPrefix(p);
    CommonPrefix(p[4..]);
    ExtendedPrefix(kind, p[12..], n - 12);
    BasicRoundTrip(q.basic);
    BasicRewrite(a, q.basic.rhl);
    SourceCommonDecoded(q.common);
    ExtendedRoundTrip(q.extended);
  }

  /** A packet built by this stack is repeated byte for byte, RHL apart, exactly when its
      flags octet uses nothing but bit 7. */
  lemma SourceForwarding(q: Packet, p: seq<Byte>)
    requires EncodePacket(q) == Ok(p) && q.common.reserved == 0 && 1 <= q.basic.rhl <= q.common.mhl
    ensures |p| >= 40
    ensures OnlyRhlChanges(KindOf(q.extended.tail), p) <==> q.common.flags % 128 == 0
  {
    hide DecodeBasic, DecodeCommon, EncodeBasic, EncodeCommon, DecodeExtended, EncodeExtended, Forwarded;
    hide CommonPreserved, ExtendedPreserved;
    var kind := KindOf(q.extended.tail);
    SourceDecoded(q, p);
    ForwardingTransparent(kind, p);
    SourceCommonPreserved(q.common);
    ExtendedRoundTrip(q.extended);
    ExtendedRewrite(kind, EncodeExtended(q.extended).value);
  }

  /** The Common Header of _send_ls_request_packet: the mobility bit is not shifted to bit 7. */
  function LsRequestCommon(isMobile: U1, hopLimit: Byte): CommonHeader {
    CommonHeader(0, 0, LsRequest, TrafficClass(false, false, 0), isMobile, 0, hopLimit)
  }

  /** The Common Header of initialize_with_request for a GBC request. */
  function GbcRequestCommon(nh: U2, shape: Shape, tc: TrafficClass, isMobile: U1, pl: U16, hopLimit: Byte): CommonHeader {
    CommonHeader(nh, 0, GeoBroadcast(shape), tc, 128 * isMobile, pl, hopLimit)
  }

  /** Forwarders repeat an LS Request of a stationary station unchanged but clear the
      mobility flag of every LS Request of a mobile one. */
  lemma LsRequestForwarding(isMobile: U1, lt: LT, hopLimit: Byte, ext: ExtendedHeader, p: seq<Byte>)
    requires ext.tail.AddressTail? && 1 <= hopLimit
    requires EncodePacket(Packet(BasicHeader(1, CommonNext, 0, lt, hopLimit), LsRequestCommon(isMobile, hopLimit), ext, []))
             == Ok(p)
    ensures |p| >= 40
    ensures OnlyRhlChanges(LsKind, p) <==> isMobile == 0
  {
    hide EncodePacket, OnlyRhlChanges;
    SourceForwarding(Packet(BasicHeader(1, CommonNext, 0, lt, hopLimit), LsRequestCommon(isMobile, hopLimit), ext, []), p);
  }

  /** GBC packets of this stack are always repeated unchanged. */
  lemma GbcTransparent(q: Packet, p: seq<Byte>, nh: U2, shape: Shape, tc: TrafficClass, isMobile: U1, pl: U16, hopLimit: Byte)
    requires q.extended.tail.AreaTail? && 1 <= hopLimit && q.basic.rhl == hopLimit
    requires q.common == GbcRequestCommon(nh, shape, tc, isMobile, pl, hopLimit)
    requires EncodePacket(q) == Ok(p)
    ensures |p| >= 40 && OnlyRhlChanges(GbcKind, p)
  {
    hide EncodePacket, OnlyRhlChanges;
    SourceForwarding(q, p);
  }

  // ---------------------------------------------------------------- the octets of a packet

  function AddressImage(a: GNAddress): seq<Byte> {
    [128 * a.m + 4 * a.st, 0] + ToBytes(a.mid, 6)
  }

  function LpvImage(pv: LongPositionVector): seq<Byte>
    requires pv.latitude >= 0 && pv.longitude >= 0
  {
    AddressImage(pv.gnAddr) + ToBytes(pv.tst, 4) + ToBytes(pv.latitude, 4) + ToBytes(pv.longitude, 4)
    + ToBytes((if pv.pai then 0x8000 else 0) + pv.s, 2) + ToBytes(pv.h, 2)
  }

  function FixedImage(basic: BasicHeader, common: CommonHeader): seq<Byte> {
    var nh := match basic.nh case AnyNext => 0 case CommonNext => 1 case SecuredNext => 2;
    var scf, offload := if common.tc.scf then 128 else 0, if common.tc.channelOffload then 64 else 0;
    [16 * basic.version + nh, basic.reserved, 4 * basic.lt.multiplier + basic.lt.base, basic.rhl]
    + [16 * common.nh, TransportOctet(common.transport), scf + offload + common.tc.tcId, common.flags]
    + ToBytes(common.pl, 2) + [common.mhl, 0]
  }

  function TailImage(t: Tail): seq<Byte>
    requires t.AreaTail? ==> t.latitude >= 0 && t.longitude >= 0
  {
    match t
    case NoTail => []
    case AreaTail(latitude, longitude, a, b, angle, reserved2) =>
      ToBytes(latitude, 4) + ToBytes(longitude, 4) + ToBytes(a, 2) + ToBytes(b, 2) + ToBytes(angle, 2) + ToBytes(reserved2, 2)
    case AddressTail(address) => AddressImage(address)
  }

  /** The place of every field, as in clause 9 of EN 302 636-4-1. */
  function Image(q: Packet): seq<Byte>
    requires q.extended.soPv.latitude >= 0 && q.extended.soPv.longitude >= 0
    requires q.extended.tail.AreaTail? ==> q.extended.tail.latitude >= 0 && q.extended.tail.longitude >= 0
  {
    FixedImage(q.basic, q.common)
    + ToBytes(q.extended.sn, 2) + ToBytes(q.extended.reserved, 2) + LpvImage(q.extended.soPv)
    + TailImage(q.extended.tail)
    + q.payload
  }

  lemma FixedPlaces(basic: BasicHeader, common: CommonHeader)
    requires common.reserved == 0
    ensures EncodeBasic(basic) + EncodeCommon(common) == FixedImage(basic, common)
  {
    hide EncodeBasic, EncodeCommon, ToBytes, CommonOctet0;
    BasicPlaces(basic);
    CommonPlaces(common);
  }

  lemma LpvAt(pv: LongPositionVector)
    requires pv.latitude >= 0 && pv.longitude >= 0
    ensures EncodeLpv(pv) == Ok(LpvImage(pv))
  {
    hide EncodeLpv, ToBytes, EncodeAddress;
    LpvPlaces(pv);
    AddressPlaces(pv.gnAddr);
  }

  /** A TSB, GBC or LS Request packet with no reserved bits set is encoded with every field in its
      place; with a negative coordinate it is not encoded at all. */
  lemma PacketPlaces(q: Packet)
    requires q.common.reserved == 0
    ensures EncodePacket(q).Ok? <==>
            && q.extended.soPv.latitude >= 0 && q.extended.soPv.longitude >= 0
            && (q.extended.tail.AreaTail? ==> q.extended.tail.latitude >= 0 && q.extended.tail.longitude >= 0)
    ensures EncodePacket(q).Ok? ==> EncodePacket(q) == Ok(Image(q))
  {
    hide EncodeBasic, EncodeCommon, EncodeLpv, EncodeTail, ToBytes, FixedImage, LpvImage, TailImage;
    LpvRoundTrip(q.extended.soPv);
    TailAt(q.extended.tail);
    if EncodePacket(q).Ok? {
      FixedPlaces(q.basic, q.common);
      LpvAt(q.extended.soPv);
      var pv := LpvImage(q.extended.soPv);
      Joined(EncodeBasic(q.basic), EncodeCommon(q.common), ToBytes(q.extended.sn, 2), ToBytes(q.extended.reserved, 2),
             pv, EncodeTail(q.extended.tail).value, q.payload);
    }
  }

  lemma TailAt(t: Tail)
    ensures EncodeTail(t).Ok? <==> (t.AreaTail? ==> t.latitude >= 0 && t.longitude >= 0)
    ensures EncodeTail(t).Ok? ==> EncodeTail(t).value == TailImage(t)
  {
    hide ToBytes, EncodeAddress;
    if t.AddressTail? {
      AddressPlaces(t.requestAddr);
    }
  }

  lemma Joined(a: seq<Byte>, b: seq<Byte>, c: seq<Byte>, d: seq<Byte>, e: seq<Byte>, f: seq<Byte>, g: seq<Byte>)
    ensures a + b + (c + d + e + f) + g == (a + b) + c + d + e + f + g
  {
  }

  // ---------------------------------------------------------------- which octets are a packet

  /** A received packet decodes exactly if it is long enough, its next headers, header type and station
      types exist, and its hop limit does not exceed the maximum it carries. */
  lemma DecodesExactly(kind: Kind, p: seq<Byte>)
    ensures DecodePacket(kind, p).Ok? <==>
            && |p| >= 40 + TailLength(kind) && p[0] % 16 <= 2 && p[3] <= p[10]
            && p[4] < 64 && (exists t: TransportType :: TransportOctet(t) == p[5])
            && p[16] / 4 % 32 < 13 && (kind == LsKind ==> p[40] / 4 % 32 < 13)
  {
    hide DecodeBasic, DecodeCommon, DecodeLpv, DecodeTail, TransportOctet;
    BasicDecodesExactly(p);
    CommonDecodesExactly(Drop(p, 4));
    if |p| >= 40 + TailLength(kind) {
      var ext := Drop(p, 12);
      LpvDecodesExactly(ext[4..28]);
      TailDecodesExactly(kind, ext[28..28 + TailLength(kind)]);
    }
  }

  lemma TailDecodesExactly(kind: Kind, data: seq<Byte>)
    requires |data| == TailLength(kind)
    ensures DecodeTail(kind, data).Ok? <==> (kind == LsKind ==> data[0] / 4 % 32 < 13)
  {
    if kind == LsKind {
      AddressDecodesExactly(data);
    }
  }
}
