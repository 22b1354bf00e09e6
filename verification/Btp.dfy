/** The basic transport protocol (EN 302 636-5-1 V2.1.0) over single-hop broadcast, with security
    off: what a receiver's application is handed of what a sender's application asked to send. */
module BasicTransport {
  import opened Bits
  import opened Outcomes
  import opened Headers
  import opened Packets

  datatype BtpType = BtpA | BtpB

  /** The second port field is the source port of BTP-A and the port info of BTP-B. */
  datatype BtpHeader = BtpHeader(destinationPort: U16, second: U16)

  datatype BtpRequest = BtpRequest(btpType: BtpType, header: BtpHeader, data: seq<Byte>)

  datatype BtpIndication = BtpIndication(
    btpType: BtpType, header: BtpHeader, sourcePv: LongPositionVector, tc: TrafficClass, data: seq<Byte>)

  function NextHeader(t: BtpType): U2 {
    match t
    case BtpA => 1
    case BtpB => 2
  }

  // ---------------------------------------------------------------- BTP header

  function BtpFields(h: BtpHeader): seq<Field> {
    [Field(16, h.destinationPort), Field(16, h.second)]
  }

  function EncodeBtp(h: BtpHeader): (r: seq<Byte>)
    ensures |r| == 4
  {
    ToBytes(Pack(BtpFields(h)), 4)
  }

  /** Python slices and int.from_bytes take whatever octets are there. */
  function DecodeBtp(data: seq<Byte>): BtpHeader {
    BtpHeader(ShortNumber(Taken(data, 2)), ShortNumber(Taken(Drop(data, 2), 2)))
  }

  function Taken(data: seq<Byte>, n: nat): (r: seq<Byte>)
    ensures |r| <= n
  {
    if |data| <= n then data else data[..n]
  }

  function ShortNumber(data: seq<Byte>): U16
    requires |data| <= 2
  {
    ShortIsSmall(data);
    FromBytes(data)
  }

  lemma ShortIsSmall(data: seq<Byte>)
    requires |data| <= 2
    ensures FromBytes(data) < 0x1_0000
  {
  }

  lemma PortLayout(h: BtpHeader)
    ensures InRange(BtpFields(h)) && Widths(BtpFields(h)) == [16, 16] && TotalWidth([16, 16]) == 32
  {
    Pow2Values();
    WidthsPointwise(BtpFields(h));
    assert [16, 16][1..] == [16] && TotalWidth([16]) == 16;
    assert Widths(BtpFields(h)) == [16, 16];
  }

  lemma PackedPorts(h: BtpHeader)
    ensures Pack(BtpFields(h)) == h.destinationPort * 0x1_0000 + h.second
    ensures InRange(BtpFields(h)) && Widths(BtpFields(h)) == [16, 16] && TotalWidth([16, 16]) == 32
  {
    hide Or, InRange;
    PortLayout(h);
    Pow2Values();
    var low := [Field(16, h.second)];
    assert BtpFields(h)[1..] == low && low[1..] == [];
    assert Widths(low) == [16] && TotalWidth([16]) == 16;
    PackIsSum(low);
    PackIsSum(BtpFields(h));
    ShlIsProduct(h.destinationPort, 16);
  }

  lemma HeaderNumber(h: BtpHeader)
    ensures FromBytes(EncodeBtp(h)) == h.destinationPort * 0x1_0000 + h.second
  {
    hide Pack, ToBytes, FromBytes;
    PackedPorts(h);
    PackIsSum(BtpFields(h));
    Pow2Values();
    FromToBytes(Pack(BtpFields(h)), 4);
  }

  lemma Halves(h: BtpHeader)
    ensures FromBytes(EncodeBtp(h)[..2]) == h.destinationPort && FromBytes(EncodeBtp(h)[2..]) == h.second
  {
    hide EncodeBtp, FromBytes;
    var octets := EncodeBtp(h);
    var front, back := octets[..2], octets[2..];
    HeaderNumber(h);
    assert octets == front + back;
    CutBytes(front, back);
    Pow2Values();
    ShortIsSmall(back);
    HalvesUnique(FromBytes(front), FromBytes(back), h.destinationPort, h.second);
  }

  /** The two halves of the header octets are the two port fields. */
  lemma BtpRoundTrip(h: BtpHeader, data: seq<Byte>)
    ensures DecodeBtp(EncodeBtp(h) + data) == h
  {
    hide EncodeBtp, FromBytes;
    Halves(h);
    var octets := EncodeBtp(h);
    assert Taken(octets + data, 2) == octets[..2];
    assert Taken(Drop(octets + data, 2), 2) == octets[2..];
  }

  lemma HalvesUnique(a: nat, b: nat, c: nat, d: nat)
    requires b < 0x1_0000 && d < 0x1_0000 && a * 0x1_0000 + b == c * 0x1_0000 + d
    ensures a == c && b == d
  {
  }

  // ---------------------------------------------------------------- sending

  /** btp_data_request and gn_data_request_shb: the packet for the link layer.  lt comes from the
      requested lifetime or the MIB. */
  function SendShb(q: BtpRequest, lt: LT, tc: TrafficClass, isMobile: U1, ego: LongPositionVector): Result<seq<Byte>>
    requires |q.data| + 4 < 0x1_0000
  {
    var data := EncodeBtp(q.header) + q.data;
    var lpv :- EncodeLpv(ego);
    Ok(EncodeBasic(ShbBasic(lt)) + EncodeCommon(ShbCommon(q.btpType, tc, isMobile, |data|)) + lpv + [0, 0, 0, 0] + data)
  }

  function ShbBasic(lt: LT): BasicHeader {
    BasicHeader(1, CommonNext, 0, lt, 1)
  }

  function ShbCommon(t: BtpType, tc: TrafficClass, isMobile: U1, pl: U16): CommonHeader {
    CommonHeader(NextHeader(t), 0, SingleHop, tc, 128 * isMobile, pl, 1)
  }

  // ---------------------------------------------------------------- receiving

  datatype GnIndication = GnIndication(
    nh: U2, sourcePv: LongPositionVector, tc: TrafficClass, lt: LT, rhl: Byte, data: seq<Byte>)

  /** gn_data_indicate of a station with an unsecured router, as far as single-hop packets go:
      other transports and secured packets give no indication here. */
  function GnDataIndicate(p: seq<Byte>, version: U4, localMid: U48): Result<Option<GnIndication>> {
    var basic :- DecodeBasic(p);
    if basic.version != version || basic.nh == AnyNext then Err(NotImplemented)
    else if basic.nh == SecuredNext then Ok(None)
    else
      var common :- DecodeCommon(Drop(p, 4));
      if basic.rhl > common.mhl then Err(DecapError)
      else if common.transport != SingleHop then Ok(None)
      else IndicateShb(Drop(p, 12), common, basic, localMid)
  }

  /** gn_data_indicate_shb; only a DecodeError is caught. */
  function IndicateShb(p: seq<Byte>, common: CommonHeader, basic: BasicHeader, localMid: U48): Result<Option<GnIndication>> {
    match DecodeLpv(p)
    case Err(e) => if e == DecodeError then Ok(None) else Err(e)
    case Ok(pv) =>
      if pv.gnAddr.mid == localMid then Ok(None)
      else Ok(Some(GnIndication(common.nh, pv, common.tc, basic.lt, basic.rhl, Drop(Drop(p, 24), 4))))
  }

  /** btp_data_indication up to the callback. */
  function BtpIndicationOf(g: GnIndication): Result<BtpIndication> {
    if g.nh == 2 then Ok(BtpIndication(BtpB, DecodeBtp(g.data), g.sourcePv, g.tc, Drop(g.data, 4)))
    else if g.nh == 1 then Ok(BtpIndication(BtpA, DecodeBtp(g.data), g.sourcePv, g.tc, Drop(g.data, 4)))
    else Err(ValueError)
  }

  class BtpRouter {
    var preIndicationCallbacks: map<U16, nat>              // a number for each application's callback
    var indicationCallbacks: Option<map<U16, nat>>
    var delivered: seq<(nat, BtpIndication)>               // callbacks made

    constructor ()
      ensures preIndicationCallbacks == map[] && indicationCallbacks == None && delivered == []
    {
      preIndicationCallbacks, indicationCallbacks, delivered := map[], None, [];
    }

    method RegisterIndicationCallbackBtp(port: U16, callback: nat) returns (r: Result<()>)
      modifies this`preIndicationCallbacks
      ensures r == if indicationCallbacks.Some? then Err(RuntimeFailure) else Ok(())
      ensures preIndicationCallbacks == if r.Ok? then old(preIndicationCallbacks)[port := callback] else old(preIndicationCallbacks)
    {
      if indicationCallbacks.Some? {
        return Err(RuntimeFailure);
      }
      preIndicationCallbacks := preIndicationCallbacks[port := callback];
      r := Ok(());
    }

    method FreezeCallbacks()
      modifies this`indicationCallbacks
      ensures indicationCallbacks == Some(preIndicationCallbacks)
    {
      indicationCallbacks := Some(preIndicationCallbacks);
    }

    method BtpDataIndication(g: GnIndication) returns (r: Result<()>)
      modifies this`delivered
      ensures r == (if BtpIndicationOf(g).Err? then Err(ValueError)
                    else if indicationCallbacks.None? then Err(RuntimeFailure) else Ok(()))
      ensures delivered == old(delivered) +
                           if r.Ok? && BtpIndicationOf(g).value.header.destinationPort in indicationCallbacks.value
                           then [(indicationCallbacks.value[BtpIndicationOf(g).value.header.destinationPort], BtpIndicationOf(g).value)]
                           else []
    {
      hide DecodeBtp;
      if g.nh != 2 && g.nh != 1 {
        return Err(ValueError);
      }
      var t := if g.nh == 2 then BtpB else BtpA;
      var header := DecodeBtp(g.data);
      var indication := BtpIndication(t, header, g.sourcePv, g.tc, Drop(g.data, 4));
      if indicationCallbacks.None? {
        return Err(RuntimeFailure);
      }
      if header.destinationPort in indicationCallbacks.value {
        delivered := delivered + [(indicationCallbacks.value[header.destinationPort], indication)];
      }
      r := Ok(());
    }
  }

  // ---------------------------------------------------------------- end to end

  /** The parts of a single-hop packet, found again by slicing. */
  lemma Parts(a: seq<Byte>, b: seq<Byte>, c: seq<Byte>, d: seq<Byte>, e: seq<Byte>)
    requires |a| == 4 && |b| == 8 && |c| == 24 && |d| == 4
    ensures var p := a + b + c + d + e;
            p[..4] == a && Drop(p, 4)[..8] == b && Drop(p, 12)[..24] == c && Drop(Drop(Drop(p, 12), 24), 4) == e
            && |Drop(p, 4)| >= 8 && |Drop(p, 12)| >= 24
  {
  }

  lemma LpvPrefix(p: seq<Byte>)
    requires |p| >= 24
    ensures DecodeLpv(p) == DecodeLpv(p[..24])
  {
    assert p[..24][..24] == p[..24];
  }

  /** A request is sent exactly when the sender's position lies north and east of the origin; a
      station that receives the packet indicates it exactly if it runs protocol version 1 and has
      another MID; then its application gets the ports, the traffic class, the sender's position
      and the payload that were sent. */
  lemma EndToEnd(q: BtpRequest, lt: LT, tc: TrafficClass, isMobile: U1, ego: LongPositionVector, version: U4, localMid: U48)
    requires |q.data| + 4 < 0x1_0000
    ensures SendShb(q, lt, tc, isMobile, ego).Ok? <==> ego.latitude >= 0 && ego.longitude >= 0
    ensures SendShb(q, lt, tc, isMobile, ego).Ok? ==>
              var r := GnDataIndicate(SendShb(q, lt, tc, isMobile, ego).value, version, localMid);
              if version != 1 then r == Err(NotImplemented)
              else if ego.gnAddr.mid == localMid then r == Ok(None)
              else r.Ok? && r.value.Some?
                   && BtpIndicationOf(r.value.value) == Ok(BtpIndication(q.btpType, q.header, ego, tc, q.data))
  {
    hide DecodeBasic, DecodeCommon, EncodeBasic, EncodeCommon, EncodeLpv, DecodeLpv, EncodeBtp, DecodeBtp, Drop;
    LpvRoundTrip(ego);
    if ego.latitude >= 0 && ego.longitude >= 0 {
      var data := EncodeBtp(q.header) + q.data;
      var basic, common, lpv := EncodeBasic(ShbBasic(lt)), EncodeCommon(ShbCommon(q.btpType, tc, isMobile, |data|)), EncodeLpv(ego).value;
      var p := basic + common + lpv + [0, 0, 0, 0] + data;
      Parts(basic, common, lpv, [0, 0, 0, 0], data);
      BasicRoundTrip(ShbBasic(lt));
      SourceCommonDecoded(ShbCommon(q.btpType, tc, isMobile, |data|));
      BasicPrefix(p);
      CommonPrefix(Drop(p, 4));
      LpvPrefix(Drop(p, 12));
      BtpRoundTrip(q.header, q.data);
      DataAfterHeader(q.header, q.data);
    }
  }

  lemma DataAfterHeader(h: BtpHeader, data: seq<Byte>)
    ensures Drop(EncodeBtp(h) + data, 4) == data
  {
  }

  /** The octets of the packet on the link: version 1, one hop, a single-hop broadcast with its payload
      length, the sender's position vector, four octets left free, the ports, the data. */
  lemma ShbPlaces(q: BtpRequest, lt: LT, tc: TrafficClass, isMobile: U1, ego: LongPositionVector)
    requires |q.data| + 4 < 0x1_0000 && ego.latitude >= 0 && ego.longitude >= 0
    ensures var nh, scf, offload := if q.btpType == BtpA then 1 else 2, if tc.scf then 128 else 0, if tc.channelOffload then 64 else 0;
            SendShb(q, lt, tc, isMobile, ego) ==
            Ok([0x11, 0, 4 * lt.multiplier + lt.base, 1]
               + [16 * nh, 0x50, scf + offload + tc.tcId, 128 * isMobile] + ToBytes(|q.data| + 4, 2) + [1, 0]
               + LpvImage(ego) + [0, 0, 0, 0]
               + ToBytes(q.header.destinationPort, 2) + ToBytes(q.header.second, 2) + q.data)
  {
    hide EncodeBasic, EncodeCommon, EncodeLpv, EncodeBtp, ToBytes, LpvImage;
    var basic, common := ShbBasic(lt), ShbCommon(q.btpType, tc, isMobile, |q.data| + 4);
    var nh, scf, offload := if q.btpType == BtpA then 1 else 2, if tc.scf then 128 else 0, if tc.channelOffload then 64 else 0;
    FixedPlaces(basic, common);
    LpvAt(ego);
    PortPlaces(q.header);
    assert |EncodeBtp(q.header) + q.data| == |q.data| + 4;
    var fixed := [0x11, 0, 4 * lt.multiplier + lt.base, 1] + [16 * nh, 0x50, scf + offload + tc.tcId, 128 * isMobile]
                 + ToBytes(|q.data| + 4, 2) + [1, 0];
    assert FixedImage(basic, common) == fixed;
    Joined(fixed, LpvImage(ego), [0, 0, 0, 0], ToBytes(q.header.destinationPort, 2), ToBytes(q.header.second, 2), q.data);
  }

  lemma Joined(a: seq<Byte>, b: seq<Byte>, c: seq<Byte>, d: seq<Byte>, e: seq<Byte>, f: seq<Byte>)
    ensures a + b + c + (d + e + f) == a + b + c + d + e + f
  {
  }

  lemma PortPlaces(h: BtpHeader)
    ensures EncodeBtp(h) == ToBytes(h.destinationPort, 2) + ToBytes(h.second, 2)
  {
    hide Pow2, Pack, ToBytes, InRange, Widths, TotalWidth;
    Pow2Values();
    WholeField(2, h.destinationPort);
    WholeField(2, h.second);
    OctetsConcat([Field(16, h.destinationPort)], [Field(16, h.second)], 2, 2);
    assert [Field(16, h.destinationPort)] + [Field(16, h.second)] == BtpFields(h);
  }

  /** Of all octets received, exactly the single-hop packets of this version that decode, have a hop left
      within their maximum and come from another station give an indication. */
  lemma IndicatesExactly(p: seq<Byte>, version: U4, localMid: U48)
    ensures var r := GnDataIndicate(p, version, localMid);
            r.Ok? && r.value.Some? <==>
              && |p| >= 36 && p[0] == 16 * version + 1 && p[3] <= p[10] && p[4] < 64 && p[5] == 0x50
              && p[12] / 4 % 32 < 13 && FromBytes(p[14..20]) != localMid
  {
    hide DecodeBasic, DecodeCommon, DecodeLpv, FromBytes;
    BasicDecodesExactly(p);
    CommonDecodesExactly(Drop(p, 4));
    LpvDecodesExactly(Drop(p, 12));
    assert TransportOctet(SingleHop) == 0x50;
    if |p| >= 36 {
      assert Drop(p, 12)[2..8] == p[14..20];
    }
  }
}
