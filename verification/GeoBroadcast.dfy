/** GeoBroadcast and GeoAnycast packets at one station: duplicate detection, delivery and the
    choice of forwarding (router.py, gn_data_indicate_gbc, gn_data_forward_gbc and
    gn_data_indicate_gac), and what duplicate detection leaves of contention-based forwarding. */
module GeoBroadcasts {
  import opened Outcomes
  import opened Headers
  import opened Packets
  import opened LocationTables
  import opened Stations
  import opened Contention

  type Metres = r: real | r >= 0.0

  /** What the geometry says about a packet's area, the station and its neighbours. */
  datatype Geometry = Geometry(
    egoPai: bool,                                // the station's own position is accurate
    egoInside: bool,                             // F at the station >= 0
    areaTooLarge: bool,                          // area above itsGnMaxGeoAreaSize
    progress: bool,                              // a neighbour is closer to the area than the station
    inside: LongPositionVector -> bool,          // F at a position >= 0
    distance: LongPositionVector -> Metres)      // from a position to the station

  /** What becomes of a packet that is not a duplicate. */
  datatype Forwarding = Nothing | SendNow(packet: Packet) | Contend(packet: Packet, dist: Option<Metres>)

  predicate IsGeo(q: Packet) {
    q.extended.tail.AreaTail?
  }

  function OneHopLess(q: Packet): Packet {
    q.(basic := SetRhl(q.basic, q.basic.rhl - 1))
  }

  /** gn_greedy_forwarding: at a local optimum only store-carry-forward packets are held back. */
  predicate Greedy(g: Geometry, q: Packet) {
    g.progress || !q.common.tc.scf
  }

  /** Annex D: the source was inside the area, so a station outside must not take the packet out. */
  predicate SourceInside(table: Table, q: Packet, g: Geometry) {
    SourceOf(q) in table && table[SourceOf(q)].pv.pai && g.inside(table[SourceOf(q)].pv)
  }

  function SenderDistance(table: Table, q: Packet, g: Geometry): Option<Metres> {
    if SourceOf(q) in table && table[SourceOf(q)].pv.pai && g.egoPai then Some(g.distance(table[SourceOf(q)].pv)) else None
  }

  /** gn_data_forward_gbc; without neighbours a store-carry-forward packet is sent at once. */
  function ForwardGbc(table: Table, q: Packet, g: Geometry, contention: bool): Forwarding {
    var f := OneHopLess(q);
    if !HasNeighbour(table) && q.common.tc.scf then SendNow(f)
    else if g.egoInside then
      if contention then Contend(f, SenderDistance(table, q, g)) else SendNow(f)
    else if SourceInside(table, q, g) then Nothing
    else if Greedy(g, q) then SendNow(f) else Nothing
  }

  function GbcForwarding(table: Table, q: Packet, g: Geometry, mib: Mib, contention: bool): Forwarding {
    if g.areaTooLarge || TooFast(table, SourceOf(q), mib) || q.basic.rhl - 1 <= 0 then Nothing
    else ForwardGbc(table, q, g, contention)
  }

  /** gn_data_indicate_gac from step 9 on, at a station outside the area. */
  function GacForwarding(table: Table, q: Packet, g: Geometry, mib: Mib): Forwarding {
    if g.egoInside || g.areaTooLarge || TooFast(table, SourceOf(q), mib) || SourceInside(table, q, g) then Nothing
    else if q.basic.rhl - 1 == 0 || (!HasNeighbour(table) && q.common.tc.scf) || !Greedy(g, q) then Nothing
    else SendNow(OneHopLess(q))
  }

  /** The table after the packet, None when it is the station's own or a duplicate. */
  function GeoHeard(s: Station, q: Packet, geoBroadcast: bool, now: U32): Option<Table>
    requires s.mib.Valid()
  {
    if SourceOf(q) == s.mib.localMid then None
    else AfterMultiHop(s.table, q.extended.sn, q.extended.soPv, |q.payload| + 12, geoBroadcast, s.mib, now)
  }

  function SentAtOnce(f: Forwarding): seq<Packet> {
    if f.SendNow? then [f.packet] else []
  }

  function Contended(c: Cbf, f: Forwarding, forwarder: CbfForwarder): Cbf {
    if f.Contend? then Offered(c, f.packet, WaitFor(f.dist, forwarder)) else c
  }

  function WaitFor(dist: Option<Metres>, forwarder: CbfForwarder): real {
    if dist.Some? then TimeoutMs(dist.value, forwarder.distMax, forwarder.toMin, forwarder.toMax) else forwarder.toMax
  }

  class GeoRouter {
    const router: Router
    const forwarder: CbfForwarder
    const contention: bool             // itsGnAreaForwardingAlgorithm is CBF

    constructor (router: Router, forwarder: CbfForwarder, contention: bool)
      ensures this.router == router && this.forwarder == forwarder && this.contention == contention
    {
      this.router, this.forwarder, this.contention := router, forwarder, contention;
    }

    method Receive(q: Packet, geoBroadcast: bool, now: U32) returns (accepted: bool)
      requires router.Valid()
      modifies router.locationTable, router.locationTable.locT.Values
      ensures router.Valid()
      ensures accepted <==> GeoHeard(old(router.View()), q, geoBroadcast, now).Some?
      ensures router.View() == if accepted then old(router.View()).(table := GeoHeard(old(router.View()), q, geoBroadcast, now).value)
                               else old(router.View())
    {
      hide AfterMultiHop, LocationTable.View, LocationTable.Valid;
      if SourceOf(q) == router.mib.localMid {
        return false;
      }
      var duplicate := router.locationTable.NewMultiHopPacket(q.extended.sn, q.extended.soPv, |q.payload| + 12, geoBroadcast, now);
      accepted := !duplicate;
    }

    method IsSourceInside(q: Packet, g: Geometry) returns (inside: bool)
      requires router.Valid()
      ensures inside <==> SourceInside(router.locationTable.View(), q, g)
    {
      hide LocationTable.View, LocationTable.Valid;
      var pv := router.locationTable.PositionOf(SourceOf(q));
      inside := pv.Some? && pv.value.pai && g.inside(pv.value);
    }

    method SendNow(q: Packet)
      requires router.Valid()
      modifies router`sent
      ensures router.Valid() && router.View() == old(router.View()) && router.sent == old(router.sent) + [q]
    {
      router.sent := router.sent + [q];
    }

    method GnDataForwardGbc(q: Packet, g: Geometry)
      requires router.Valid()
      modifies router`sent, forwarder
      ensures router.Valid() && router.View() == old(router.View())
      ensures var f := ForwardGbc(router.locationTable.View(), q, g, contention);
              && router.sent == old(router.sent) + SentAtOnce(f)
              && forwarder.View() == Contended(old(forwarder.View()), f, forwarder)
    {
      hide LocationTable.View, LocationTable.Valid, TooFast, HasNeighbour, SourceInside, SetRhl, TimeoutMs, Offered;
      var f := OneHopLess(q);
      var neighbours := router.HasNeighbours();
      if neighbours || !q.common.tc.scf {
        if g.egoInside {
          if contention {
            var pv := router.locationTable.PositionOf(SourceOf(q));
            var dist := if pv.Some? && pv.value.pai && g.egoPai then Some(g.distance(pv.value)) else None;
            var _ := forwarder.GnAreaCbfForwarding(f, dist);
          } else {
            SendNow(f);
          }
        } else {
          var inside := IsSourceInside(q, g);
          if !inside && (g.progress || !q.common.tc.scf) {
            SendNow(f);
          }
        }
      } else {
        SendNow(f);
      }
    }

    method GnDataIndicateGbc(q: Packet, g: Geometry, now: U32)
      requires router.Valid() && IsGeo(q)
      modifies router, router.locationTable, router.locationTable.locT.Values, forwarder
      ensures router.Valid()
      ensures var before, heard := old(router.View()), GeoHeard(old(router.View()), q, true, now);
              var f := if heard.Some? then GbcForwarding(heard.value, q, g, before.mib, contention) else Nothing;
              && router.View() == (if heard.Some? then before.(table := heard.value) else before)
              && router.indicated == old(router.indicated) + (if heard.Some? && g.egoInside then [q] else [])
              && router.sent == old(router.sent) + SentAtOnce(f)
              && forwarder.View() == Contended(old(forwarder.View()), f, forwarder)
    {
      hide LocationTable.View, LocationTable.Valid, TooFast, HasNeighbour, GeoHeard, Offered, WaitFor, ForwardGbc;
      var accepted := Receive(q, true, now);
      if !accepted {
        return;
      }
      if g.egoInside {
        router.indicated := router.indicated + [q];
      }
      if g.areaTooLarge {
        return;
      }
      var fast := router.IsTooFast(SourceOf(q));
      if fast {
        return;
      }
      var newRhl := q.basic.rhl - 1;
      if newRhl > 0 {
        GnDataForwardGbc(q, g);
      }
    }

    method GnDataIndicateGac(q: Packet, g: Geometry, now: U32)
      requires router.Valid() && IsGeo(q)
      modifies router, router.locationTable, router.locationTable.locT.Values
      ensures router.Valid()
      ensures var before, heard := old(router.View()), GeoHeard(old(router.View()), q, false, now);
              var f := if heard.Some? then GacForwarding(heard.value, q, g, before.mib) else Nothing;
              && router.View() == (if heard.Some? then before.(table := heard.value) else before)
              && router.indicated == old(router.indicated) + (if heard.Some? && g.egoInside then [q] else [])
              && router.sent == old(router.sent) + SentAtOnce(f)
    {
      hide LocationTable.View, LocationTable.Valid, TooFast, HasNeighbour, GeoHeard, SourceInside, SetRhl;
      var accepted := Receive(q, false, now);
      if !accepted {
        return;
      }
      if g.egoInside {
        router.indicated := router.indicated + [q];
        return;
      }
      if g.areaTooLarge {
        return;
      }
      var fast := router.IsTooFast(SourceOf(q));
      if fast {
        return;
      }
      var inside := IsSourceInside(q, g);
      if inside {
        return;
      }
      var newRhl := q.basic.rhl - 1;
      if newRhl == 0 {
        return;
      }
      var neighbours := router.HasNeighbours();
      if !neighbours && q.common.tc.scf {
        return;
      }
      if g.progress || !q.common.tc.scf {
        SendNow(q.(basic := SetRhl(q.basic, newRhl)));
      }
    }
  }

  // ---------------------------------------------------------------- hop limits

  /** A repeated GBC packet is the received one with a positive hop limit one lower. */
  lemma GbcHopLimit(table: Table, q: Packet, g: Geometry, mib: Mib, contention: bool)
    ensures var f := GbcForwarding(table, q, g, mib, contention);
            !f.Nothing? ==> f.packet.basic.rhl == q.basic.rhl - 1 >= 1
                            && f.packet == q.(basic := q.basic.(rhl := f.packet.basic.rhl))
  {
  }

  /** A GAC packet that would be repeated at a given hop limit is repeated with one hop less
      exactly if it had a hop left, and not at all if it was the last; received with hop limit 0
      it leaves with 255. */
  lemma GacHopLimitExactly(table: Table, q: Packet, g: Geometry, mib: Mib)
    requires GacForwarding(table, q.(basic := SetRhl(q.basic, 2)), g, mib).SendNow?
    ensures var f := GacForwarding(table, q, g, mib);
            && (f.SendNow? <==> q.basic.rhl != 1)
            && (f.SendNow? ==> (f.packet.basic.rhl < q.basic.rhl <==> q.basic.rhl >= 1))
            && (q.basic.rhl == 0 ==> f.SendNow? && f.packet.basic.rhl == 255)
  {
  }

  /** Without neighbours a store-carry-forward GBC packet is never kept: it goes out at once, whatever
      the geometry, exactly when nothing but its size, its source's rate or its hop limit speaks
      against it; as a GAC packet it is dropped. */
  lemma StoreCarryForwardExactly(table: Table, q: Packet, g: Geometry, mib: Mib, contention: bool)
    requires !HasNeighbour(table) && q.common.tc.scf
    ensures var f := GbcForwarding(table, q, g, mib, contention);
            && !f.Contend?
            && (f.SendNow? <==> !g.areaTooLarge && !TooFast(table, SourceOf(q), mib) && q.basic.rhl >= 2)
            && (f.SendNow? ==> f.packet == OneHopLess(q))
    ensures GacForwarding(table, q, g, mib).Nothing?
  {
  }

  // ---------------------------------------------------------------- the choice of forwarding

  /** Nothing speaks against repeating the packet: the area's size, the source's rate, the hop limit. */
  predicate Repeatable(table: Table, q: Packet, g: Geometry, mib: Mib) {
    && !g.areaTooLarge && q.basic.rhl >= 2
    && var k := q.extended.soPv.gnAddr.mid; k in table ==> table[k].pdr <= 1000.0 * mib.maxPacketDataRate as real
  }

  /** The table holds an accurate position of the source. */
  predicate Located(table: Table, q: Packet) {
    var k := q.extended.soPv.gnAddr.mid; k in table && table[k].pv.pai
  }

  function OneLess(q: Packet): Packet
    requires q.basic.rhl > 0
  {
    q.(basic := q.basic.(rhl := q.basic.rhl - 1))
  }

  /** A repeatable GBC packet contends exactly inside the area, when contention is configured and a
      neighbour is there or the packet is not to be kept; it goes out at once when nobody is there to
      take a packet to be kept, inside the area without contention, and outside when the source is not
      known to be inside and a neighbour is closer or the packet is not to be kept; else it ends. */
  lemma GbcForwardingExactly(table: Table, q: Packet, g: Geometry, mib: Mib, contention: bool)
    ensures var f, scf := GbcForwarding(table, q, g, mib, contention), q.common.tc.scf;
            var k, alone := q.extended.soPv.gnAddr.mid, forall j | j in table :: !table[j].isNeighbour;
            var fromInside := Located(table, q) && g.inside(table[k].pv);
            && (f.Contend? <==> Repeatable(table, q, g, mib) && g.egoInside && contention && !(alone && scf))
            && (f.SendNow? <==> Repeatable(table, q, g, mib) &&
                                ((alone && scf) || (g.egoInside && !contention)
                                 || (!g.egoInside && !fromInside && (g.progress || !scf))))
            && (f.SendNow? ==> f.packet == OneLess(q))
            && (f.Contend? ==> f.packet == OneLess(q)
                               && f.dist == if Located(table, q) && g.egoPai then Some(g.distance(table[k].pv)) else None)
  {
  }

  /** A GAC packet that was accepted goes on exactly at a station outside the area that does not know
      its source inside, with a hop limit other than 1, within size and rate, when it is not to be kept
      or some neighbour is closer to the area. */
  lemma GacForwardingExactly(table: Table, q: Packet, g: Geometry, mib: Mib)
    ensures var f, scf := GacForwarding(table, q, g, mib), q.common.tc.scf;
            var k, alone := q.extended.soPv.gnAddr.mid, forall j | j in table :: !table[j].isNeighbour;
            && !f.Contend?
            && (f.SendNow? <==> && !g.egoInside && !g.areaTooLarge && q.basic.rhl != 1
                                && (k in table ==> table[k].pdr <= 1000.0 * mib.maxPacketDataRate as real)
                                && !(Located(table, q) && g.inside(table[k].pv))
                                && (scf ==> !alone && g.progress))
            && (f.SendNow? ==> f.packet.basic.rhl == (if q.basic.rhl == 0 then 255 else q.basic.rhl - 1)
                               && f.packet == q.(basic := q.basic.(rhl := f.packet.basic.rhl)))
  {
  }

  /** A packet that contends and is not buffered yet waits the longest time, less what the distance of
      its sender takes off in proportion, at the edge of the range and beyond the shortest. */
  lemma ContendsFor(c: Cbf, q: Packet, dist: Option<Metres>, forwarder: CbfForwarder)
    requires KeyOf(q) !in c.buffer && forwarder.distMax > 0.0
    ensures var n := Contended(c, Contend(q, dist), forwarder);
            && c.nextTimer in n.waiting && n.waiting[c.nextTimer].packet == q
            && var wait := n.waiting[c.nextTimer].timeoutMs;
               if dist.None? then wait == forwarder.toMax
               else if dist.value >= forwarder.distMax then wait == forwarder.toMin
               else (forwarder.toMax - wait) * forwarder.distMax == (forwarder.toMax - forwarder.toMin) * dist.value
  {
    hide TimeoutMs;
    if dist.Some? {
      TimeoutExactly(dist.value, forwarder.distMax, forwarder.toMin, forwarder.toMax);
    }
  }

  /** The table after a GBC or GAC packet; a GBC packet says that its source is no neighbour. */
  lemma GeoHeardLearned(s: Station, q: Packet, geoBroadcast: bool, now: U32)
    requires s.mib.Valid()
    ensures var k, pv := q.extended.soPv.gnAddr.mid, q.extended.soPv; var e := EntryOf(s.table, k);
            && (GeoHeard(s, q, geoBroadcast, now).None? <==> k == s.mib.localMid || q.extended.sn in e.dpl)
            && (GeoHeard(s, q, geoBroadcast, now).Some? ==>
                  exists n :: Learned(e, n, pv, |q.payload| + 12, !geoBroadcast && k in s.table && s.table[k].isNeighbour, s.mib)
                              && Became(s.table, GeoHeard(s, q, geoBroadcast, now).value, k, n, s.mib, now))
  {
    hide Learned, Became, AfterMultiHop;
    MultiHopLearned(s.table, q.extended.sn, q.extended.soPv, |q.payload| + 12, geoBroadcast, s.mib, now);
  }
}
