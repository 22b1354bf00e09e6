/** One station handling TSB and Location Service Request packets: what a reception does to its
    location table and whether the packet is repeated (router.py, gn_data_indicate_tsb and
    gn_data_indicate_ls_request). */
module Stations {
  import opened Outcomes
  import opened Headers
  import opened Packets
  import opened DuplicateDetection
  import opened LocationTables

  datatype Station = Station(mib: Mib, table: Table, sn: U16)

  function SourceOf(q: Packet): U48 {
    q.extended.soPv.gnAddr.mid
  }

  /** Identifies a packet across all its copies. */
  datatype Key = Key(source: U48, sn: U16)

  function KeyOf(q: Packet): Key {
    Key(SourceOf(q), q.extended.sn)
  }

  /** Packets flooded hop by hop. */
  predicate Flooded(q: Packet) {
    (q.common.transport == MultiHop && q.extended.tail.NoTail?) ||
    (q.common.transport == LsRequest && q.extended.tail.AddressTail?)
  }

  predicate HasNeighbour(table: Table) {
    exists k | k in table :: table[k].isNeighbour
  }

  /** The source sends faster than itsGnMaxPacketDataRate; its packets are not repeated. */
  predicate TooFast(table: Table, source: U48, mib: Mib) {
    source in table && table[source].pdr > (mib.maxPacketDataRate * 1000) as real
  }

  /** The table after the packet, None when the packet is the station's own or a duplicate. */
  function Heard(s: Station, q: Packet, now: U32): Option<Table>
    requires s.mib.Valid()
  {
    if SourceOf(q) == s.mib.localMid then None
    else AfterMultiHop(s.table, q.extended.sn, q.extended.soPv, |q.payload| + 12, false, s.mib, now)
  }

  /** What handling a packet does: the new station, what reaches the upper layer, the position
      an LS Reply is sent to, what is repeated. */
  datatype Outcome = Outcome(station: Station, delivered: Option<Packet>, reply: Option<LongPositionVector>, repeated: Option<Packet>)

  function Repeat(q: Packet): Option<Packet> {
    if q.basic.rhl - 1 > 0 then Some(q.(basic := SetRhl(q.basic, q.basic.rhl - 1))) else None
  }

  function Indicate(s: Station, q: Packet, now: U32): Outcome
    requires s.mib.Valid() && Flooded(q)
  {
    match Heard(s, q, now)
    case None => Outcome(s, None, None, None)
    case Some(table) =>
      var t := s.(table := table);
      if q.common.transport == MultiHop then
        Outcome(t, Some(q), None,
                if TooFast(table, SourceOf(q), s.mib) || (!HasNeighbour(table) && q.common.tc.scf) then None
                else Repeat(q))
      else if q.extended.tail.requestAddr.mid == s.mib.localMid then
        if SourceOf(q) in table then
          Outcome(t.(sn := NextSn(s.sn)), None, Some(table[SourceOf(q)].pv), None)
        else Outcome(t, None, None, None)
      else
        Outcome(t, None, None, if TooFast(table, SourceOf(q), s.mib) then None else Repeat(q))
  }

  /** The table after a TSB or LS Request packet: the packet counts with its payload and twelve
      octets of headers, and a new source is no neighbour. */
  lemma HeardLearned(s: Station, q: Packet, now: U32)
    requires s.mib.Valid()
    ensures var k, pv := q.extended.soPv.gnAddr.mid, q.extended.soPv; var e := EntryOf(s.table, k);
            Heard(s, q, now).Some? ==>
              exists n :: Learned(e, n, pv, |q.payload| + 12, k in s.table && s.table[k].isNeighbour, s.mib)
                          && Became(s.table, Heard(s, q, now).value, k, n, s.mib, now)
  {
    hide Learned, Became, AfterMultiHop;
    MultiHopLearned(s.table, q.extended.sn, q.extended.soPv, |q.payload| + 12, false, s.mib, now);
  }

  class Router {
    const mib: Mib
    const locationTable: LocationTable
    var sequenceNumber: U16
    var sent: seq<Packet>                              // handed to the link layer
    var indicated: seq<Packet>                         // handed to the upper layer
    var replies: seq<(U16, LongPositionVector)>        // LS Replies sent

    ghost predicate Valid()
      reads this, locationTable, locationTable.locT.Values
    {
      locationTable.Valid() && locationTable.mib == mib
    }

    function View(): Station
      reads this, locationTable, locationTable.locT.Values
    {
      Station(mib, locationTable.View(), sequenceNumber)
    }

    constructor (mib: Mib)
      requires mib.Valid()
      ensures Valid() && View() == Station(mib, map[], 0)
      ensures sent == [] && indicated == [] && replies == []
    {
      this.mib := mib;
      locationTable := new LocationTable(mib);
      sequenceNumber, sent, indicated, replies := 0, [], [], [];
    }

    method GetSequenceNumber() returns (sn: U16)
      modifies this`sequenceNumber
      ensures sn == sequenceNumber == NextSn(old(sequenceNumber))
    {
      sequenceNumber := (sequenceNumber + 1) % 0xFFFF;
      sn := sequenceNumber;
    }

    method HasNeighbours() returns (some: bool)
      requires Valid()
      ensures some == HasNeighbour(locationTable.View())
    {
      some := exists k | k in locationTable.locT :: locationTable.locT[k].isNeighbour;
      assert forall k | k in locationTable.View() :: locationTable.View()[k].isNeighbour == locationTable.locT[k].isNeighbour;
    }

    method IsTooFast(source: U48) returns (fast: bool)
      requires Valid()
      ensures fast == TooFast(locationTable.View(), source, mib)
    {
      fast := source in locationTable.locT &&
              locationTable.locT[source].pdr > (mib.maxPacketDataRate * 1000) as real;
    }

    /** Duplicate address detection, duplicate packet detection, location table update. */
    method Receive(q: Packet, now: U32) returns (accepted: bool)
      requires Valid()
      modifies locationTable, locationTable.locT.Values
      ensures Valid()
      ensures accepted <==> Heard(old(View()), q, now).Some?
      ensures View() == if accepted then old(View()).(table := Heard(old(View()), q, now).value) else old(View())
    {
      hide AfterMultiHop, LocationTable.View, LocationTable.Valid;
      if SourceOf(q) == mib.localMid {
        return false;
      }
      var duplicate := locationTable.NewMultiHopPacket(q.extended.sn, q.extended.soPv, |q.payload| + 12, false, now);
      accepted := !duplicate;
    }

    /** Decrement the remaining hop limit; the packet ends here when that leaves nothing. */
    method SendOn(q: Packet)
      modifies this`sent
      ensures sent == old(sent) + AsSeq(Repeat(q))
    {
      var newRhl := q.basic.rhl - 1;
      if newRhl > 0 {
        sent := sent + [q.(basic := SetRhl(q.basic, newRhl))];
      }
    }

    method GnDataIndicateTsb(q: Packet, now: U32)
      requires Valid() && Flooded(q) && q.common.transport == MultiHop
      modifies this, locationTable, locationTable.locT.Values
      ensures Valid()
      ensures var o := Indicate(old(View()), q, now);
              && View() == o.station
              && indicated == old(indicated) + AsSeq(o.delivered)
              && sent == old(sent) + AsSeq(o.repeated)
              && replies == old(replies) && o.reply == None
    {
      hide Heard, HasNeighbour, TooFast, Repeat, LocationTable.View, LocationTable.Valid;
      var accepted := Receive(q, now);
      if !accepted {
        return;
      }
      indicated := indicated + [q];
      var fast := IsTooFast(SourceOf(q));
      if fast {
        return;
      }
      var neighbours := HasNeighbours();
      if neighbours || !q.common.tc.scf {
        SendOn(q);
      }
    }

    method GnDataIndicateLsRequest(q: Packet, now: U32)
      requires Valid() && Flooded(q) && q.common.transport == LsRequest
      modifies this, locationTable, locationTable.locT.Values
      ensures Valid()
      ensures var o := Indicate(old(View()), q, now);
              && View() == o.station
              && indicated == old(indicated) && o.delivered == None
              && sent == old(sent) + AsSeq(o.repeated)
              && replies == old(replies) + (if o.reply.Some? then [(sequenceNumber, o.reply.value)] else [])
    {
      hide Heard, TooFast, Repeat, LocationTable.View, LocationTable.Valid;
      var accepted := Receive(q, now);
      if !accepted {
        return;
      }
      if q.extended.tail.requestAddr.mid == mib.localMid {
        var pv := locationTable.PositionOf(SourceOf(q));
        if pv.Some? {
          var sn := GetSequenceNumber();
          replies := replies + [(sn, pv.value)];
        }
      } else {
        var fast := IsTooFast(SourceOf(q));
        if fast {
          return;
        }
        SendOn(q);
      }
    }
  }

  function AsSeq<T>(o: Option<T>): seq<T> {
    match o
    case None => []
    case Some(x) => [x]
  }
}
