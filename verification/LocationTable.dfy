/** Location table entries and the location table (EN 302 636-4-1 V1.4.1, clause 8.1), as the
    objects the router mutates and as the values its behaviour is stated on. */
module LocationTables {
  import opened Outcomes
  import opened Headers
  import opened Timestamps
  import opened DuplicateDetection

  /** The management information base, as far as the router reads it here. */
  datatype Mib = Mib(
    localMid: U48,            // itsGnLocalGnAddr, which compares by its MID
    dplLength: nat,           // itsGnDPLLength
    lifetimeLocTE: nat,       // itsGnLifetimeLocTE, seconds
    maxPacketDataRate: nat,   // itsGnMaxPacketDataRate, kB/s
    emaBeta: nat)             // itsGnMaxPacketDataRateEmaBeta, percent
  {
    /** A ring of length zero makes the first reception raise an IndexError. */
    predicate Valid() {
      0 < dplLength
    }
  }

  // ---------------------------------------------------------------- values

  datatype Entry = Entry(
    pv: LongPositionVector, lsPending: bool, isNeighbour: bool, tst: U32, pdr: real, dpl: seq<U16>)

  const NEW_ENTRY := Entry(NO_POSITION, false, false, 0, 0.0, [])

  type Table = map<U48, Entry>

  /** update_pdr: an exponential moving average over the time between stamps. */
  function WithPdr(e: Entry, pv: LongPositionVector, size: nat, mib: Mib): Entry {
    var ms := Minus(pv.tst, e.tst);
    var beta := mib.emaBeta as real / 100.0;
    e.(tst := pv.tst,
       pdr := if ms > 0 then beta * e.pdr + (1.0 - beta) * (size as real / (ms as real / 1000.0)) else e.pdr)
  }

  /** An entry after a packet with a sequence number that was no duplicate. */
  function WithMultiHop(e: Entry, isNew: bool, sn: U16, pv: LongPositionVector, size: nat, geoBroadcast: bool, mib: Mib): Entry
    requires mib.Valid()
  {
    var heard := e.(dpl := Pushed(e.dpl, mib.dplLength, sn), pv := UpdatedPv(e.pv, pv));
    WithPdr(heard, pv, size, mib).(isNeighbour := if isNew || geoBroadcast then false else e.isNeighbour)
  }

  function WithSingleHop(e: Entry, pv: LongPositionVector, size: nat, mib: Mib): Entry {
    WithPdr(e.(pv := UpdatedPv(e.pv, pv)), pv, size, mib).(isNeighbour := true)
  }

  predicate Alive(e: Entry, mib: Mib, now: U32) {
    Minus(now, e.pv.tst) <= mib.lifetimeLocTE * 1000
  }

  /** refresh_table at the clock stamp now. */
  function Refreshed(table: Table, mib: Mib, now: U32): Table {
    map k | k in table && Alive(table[k], mib, now) :: table[k]
  }

  function EntryOf(table: Table, k: U48): Entry {
    if k in table then table[k] else NEW_ENTRY
  }

  /** The new_*_packet methods for packets with a sequence number; None for a duplicate, which
      leaves the table as it was. */
  function AfterMultiHop(table: Table, sn: U16, pv: LongPositionVector, size: nat, geoBroadcast: bool, mib: Mib, now: U32)
      : Option<Table>
    requires mib.Valid()
  {
    var k := pv.gnAddr.mid;
    var e := EntryOf(table, k);
    if sn in e.dpl then None
    else Some(Refreshed(table[k := WithMultiHop(e, k !in table, sn, pv, size, geoBroadcast, mib)], mib, now))
  }

  /** new_shb_packet: single-hop packets carry no sequence number and are never duplicates. */
  function AfterSingleHop(table: Table, pv: LongPositionVector, size: nat, mib: Mib, now: U32): Table {
    var k := pv.gnAddr.mid;
    Refreshed(table[k := WithSingleHop(EntryOf(table, k), pv, size, mib)], mib, now)
  }

  // ---------------------------------------------------------------- the packet data rate

  /** The rate a packet shows, over the time since the stamp before it. */
  function RateOf(size: nat, ms: int): real
    requires ms > 0
  {
    size as real / (ms as real / 1000.0)
  }

  predicate Between(x: real, a: real, b: real) {
    (a <= x <= b) || (b <= x <= a)
  }

  lemma RateNotNegative(size: nat, ms: int)
    requires ms > 0
    ensures RateOf(size, ms) >= 0.0
  {
  }

  lemma ScaledPositive(c: real, x: real)
    requires c >= 0.0 && x > 0.0
    ensures 0.0 <= c * x && (c * x <= x <==> c <= 1.0)
  {
    if c <= 1.0 {
      assert (1.0 - c) * x >= 0.0;
    } else {
      assert (c - 1.0) * x > 0.0;
    }
  }

  lemma Scaled(c: real, x: real)
    requires c >= 0.0
    ensures Between(c * x, x, 0.0) <==> c <= 1.0 || x == 0.0
  {
    if x > 0.0 {
      ScaledPositive(c, x);
    } else if x < 0.0 {
      ScaledPositive(c, -x);
      assert c * -x == -(c * x);
    }
  }

  lemma Shifted(x: real, gap: real, current: real)
    ensures Between(current + x, current + gap, current) <==> Between(x, gap, 0.0)
  {
  }

  lemma Averaged(b: real, past: real, current: real)
    requires b >= 0.0
    ensures b * past + (1.0 - b) * current == current + b * (past - current)
    ensures Between(b * past + (1.0 - b) * current, past, current) <==> b <= 1.0 || past == current
  {
    var gap := past - current;
    assert b * past == b * gap + b * current;
    assert (1.0 - b) * current == current - b * current;
    assert b * past + (1.0 - b) * current == current + b * gap && past == current + gap;
    Shifted(b * gap, gap, current);
    Scaled(b, gap);
  }

  /** Each packet with a later stamp multiplies the distance to its own rate by the weight of the
      past; so the new rate lies between the old one and the packet's, whatever these are, exactly
      if the weight is at most 100 percent. */
  lemma PdrBetween(e: Entry, pv: LongPositionVector, size: nat, mib: Mib)
    ensures var ms, pdr := Minus(pv.tst, e.tst), WithPdr(e, pv, size, mib).pdr;
            if ms == 0 then pdr == e.pdr
            else
              && ms > 0
              && pdr - RateOf(size, ms) == (mib.emaBeta as real / 100.0) * (e.pdr - RateOf(size, ms))
              && (Between(pdr, e.pdr, RateOf(size, ms)) <==> mib.emaBeta <= 100 || e.pdr == RateOf(size, ms))
  {
    var ms := Minus(pv.tst, e.tst);
    if ms > 0 {
      Averaged(mib.emaBeta as real / 100.0, e.pdr, RateOf(size, ms));
    }
  }

  /** A packet of a source as the rate sees it. */
  datatype Sighting = Sighting(pv: LongPositionVector, size: nat)

  function Sighted(e: Entry, packets: seq<Sighting>, mib: Mib): Entry {
    if packets == [] then e
    else
      var last := packets[|packets| - 1];
      WithPdr(Sighted(e, packets[..|packets| - 1], mib), last.pv, last.size, mib)
  }

  /** Every packet of the run keeps to the limit since the stamp before it. */
  predicate KeepToLimit(e: Entry, packets: seq<Sighting>, mib: Mib, limit: real) {
    forall i | 0 <= i < |packets| ::
      var ms := Minus(packets[i].pv.tst, Sighted(e, packets[..i], mib).tst);
      ms > 0 ==> RateOf(packets[i].size, ms) <= limit
  }

  predicate InLimit(pdr: real, limit: real) {
    0.0 <= pdr <= limit
  }

  lemma {:induction false} StaysInLimit(e: Entry, packets: seq<Sighting>, mib: Mib, limit: real)
    requires mib.emaBeta <= 100 && InLimit(e.pdr, limit) && KeepToLimit(e, packets, mib, limit)
    ensures InLimit(Sighted(e, packets, mib).pdr, limit)
  {
    hide WithPdr, RateOf;
    if packets != [] {
      var k := |packets| - 1;
      assert forall i | 0 <= i < k :: packets[..k][..i] == packets[..i];
      StaysInLimit(e, packets[..k], mib, limit);
      var before := Sighted(e, packets[..k], mib);
      PdrBetween(before, packets[k].pv, packets[k].size, mib);
      if Minus(packets[k].pv.tst, before.tst) > 0 {
        RateNotNegative(packets[k].size, Minus(packets[k].pv.tst, before.tst));
      }
    }
  }

  /** No source whose packets keep to a positive limit is ever taken to exceed it, and no rate is
      negative, if and only if the weight of the past is at most 100 percent. */
  lemma LimitRespectedExactly(mib: Mib, limit: real)
    requires limit > 0.0
    ensures (forall e: Entry, packets | InLimit(e.pdr, limit) && KeepToLimit(e, packets, mib, limit) ::
               InLimit(Sighted(e, packets, mib).pdr, limit))
            <==> mib.emaBeta <= 100
  {
    hide Sighted, KeepToLimit, InLimit;
    if mib.emaBeta <= 100 {
      forall e: Entry, packets | InLimit(e.pdr, limit) && KeepToLimit(e, packets, mib, limit)
        ensures InLimit(Sighted(e, packets, mib).pdr, limit)
      {
        StaysInLimit(e, packets, mib, limit);
      }
    } else {
      Overshoot(mib, limit);
    }
  }

  /** With a larger weight even an empty packet lifts a source at its limit above it. */
  lemma Overshoot(mib: Mib, limit: real)
    requires mib.emaBeta > 100 && limit > 0.0
    ensures exists e: Entry, packets :: InLimit(e.pdr, limit) && KeepToLimit(e, packets, mib, limit)
                                        && !InLimit(Sighted(e, packets, mib).pdr, limit)
  {
    hide WithPdr, RateOf;
    var e := NEW_ENTRY.(pdr := limit);
    var packet := Sighting(NO_POSITION.(tst := 1), 0);
    SightedOnce(e, packet, mib);
    EmptyPacket(e, packet.pv, mib);
    assert InLimit(e.pdr, limit) && KeepToLimit(e, [packet], mib, limit);
  }

  lemma EmptyPacket(e: Entry, pv: LongPositionVector, mib: Mib)
    requires Minus(pv.tst, e.tst) == 1 && mib.emaBeta > 100 && e.pdr > 0.0
    ensures WithPdr(e, pv, 0, mib).pdr > e.pdr && RateOf(0, 1) == 0.0
  {
    PdrBetween(e, pv, 0, mib);
    ScaledPositive(mib.emaBeta as real / 100.0, e.pdr);
  }

  lemma SightedOnce(e: Entry, packet: Sighting, mib: Mib)
    ensures Sighted(e, [packet], mib) == WithPdr(e, packet.pv, packet.size, mib) && Sighted(e, [], mib) == e
  {
    hide WithPdr;
    assert [packet][..0] == [];
  }

  // ---------------------------------------------------------------- the table after a packet

  /** Milliseconds since a stamp, on the 32-bit clock. */
  function Age(now: U32, tst: U32): nat {
    (now - tst) % 0x1_0000_0000
  }

  /** A table in which entry k became e and what was older than the lifetime was dropped. */
  ghost predicate Became(table: Table, t: Table, k: U48, e: Entry, mib: Mib, now: U32) {
    && (k in t <==> Age(now, e.pv.tst) <= 1000 * mib.lifetimeLocTE) && (k in t ==> t[k] == e)
    && (forall j | j != k :: j in t <==> j in table && Age(now, table[j].pv.tst) <= 1000 * mib.lifetimeLocTE)
    && (forall j | j in t && j != k :: t[j] == table[j])
  }

  /** The entry of a source after a packet that was no duplicate: the newer position, the rate drawn
      towards the packet's, the neighbour flag; a pending search stays pending. */
  ghost predicate Learned(e: Entry, n: Entry, pv: LongPositionVector, size: nat, neighbour: bool, mib: Mib) {
    && n.pv == (if e.pv.tst == 0 || Gt(pv.tst, e.pv.tst) then pv else e.pv)
    && n.lsPending == e.lsPending && n.isNeighbour == neighbour && n.tst == pv.tst
    && var ms, beta := Age(pv.tst, e.tst), mib.emaBeta as real / 100.0;
       if ms == 0 then n.pdr == e.pdr
       else n.pdr - RateOf(size, ms) == beta * (e.pdr - RateOf(size, ms))
  }

  lemma AliveExactly(e: Entry, mib: Mib, now: U32)
    ensures Alive(e, mib, now) <==> Age(now, e.pv.tst) <= 1000 * mib.lifetimeLocTE
  {
  }

  lemma RefreshedBecame(table: Table, k: U48, e: Entry, mib: Mib, now: U32)
    ensures Became(table, Refreshed(table[k := e], mib, now), k, e, mib, now)
  {
    hide Alive, Age;
    AliveExactly(e, mib, now);
    forall j | j in table ensures Alive(table[j], mib, now) <==> Age(now, table[j].pv.tst) <= 1000 * mib.lifetimeLocTE {
      AliveExactly(table[j], mib, now);
    }
  }

  lemma PdrLearned(e: Entry, pv: LongPositionVector, size: nat, mib: Mib)
    ensures var n, ms, beta := WithPdr(e, pv, size, mib), Age(pv.tst, e.tst), mib.emaBeta as real / 100.0;
            && n == e.(tst := pv.tst, pdr := n.pdr)
            && if ms == 0 then n.pdr == e.pdr
               else n.pdr - RateOf(size, ms) == beta * (e.pdr - RateOf(size, ms))
  {
    PdrBetween(e, pv, size, mib);
  }

  /** A station's table after a packet with a sequence number: None for a duplicate, else the number
      is the newest of the source's ring, a new entry or one of a GBC packet is no neighbour, and old
      entries are gone. */
  lemma MultiHopLearned(table: Table, sn: U16, pv: LongPositionVector, size: nat, geoBroadcast: bool, mib: Mib, now: U32)
    requires mib.Valid()
    ensures var k := pv.gnAddr.mid; var e := EntryOf(table, k);
            var r, n := AfterMultiHop(table, sn, pv, size, geoBroadcast, mib, now),
                        WithMultiHop(e, k !in table, sn, pv, size, geoBroadcast, mib);
            && (r.None? <==> sn in e.dpl)
            && Learned(e, n, pv, size, k in table && !geoBroadcast && table[k].isNeighbour, mib)
            && (|e.dpl| <= mib.dplLength ==> n.dpl == LastOf(e.dpl + [sn], mib.dplLength))
            && (r.Some? ==> Became(table, r.value, k, n, mib, now))
  {
    hide Became, Refreshed, WithPdr, Age, RateOf;
    var k := pv.gnAddr.mid;
    var e := EntryOf(table, k);
    PdrLearned(e.(dpl := Pushed(e.dpl, mib.dplLength, sn), pv := UpdatedPv(e.pv, pv)), pv, size, mib);
    RefreshedBecame(table, k, WithMultiHop(e, k !in table, sn, pv, size, geoBroadcast, mib), mib, now);
  }

  /** After a single-hop packet its source is a neighbour and its ring unchanged. */
  lemma SingleHopLearned(table: Table, pv: LongPositionVector, size: nat, mib: Mib, now: U32)
    ensures var k := pv.gnAddr.mid; var e := EntryOf(table, k);
            var n := WithSingleHop(e, pv, size, mib);
            && Learned(e, n, pv, size, true, mib) && n.dpl == e.dpl
            && Became(table, AfterSingleHop(table, pv, size, mib, now), k, n, mib, now)
  {
    hide Became, Refreshed, WithPdr, Age, RateOf;
    var k := pv.gnAddr.mid;
    var e := EntryOf(table, k);
    PdrLearned(e.(pv := UpdatedPv(e.pv, pv)), pv, size, mib);
    RefreshedBecame(table, k, WithSingleHop(e, pv, size, mib), mib, now);
  }

  // ---------------------------------------------------------------- objects

  class LocationTableEntry {
    const mib: Mib
    var positionVector: LongPositionVector
    var lsPending: bool
    var isNeighbour: bool
    var tst: U32
    var pdr: real
    var dplSet: set<U16>      // for the membership test
    var dplDeque: seq<U16>    // for the eviction order

    ghost predicate Valid()
      reads this
    {
      && mib.Valid()
      && dplSet == (set x | x in dplDeque)
      && Distinct(dplDeque)
      && |dplDeque| <= mib.dplLength
    }

    function View(): Entry
      reads this
    {
      Entry(positionVector, lsPending, isNeighbour, tst, pdr, dplDeque)
    }

    constructor (mib: Mib)
      requires mib.Valid()
      ensures Valid() && this.mib == mib && View() == NEW_ENTRY
    {
      this.mib := mib;
      positionVector := NO_POSITION;
      lsPending, isNeighbour := false, false;
      tst, pdr := 0, 0.0;
      dplSet, dplDeque := {}, [];
    }

    twostate lemma PendingChanged()
      requires old(Valid()) && positionVector == old(positionVector) && isNeighbour == old(isNeighbour)
      requires tst == old(tst) && pdr == old(pdr) && dplSet == old(dplSet) && dplDeque == old(dplDeque)
      ensures Valid() && View() == old(View()).(lsPending := lsPending)
    {
    }

    method UpdatePositionVector(pv: LongPositionVector)
      requires Valid()
      modifies this
      ensures Valid() && View() == old(View()).(pv := UpdatedPv(old(positionVector), pv))
    {
      if positionVector.tst == 0 {
        positionVector := pv;
      } else if Gt(pv.tst, positionVector.tst) {
        positionVector := pv;
      }
    }

    method UpdatePdr(pv: LongPositionVector, size: nat)
      requires Valid()
      modifies this
      ensures Valid() && View() == WithPdr(old(View()), pv, size, mib)
    {
      var previous := tst;
      tst := pv.tst;
      var elapsed := Minus(pv.tst, previous);
      if elapsed > 0 {
        var current := size as real / (elapsed as real / 1000.0);
        var beta := mib.emaBeta as real / 100.0;
        pdr := beta * pdr + (1.0 - beta) * current;
      }
    }

    /** check_duplicate_sn: the set and the ring stay the same numbers. */
    method CheckDuplicateSn(sn: U16) returns (duplicate: bool)
      requires Valid()
      modifies this
      ensures Valid()
      ensures duplicate <==> sn in old(dplDeque)
      ensures View() == if duplicate then old(View())
                        else old(View()).(dpl := Pushed(old(dplDeque), mib.dplLength, sn))
    {
      if sn in dplSet {
        return true;
      }
      if |dplDeque| == mib.dplLength {
        var oldest := dplDeque[0];
        assert dplDeque == [oldest] + dplDeque[1..];
        dplDeque := dplDeque[1..];
        dplSet := dplSet - {oldest};
      }
      dplDeque := dplDeque + [sn];
      dplSet := dplSet + {sn};
      duplicate := false;
    }

    method UpdateWithMultiHop(isNew: bool, sn: U16, pv: LongPositionVector, size: nat, geoBroadcast: bool)
      returns (duplicate: bool)
      requires Valid()
      modifies this
      ensures Valid()
      ensures duplicate <==> sn in old(dplDeque)
      ensures View() == if duplicate then old(View())
                        else WithMultiHop(old(View()), isNew, sn, pv, size, geoBroadcast, mib)
    {
      duplicate := CheckDuplicateSn(sn);
      if duplicate {
        return;
      }
      UpdatePositionVector(pv);
      UpdatePdr(pv, size);
      if isNew || geoBroadcast {
        isNeighbour := false;
      }
    }

    method UpdateWithShbPacket(pv: LongPositionVector, size: nat)
      requires Valid()
      modifies this
      ensures Valid() && View() == WithSingleHop(old(View()), pv, size, mib)
    {
      UpdatePositionVector(pv);
      UpdatePdr(pv, size);
      isNeighbour := true;
    }
  }

  class LocationTable {
    const mib: Mib
    var locT: map<U48, LocationTableEntry>

    ghost predicate Valid()
      reads this, locT.Values
    {
      && mib.Valid()
      && (forall k | k in locT :: locT[k].Valid() && locT[k].mib == mib)
      && (forall j, k | j in locT && k in locT && j != k :: locT[j] != locT[k])
    }

    function View(): Table
      reads this, locT.Values
    {
      map k | k in locT :: locT[k].View()
    }

    constructor (mib: Mib)
      requires mib.Valid()
      ensures Valid() && this.mib == mib && View() == map[] && fresh(locT.Values)
    {
      this.mib := mib;
      locT := map[];
    }

    /** The entry of an address, made if there is none. */
    method EnsureEntry(k: U48) returns (entry: LocationTableEntry, isNew: bool)
      requires Valid()
      modifies this
      ensures Valid() && k in locT && locT[k] == entry && entry.Valid() && entry.mib == mib
      ensures isNew <==> k !in old(View())
      ensures fresh(locT.Values - old(locT.Values))
      ensures locT == old(locT)[k := entry] && (forall j | j in locT && j != k :: locT[j] != entry)
      ensures entry.View() == EntryOf(old(View()), k)
      ensures View() == old(View())[k := EntryOf(old(View()), k)]
    {
      hide Distinct, LocationTableEntry.View;
      isNew := k !in locT;
      if isNew {
        entry := new LocationTableEntry(mib);
        locT := locT[k := entry];
      } else {
        entry := locT[k];
      }
    }

    method PositionOf(k: U48) returns (pv: Option<LongPositionVector>)
      requires Valid()
      ensures pv == if k in View() then Some(View()[k].pv) else None
    {
      if k in locT {
        pv := Some(locT[k].positionVector);
      } else {
        pv := None;
      }
    }

    method RefreshTable(now: U32)
      requires Valid()
      modifies this
      ensures Valid() && locT.Values <= old(locT.Values)
      ensures View() == Refreshed(old(View()), mib, now)
    {
      locT := map k | k in locT && Minus(now, locT[k].positionVector.tst) <= mib.lifetimeLocTE * 1000 :: locT[k];
    }

    /** Changing one entry changes the table at its address only. */
    twostate lemma OneEntryChanged(k: U48)
      requires old(Valid()) && locT == old(locT) && k in locT
      requires locT[k].Valid()
      requires forall j | j in locT && j != k :: unchanged(locT[j])
      ensures Valid()
      ensures View() == old(View())[k := locT[k].View()]
    {
    }

    method IsLsPending(k: U48) returns (pending: bool)
      requires Valid()
      ensures pending <==> k in View() && View()[k].lsPending
    {
      pending := k in locT && locT[k].lsPending;
    }

    method SetLsPending(k: U48)
      requires Valid()
      modifies this, locT.Values
      ensures Valid() && fresh(locT.Values - old(locT.Values))
      ensures View() == old(View())[k := EntryOf(old(View()), k).(lsPending := true)]
    {
      hide Distinct, View, Valid, LocationTableEntry.Valid, LocationTableEntry.View;
      var entry, isNew := EnsureEntry(k);
      label ensured:
      entry.lsPending := true;
      entry.PendingChanged@ensured();
      OneEntryChanged@ensured(k);
    }

    method ClearLsPending(k: U48)
      requires Valid()
      modifies locT.Values
      ensures Valid()
      ensures View() == if k in old(View()) then old(View())[k := old(View())[k].(lsPending := false)] else old(View())
    {
      hide Distinct;
      if k in locT {
        assert k in View();
        locT[k].lsPending := false;
        OneEntryChanged(k);
      }
    }

    method NewMultiHopPacket(sn: U16, pv: LongPositionVector, size: nat, geoBroadcast: bool, now: U32)
      returns (duplicate: bool)
      requires Valid()
      modifies this, locT.Values
      ensures Valid() && fresh(locT.Values - old(locT.Values))
      ensures duplicate <==> AfterMultiHop(old(View()), sn, pv, size, geoBroadcast, mib, now) == None
      ensures View() == if duplicate then old(View())
                        else AfterMultiHop(old(View()), sn, pv, size, geoBroadcast, mib, now).value
    {
      hide WithMultiHop, Refreshed, Distinct, View, Valid, LocationTableEntry.Valid;
      var k := pv.gnAddr.mid;
      var entry, isNew := EnsureEntry(k);
      label ensured:
      duplicate := entry.UpdateWithMultiHop(isNew, sn, pv, size, geoBroadcast);
      OneEntryChanged@ensured(k);
      assert View() == old(View())[k := entry.View()];
      if duplicate {
        return;
      }
      RefreshTable(now);
    }

    method NewShbPacket(pv: LongPositionVector, size: nat, now: U32)
      requires Valid()
      modifies this, locT.Values
      ensures Valid() && fresh(locT.Values - old(locT.Values))
      ensures View() == AfterSingleHop(old(View()), pv, size, mib, now)
    {
      hide WithSingleHop, Refreshed, Distinct, View, Valid, LocationTableEntry.Valid, LocationTableEntry.View;
      var k := pv.gnAddr.mid;
      var entry, isNew := EnsureEntry(k);
      label ensured:
      entry.UpdateWithShbPacket(pv, size);
      OneEntryChanged@ensured(k);
      assert View() == old(View())[k := entry.View()];
      RefreshTable(now);
    }
  }
}
