/** Contention-based forwarding behind duplicate detection, over every run of one station: the
    copies that should suppress a buffered packet are duplicates, and duplicates do not reach
    the buffer. */
module Suppression {
  import opened Outcomes
  import opened Headers
  import opened Packets
  import opened LocationTables
  import opened Stations
  import opened Flooding
  import opened GeoBroadcasts
  import C = Contention

  datatype Contender = Contender(node: Node, record: C.Record)

  datatype Event =
    | Gbc(q: Packet, g: Geometry, timeoutMs: real, now: U32)
    | OtherMultiHop(sn: U16, pv: LongPositionVector, size: nat, now: U32)
    | SingleHop(pv: LongPositionVector, size: nat, now: U32)
    | EnsureEntry(k: U48, pending: bool)
    | Expiry(t: nat)

  predicate Possible(c: Contender, e: Event) {
    && c.node.station.mib.Valid()
    && (e.Expiry? ==> e.t in c.record.cbf.waiting)
  }

  function Happen(c: Contender, e: Event): Contender
    requires Possible(c, e)
  {
    var n := c.node;
    match e
    case Gbc(q, g, timeoutMs, now) =>
      var t := GeoHeard(n.station, q, true, now);
      var f := if t.Some? then GeoBroadcasts.GbcForwarding(t.value, q, g, n.station.mib, true) else Nothing;
      Contender(After(n, t, KeyOf(q)), if f.Contend? then C.Next(c.record, C.Offer(f.packet, timeoutMs)) else c.record)
    case OtherMultiHop(sn, pv, size, now) =>
      var t := OtherHeard(n.station, sn, pv, size, false, now);
      c.(node := After(n, t, Key(pv.gnAddr.mid, sn)))
    case SingleHop(pv, size, now) =>
      c.(node := Moved(n, n.station.(table := AfterSingleHop(n.station.table, pv, size, n.station.mib, now)), {}))
    case EnsureEntry(k, pending) =>
      c.(node := Moved(n, n.station.(table := Marked(n.station.table, k, pending)), {}))
    case Expiry(t) =>
      c.(record := C.Next(c.record, C.Expire(t)))
  }

  predicate Fresh(c: Contender) {
    && c.node == Node(Station(c.node.station.mib, map[], 0), 0, multiset{}, multiset{}, {})
    && c.node.station.mib.Valid()
    && c.record == C.EMPTY
  }

  /** A run of the station: its states, from a fresh one, and the events between them. */
  ghost predicate IsHistory(states: seq<Contender>, events: seq<Event>) {
    && |states| == |events| + 1 && Fresh(states[0])
    && (forall i {:trigger events[i]} | 0 <= i < |events| ::
          Possible(states[i], events[i]) && states[i + 1] == Happen(states[i], events[i]))
  }

  ghost predicate Inv(c: Contender) {
    && c.node.station.mib.Valid() && HistoryInv(c.node) && C.Inv(c.record)
    && (forall key: Key ::
          C.Count(c.record.inserted, key) + C.Count(c.record.suppressed, key) <= c.node.accepted[key])
  }

  /** The packet that contends goes by the key of the packet received. */
  lemma ContendedKey(table: Table, q: Packet, g: Geometry, mib: Mib)
    ensures var f := GeoBroadcasts.GbcForwarding(table, q, g, mib, true); f.Contend? ==> KeyOf(f.packet) == KeyOf(q)
  {
  }

  lemma OfferCounts(r: C.Record, q: Packet, timeoutMs: real, key: Key)
    ensures var n := C.Next(r, C.Offer(q, timeoutMs));
            C.Count(n.inserted, key) + C.Count(n.suppressed, key)
            == C.Count(r.inserted, key) + C.Count(r.suppressed, key) + if KeyOf(q) == key then 1 else 0
  {
  }

  lemma GbcKeeps(c: Contender, q: Packet, g: Geometry, timeoutMs: real, now: U32)
    requires Inv(c) && Possible(c, Gbc(q, g, timeoutMs, now))
    ensures Inv(Happen(c, Gbc(q, g, timeoutMs, now)))
  {
    hide HistoryInv, C.Inv, C.Count, C.Next, GeoBroadcasts.GbcForwarding, AfterMultiHop, After;
    var n := c.node;
    var t := GeoHeard(n.station, q, true, now);
    AfterKeeps(n, t, q.extended.sn, q.extended.soPv, |q.payload| + 12, true, now);
    if t.Some? {
      var f := GeoBroadcasts.GbcForwarding(t.value, q, g, n.station.mib, true);
      if f.Contend? {
        ContendedKey(t.value, q, g, n.station.mib);
        C.OfferKeeps(c.record, f.packet, timeoutMs);
        forall key: Key ensures C.Count(Happen(c, Gbc(q, g, timeoutMs, now)).record.inserted, key)
                                + C.Count(Happen(c, Gbc(q, g, timeoutMs, now)).record.suppressed, key)
                                <= After(n, t, KeyOf(q)).accepted[key]
        {
          OfferCounts(c.record, f.packet, timeoutMs, key);
        }
      }
    }
  }

  lemma HappenKeeps(c: Contender, e: Event)
    requires Inv(c) && Possible(c, e)
    ensures Inv(Happen(c, e)) && Happen(c, e).node.station.mib == c.node.station.mib
  {
    hide HistoryInv, C.Inv, C.Count, AfterMultiHop, AfterSingleHop, GeoHeard, GeoBroadcasts.GbcForwarding, Known;
    var n := c.node;
    match e
    case Gbc(q, g, timeoutMs, now) =>
      GbcKeeps(c, q, g, timeoutMs, now);
    case OtherMultiHop(sn, pv, size, now) =>
      AfterKeeps(n, OtherHeard(n.station, sn, pv, size, false, now), sn, pv, size, false, now);
    case SingleHop(pv, size, now) =>
      HistoryRings(n);
      SingleHopTable(n.station, pv, size, now);
      MovedKeepsHistory(n, n.station.(table := AfterSingleHop(n.station.table, pv, size, n.station.mib, now)), {});
    case EnsureEntry(k, pending) =>
      HistoryRings(n);
      MarkedTable(n.station.table, n.station.mib.dplLength, k, pending);
      MovedKeepsHistory(n, n.station.(table := Marked(n.station.table, k, pending)), {});
    case Expiry(t) =>
      C.ExpireKeeps(c.record, t);
  }

  lemma FreshInv(c: Contender)
    requires Fresh(c)
    ensures Inv(c)
  {
  }

  lemma EarlierHistory(states: seq<Contender>, events: seq<Event>)
    requires IsHistory(states, events) && events != []
    ensures IsHistory(states[..|events|], events[..|events| - 1])
    ensures Possible(states[|events| - 1], events[|events| - 1])
    ensures states[|events|] == Happen(states[|events| - 1], events[|events| - 1])
  {
    hide Fresh, Possible, Happen;
    var front := events[..|events| - 1];
    assert forall i {:trigger front[i]} | 0 <= i < |front| :: front[i] == events[i];
  }

  lemma {:induction false} HistoryKeepsInv(states: seq<Contender>, events: seq<Event>)
    requires IsHistory(states, events)
    ensures Inv(states[|events|])
    decreases |events|
  {
    hide Inv, Happen, Fresh, Possible;
    if events == [] {
      FreshInv(states[0]);
    } else {
      EarlierHistory(states, events);
      HistoryKeepsInv(states[..|events|], events[..|events| - 1]);
      HappenKeeps(states[|events| - 1], events[|events| - 1]);
    }
  }

  /** In every reachable state a GBC packet passes duplicate detection if and only if it is not
      the station's own and every earlier acceptance of it was forgotten. */
  lemma GeoHeardExactly(states: seq<Contender>, events: seq<Event>, q: Packet, now: U32)
    requires IsHistory(states, events)
    ensures var n := states[|events|].node;
            && n.station.mib.Valid()
            && (GeoHeard(n.station, q, true, now).Some? <==>
                  SourceOf(q) != n.station.mib.localMid && n.accepted[KeyOf(q)] == n.forgotten[KeyOf(q)])
  {
    hide Fresh, Possible, Happen, Refreshed, WithMultiHop, C.Inv;
    HistoryKeepsInv(states, events);
    var n := states[|events|].node;
    assert HistoryInv(n);
    assert q.extended.sn in EntryOf(n.station.table, SourceOf(q)).dpl <==> KeyOf(q) in Known(n.station.table);
    assert n.accepted[KeyOf(q)] == n.forgotten[KeyOf(q)] + multiset(Known(n.station.table))[KeyOf(q)];
  }

  /** Hence a heard copy suppresses a buffered packet if and only if the packet is buffered, not
      the station's own, no longer in the source's duplicate list, and would contend again. */
  lemma SuppressesExactly(states: seq<Contender>, events: seq<Event>, q: Packet, g: Geometry, timeoutMs: real, now: U32)
    requires IsHistory(states, events) && Possible(states[|events|], Gbc(q, g, timeoutMs, now))
    ensures var c, key := states[|events|], KeyOf(q); var n := c.node;
            && (Happen(c, Gbc(q, g, timeoutMs, now)).record.suppressed != c.record.suppressed <==>
                  && key in c.record.cbf.buffer
                  && SourceOf(q) != n.station.mib.localMid && q.extended.sn !in EntryOf(n.station.table, SourceOf(q)).dpl
                  && GeoBroadcasts.GbcForwarding(Renewed(n.station, q, now), q, g, n.station.mib, true).Contend?)
            && (q.extended.sn !in EntryOf(n.station.table, SourceOf(q)).dpl <==> n.accepted[key] == n.forgotten[key])
  {
    hide Fresh, Possible, GeoBroadcasts.GbcForwarding, After, Refreshed, WithMultiHop, C.Inv;
    HistoryKeepsInv(states, events);
    var n := states[|events|].node;
    assert HistoryInv(n);
    assert q.extended.sn in EntryOf(n.station.table, SourceOf(q)).dpl <==> KeyOf(q) in Known(n.station.table);
    assert n.accepted[KeyOf(q)] == n.forgotten[KeyOf(q)] + multiset(Known(n.station.table))[KeyOf(q)];
    ContendedKey(Renewed(n.station, q, now), q, g, n.station.mib);
  }

  /** The table a GBC packet leaves that is no duplicate. */
  function Renewed(s: Station, q: Packet, now: U32): Table
    requires s.mib.Valid()
  {
    var k, pv := SourceOf(q), q.extended.soPv;
    Refreshed(s.table[k := WithMultiHop(EntryOf(s.table, k), k !in s.table, q.extended.sn, pv, |q.payload| + 12, true, s.mib)],
              s.mib, now)
  }

  /** A packet that was accepted is in its source's duplicate list, if the source's entry survived. */
  lemma AcceptedIsListed(s: Station, q: Packet, now: U32)
    requires s.mib.Valid()
    ensures var t := GeoHeard(s, q, true, now);
            t.Some? && SourceOf(q) in t.value ==> q.extended.sn in t.value[SourceOf(q)].dpl
  {
  }

  /** In any state, a packet that contends and whose source's entry survives: no copy that follows,
      whatever its time and place, changes anything, and the timer repeats the packet. */
  lemma SecondCopyIgnored(c0: Contender, q: Packet, g: Geometry, timeoutMs: real, now: U32, again: Event)
    requires c0.node.station.mib.Valid() && KeyOf(q) !in c0.record.cbf.buffer
    requires var c1 := Happen(c0, Gbc(q, g, timeoutMs, now));
             c1.record != c0.record && SourceOf(q) in c1.node.station.table
    requires again.Gbc? && KeyOf(again.q) == KeyOf(q)
    ensures var c1, t := Happen(c0, Gbc(q, g, timeoutMs, now)), c0.record.cbf.nextTimer;
            && c1.node.station.mib.Valid() && c1.record.cbf.buffer == c0.record.cbf.buffer[KeyOf(q) := t]
            && Happen(c1, again) == c1
            && t in c1.record.cbf.waiting
            && Happen(c1, Expiry(t)).record.cbf.sent == c0.record.cbf.sent + [OneHopLess(q)]
            && Happen(c1, Expiry(t)).record.suppressed == c0.record.suppressed
  {
    hide AfterMultiHop, Known, HasNeighbour, TooFast;
    AcceptedIsListed(c0.node.station, q, now);
    var c1 := Happen(c0, Gbc(q, g, timeoutMs, now));
    assert KeyOf(OneHopLess(q)) == KeyOf(q);
    ListedIsIgnored(c1.node.station, again.q, again.now);
  }

  /** So it is at a fresh station inside the area for a packet stamped 0 and heard at clock 0. */
  lemma FirstPacketContends(c0: Contender, q: Packet, g: Geometry, timeoutMs: real)
    requires Fresh(c0) && SourceOf(q) != c0.node.station.mib.localMid
    requires q.extended.soPv.tst == 0 && q.basic.rhl >= 2 && !q.common.tc.scf && g.egoInside && !g.areaTooLarge
    ensures var c1 := Happen(c0, Gbc(q, g, timeoutMs, 0));
            c1.record != c0.record && SourceOf(q) in c1.node.station.table
  {
    var k, mib := SourceOf(q), c0.node.station.mib;
    var entry := WithMultiHop(NEW_ENTRY, true, q.extended.sn, q.extended.soPv, |q.payload| + 12, true, mib);
    assert entry.pdr == 0.0 && entry.pv.tst == 0;
    assert Refreshed(map[k := entry], mib, 0) == map[k := entry];
  }

  lemma ListedIsIgnored(s: Station, q: Packet, now: U32)
    requires s.mib.Valid() && SourceOf(q) in s.table && q.extended.sn in s.table[SourceOf(q)].dpl
    ensures GeoHeard(s, q, true, now) == None
  {
  }

  /** In every run a suppression needs the duplicate detection to have forgotten the packet: two
      suppressions of a key take three forgettings, one takes one. */
  lemma SuppressionNeedsForgetting(states: seq<Contender>, events: seq<Event>, key: Key)
    requires IsHistory(states, events)
    ensures var c := states[|events|];
            2 * C.Count(c.record.suppressed, key) <= 1 + c.node.forgotten[key]
  {
    hide Fresh, Possible, Happen, Known, C.Count;
    HistoryKeepsInv(states, events);
    var c := states[|events|];
    assert C.Count(c.record.inserted, key) + C.Count(c.record.suppressed, key) <= c.node.accepted[key];
    assert C.Count(c.record.inserted, key)
           == C.Count(c.record.cbf.sent, key) + C.Count(c.record.suppressed, key) + if key in c.record.cbf.buffer then 1 else 0;
    assert c.node.accepted[key] <= c.node.forgotten[key] + 1;
  }

  /** So while the duplicate list remembers a source, a packet of it that entered the buffer is
      repeated by its timer, however many copies of it are heard meanwhile. */
  lemma RememberedNeverSuppressed(states: seq<Contender>, events: seq<Event>, key: Key)
    requires IsHistory(states, events) && Remembers(states[|events|].node, key.source)
    ensures var r := states[|events|].record;
            && C.Count(r.suppressed, key) == 0
            && C.Count(r.inserted, key) == C.Count(r.cbf.sent, key) + (if key in r.cbf.buffer then 1 else 0) <= 1
  {
    hide Fresh, Possible, Happen, Known, C.Count;
    HistoryKeepsInv(states, events);
    SuppressionNeedsForgetting(states, events, key);
    var c := states[|events|];
    assert c.node.forgotten[Key(key.source, key.sn)] == 0;
    assert C.Count(c.record.inserted, key) + C.Count(c.record.suppressed, key) <= c.node.accepted[key];
    assert C.Count(c.record.inserted, key)
           == C.Count(c.record.cbf.sent, key) + C.Count(c.record.suppressed, key) + if key in c.record.cbf.buffer then 1 else 0;
  }
}
