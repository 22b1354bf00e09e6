/** A network of stations flooding TSB and LS Request packets.  Every transmission stays on the
    air: any station may receive any copy at any time and any number of times, or never.  GUC, GBC,
    GAC and LS Reply packets are not followed through the air, but they draw from the same sequence
    numbers and the same duplicate lists, and single-hop packets touch the same tables. */
module Flooding {
  import opened Bits
  import opened Outcomes
  import opened Headers
  import opened Packets
  import opened DuplicateDetection
  import opened LocationTables
  import opened Stations

  /** A transmission: who sent it, the stations that repeated it so far, the packet as its
      source sent it. */
  datatype Copy = Copy(sender: U48, packet: Packet, path: seq<U48>, origin: Packet)

  /** A station with its history: how many sequence numbers it issued, the keys it accepted,
      those that left its rings since, and the sources whose entry it lost. */
  datatype Node = Node(station: Station, issued: nat, accepted: multiset<Key>, forgotten: multiset<Key>, dropped: set<U48>)

  datatype Net = Net(nodes: map<U48, Node>, air: seq<Copy>)

  /** The keys a station recognises as duplicates. */
  function Known(table: Table): set<Key> {
    set k, sn | k in table && sn in table[k].dpl :: Key(k, sn)
  }

  function Sources(keys: set<Key>): set<U48> {
    set key | key in keys :: key.source
  }

  /** The node after its station went to s, having accepted the keys in heard. */
  function Moved(n: Node, s: Station, heard: set<Key>): Node {
    n.(station := s,
       accepted := n.accepted + multiset(heard),
       forgotten := n.forgotten + multiset(Known(n.station.table) + heard - Known(s.table)),
       dropped := n.dropped + (n.station.table.Keys + Sources(heard) - s.table.Keys))
  }

  /** The packet a receiver decodes from the octets of q: flag bits other than bit 7 are lost. */
  function OffTheWire(q: Packet): Packet {
    q.(common := q.common.(flags := q.common.flags / 128 * 128))
  }

  /** What sources put on the air: encodable, reserved bits zero, no more hops than the maximum. */
  predicate WellFormed(q: Packet) {
    Flooded(q) && EncodePacket(q).Ok? && q.common.reserved == 0 && q.basic.rhl <= q.common.mhl
  }

  // ---------------------------------------------------------------- steps

  datatype Step =
    | Originate(a: U48, q: Packet)
    | Receive(a: U48, i: nat, now: U32)
    | HearSingleHop(a: U48, pv: LongPositionVector, size: nat, now: U32)
    | IssueOther(a: U48)       // a GUC, GBC, GAC or LS Reply packet is sent under the next number
    | HearOther(a: U48, sn: U16, pv: LongPositionVector, size: nat, geoBroadcast: bool, now: U32)   // and one is heard
    | EnsureEntry(a: U48, k: U48, pending: bool)   // the Location Service makes or marks an entry

  predicate Enabled(net: Net, step: Step) {
    step.a in net.nodes && net.nodes[step.a].station.mib.Valid() &&
    match step
    case Originate(a, q) =>
      WellFormed(q) && SourceOf(q) == a && q.extended.sn == NextSn(net.nodes[a].station.sn)
    case Receive(a, i, _) => i < |net.air| && Flooded(net.air[i].packet)
    case HearSingleHop(_, _, _, _) => true
    case IssueOther(_) => true
    case HearOther(_, sn, pv, _, _, _) => WasIssued(net, Key(pv.gnAddr.mid, sn))
    case EnsureEntry(_, _, _) => true
  }

  /** The node after its table became t, if it did, on accepting the key. */
  function After(n: Node, t: Option<Table>, key: Key): Node {
    match t
    case None => n
    case Some(table) => Moved(n, n.station.(table := table), {key})
  }

  function Marked(table: Table, k: U48, pending: bool): Table {
    table[k := EntryOf(table, k).(lsPending := pending)]
  }

  /** The table after a packet with a sequence number, None for the station's own and duplicates. */
  function OtherHeard(s: Station, sn: U16, pv: LongPositionVector, size: nat, geoBroadcast: bool, now: U32): Option<Table>
    requires s.mib.Valid()
  {
    if pv.gnAddr.mid == s.mib.localMid then None else AfterMultiHop(s.table, sn, pv, size, geoBroadcast, s.mib, now)
  }

  function Received(n: Node, q: Packet, now: U32): Node
    requires n.station.mib.Valid() && Flooded(q)
  {
    var o := Indicate(n.station, q, now);
    Moved(n, o.station, if Heard(n.station, q, now).Some? then {KeyOf(q)} else {})
      .(issued := n.issued + if o.reply.Some? then 1 else 0)
  }

  /** What a step does to the station taking it, and what it transmits. */
  function Effect(net: Net, step: Step): (Node, Option<Copy>)
    requires Enabled(net, step)
  {
    var n := net.nodes[step.a];
    match step
    case Originate(a, q) =>
      (n.(station := n.station.(sn := q.extended.sn), issued := n.issued + 1), Some(Copy(a, q, [], q)))
    case Receive(a, i, now) =>
      var c := net.air[i];
      var o := Indicate(n.station, OffTheWire(c.packet), now);
      (Received(n, OffTheWire(c.packet), now),
       if o.repeated.Some? then Some(Copy(a, o.repeated.value, c.path + [a], c.origin)) else None)
    case HearSingleHop(a, pv, size, now) =>
      (Moved(n, n.station.(table := AfterSingleHop(n.station.table, pv, size, n.station.mib, now)), {}), None)
    case IssueOther(a) =>
      (n.(station := n.station.(sn := NextSn(n.station.sn)), issued := n.issued + 1), None)
    case HearOther(a, sn, pv, size, geoBroadcast, now) =>
      (After(n, OtherHeard(n.station, sn, pv, size, geoBroadcast, now), Key(pv.gnAddr.mid, sn)), None)
    case EnsureEntry(a, k, pending) =>
      (Moved(n, n.station.(table := Marked(n.station.table, k, pending)), {}), None)
  }

  function Next(net: Net, step: Step): Net
    requires Enabled(net, step)
  {
    var (n, sent) := Effect(net, step);
    Net(net.nodes[step.a := n], net.air + AsSeq(sent))
  }

  /** Every station starts under its own address, with nothing heard or sent. */
  predicate Initial(net: Net) {
    && net.air == []
    && (forall a | a in net.nodes ::
          && net.nodes[a].station.mib.localMid == a && net.nodes[a].station.mib.Valid()
          && net.nodes[a] == Node(Station(net.nodes[a].station.mib, map[], 0), 0, multiset{}, multiset{}, {}))
  }

  /** A run: the networks it went through, from an initial one, and the steps between them. */
  ghost predicate IsRun(trace: seq<Net>, steps: seq<Step>) {
    && |trace| == |steps| + 1 && Initial(trace[0])
    && (forall i {:trigger steps[i]} | 0 <= i < |steps| :: Enabled(trace[i], steps[i]) && trace[i + 1] == Next(trace[i], steps[i]))
  }

  // ---------------------------------------------------------------- duplicate detection of one station

  ghost predicate Rings(table: Table, n: nat) {
    forall k | k in table :: Distinct(table[k].dpl) && |table[k].dpl| <= n
  }

  /** Numbers of one source that a node accepted. */
  function AcceptedSns(accepted: multiset<Key>, source: U48): set<U16> {
    set key | key in accepted && key.source == source :: key.sn
  }

  /** Nothing of this source was forgotten. */
  ghost predicate Remembers(n: Node, source: U48) {
    forall sn: U16 :: n.forgotten[Key(source, sn)] == 0
  }

  /** The duplicate detection history of a node, whatever it heard. */
  ghost predicate HistoryInv(n: Node) {
    && Rings(n.station.table, n.station.mib.dplLength)
    && n.accepted == n.forgotten + multiset(Known(n.station.table))
    && (forall source: U48 ::
          source !in n.dropped && |AcceptedSns(n.accepted, source)| <= n.station.mib.dplLength ==>
            Remembers(n, source))
  }

  /** What hearing does to the table: rings stay rings, nothing is known that was not heard, a
      key leaves an entry that stays only when a new number pushes it out of a full ring. */
  ghost predicate TableStep(old_: Table, new_: Table, n: nat, heard: set<Key>) {
    && Rings(new_, n)
    && Known(new_) <= Known(old_) + heard
    && heard !! Known(old_)
    && (forall k, sn: U16 | k in new_ && Key(k, sn) in Known(old_) + heard && Key(k, sn) !in Known(new_) ::
          PushedOut(old_, n, heard, k))
  }

  ghost predicate PushedOut(old_: Table, n: nat, heard: set<Key>, k: U48) {
    k in old_ && |old_[k].dpl| == n && k in Sources(heard)
  }

  /** One ring took in a number it did not hold, the other entries stayed or were dropped. */
  lemma RingPushed(table: Table, t: Table, n: nat, k: U48, sn: U16)
    requires 0 < n && Rings(table, n) && sn !in EntryOf(table, k).dpl
    requires k in t ==> t[k].dpl == Pushed(EntryOf(table, k).dpl, n, sn)
    requires forall j | j in t && j != k :: j in table && t[j].dpl == table[j].dpl
    ensures TableStep(table, t, n, {Key(k, sn)})
  {
    var key, dpl := Key(k, sn), EntryOf(table, k).dpl;
    var ring := Pushed(dpl, n, sn);
    assert Known(t) <= Known(table) + {key} by {
      forall x | x in Known(t) ensures x in Known(table) + {key} {
        if x.source == k {
          assert x.sn in ring;
        }
      }
    }
    assert forall j, m: U16 | j in t && j != k && Key(j, m) in Known(table) + {key} :: Key(j, m) in Known(t);
    forall j, m: U16 | j in t && Key(j, m) in Known(table) + {key} && Key(j, m) !in Known(t)
      ensures PushedOut(table, n, {key}, j)
    {
      if j != k {
        assert false;
      }
      assert m !in ring && ring[|ring| - 1] == sn;
      assert m in dpl;
      assert key.source == j;
    }
  }

  lemma MultiHopTable(table: Table, mib: Mib, sn: U16, pv: LongPositionVector, size: nat, geoBroadcast: bool, now: U32)
    requires mib.Valid() && Rings(table, mib.dplLength)
    requires AfterMultiHop(table, sn, pv, size, geoBroadcast, mib, now).Some?
    ensures TableStep(table, AfterMultiHop(table, sn, pv, size, geoBroadcast, mib, now).value, mib.dplLength,
                      {Key(pv.gnAddr.mid, sn)})
  {
    hide TableStep, Rings, Pushed;
    RingPushed(table, AfterMultiHop(table, sn, pv, size, geoBroadcast, mib, now).value, mib.dplLength, pv.gnAddr.mid, sn);
  }

  lemma HeardTable(s: Station, q: Packet, now: U32)
    requires s.mib.Valid() && Rings(s.table, s.mib.dplLength) && Heard(s, q, now).Some?
    ensures TableStep(s.table, Heard(s, q, now).value, s.mib.dplLength, {KeyOf(q)})
  {
    hide AfterMultiHop, TableStep, Rings;
    MultiHopTable(s.table, s.mib, q.extended.sn, q.extended.soPv, |q.payload| + 12, false, now);
  }

  lemma SingleHopTable(s: Station, pv: LongPositionVector, size: nat, now: U32)
    requires Rings(s.table, s.mib.dplLength)
    ensures TableStep(s.table, AfterSingleHop(s.table, pv, size, s.mib, now), s.mib.dplLength, {})
  {
  }

  lemma MarkedTable(table: Table, n: nat, k: U48, pending: bool)
    requires Rings(table, n)
    ensures TableStep(table, Marked(table, k, pending), n, {})
  {
    var t := Marked(table, k, pending);
    assert forall j | j in t :: t[j].dpl == EntryOf(table, j).dpl;
    assert forall j, sn: U16 | j in t && Key(j, sn) in Known(table) :: sn in t[j].dpl;
  }

  function Members(s: seq<U16>): set<U16> {
    set x | x in s
  }

  lemma {:induction false} DistinctCount(s: seq<U16>)
    requires Distinct(s)
    ensures |Members(s)| == |s|
  {
    if s == [] {
      assert Members(s) == {};
    } else {
      var front, last := s[..|s| - 1], s[|s| - 1];
      DistinctCount(front);
      assert last !in Members(front);
      assert Members(s) == Members(front) + {last};
    }
  }

  lemma IsAccepted(accepted: multiset<Key>, key: Key)
    requires key in accepted
    ensures key.sn in AcceptedSns(accepted, key.source)
  {
  }

  /** A number pushed out means more numbers of that source were accepted than the ring holds. */
  lemma PushedOutCount(n: Node, heard: set<Key>, k: U48)
    requires HistoryInv(n) && heard !! Known(n.station.table)
    requires PushedOut(n.station.table, n.station.mib.dplLength, heard, k)
    ensures |AcceptedSns(n.accepted + multiset(heard), k)| > n.station.mib.dplLength
  {
    hide AcceptedSns, Remembers;
    var table, ring, accepted := n.station.table, n.station.table[k].dpl, n.accepted + multiset(heard);
    var key :| key in heard && key.source == k;
    var inRing := Members(ring);
    DistinctCount(ring);
    IsAccepted(accepted, key);
    forall x | x in inRing ensures x in AcceptedSns(accepted, k) {
      assert Key(k, x) in multiset(Known(table));
      IsAccepted(accepted, Key(k, x));
    }
    assert Key(k, key.sn) !in Known(table);
    assert key.sn !in inRing;
    SubsetCount(inRing + {key.sn}, AcceptedSns(accepted, k));
  }

  lemma {:induction false} SubsetCount<T>(a: set<T>, b: set<T>)
    requires a <= b
    ensures |a| <= |b|
  {
    if a != {} {
      var x :| x in a;
      SubsetCount(a - {x}, b - {x});
    }
  }

  /** The history survives every way of hearing. */
  lemma MovedKeepsHistory(n: Node, s: Station, heard: set<Key>)
    requires HistoryInv(n) && s.mib == n.station.mib
    requires TableStep(n.station.table, s.table, s.mib.dplLength, heard)
    ensures HistoryInv(Moved(n, s, heard))
  {
    hide Rings;
    var m := Moved(n, s, heard);
    var before, after := Known(n.station.table), Known(s.table);
    assert multiset(before + heard) == multiset(before) + multiset(heard);
    assert multiset(before + heard) == multiset(before + heard - after) + multiset(after);
    forall k: U48 | k !in m.dropped && |AcceptedSns(m.accepted, k)| <= s.mib.dplLength
      ensures Remembers(m, k)
    {
      RemembersStill(n, s, heard, k);
    }
  }

  lemma RemembersStill(n: Node, s: Station, heard: set<Key>, k: U48)
    requires HistoryInv(n) && s.mib == n.station.mib
    requires TableStep(n.station.table, s.table, s.mib.dplLength, heard)
    requires k !in Moved(n, s, heard).dropped
    requires |AcceptedSns(Moved(n, s, heard).accepted, k)| <= s.mib.dplLength
    ensures Remembers(Moved(n, s, heard), k)
  {
    hide Rings;
    var m := Moved(n, s, heard);
    var before, after := Known(n.station.table), Known(s.table);
    assert AcceptedSns(n.accepted, k) <= AcceptedSns(m.accepted, k);
    SubsetCount(AcceptedSns(n.accepted, k), AcceptedSns(m.accepted, k));
    assert Remembers(n, k);
    forall sn: U16 ensures m.forgotten[Key(k, sn)] == 0 {
      if Key(k, sn) in before + heard - after {
        assert k in n.station.table.Keys + Sources(heard) by {
          if Key(k, sn) in heard {
            assert Key(k, sn).source in Sources(heard);
          }
        }
        assert k in s.table;
        PushedOutCount(n, heard, k);
      }
    }
  }

  // ---------------------------------------------------------------- counting transmissions

  /** How many of the first k numbers of a source are sn. */
  function Occurrences(sn: U16, k: nat): nat {
    if k == 0 then 0 else Occurrences(sn, k - 1) + if k % SN_MODULUS == sn then 1 else 0
  }

  /** A number comes back once in 65535. */
  lemma {:induction false} OccurrencesBound(sn: U16, k: nat)
    ensures Occurrences(sn, k) <= (k + SN_MODULUS - 1) / SN_MODULUS
  {
    OccurrencesExactly(sn, k);
  }

  lemma {:induction false} OccurrencesExactly(sn: U16, k: nat)
    ensures Occurrences(sn, k) == if sn == SN_MODULUS then 0
                                  else if sn == 0 then k / SN_MODULUS
                                  else (k + SN_MODULUS - sn) / SN_MODULUS
  {
    if k > 0 {
      OccurrencesExactly(sn, k - 1);
    }
  }

  /** How often station a repeated the packet with this key. */
  function Repeats(air: seq<Copy>, a: U48, key: Key): nat {
    if air == [] then 0
    else
      var c := air[|air| - 1];
      Repeats(air[..|air| - 1], a, key) + if c.path != [] && c.sender == a && KeyOf(c.packet) == key then 1 else 0
  }

  /** How often the source sent a packet under this key. */
  function Originals(air: seq<Copy>, key: Key): nat {
    if air == [] then 0
    else
      var c := air[|air| - 1];
      Originals(air[..|air| - 1], key) + if c.path == [] && KeyOf(c.packet) == key then 1 else 0
  }

  /** How often any station transmitted a packet with this key. */
  function Transmissions(air: seq<Copy>, key: Key): nat {
    if air == [] then 0
    else Transmissions(air[..|air| - 1], key) + if KeyOf(air[|air| - 1].packet) == key then 1 else 0
  }

  // ---------------------------------------------------------------- invariant

  predicate WasIssued(net: Net, key: Key) {
    key.source in net.nodes && Occurrences(key.sn, net.nodes[key.source].issued) > 0
  }

  ghost predicate NodeInv(net: Net, a: U48)
    requires a in net.nodes
  {
    var n := net.nodes[a];
    && HistoryInv(n)
    && n.station.mib.Valid() && n.station.mib.localMid == a
    && n.station.sn == n.issued % SN_MODULUS
    && (forall key | key in n.accepted :: key.source != a && WasIssued(net, key))
  }

  ghost predicate CopyInv(net: Net, c: Copy) {
    var source, hops := SourceOf(c.origin), |c.path|;
    && WellFormed(c.origin) && WasIssued(net, KeyOf(c.origin))
    && c.packet == (if hops == 0 then c.origin else OffTheWire(c.origin)).(basic := SetRhl(c.origin.basic, c.origin.basic.rhl - hops))
    && c.packet.basic.rhl == c.origin.basic.rhl - hops && (hops > 0 ==> c.packet.basic.rhl >= 1)
    && c.sender in net.nodes
    && c.sender == (if hops == 0 then source else c.path[hops - 1])
    && (hops > 0 ==> c.sender != source)
    && Copy(source, c.origin, [], c.origin) in net.air
  }

  ghost predicate CountInv(net: Net) {
    && (forall a, key: Key | a in net.nodes :: Repeats(net.air, a, key) <= net.nodes[a].accepted[key])
    && (forall key: Key | key.source in net.nodes ::
          Originals(net.air, key) <= Occurrences(key.sn, net.nodes[key.source].issued))
  }

  ghost predicate NetInv(net: Net) {
    && (forall a | a in net.nodes :: NodeInv(net, a))
    && (forall c | c in net.air :: CopyInv(net, c))
    && CountInv(net)
  }

  lemma ReceivedFacts(n: Node, q: Packet, now: U32)
    requires n.station.mib.Valid() && Flooded(q) && HistoryInv(n)
    requires n.station.sn == n.issued % SN_MODULUS
    ensures var r := Received(n, q, now);
            && HistoryInv(r) && r.station.mib == n.station.mib
            && r.station.sn == r.issued % SN_MODULUS && n.issued <= r.issued
            && r.accepted == n.accepted + multiset(if Heard(n.station, q, now).Some? then {KeyOf(q)} else {})
  {
    hide HistoryInv, Heard, Indicate, WithinRate, Known, TableStep;
    IndicatedExactly(n.station, q, now);
    NextOfMod(n.issued);
    var heard := if Heard(n.station, q, now).Some? then {KeyOf(q)} else {};
    var s := Indicate(n.station, q, now).station;
    assert TableStep(n.station.table, s.table, s.mib.dplLength, heard) by {
      HistoryRings(n);
      if Heard(n.station, q, now).Some? {
        HeardTable(n.station, q, now);
      } else {
        SameTable(n.station.table, s.mib.dplLength);
      }
    }
    MovedKeepsHistory(n, s, heard);
    HistoryIgnoresIssued(Moved(n, s, heard), Received(n, q, now).issued);
  }

  lemma HistoryRings(n: Node)
    requires HistoryInv(n)
    ensures Rings(n.station.table, n.station.mib.dplLength)
  {
  }

  lemma SameTable(table: Table, n: nat)
    requires Rings(table, n)
    ensures TableStep(table, table, n, {})
  {
  }

  lemma HistoryIgnoresIssued(n: Node, issued: nat)
    requires HistoryInv(n)
    ensures HistoryInv(n.(issued := issued))
  {
  }

  // ---------------------------------------------------------------- one step

  /** The copy is a packet the station sends under its next number. */
  ghost predicate IsOriginal(n: Node, after: Node, a: U48, c: Copy) {
    && c == Copy(a, c.packet, [], c.packet) && WellFormed(c.packet)
    && KeyOf(c.packet) == Key(a, (n.issued + 1) % SN_MODULUS)
    && after.issued == n.issued + 1 && after.accepted == n.accepted
  }

  /** The copy repeats one on the air, with one hop less left, on its key being accepted. */
  ghost predicate IsRepeat(net: Net, n: Node, after: Node, a: U48, c: Copy) {
    && (exists b | b in net.air ::
          && c.packet == OffTheWire(b.packet).(basic := SetRhl(b.packet.basic, b.packet.basic.rhl - 1))
          && c.packet.basic.rhl == b.packet.basic.rhl - 1 >= 1 && c.path == b.path + [a] && c.origin == b.origin)
    && c.sender == a && SourceOf(c.packet) != a
    && after.accepted == n.accepted + multiset{KeyOf(c.packet)}
  }

  ghost predicate NodeEffect(net: Net, a: U48, after: Node)
    requires a in net.nodes
  {
    var n := net.nodes[a];
    && HistoryInv(after) && after.station.mib == n.station.mib
    && after.station.sn == after.issued % SN_MODULUS
    && n.issued <= after.issued && n.accepted <= after.accepted
    && (forall key | key in after.accepted :: key.source != a && WasIssued(net, key))
  }

  ghost predicate EffectInv(net: Net, a: U48, after: Node, sent: Option<Copy>)
    requires a in net.nodes
  {
    && NodeEffect(net, a, after)
    && (sent.Some? ==> IsOriginal(net.nodes[a], after, a, sent.value) || IsRepeat(net, net.nodes[a], after, a, sent.value))
  }

  lemma OwnNotHeard(s: Station, q: Packet, now: U32)
    requires s.mib.Valid()
    ensures Heard(s, q, now).Some? ==> SourceOf(q) != s.mib.localMid
  {
  }

  lemma OnlyHeardRepeated(s: Station, q: Packet, now: U32)
    requires s.mib.Valid() && Flooded(q)
    ensures Indicate(s, q, now).repeated.Some? ==> Heard(s, q, now).Some? && Indicate(s, q, now).repeated == Repeat(q)
  {
  }

  lemma KeyOfCopy(net: Net, c: Copy)
    requires CopyInv(net, c)
    ensures Flooded(c.packet) && WasIssued(net, KeyOf(c.packet))
  {
  }

  lemma WireKeeps(q: Packet)
    ensures KeyOf(OffTheWire(q)) == KeyOf(q) && (Flooded(OffTheWire(q)) <==> Flooded(q))
  {
  }

  lemma ReceiveKept(net: Net, a: U48, i: nat, now: U32)
    requires NetInv(net) && Enabled(net, Receive(a, i, now))
    ensures NodeEffect(net, a, Received(net.nodes[a], OffTheWire(net.air[i].packet), now))
  {
    hide HistoryInv, Heard, CountInv, Received, Flooded, WasIssued, CopyInv;
    var n, c := net.nodes[a], net.air[i];
    assert NodeInv(net, a) && CopyInv(net, c);
    WireKeeps(c.packet);
    ReceivedFacts(n, OffTheWire(c.packet), now);
    OwnNotHeard(n.station, OffTheWire(c.packet), now);
    KeyOfCopy(net, c);
  }

  lemma RepeatedCopy(net: Net, a: U48, i: nat, now: U32)
    requires NetInv(net) && Enabled(net, Receive(a, i, now)) && Effect(net, Receive(a, i, now)).1.Some?
    ensures var (after, sent) := Effect(net, Receive(a, i, now)); IsRepeat(net, net.nodes[a], after, a, sent.value)
  {
    hide HistoryInv, Heard, CountInv, CopyInv, Received, Indicate, Flooded, WasIssued, Moved, AfterSingleHop;
    var n, c := net.nodes[a], net.air[i];
    var (after, sent) := Effect(net, Receive(a, i, now));
    assert NodeInv(net, a);
    WireKeeps(c.packet);
    OnlyHeardRepeated(n.station, OffTheWire(c.packet), now);
    OwnNotHeard(n.station, OffTheWire(c.packet), now);
    ReceivedFacts(n, OffTheWire(c.packet), now);
    assert c in net.air && sent.value == Copy(a, Repeat(OffTheWire(c.packet)).value, c.path + [a], c.origin);
    assert KeyOf(sent.value.packet) == KeyOf(c.packet);
  }

  lemma OriginateKept(net: Net, a: U48, q: Packet)
    requires NetInv(net) && Enabled(net, Originate(a, q))
    ensures var (after, sent) := Effect(net, Originate(a, q)); EffectInv(net, a, after, sent)
  {
    hide HistoryInv, CountInv, CopyInv, WellFormed, WasIssued;
    var n := net.nodes[a];
    assert NodeInv(net, a);
    HistoryIgnoresSn(n, q.extended.sn);
    HistoryIgnoresIssued(n.(station := n.station.(sn := q.extended.sn)), n.issued + 1);
    NextOfMod(n.issued);
  }

  lemma IssueKept(net: Net, a: U48)
    requires NetInv(net) && Enabled(net, IssueOther(a))
    ensures NodeEffect(net, a, Effect(net, IssueOther(a)).0)
  {
    hide HistoryInv, CountInv, CopyInv, WasIssued;
    var n := net.nodes[a];
    assert NodeInv(net, a);
    HistoryIgnoresSn(n, NextSn(n.station.sn));
    HistoryIgnoresIssued(n.(station := n.station.(sn := NextSn(n.station.sn))), n.issued + 1);
    NextOfMod(n.issued);
  }

  /** The history survives packets of every kind that carry a number. */
  lemma AfterKeeps(n: Node, t: Option<Table>, sn: U16, pv: LongPositionVector, size: nat, geoBroadcast: bool, now: U32)
    requires n.station.mib.Valid() && HistoryInv(n)
    requires t.Some? ==> t == AfterMultiHop(n.station.table, sn, pv, size, geoBroadcast, n.station.mib, now)
    ensures var key := Key(pv.gnAddr.mid, sn); var m := After(n, t, key);
            && HistoryInv(m) && m.issued == n.issued
            && m.station.mib == n.station.mib && m.station.sn == n.station.sn
            && m.accepted == n.accepted + multiset(if t.Some? then {key} else {})
  {
    hide HistoryInv, AfterMultiHop, TableStep, Known;
    HistoryRings(n);
    if t.Some? {
      MultiHopTable(n.station.table, n.station.mib, sn, pv, size, geoBroadcast, now);
      MovedKeepsHistory(n, n.station.(table := t.value), {Key(pv.gnAddr.mid, sn)});
    }
  }

  lemma HearKept(net: Net, a: U48, sn: U16, pv: LongPositionVector, size: nat, geoBroadcast: bool, now: U32)
    requires NetInv(net) && Enabled(net, HearOther(a, sn, pv, size, geoBroadcast, now))
    ensures NodeEffect(net, a, Effect(net, HearOther(a, sn, pv, size, geoBroadcast, now)).0)
  {
    hide HistoryInv, CountInv, CopyInv, WasIssued, After, AfterMultiHop;
    var n := net.nodes[a];
    assert NodeInv(net, a);
    AfterKeeps(n, OtherHeard(n.station, sn, pv, size, geoBroadcast, now), sn, pv, size, geoBroadcast, now);
  }

  lemma EffectKept(net: Net, step: Step)
    requires NetInv(net) && Enabled(net, step)
    ensures var (after, sent) := Effect(net, step); EffectInv(net, step.a, after, sent)
  {
    hide HistoryInv, CountInv, CopyInv, Indicate, Received, AfterSingleHop, WasIssued, Flooded, IsRepeat, IsOriginal;
    hide After, OtherHeard, Marked;
    var n := net.nodes[step.a];
    assert NodeInv(net, step.a);
    match step
    case Originate(a, q) =>
      OriginateKept(net, a, q);
    case Receive(a, i, now) =>
      ReceiveKept(net, a, i, now);
      if Effect(net, step).1.Some? {
        RepeatedCopy(net, a, i, now);
      }
    case HearSingleHop(a, pv, size, now) =>
      HistoryRings(n);
      SingleHopTable(n.station, pv, size, now);
      MovedKeepsHistory(n, n.station.(table := AfterSingleHop(n.station.table, pv, size, n.station.mib, now)), {});
    case IssueOther(a) =>
      IssueKept(net, a);
    case HearOther(a, sn, pv, size, geoBroadcast, now) =>
      HearKept(net, a, sn, pv, size, geoBroadcast, now);
    case EnsureEntry(a, k, pending) =>
      HistoryRings(n);
      MarkedTable(n.station.table, n.station.mib.dplLength, k, pending);
      MovedKeepsHistory(n, n.station.(table := Marked(n.station.table, k, pending)), {});
  }

  lemma HistoryIgnoresSn(n: Node, sn: U16)
    requires HistoryInv(n)
    ensures HistoryInv(n.(station := n.station.(sn := sn)))
  {
  }

  lemma {:induction false} OccurrencesGrow(sn: U16, k: nat, l: nat)
    requires k <= l
    ensures Occurrences(sn, k) <= Occurrences(sn, l)
  {
    if k < l {
      OccurrencesGrow(sn, k, l - 1);
    }
  }

  lemma IssuedStays(net: Net, a: U48, after: Node, air: seq<Copy>, key: Key)
    requires a in net.nodes && net.nodes[a].issued <= after.issued && WasIssued(net, key)
    ensures WasIssued(Net(net.nodes[a := after], air), key)
  {
    if key.source == a {
      OccurrencesGrow(key.sn, net.nodes[a].issued, after.issued);
    }
  }

  lemma NodesKept(net: Net, a: U48, after: Node, sent: Option<Copy>, b: U48)
    requires NetInv(net) && a in net.nodes && EffectInv(net, a, after, sent) && b in net.nodes
    ensures NodeInv(Net(net.nodes[a := after], net.air + AsSeq(sent)), b)
  {
    hide HistoryInv, CountInv, IsOriginal, IsRepeat, WasIssued;
    var next := Net(net.nodes[a := after], net.air + AsSeq(sent));
    assert NodeInv(net, b) && NodeInv(net, a);
    forall key | key in next.nodes[b].accepted ensures key.source != b && WasIssued(next, key) {
      IssuedStays(net, a, after, next.air, key);
    }
  }

  lemma CopiesKept(net: Net, a: U48, after: Node, sent: Option<Copy>, c: Copy)
    requires NetInv(net) && a in net.nodes && EffectInv(net, a, after, sent) && c in net.air
    ensures CopyInv(Net(net.nodes[a := after], net.air + AsSeq(sent)), c)
  {
    hide HistoryInv, CountInv, IsOriginal, IsRepeat, WasIssued;
    assert CopyInv(net, c);
    IssuedStays(net, a, after, net.air + AsSeq(sent), KeyOf(c.origin));
  }

  lemma OriginalKept(net: Net, a: U48, after: Node, sent: Copy)
    requires a in net.nodes && IsOriginal(net.nodes[a], after, a, sent)
    ensures CopyInv(Net(net.nodes[a := after], net.air + [sent]), sent)
  {
    hide WasIssued, WellFormed;
    var air := net.air + [sent];
    assert sent in air;
    JustIssued(Net(net.nodes[a := after], air), KeyOf(sent.packet));
  }

  lemma RepeatKept(net: Net, a: U48, after: Node, sent: Copy)
    requires a in net.nodes && net.nodes[a].issued <= after.issued
    requires forall c | c in net.air :: CopyInv(net, c)
    requires IsRepeat(net, net.nodes[a], after, a, sent)
    ensures CopyInv(Net(net.nodes[a := after], net.air + [sent]), sent)
  {
    hide WasIssued, WellFormed;
    var b :| b in net.air
      && sent.packet == OffTheWire(b.packet).(basic := SetRhl(b.packet.basic, b.packet.basic.rhl - 1))
      && sent.packet.basic.rhl == b.packet.basic.rhl - 1 >= 1 && sent.path == b.path + [a] && sent.origin == b.origin;
    assert CopyInv(net, b);
    IssuedStays(net, a, after, net.air + [sent], KeyOf(b.origin));
    assert SourceOf(sent.packet) == SourceOf(b.origin);
  }

  lemma SentKept(net: Net, a: U48, after: Node, sent: Copy)
    requires NetInv(net) && a in net.nodes && EffectInv(net, a, after, Some(sent))
    ensures CopyInv(Net(net.nodes[a := after], net.air + [sent]), sent)
  {
    hide HistoryInv, CountInv, WasIssued, CopyInv, NodeInv;
    if IsOriginal(net.nodes[a], after, a, sent) {
      OriginalKept(net, a, after, sent);
    } else {
      RepeatKept(net, a, after, sent);
    }
  }

  lemma JustIssued(net: Net, key: Key)
    requires key.source in net.nodes && net.nodes[key.source].issued > 0
    requires key.sn == net.nodes[key.source].issued % SN_MODULUS
    ensures WasIssued(net, key)
  {
  }

  lemma RepeatsCounted(net: Net, a: U48, after: Node, sent: Option<Copy>, b: U48, key: Key)
    requires CountInv(net) && a in net.nodes && EffectInv(net, a, after, sent) && b in net.nodes
    ensures Repeats(net.air + AsSeq(sent), b, key) <= net.nodes[a := after][b].accepted[key]
  {
    hide HistoryInv, WasIssued, Occurrences, Repeats, Originals, WellFormed, KeyOf;
    if sent.Some? {
      RepeatsAdded(net.air, sent.value, b, key);
    } else {
      assert net.air + AsSeq(sent) == net.air;
    }
  }

  lemma OriginalsCounted(net: Net, a: U48, after: Node, sent: Option<Copy>, key: Key)
    requires CountInv(net) && a in net.nodes && EffectInv(net, a, after, sent) && key.source in net.nodes
    ensures Originals(net.air + AsSeq(sent), key) <= Occurrences(key.sn, net.nodes[a := after][key.source].issued)
  {
    hide HistoryInv, WasIssued, Occurrences, Repeats, Originals, WellFormed, KeyOf;
    OccurrencesGrow(key.sn, net.nodes[a].issued, after.issued);
    if sent.Some? {
      OriginalsAdded(net.air, sent.value, key);
      OccurrencesNext(key.sn, net.nodes[a].issued);
    } else {
      assert net.air + AsSeq(sent) == net.air;
    }
  }

  lemma CountsKept(net: Net, a: U48, after: Node, sent: Option<Copy>)
    requires CountInv(net) && a in net.nodes && EffectInv(net, a, after, sent)
    ensures CountInv(Net(net.nodes[a := after], net.air + AsSeq(sent)))
  {
    hide EffectInv, Occurrences, Repeats, Originals;
    var next := Net(net.nodes[a := after], net.air + AsSeq(sent));
    forall b, key: Key | b in next.nodes ensures Repeats(next.air, b, key) <= next.nodes[b].accepted[key] {
      RepeatsCounted(net, a, after, sent, b, key);
    }
    forall key: Key | key.source in next.nodes
      ensures Originals(next.air, key) <= Occurrences(key.sn, next.nodes[key.source].issued)
    {
      OriginalsCounted(net, a, after, sent, key);
    }
  }

  lemma RepeatsAdded(air: seq<Copy>, c: Copy, a: U48, key: Key)
    ensures Repeats(air + [c], a, key)
            == Repeats(air, a, key) + if c.path != [] && c.sender == a && KeyOf(c.packet) == key then 1 else 0
  {
  }

  lemma OriginalsAdded(air: seq<Copy>, c: Copy, key: Key)
    ensures Originals(air + [c], key) == Originals(air, key) + if c.path == [] && KeyOf(c.packet) == key then 1 else 0
  {
  }

  lemma OccurrencesNext(sn: U16, k: nat)
    ensures Occurrences(sn, k + 1) == Occurrences(sn, k) + if (k + 1) % SN_MODULUS == sn then 1 else 0
  {
  }

  lemma NextKeepsInv(net: Net, step: Step)
    requires NetInv(net) && Enabled(net, step)
    ensures NetInv(Next(net, step)) && Next(net, step).nodes.Keys == net.nodes.Keys
  {
    hide NodeInv, CopyInv, CountInv, EffectInv, Effect;
    var (after, sent) := Effect(net, step);
    var a, next := step.a, Next(net, step);
    EffectKept(net, step);
    forall b | b in next.nodes ensures NodeInv(next, b) {
      NodesKept(net, a, after, sent, b);
    }
    forall c | c in next.air ensures CopyInv(next, c) {
      if c in net.air {
        CopiesKept(net, a, after, sent, c);
      } else {
        SentKept(net, a, after, sent.value);
      }
    }
    CountsKept(net, a, after, sent);
  }

  lemma InitialInv(net: Net)
    requires Initial(net)
    ensures NetInv(net)
  {
  }

  lemma EarlierRun(trace: seq<Net>, steps: seq<Step>)
    requires IsRun(trace, steps) && steps != []
    ensures IsRun(trace[..|steps|], steps[..|steps| - 1])
    ensures Enabled(trace[|steps| - 1], steps[|steps| - 1])
    ensures trace[|steps|] == Next(trace[|steps| - 1], steps[|steps| - 1])
  {
    hide Initial, Enabled, Next;
    var front := steps[..|steps| - 1];
    assert forall i {:trigger front[i]} | 0 <= i < |front| :: front[i] == steps[i];
  }

  lemma {:induction false} RunKeepsInv(trace: seq<Net>, steps: seq<Step>)
    requires IsRun(trace, steps)
    ensures NetInv(trace[|steps|]) && trace[|steps|].nodes.Keys == trace[0].nodes.Keys
    decreases |steps|
  {
    hide Initial, NetInv, Enabled, Next;
    if steps == [] {
      InitialInv(trace[0]);
    } else {
      EarlierRun(trace, steps);
      RunKeepsInv(trace[..|steps|], steps[..|steps| - 1]);
      NextKeepsInv(trace[|steps| - 1], steps[|steps| - 1]);
    }
  }

  // ---------------------------------------------------------------- theorems about every run

  /** How often a station repeats a packet is bounded by how often its ring forgot it, whatever
      the network does; the source never repeats its own. */
  lemma RepeatsBounded(trace: seq<Net>, steps: seq<Step>, a: U48, key: Key)
    requires IsRun(trace, steps) && a in trace[|steps|].nodes
    ensures var end := trace[|steps|];
            Repeats(end.air, a, key) <= if a == key.source then 0 else 1 + end.nodes[a].forgotten[key]
  {
    hide Initial, Enabled, Next, Rings, Repeats, Originals;
    RunKeepsInv(trace, steps);
    var end := trace[|steps|];
    assert NodeInv(end, a);
    assert Repeats(end.air, a, key) <= end.nodes[a].accepted[key];
  }

  /** A station accepts a packet exactly when it is not its own and its ring has forgotten every
      earlier acceptance; without a Covers guarantee the same packet is accepted again. */
  lemma AcceptedIffForgotten(trace: seq<Net>, steps: seq<Step>, a: U48, q: Packet, now: U32)
    requires IsRun(trace, steps) && a in trace[|steps|].nodes
    ensures var n := trace[|steps|].nodes[a];
            && n.station.mib.Valid()
            && (Heard(n.station, q, now).Some? <==>
                  a != SourceOf(q) && n.accepted[KeyOf(q)] == n.forgotten[KeyOf(q)])
  {
    hide Initial, Enabled, Next, HistoryInv, CountInv, CopyInv, Heard;
    RunKeepsInv(trace, steps);
    assert NodeInv(trace[|steps|], a);
    HeardExactly(trace[|steps|].nodes[a], a, q, now);
  }

  /** The source's packets are within itsGnMaxPacketDataRate, as far as the table knows it. */
  predicate WithinRate(table: Table, source: U48, maxRate: nat) {
    source in table ==> table[source].pdr <= 1000.0 * maxRate as real
  }

  /** What the reception of a copy does to the air and to the upper layer, by the history of the
      station and the table it goes to: a foreign packet that was forgotten as often as accepted is
      delivered if it is a TSB packet, answered if it is an LS Request for this station, and goes on
      with one hop less if it has two left, its source is within the rate, and it is not an LS Request
      for this station nor a store-carry-forward TSB packet without a neighbour to take it. */
  predicate Reception(net: Net, a: U48, i: nat, now: U32)
    requires Enabled(net, Receive(a, i, now))
  {
    var c, n, next := net.air[i], net.nodes[a], Next(net, Receive(a, i, now));
    var q, mib, o := OffTheWire(c.packet), n.station.mib, Indicate(n.station, OffTheWire(c.packet), now);
    var key, table := Key(q.extended.soPv.gnAddr.mid, q.extended.sn), next.nodes[a].station.table;
    var accepted := key.source != a && n.accepted[key] == n.forgotten[key];
    var tsb := q.common.transport == MultiHop;
    var sought := !tsb && q.extended.tail.requestAddr.mid == a;
    var goesOn := accepted && !sought && q.basic.rhl >= 2 && WithinRate(table, key.source, mib.maxPacketDataRate)
                  && (tsb && q.common.tc.scf ==> exists k | k in table :: table[k].isNeighbour);
    && o.delivered == (if accepted && tsb then Some(q) else None)
    && o.reply == (if accepted && sought && key.source in table then Some(table[key.source].pv) else None)
    && next.nodes[a].station.sn == (if o.reply.Some? then (n.station.sn + 1) % 65535 else n.station.sn)
    && next.air == net.air + (if goesOn then [Copy(a, q.(basic := q.basic.(rhl := q.basic.rhl - 1)), c.path + [a], c.origin)] else [])
    && (!accepted ==> table == n.station.table)
  }

  lemma HeardExactly(n: Node, a: U48, q: Packet, now: U32)
    requires n.station.mib.Valid() && n.station.mib.localMid == a && HistoryInv(n)
    ensures Heard(n.station, q, now).Some? <==> a != SourceOf(q) && n.accepted[KeyOf(q)] == n.forgotten[KeyOf(q)]
  {
    hide Rings, Refreshed, WithMultiHop;
    var k := SourceOf(q);
    assert q.extended.sn in EntryOf(n.station.table, k).dpl <==> KeyOf(q) in Known(n.station.table);
    assert n.accepted[KeyOf(q)] == n.forgotten[KeyOf(q)] + multiset(Known(n.station.table))[KeyOf(q)];
  }

  lemma IndicatedExactly(s: Station, q: Packet, now: U32)
    requires s.mib.Valid() && Flooded(q)
    ensures var o, heard := Indicate(s, q, now), Heard(s, q, now);
            var table, tsb := o.station.table, q.common.transport == MultiHop;
            var sought := !tsb && q.extended.tail.requestAddr.mid == s.mib.localMid;
            var goesOn := heard.Some? && !sought && q.basic.rhl >= 2 && WithinRate(table, SourceOf(q), s.mib.maxPacketDataRate)
                          && (tsb && q.common.tc.scf ==> exists k | k in table :: table[k].isNeighbour);
            && table == (if heard.Some? then heard.value else s.table) && o.station.mib == s.mib
            && o.delivered == (if heard.Some? && tsb then Some(q) else None)
            && o.reply == (if heard.Some? && sought && SourceOf(q) in table then Some(table[SourceOf(q)].pv) else None)
            && o.station.sn == (if o.reply.Some? then (s.sn + 1) % 65535 else s.sn)
            && o.repeated == (if goesOn then Some(q.(basic := q.basic.(rhl := q.basic.rhl - 1))) else None)
  {
    hide Heard;
  }

  /** In every reachable network every reception does exactly that. */
  lemma ReceptionExactly(trace: seq<Net>, steps: seq<Step>, a: U48, i: nat, now: U32)
    requires IsRun(trace, steps) && Enabled(trace[|steps|], Receive(a, i, now))
    ensures Reception(trace[|steps|], a, i, now)
  {
    hide Initial, Next, Rings, CountInv, CopyInv, HistoryInv, Heard, Indicate;
    RunKeepsInv(trace, steps);
    var net := trace[|steps|];
    assert NodeInv(net, a);
    ReceivedExactly(net, a, i, now);
  }

  lemma ReceivedExactly(net: Net, a: U48, i: nat, now: U32)
    requires Enabled(net, Receive(a, i, now)) && NodeInv(net, a)
    ensures Reception(net, a, i, now)
  {
    hide HistoryInv, Heard, Indicate, Known, WithinRate, WasIssued;
    var n, c := net.nodes[a], net.air[i];
    WireKeeps(c.packet);
    HeardExactly(n, a, OffTheWire(c.packet), now);
    IndicatedExactly(n.station, OffTheWire(c.packet), now);
    assert net.air + [] == net.air;
  }

  /** A caller-visible condition for station a to have forgotten nothing of a source: it never
      dropped the source's entry, and its ring is no shorter than what the source issued. */
  predicate Covers(net: Net, a: U48, source: U48)
    requires a in net.nodes && source in net.nodes
  {
    && source !in net.nodes[a].dropped
    && (net.nodes[source].issued <= net.nodes[a].station.mib.dplLength || SN_MODULUS <= net.nodes[a].station.mib.dplLength)
  }

  function IssuedSns(k: nat): set<U16> {
    set sn: U16 | Occurrences(sn, k) > 0
  }

  lemma {:induction false} BelowCount(s: set<int>, n: nat)
    requires forall x | x in s :: 0 <= x < n
    ensures |s| <= n
  {
    if n == 0 {
      assert forall x | x in s :: false;
    } else {
      BelowCount(s - {n - 1}, n - 1);
    }
  }

  lemma {:induction false} IssuedCount(k: nat)
    ensures |IssuedSns(k)| <= k
  {
    if k == 0 {
      assert IssuedSns(0) == {};
    } else {
      IssuedCount(k - 1);
      var sn: U16 := k % SN_MODULUS;
      assert IssuedSns(k) <= IssuedSns(k - 1) + {sn};
      SubsetCount(IssuedSns(k), IssuedSns(k - 1) + {sn});
    }
  }

  lemma AllSnsCount(k: nat)
    ensures |IssuedSns(k)| <= SN_MODULUS
  {
    forall x: U16 | x in IssuedSns(k) ensures x < SN_MODULUS {
      OccurrencesExactly(x, k);
    }
    BelowCount(IssuedSns(k), SN_MODULUS);
  }

  /** Each station repeats a packet at most once. */
  lemma RepeatedAtMostOnce(trace: seq<Net>, steps: seq<Step>, a: U48, key: Key)
    requires IsRun(trace, steps)
    requires a in trace[|steps|].nodes && key.source in trace[|steps|].nodes
    requires Covers(trace[|steps|], a, key.source)
    ensures Repeats(trace[|steps|].air, a, key) <= if a == key.source then 0 else 1
  {
    hide Initial, Enabled, Next, Rings, Repeats, Originals;
    RunKeepsInv(trace, steps);
    RepeatsBounded(trace, steps, a, key);
    var end := trace[|steps|];
    var n, k := end.nodes[a], end.nodes[key.source].issued;
    assert NodeInv(end, a);
    assert AcceptedSns(n.accepted, key.source) <= IssuedSns(k);
    SubsetCount(AcceptedSns(n.accepted, key.source), IssuedSns(k));
    IssuedCount(k);
    AllSnsCount(k);
    assert Remembers(n, key.source);
  }

  /** How often a station sent a packet with this key, its own or another's. */
  function Sends(air: seq<Copy>, a: U48, key: Key): nat {
    if air == [] then 0
    else
      var c := air[|air| - 1];
      Sends(air[..|air| - 1], a, key) + if c.sender == a && KeyOf(c.packet) == key then 1 else 0
  }

  lemma {:induction false} SendsSplit(air: seq<Copy>, a: U48, key: Key)
    requires forall c | c in air :: c.path == [] <==> c.sender == SourceOf(c.packet)
    ensures Sends(air, a, key) == if a == key.source then Originals(air, key) else Repeats(air, a, key)
  {
    if air != [] {
      assert air[|air| - 1] in air;
      SendsSplit(air[..|air| - 1], a, key);
    }
  }

  lemma {:induction false} NotSent(air: seq<Copy>, c: Copy)
    requires Sends(air, c.sender, KeyOf(c.packet)) == 0
    ensures c !in air
  {
    if air != [] {
      NotSent(air[..|air| - 1], c);
    }
  }

  /** Stations that send at most once each send no more often than there are stations. */
  lemma {:induction false} TransmissionsCount(air: seq<Copy>, key: Key, senders: set<U48>)
    requires forall c | c in air && KeyOf(c.packet) == key :: c.sender in senders
    requires forall a | a in senders :: Sends(air, a, key) <= 1
    ensures Transmissions(air, key) <= |senders|
  {
    if air != [] {
      var front, last := air[..|air| - 1], air[|air| - 1];
      if KeyOf(last.packet) == key {
        assert last in air;
        forall c | c in front && KeyOf(c.packet) == key ensures c.sender in senders - {last.sender} {
          if c.sender == last.sender {
            NotSent(front, c);
          }
        }
        TransmissionsCount(front, key, senders - {last.sender});
      } else {
        TransmissionsCount(front, key, senders);
      }
    }
  }

  /** A packet causes at most as many transmissions as there are stations, if its source has
      issued no more than a cycle of numbers and the rings cover it at all other stations. */
  lemma TransmissionsBounded(trace: seq<Net>, steps: seq<Step>, key: Key)
    requires IsRun(trace, steps) && key.source in trace[|steps|].nodes
    requires trace[|steps|].nodes[key.source].issued <= SN_MODULUS
    requires forall a | a in trace[|steps|].nodes && a != key.source :: Covers(trace[|steps|], a, key.source)
    ensures Transmissions(trace[|steps|].air, key) <= |trace[0].nodes|
  {
    hide Initial, Enabled, Next, NodeInv, CopyInv, Covers, Sends, Transmissions;
    RunKeepsInv(trace, steps);
    var end := trace[|steps|];
    forall c | c in end.air
      ensures c.sender in end.nodes.Keys && (c.path == [] <==> c.sender == SourceOf(c.packet))
    {
      CopySender(end, c);
    }
    forall a | a in end.nodes.Keys ensures Sends(end.air, a, key) <= 1 {
      SendsSplit(end.air, a, key);
      if a == key.source {
        OccurrencesBound(key.sn, end.nodes[a].issued);
      } else {
        RepeatedAtMostOnce(trace, steps, a, key);
      }
    }
    TransmissionsCount(end.air, key, end.nodes.Keys);
  }

  lemma CopySender(net: Net, c: Copy)
    requires CopyInv(net, c)
    ensures c.sender in net.nodes && (c.path == [] <==> c.sender == SourceOf(c.packet))
  {
  }

  /** Every copy ever transmitted is a packet its source sent, changed only in the flag bits that
      decoding drops and in the remaining hop limit, which fell by one for each station that
      repeated it and stays positive; so no packet is heard beyond its hop limit. */
  lemma CopiesKeepPacket(trace: seq<Net>, steps: seq<Step>, c: Copy)
    requires IsRun(trace, steps) && c in trace[|steps|].air
    ensures WellFormed(c.origin) && Copy(SourceOf(c.packet), c.origin, [], c.origin) in trace[|steps|].air
    ensures c.packet == (if c.path == [] then c.origin else OffTheWire(c.origin)).(basic := SetRhl(c.origin.basic, c.packet.basic.rhl))
    ensures c.packet.basic.rhl == c.origin.basic.rhl - |c.path|
    ensures c.path != [] ==> |c.path| < c.origin.basic.rhl
  {
    hide Initial, Enabled, Next, NodeInv, CountInv, WellFormed;
    RunKeepsInv(trace, steps);
    assert CopyInv(trace[|steps|], c);
  }

  lemma OtherRhlEncoded(q: Packet, rhl: Byte)
    requires EncodePacket(q).Ok?
    ensures EncodePacket(q.(basic := q.basic.(rhl := rhl))).Ok?
    ensures |EncodePacket(q).value| > 3
    ensures EncodePacket(q.(basic := q.basic.(rhl := rhl))).value == EncodePacket(q).value[3 := rhl]
    ensures EncodePacket(q).value[3] == q.basic.rhl
  {
    hide EncodeBasic, EncodeCommon, EncodeExtended;
    BasicOtherRhl(q.basic, rhl);
    BasicOtherRhl(q.basic, q.basic.rhl);
    var basic, rest := EncodeBasic(q.basic), EncodeCommon(q.common) + EncodeExtended(q.extended).value + q.payload;
    assert EncodePacket(q).value == basic + rest;
    assert EncodePacket(q.(basic := q.basic.(rhl := rhl))).value == basic[3 := rhl] + rest;
    BasicLast(q.basic);
  }

  lemma BasicLast(h: BasicHeader)
    ensures EncodeBasic(h)[3] == h.rhl
  {
    hide EncodeBasic, DecodeBasic;
    BasicRoundTrip(h);
    BasicRewrite(EncodeBasic(h), h.rhl);
  }

  /** On the wire: a copy of a packet whose flags are no more than bit 7 consists of its source's
      octets with octet 3 lowered by the number of stations that repeated it. */
  lemma CopyOctets(trace: seq<Net>, steps: seq<Step>, c: Copy)
    requires IsRun(trace, steps) && c in trace[|steps|].air && c.origin.common.flags % 128 == 0
    ensures EncodePacket(c.origin).Ok? && |EncodePacket(c.origin).value| > 3
    ensures var p := EncodePacket(c.origin).value;
            0 <= p[3] - |c.path| && EncodePacket(c.packet) == Ok(p[3 := p[3] - |c.path|])
  {
    hide Initial, Enabled, Next, EncodePacket;
    CopiesKeepPacket(trace, steps, c);
    OtherRhlEncoded(c.origin, c.packet.basic.rhl);
    assert OffTheWire(c.origin) == c.origin;
  }

  /** What a station of the network handles is what it decodes from a copy's octets. */
  lemma CopyDecoded(trace: seq<Net>, steps: seq<Step>, c: Copy)
    requires IsRun(trace, steps) && c in trace[|steps|].air
    ensures EncodePacket(c.packet).Ok?
    ensures DecodePacket(KindOf(c.packet.extended.tail), EncodePacket(c.packet).value) == Ok(OffTheWire(c.packet))
  {
    hide Initial, Enabled, Next, EncodePacket, DecodePacket;
    CopiesKeepPacket(trace, steps, c);
    var q := if c.path == [] then c.origin else OffTheWire(c.origin);
    FlagsEncodable(c.origin, q.common);
    OtherRhlEncoded(q, c.packet.basic.rhl);
    SourceDecoded(c.packet, EncodePacket(c.packet).value);
  }

  lemma FlagsEncodable(q: Packet, common: CommonHeader)
    ensures EncodePacket(q).Ok? <==> EncodePacket(q.(common := common)).Ok?
  {
  }
}
