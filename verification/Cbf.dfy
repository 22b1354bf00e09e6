/** Contention-based forwarding (EN 302 636-4-1 V1.4.1, annex F.3): a packet to repeat waits for
    a time that is shorter the farther its sender is away, and is dropped when another station's
    copy arrives first.  Timers may run their callback after they were cancelled. */
module Contention {
  import opened Outcomes
  import opened Packets
  import opened Stations

  // ---------------------------------------------------------------- how long to wait

  /** _cbf_compute_timeout_ms, equation (F.1). */
  function TimeoutMs(dist: real, distMax: real, toMin: real, toMax: real): real
    requires dist >= 0.0
  {
    if dist >= distMax then toMin else toMax + (toMin - toMax) / distMax * dist
  }

  /** The fraction of the way to the edge of the range. */
  lemma Interpolated(dist: real, distMax: real, toMin: real, toMax: real)
    requires 0.0 <= dist < distMax
    ensures 0.0 <= dist / distMax < 1.0
    ensures TimeoutMs(dist, distMax, toMin, toMax) == toMax - (toMax - toMin) * (dist / distMax)
  {
  }

  /** Farther senders are answered no later, and the wait stays between the two times. */
  lemma TimeoutOrdered(d1: real, d2: real, distMax: real, toMin: real, toMax: real)
    requires 0.0 <= d1 <= d2 && toMin <= toMax
    ensures toMin <= TimeoutMs(d2, distMax, toMin, toMax) <= TimeoutMs(d1, distMax, toMin, toMax) <= toMax
  {
  }

  /** With a positive range that is exactly when the minimum does not exceed the maximum. */
  lemma TimeoutInRangeExactly(distMax: real, toMin: real, toMax: real)
    requires distMax > 0.0
    ensures (forall d: real | d >= 0.0 :: toMin <= TimeoutMs(d, distMax, toMin, toMax) <= toMax) <==> toMin <= toMax
  {
    if toMin <= toMax {
      forall d: real | d >= 0.0 ensures toMin <= TimeoutMs(d, distMax, toMin, toMax) <= toMax {
        TimeoutOrdered(d, d, distMax, toMin, toMax);
      }
    } else {
      Interpolated(0.0, distMax, toMin, toMax);
      assert TimeoutMs(0.0, distMax, toMin, toMax) == toMax;
    }
  }

  /** The longest time less a share in proportion to the distance; beyond the range the shortest. */
  lemma TimeoutExactly(dist: real, distMax: real, toMin: real, toMax: real)
    requires dist >= 0.0 && distMax > 0.0
    ensures var wait := TimeoutMs(dist, distMax, toMin, toMax);
            if dist >= distMax then wait == toMin
            else (toMax - wait) * distMax == (toMax - toMin) * dist
  {
    if dist < distMax {
      Interpolated(dist, distMax, toMin, toMax);
      assert (dist / distMax) * distMax == dist;
      var share := dist / distMax;
      assert (toMax - toMin) * share * distMax == (toMax - toMin) * (share * distMax);
    }
  }

  // ---------------------------------------------------------------- the buffer

  /** A timer holding the packet it will send. */
  datatype Waiting = Waiting(key: Key, packet: Packet, timeoutMs: real)

  /** The CBF buffer, the timers that have not run their callback yet, what was sent. */
  datatype Cbf = Cbf(
    buffer: map<Key, nat>,             // _cbf_buffer
    waiting: map<nat, Waiting>, cancelled: set<nat>, nextTimer: nat,
    sent: seq<Packet>)

  /** gn_area_cbf_forwarding: buffer a new packet, drop the buffered one on a duplicate. */
  function Offered(c: Cbf, q: Packet, timeoutMs: real): Cbf {
    var key := KeyOf(q);
    if key in c.buffer then
      c.(buffer := c.buffer - {key}, cancelled := c.cancelled + {c.buffer[key]})
    else
      c.(buffer := c.buffer[key := c.nextTimer], waiting := c.waiting[c.nextTimer := Waiting(key, q, timeoutMs)],
         nextTimer := c.nextTimer + 1)
  }

  /** _cbf_timeout of timer t. */
  function Expired(c: Cbf, t: nat): Cbf
    requires t in c.waiting
  {
    var w, fired := c.waiting[t], c.(waiting := c.waiting - {t});
    if w.key in c.buffer then fired.(buffer := c.buffer - {w.key}, sent := c.sent + [w.packet]) else fired
  }

  class CbfForwarder {
    const distMax: real     // itsGnDefaultMaxCommunicationRange
    const toMin: real       // itsGnCbfMinTime
    const toMax: real       // itsGnCbfMaxTime
    var buffer: map<Key, nat>
    var waiting: map<nat, Waiting>
    var cancelled: set<nat>
    var nextTimer: nat
    var sent: seq<Packet>

    function View(): Cbf
      reads this
    {
      Cbf(buffer, waiting, cancelled, nextTimer, sent)
    }

    constructor (distMax: real, toMin: real, toMax: real)
      ensures View() == Cbf(map[], map[], {}, 0, [])
      ensures this.distMax == distMax && this.toMin == toMin && this.toMax == toMax
    {
      this.distMax, this.toMin, this.toMax := distMax, toMin, toMax;
      buffer, waiting, cancelled, nextTimer, sent := map[], map[], {}, 0, [];
    }

    /** The distance is None unless the positions of sender and station are both valid. */
    method GnAreaCbfForwarding(q: Packet, dist: Option<real>) returns (buffered: bool)
      requires dist.Some? ==> dist.value >= 0.0
      modifies this
      ensures buffered <==> KeyOf(q) !in old(buffer)
      ensures View() == Offered(old(View()), q, if dist.Some? then TimeoutMs(dist.value, distMax, toMin, toMax) else toMax)
    {
      var key := KeyOf(q);
      if key in buffer {
        var old_ := buffer[key];
        buffer := buffer - {key};
        cancelled := cancelled + {old_};
        return false;
      }
      var timeoutMs := toMax;
      if dist.Some? {
        timeoutMs := TimeoutMs(dist.value, distMax, toMin, toMax);
      }
      buffer := buffer[key := nextTimer];
      waiting := waiting[nextTimer := Waiting(key, q, timeoutMs)];
      nextTimer := nextTimer + 1;
      buffered := true;
    }

    method CbfTimeout(t: nat)
      requires t in waiting
      modifies this
      ensures View() == Expired(old(View()), t)
    {
      var w := waiting[t];
      waiting := waiting - {t};
      if w.key !in buffer {
        return;
      }
      buffer := buffer - {w.key};
      sent := sent + [w.packet];
    }
  }

  // ---------------------------------------------------------------- runs

  datatype Step = Offer(q: Packet, timeoutMs: real) | Expire(t: nat)

  /** The buffer with the record of what went in and what was suppressed. */
  datatype Record = Record(cbf: Cbf, inserted: seq<Packet>, suppressed: seq<Packet>)

  predicate Enabled(r: Record, step: Step) {
    step.Expire? ==> step.t in r.cbf.waiting
  }

  function Next(r: Record, step: Step): Record
    requires Enabled(r, step)
  {
    match step
    case Offer(q, timeoutMs) =>
      var c := Offered(r.cbf, q, timeoutMs);
      if KeyOf(q) in r.cbf.buffer then r.(cbf := c, suppressed := r.suppressed + [q])
      else r.(cbf := c, inserted := r.inserted + [q])
    case Expire(t) => r.(cbf := Expired(r.cbf, t))
  }

  const EMPTY := Record(Cbf(map[], map[], {}, 0, []), [], [])

  predicate IsRun(steps: seq<Step>)
    decreases |steps|, 0
  {
    steps == [] || (IsRun(steps[..|steps| - 1]) && Enabled(Final(steps[..|steps| - 1]), steps[|steps| - 1]))
  }

  function Final(steps: seq<Step>): Record
    requires IsRun(steps)
    decreases |steps|, 1
  {
    if steps == [] then EMPTY else Next(Final(steps[..|steps| - 1]), steps[|steps| - 1])
  }

  function Count(s: seq<Packet>, key: Key): nat {
    if s == [] then 0 else Count(s[..|s| - 1], key) + if KeyOf(s[|s| - 1]) == key then 1 else 0
  }

  lemma CountMore(s: seq<Packet>, q: Packet, key: Key)
    ensures Count(s + [q], key) == Count(s, key) + if KeyOf(q) == key then 1 else 0
  {
  }

  /** Every buffered key has a timer still to run that was not cancelled; timers hold packets
      that were inserted under their key; each insertion was sent, suppressed or is buffered. */
  ghost predicate Inv(r: Record) {
    var c := r.cbf;
    && c.nextTimer == |r.inserted|
    && (forall t | t in c.waiting :: t < c.nextTimer && c.waiting[t].packet == r.inserted[t] && c.waiting[t].key == KeyOf(r.inserted[t]))
    && (forall t | t in c.cancelled :: t < c.nextTimer)
    && (forall key | key in c.buffer ::
          c.buffer[key] in c.waiting && c.buffer[key] !in c.cancelled && c.waiting[c.buffer[key]].key == key)
    && (forall q | q in c.sent :: q in r.inserted)
    && (forall key: Key ::
          Count(r.inserted, key) == Count(c.sent, key) + Count(r.suppressed, key) + if key in c.buffer then 1 else 0)
  }

  lemma InsertKeeps(r: Record, q: Packet, timeoutMs: real)
    requires Inv(r) && KeyOf(q) !in r.cbf.buffer
    ensures Inv(Next(r, Offer(q, timeoutMs)))
  {
    hide Count, KeyOf;
    forall key: Key ensures Count(r.inserted + [q], key) == Count(r.inserted, key) + if KeyOf(q) == key then 1 else 0 {
      CountMore(r.inserted, q, key);
    }
  }

  lemma SuppressKeeps(r: Record, q: Packet, timeoutMs: real)
    requires Inv(r) && KeyOf(q) in r.cbf.buffer
    ensures Inv(Next(r, Offer(q, timeoutMs)))
  {
    hide Count, KeyOf;
    forall key: Key ensures Count(r.suppressed + [q], key) == Count(r.suppressed, key) + if KeyOf(q) == key then 1 else 0 {
      CountMore(r.suppressed, q, key);
    }
  }

  lemma OfferKeeps(r: Record, q: Packet, timeoutMs: real)
    requires Inv(r)
    ensures Inv(Next(r, Offer(q, timeoutMs)))
  {
    hide Inv, Next;
    if KeyOf(q) in r.cbf.buffer {
      SuppressKeeps(r, q, timeoutMs);
    } else {
      InsertKeeps(r, q, timeoutMs);
    }
  }

  lemma ExpireKeeps(r: Record, t: nat)
    requires Inv(r) && t in r.cbf.waiting
    ensures Inv(Next(r, Expire(t)))
  {
    hide Count;
    var c, n := r.cbf, Next(r, Expire(t));
    forall key: Key
      ensures Count(n.inserted, key) == Count(n.cbf.sent, key) + Count(n.suppressed, key) + if key in n.cbf.buffer then 1 else 0
    {
      CountMore(c.sent, c.waiting[t].packet, key);
    }
  }

  lemma {:induction false} RunKeepsInv(steps: seq<Step>)
    requires IsRun(steps)
    ensures Inv(Final(steps))
    decreases |steps|
  {
    hide Inv, Next;
    if steps == [] {
      assert Inv(EMPTY) by { EmptyInv(); }
    } else {
      RunKeepsInv(steps[..|steps| - 1]);
      match steps[|steps| - 1]
      case Offer(q, timeoutMs) => OfferKeeps(Final(steps[..|steps| - 1]), q, timeoutMs);
      case Expire(t) => ExpireKeeps(Final(steps[..|steps| - 1]), t);
    }
  }

  lemma EmptyInv()
    ensures Inv(EMPTY)
  {
  }

  /** In every run, late expiries included, each packet buffered under a key was sent once,
      suppressed once or is buffered now; so nothing is repeated more often than buffered. */
  lemma BufferConserved(steps: seq<Step>, key: Key)
    requires IsRun(steps)
    ensures var r := Final(steps);
            && Count(r.inserted, key) == Count(r.cbf.sent, key) + Count(r.suppressed, key) + (if key in r.cbf.buffer then 1 else 0)
            && (forall q | q in r.cbf.sent :: q in r.inserted)
  {
    hide IsRun, Final;
    RunKeepsInv(steps);
  }

  /** A buffered packet never waits for ever: its own timer is still to expire. */
  lemma BufferedHasTimer(steps: seq<Step>, key: Key)
    requires IsRun(steps) && key in Final(steps).cbf.buffer
    ensures var c := Final(steps).cbf;
            && c.buffer[key] in c.waiting && c.buffer[key] !in c.cancelled
            && key !in Expired(c, c.buffer[key]).buffer && Expired(c, c.buffer[key]).sent == c.sent + [c.waiting[c.buffer[key]].packet]
  {
    hide IsRun, Final;
    RunKeepsInv(steps);
  }

  /** Every timer that was not cancelled belongs to the entry buffered under its key. */
  ghost predicate OwnTimers(c: Cbf) {
    forall t | t in c.waiting && t !in c.cancelled :: c.waiting[t].key in c.buffer && c.buffer[c.waiting[t].key] == t
  }

  /** A step keeps that exactly unless it is the late expiry of a cancelled timer while its key
      is buffered again. */
  lemma OwnTimersKeptExactly(r: Record, step: Step)
    requires Inv(r) && Enabled(r, step) && OwnTimers(r.cbf)
    ensures OwnTimers(Next(r, step).cbf)
            <==> !(step.Expire? && step.t in r.cbf.cancelled && r.cbf.waiting[step.t].key in r.cbf.buffer)
  {
    hide Count;
    if step.Expire? && step.t in r.cbf.cancelled && r.cbf.waiting[step.t].key in r.cbf.buffer {
      var t := r.cbf.buffer[r.cbf.waiting[step.t].key];
      assert t in Next(r, step).cbf.waiting;
    }
  }

  predicate OnTime(steps: seq<Step>)
    requires IsRun(steps)
    decreases |steps|
  {
    steps == [] || (var before, step := steps[..|steps| - 1], steps[|steps| - 1];
                    OnTime(before) && (step.Expire? ==> step.t !in Final(before).cbf.cancelled))
  }

  /** When cancelling always succeeds, each expiry sends the packet buffered under its key. */
  lemma {:induction false} OnTimeSendsOwn(steps: seq<Step>)
    requires IsRun(steps) && OnTime(steps)
    ensures OwnTimers(Final(steps).cbf)
    ensures var c := Final(steps).cbf;
            forall t | t in c.waiting && t !in c.cancelled ::
              Expired(c, t).sent == c.sent + [c.waiting[t].packet] && c.waiting[t].key !in Expired(c, t).buffer
    decreases |steps|
  {
    hide Inv, Next;
    if steps == [] {
    } else {
      OnTimeSendsOwn(steps[..|steps| - 1]);
      RunKeepsInv(steps[..|steps| - 1]);
      OwnTimersKeptExactly(Final(steps[..|steps| - 1]), steps[|steps| - 1]);
    }
  }

  /** A cancelled timer that expires late sends the suppressed packet in place of the one now
      buffered, which is then never sent. */
  lemma LateExpirySendsSuppressed(q1: Packet, q2: Packet, timeoutMs: real)
    requires KeyOf(q1) == KeyOf(q2)
    ensures var c3 := Offered(Offered(Offered(EMPTY.cbf, q1, timeoutMs), q2, timeoutMs), q2, timeoutMs);
            && 0 in c3.waiting && 0 in c3.cancelled
            && var c4 := Expired(c3, 0); 1 in c4.waiting && c4.sent == [q1] && Expired(c4, 1).sent == [q1]
  {
  }
}
