/** The Location Service of the router (EN 302 636-4-1 V1.4.1, clause 10.3.7): requests wait in a
    buffer while LS Requests are sent and resent, until a reply hands them on or the search is
    given up.  The lock-protected sections are the atomic steps; threads, timers and the location
    table interleave between them in every way. */
module LocationServices {
  import opened Bits
  import opened Outcomes
  import opened Headers
  import opened LocationTables
  import opened Stations

  datatype Request = Request(destination: U48, payload: seq<Byte>)

  /** The router's Location Service fields, the timer objects and what was sent.  A started timer
      has not fired yet; a cancelled one may still be waiting for the lock. */
  datatype Service = Service(
    table: Table,
    timers: map<U48, nat>,             // _ls_timers
    counters: map<U48, nat>,           // _ls_retransmit_counters
    buffers: map<U48, seq<Request>>,   // _ls_packet_buffers
    started: map<nat, U48>, cancelled: set<nat>, nextTimer: nat,
    requests: seq<U48>,                // addresses sought by the LS Requests sent
    handed: seq<Request>)              // requests given to gn_data_request_guc

  predicate Pending(table: Table, k: U48) {
    k in table && table[k].lsPending
  }

  function WithPending(table: Table, k: U48, pending: bool): Table {
    table[k := EntryOf(table, k).(lsPending := pending)]
  }

  function Buffered(s: Service, k: U48): seq<Request> {
    if k in s.buffers then s.buffers[k] else []
  }

  function Count(s: Service, k: U48): nat {
    if k in s.counters then s.counters[k] else 0
  }

  // ---------------------------------------------------------------- the sections under the lock

  /** An LS Request goes out and a timer is started, not yet registered. */
  function Sent(s: Service, k: U48): Service {
    s.(requests := s.requests + [k], started := s.started[s.nextTimer := k], nextTimer := s.nextTimer + 1)
  }

  /** gn_ls_request, first section and the sending that follows it. */
  function Begun(s: Service, k: U48, req: Option<Request>): Service {
    if Pending(s.table, k) then
      if req.Some? then s.(buffers := s.buffers[k := Buffered(s, k) + [req.value]]) else s
    else
      Sent(s.(table := WithPending(s.table, k, true), buffers := s.buffers[k := AsSeq(req)], counters := s.counters[k := 0]), k)
  }

  /** The section that registers timer t; the one of gn_ls_request cancels what was there. */
  function Armed(s: Service, k: U48, t: nat, cancelsOld: bool): Service {
    s.(cancelled := s.cancelled + (if cancelsOld && k in s.timers then {s.timers[k]} else {}),
       timers := s.timers[k := t])
  }

  function Dropped(s: Service, k: U48): Service {
    s.(buffers := s.buffers - {k}, timers := s.timers - {k}, counters := s.counters - {k},
       table := if k in s.table then WithPending(s.table, k, false) else s.table)
  }

  /** _ls_retransmit, first section and the sending that follows it. */
  function Retried(s: Service, k: U48, max: nat): Service {
    if Count(s, k) >= max then Dropped(s, k)
    else Sent(s.(counters := s.counters[k := Count(s, k) + 1]), k)
  }

  /** gn_data_indicate_ls_reply at the station that asked. */
  function Answered(s: Service, k: U48): Service {
    Dropped(s, k).(cancelled := s.cancelled + (if k in s.timers then {s.timers[k]} else {}),
                   handed := s.handed + Buffered(s, k))
  }

  // ---------------------------------------------------------------- the object

  class LocationService {
    const locationTable: LocationTable
    const maxRetrans: nat              // itsGnLocationServiceMaxRetrans
    var timers: map<U48, nat>
    var counters: map<U48, nat>
    var buffers: map<U48, seq<Request>>
    var started: map<nat, U48>
    var cancelled: set<nat>
    var nextTimer: nat
    var requests: seq<U48>
    var handed: seq<Request>

    ghost predicate Valid()
      reads this, locationTable, locationTable.locT.Values
    {
      locationTable.Valid()
    }

    function View(): Service
      reads this, locationTable, locationTable.locT.Values
    {
      Service(locationTable.View(), timers, counters, buffers, started, cancelled, nextTimer, requests, handed)
    }

    constructor (table: LocationTable, maxRetrans: nat)
      requires table.Valid()
      ensures Valid() && locationTable == table && this.maxRetrans == maxRetrans
      ensures View() == Service(table.View(), map[], map[], map[], map[], {}, 0, [], [])
    {
      locationTable, this.maxRetrans := table, maxRetrans;
      timers, counters, buffers := map[], map[], map[];
      started, cancelled, nextTimer, requests, handed := map[], {}, 0, [], [];
    }

    /** Send an LS Request and start a timer for it. */
    method SendAndStart(k: U48) returns (t: nat)
      requires Valid()
      modifies this`requests, this`started, this`nextTimer
      ensures Valid() && View() == Sent(old(View()), k) && t == old(nextTimer)
    {
      hide LocationTable.View, LocationTable.Valid;
      requests := requests + [k];
      t := nextTimer;
      started, nextTimer := started[t := k], t + 1;
    }

    method GnLsRequest(k: U48, req: Option<Request>)
      requires Valid()
      modifies this, locationTable, locationTable.locT.Values
      ensures Valid() && fresh(locationTable.locT.Values - old(locationTable.locT.Values))
      ensures var s := old(View());
              View() == if Pending(s.table, k) then Begun(s, k, req) else Armed(Begun(s, k, req), k, s.nextTimer, true)
    {
      hide LocationTable.View, LocationTable.Valid;
      var pending := locationTable.IsLsPending(k);
      if pending {
        if req.Some? {
          buffers := buffers[k := (if k in buffers then buffers[k] else []) + [req.value]];
        }
        return;
      }
      locationTable.SetLsPending(k);
      buffers := buffers[k := if req.Some? then [req.value] else []];
      counters := counters[k := 0];
      var t := SendAndStart(k);
      Register(k, t, true);
    }

    method Register(k: U48, t: nat, cancelsOld: bool)
      requires Valid()
      modifies this`timers, this`cancelled
      ensures Valid() && View() == Armed(old(View()), k, t, cancelsOld)
    {
      hide LocationTable.View, LocationTable.Valid;
      if cancelsOld && k in timers {
        cancelled := cancelled + {timers[k]};
      }
      timers := timers[k := t];
    }

    /** Forget everything about k but its position. */
    method Drop(k: U48)
      requires Valid()
      modifies this`timers, this`counters, this`buffers, locationTable.locT.Values
      ensures Valid() && View() == Dropped(old(View()), k)
    {
      hide LocationTable.View, LocationTable.Valid;
      buffers, timers, counters := buffers - {k}, timers - {k}, counters - {k};
      locationTable.ClearLsPending(k);
    }

    method LsRetransmit(k: U48)
      requires Valid()
      modifies this, locationTable.locT.Values
      ensures Valid()
      ensures var s := old(View());
              View() == if Count(s, k) >= maxRetrans then Retried(s, k, maxRetrans)
                        else Armed(Retried(s, k, maxRetrans), k, s.nextTimer, false)
    {
      hide LocationTable.View, LocationTable.Valid;
      var count := if k in counters then counters[k] else 0;
      if count >= maxRetrans {
        Drop(k);
        return;
      }
      counters := counters[k := count + 1];
      var t := SendAndStart(k);
      Register(k, t, false);
    }

    method IndicateLsReply(k: U48)
      requires Valid()
      modifies this, locationTable.locT.Values
      ensures Valid() && View() == Answered(old(View()), k)
    {
      hide LocationTable.View, LocationTable.Valid;
      var buffered := if k in buffers then buffers[k] else [];
      if k in timers {
        cancelled := cancelled + {timers[k]};
      }
      Drop(k);
      var i := 0;
      ghost var before := handed;
      while i < |buffered|
        modifies this`handed
        invariant 0 <= i <= |buffered|
        invariant handed == before + buffered[..i]
        invariant Valid() && View() == Dropped(old(View()), k).(cancelled := cancelled, handed := handed)
      {
        handed := handed + [buffered[i]];
        i := i + 1;
      }
      assert buffered[..i] == buffered;
    }
  }
}
