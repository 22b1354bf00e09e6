/** Runs of the Location Service: every interleaving of asking threads, timers, replies and
    changes of the location table, with what became of each queued request recorded. */
module LocationServiceRuns {
  import opened Outcomes
  import opened Headers
  import opened LocationTables
  import opened Stations
  import opened LocationServices

  datatype Fate = HandedOn | GivenUp | Overwritten

  datatype Disposal = Disposal(k: U48, request: Request, fate: Fate)

  /** A thread that has started a timer and not yet registered it. */
  datatype Arming = Arming(k: U48, cancelsOld: bool)

  /** The service, the threads between their sections, and the record of the run: requests queued
      and disposed of, and the addresses for which a retransmit counter came into being. */
  datatype World = World(
    service: Service, arming: map<nat, Arming>,
    queued: seq<(U48, Request)>, disposed: seq<Disposal>, lives: seq<U48>)

  datatype Step =
    | Ask(k: U48, req: Option<Request>)     // gn_ls_request up to its second section
    | Register(t: nat)                      // the section that stores a timer
    | Expire(t: nat)                        // _ls_retransmit up to its second section, also when cancelled too late
    | Answer(k: U48)                        // an LS Reply of k reaches the station
    | Learn(k: U48, e: Entry)               // the table updates an entry
    | Lose(k: U48)                          // refresh_table drops an entry

  predicate Enabled(w: World, step: Step) {
    match step
    case Register(t) => t in w.arming
    case Expire(t) => t in w.service.started
    case _ => true
  }

  function Disposals(k: U48, requests: seq<Request>, fate: Fate): seq<Disposal> {
    if requests == [] then []
    else Disposals(k, requests[..|requests| - 1], fate) + [Disposal(k, requests[|requests| - 1], fate)]
  }

  function Next(w: World, step: Step, max: nat): World
    requires Enabled(w, step)
  {
    var s := w.service;
    match step
    case Ask(k, req) =>
      var queued := w.queued + (if req.Some? then [(k, req.value)] else []);
      if Pending(s.table, k) then w.(service := Begun(s, k, req), queued := queued)
      else World(Begun(s, k, req), w.arming[s.nextTimer := Arming(k, true)], queued,
                 w.disposed + Disposals(k, Buffered(s, k), Overwritten), w.lives + [k])
    case Register(t) =>
      w.(service := Armed(s, w.arming[t].k, t, w.arming[t].cancelsOld), arming := w.arming - {t})
    case Expire(t) =>
      var k, fired := s.started[t], s.(started := s.started - {t});
      if Count(s, k) >= max then
        w.(service := Retried(fired, k, max), disposed := w.disposed + Disposals(k, Buffered(s, k), GivenUp))
      else
        w.(service := Retried(fired, k, max), arming := w.arming[s.nextTimer := Arming(k, false)],
           lives := w.lives + (if k in s.counters then [] else [k]))
    case Answer(k) =>
      w.(service := Answered(s, k), disposed := w.disposed + Disposals(k, Buffered(s, k), HandedOn))
    case Learn(k, e) =>
      w.(service := s.(table := s.table[k := e.(lsPending := EntryOf(s.table, k).lsPending)]))
    case Lose(k) =>
      w.(service := s.(table := s.table - {k}))
  }

  const START := World(Service(map[], map[], map[], map[], map[], {}, 0, [], []), map[], [], [], [])

  predicate IsRun(steps: seq<Step>, max: nat)
    decreases |steps|, 0
  {
    steps == [] || (IsRun(steps[..|steps| - 1], max) && Enabled(Final(steps[..|steps| - 1], max), steps[|steps| - 1]))
  }

  function Final(steps: seq<Step>, max: nat): World
    requires IsRun(steps, max)
    decreases |steps|, 1
  {
    if steps == [] then START else Next(Final(steps[..|steps| - 1], max), steps[|steps| - 1], max)
  }

  // ---------------------------------------------------------------- conservation of requests

  function QueuedFor(queued: seq<(U48, Request)>, k: U48): seq<Request> {
    if queued == [] then []
    else
      var q := queued[|queued| - 1];
      QueuedFor(queued[..|queued| - 1], k) + if q.0 == k then [q.1] else []
  }

  function DisposedFor(disposed: seq<Disposal>, k: U48): seq<Request> {
    if disposed == [] then []
    else
      var d := disposed[|disposed| - 1];
      DisposedFor(disposed[..|disposed| - 1], k) + if d.k == k then [d.request] else []
  }

  function HandedIn(disposed: seq<Disposal>): seq<Request> {
    if disposed == [] then []
    else
      var d := disposed[|disposed| - 1];
      HandedIn(disposed[..|disposed| - 1]) + if d.fate == HandedOn then [d.request] else []
  }

  lemma DisposedMore(disposed: seq<Disposal>, d: Disposal, j: U48)
    ensures DisposedFor(disposed + [d], j) == DisposedFor(disposed, j) + if d.k == j then [d.request] else []
    ensures HandedIn(disposed + [d]) == HandedIn(disposed) + if d.fate == HandedOn then [d.request] else []
  {
  }

  lemma {:induction false} DisposedBlock(disposed: seq<Disposal>, k: U48, requests: seq<Request>, fate: Fate, j: U48)
    ensures DisposedFor(disposed + Disposals(k, requests, fate), j) == DisposedFor(disposed, j) + if j == k then requests else []
    ensures HandedIn(disposed + Disposals(k, requests, fate)) == HandedIn(disposed) + if fate == HandedOn then requests else []
  {
    hide DisposedFor, HandedIn;
    if requests == [] {
      assert disposed + Disposals(k, requests, fate) == disposed;
    } else {
      var front, d := requests[..|requests| - 1], Disposal(k, requests[|requests| - 1], fate);
      DisposedBlock(disposed, k, front, fate, j);
      DisposedMore(disposed + Disposals(k, front, fate), d, j);
      assert disposed + Disposals(k, requests, fate) == disposed + Disposals(k, front, fate) + [d];
      Rejoined(DisposedFor(disposed, j), front, requests[|requests| - 1]);
      Rejoined(HandedIn(disposed), front, requests[|requests| - 1]);
      assert requests == front + [requests[|requests| - 1]];
    }
  }

  lemma Rejoined<T>(a: seq<T>, front: seq<T>, last: T)
    ensures a + front + [last] == a + (front + [last])
  {
  }

  lemma QueuedMore(queued: seq<(U48, Request)>, k: U48, r: Request, j: U48)
    ensures QueuedFor(queued + [(k, r)], j) == QueuedFor(queued, j) + if j == k then [r] else []
  {
  }

  ghost predicate Conserved(w: World) {
    && (forall k: U48 :: QueuedFor(w.queued, k) == DisposedFor(w.disposed, k) + Buffered(w.service, k))
    && w.service.handed == HandedIn(w.disposed)
  }

  lemma AskConserves(w: World, k: U48, req: Option<Request>, max: nat, j: U48)
    requires Conserved(w)
    ensures var n := Next(w, Ask(k, req), max);
            && QueuedFor(n.queued, j) == DisposedFor(n.disposed, j) + Buffered(n.service, j)
            && n.service.handed == HandedIn(n.disposed)
  {
    hide QueuedFor, DisposedFor, HandedIn, Disposals, WithPending;
    if req.Some? {
      QueuedMore(w.queued, k, req.value, j);
    } else {
      assert w.queued + [] == w.queued;
    }
    DisposedBlock(w.disposed, k, Buffered(w.service, k), Overwritten, j);
    assert QueuedFor(w.queued, j) == DisposedFor(w.disposed, j) + Buffered(w.service, j);
  }

  lemma ClearingConserves(w: World, k: U48, fate: Fate, j: U48)
    requires Conserved(w)
    ensures QueuedFor(w.queued, j)
            == DisposedFor(w.disposed + Disposals(k, Buffered(w.service, k), fate), j)
               + (if j == k then [] else Buffered(w.service, j))
  {
    hide QueuedFor, HandedIn, Disposals;
    DisposedBlock(w.disposed, k, Buffered(w.service, k), fate, j);
    assert QueuedFor(w.queued, j) == DisposedFor(w.disposed, j) + Buffered(w.service, j);
  }

  lemma StepConserves(w: World, step: Step, max: nat)
    requires Conserved(w) && Enabled(w, step)
    ensures Conserved(Next(w, step, max))
  {
    hide QueuedFor, DisposedFor, HandedIn, Disposals, WithPending;
    var s, n := w.service, Next(w, step, max);
    match step
    case Ask(k, req) =>
      forall j: U48 ensures QueuedFor(n.queued, j) == DisposedFor(n.disposed, j) + Buffered(n.service, j) {
        AskConserves(w, k, req, max, j);
      }
      AskConserves(w, k, req, max, k);
    case Expire(t) =>
      var k := s.started[t];
      if Count(s, k) >= max {
        DisposedBlock(w.disposed, k, Buffered(s, k), GivenUp, k);
        forall j: U48 ensures QueuedFor(n.queued, j) == DisposedFor(n.disposed, j) + Buffered(n.service, j) {
          ClearingConserves(w, k, GivenUp, j);
        }
      }
    case Answer(k) =>
      DisposedBlock(w.disposed, k, Buffered(s, k), HandedOn, k);
      forall j: U48 ensures QueuedFor(n.queued, j) == DisposedFor(n.disposed, j) + Buffered(n.service, j) {
        ClearingConserves(w, k, HandedOn, j);
      }
    case _ =>
  }

  /** In every interleaving each request queued for an address has been handed on, given up or
      overwritten, once and in the order of queueing, or is still in the buffer. */
  lemma {:induction false} RequestsConserved(steps: seq<Step>, max: nat)
    requires IsRun(steps, max)
    ensures Conserved(Final(steps, max))
    decreases |steps|
  {
    hide Conserved;
    if steps == [] {
      assert Conserved(START) by { StartConserved(); }
    } else {
      RequestsConserved(steps[..|steps| - 1], max);
      StepConserves(Final(steps[..|steps| - 1], max), steps[|steps| - 1], max);
    }
  }

  lemma StartConserved()
    ensures Conserved(START)
  {
  }

  // ---------------------------------------------------------------- when requests are overwritten

  ghost predicate BuffersPending(s: Service) {
    forall k: U48 :: Buffered(s, k) != [] ==> Pending(s.table, k)
  }

  predicate NoneOverwritten(disposed: seq<Disposal>) {
    forall i | 0 <= i < |disposed| :: disposed[i].fate != Overwritten
  }

  lemma {:induction false} BlockFate(k: U48, requests: seq<Request>, fate: Fate)
    ensures forall d | d in Disposals(k, requests, fate) :: d.fate == fate
    ensures |Disposals(k, requests, fate)| == |requests|
  {
    if requests != [] {
      BlockFate(k, requests[..|requests| - 1], fate);
    }
  }

  /** One step from a state in which every waiting request is searched for: nothing is
      overwritten now, and nothing can be next, exactly if the step does not drop the entry of an
      address with waiting requests. */
  lemma OverwritingExactly(w: World, step: Step, max: nat)
    requires Enabled(w, step) && BuffersPending(w.service) && NoneOverwritten(w.disposed)
    ensures NoneOverwritten(Next(w, step, max).disposed)
    ensures BuffersPending(Next(w, step, max).service) <==> !(step.Lose? && Buffered(w.service, step.k) != [])
  {
    hide WithPending, Disposals;
    var s, n := w.service, Next(w, step, max);
    forall k: U48, fate ensures forall d | d in Disposals(k, Buffered(s, k), fate) :: d.fate == fate {
      BlockFate(k, Buffered(s, k), fate);
    }
    match step
    case Ask(k, req) =>
      PendingAfter(s.table, k, true);
      if !Pending(s.table, k) {
        BlockFate(k, Buffered(s, k), Overwritten);
      }
    case Expire(t) =>
      PendingAfter(s.table, s.started[t], false);
    case Answer(k) =>
      PendingAfter(s.table, k, false);
    case Learn(k, e) =>
      PendingElsewhere(s.table, k, e);
      assert forall j: U48 :: Pending(n.service.table, j) <==> Pending(s.table, j);
      assert forall j: U48 :: Buffered(n.service, j) == Buffered(s, j);
    case Lose(k) =>
      PendingElsewhere(s.table, k, NEW_ENTRY);
      assert Buffered(n.service, k) == Buffered(s, k);
    case _ =>
  }

  lemma PendingAfter(table: Table, k: U48, pending: bool)
    ensures forall j: U48 :: Pending(WithPending(table, k, pending), j) <==> if j == k then pending else Pending(table, j)
  {
  }

  lemma PendingElsewhere(table: Table, k: U48, e: Entry)
    ensures forall j: U48 :: Pending(table[k := e.(lsPending := EntryOf(table, k).lsPending)], j) <==> Pending(table, j)
    ensures forall j: U48 :: Pending(table - {k}, j) <==> j != k && Pending(table, j)
  {
  }

  predicate LosesWaiting(w: World, step: Step) {
    step.Lose? && Buffered(w.service, step.k) != []
  }

  predicate KeepsWaiting(steps: seq<Step>, max: nat)
    requires IsRun(steps, max)
    decreases |steps|
  {
    steps == [] || (var before := steps[..|steps| - 1];
                    KeepsWaiting(before, max) && !LosesWaiting(Final(before, max), steps[|steps| - 1]))
  }

  /** So requests are only ever handed on or given up while entries with waiting requests stay. */
  lemma {:induction false} NeverOverwritten(steps: seq<Step>, max: nat)
    requires IsRun(steps, max) && KeepsWaiting(steps, max)
    ensures NoneOverwritten(Final(steps, max).disposed) && BuffersPending(Final(steps, max).service)
    decreases |steps|
  {
    hide BuffersPending, NoneOverwritten, Next;
    if steps == [] {
      assert BuffersPending(START.service) && NoneOverwritten(START.disposed) by { StartOverwrote(); }
    } else {
      NeverOverwritten(steps[..|steps| - 1], max);
      OverwritingExactly(Final(steps[..|steps| - 1], max), steps[|steps| - 1], max);
    }
  }

  lemma StartOverwrote()
    ensures BuffersPending(START.service) && NoneOverwritten(START.disposed)
  {
  }

  /** From any state: once the entry is dropped, the next request for the address overwrites all
      that waited, and none of it is ever handed on. */
  lemma DroppedEntryLosesRequests(w: World, k: U48, req: Request, max: nat)
    ensures var n := Next(Next(w, Lose(k), max), Ask(k, Some(req)), max);
            && DisposedFor(n.disposed, k) == DisposedFor(w.disposed, k) + Buffered(w.service, k)
            && Buffered(n.service, k) == [req]
            && n.service.handed == w.service.handed
  {
    hide DisposedFor, HandedIn, Disposals;
    DisposedBlock(w.disposed, k, Buffered(w.service, k), Overwritten, k);
  }

  // ---------------------------------------------------------------- one search per pending address

  function PendingOf(table: Table): set<U48> {
    set k | k in table && table[k].lsPending
  }

  function ArmingFor(arming: map<nat, Arming>): set<U48> {
    set t | t in arming :: arming[t].k
  }

  /** Counters and buffers exist for the pending addresses, timers are stored or about to be. */
  ghost predicate KeysAgree(w: World) {
    && w.service.counters.Keys == w.service.buffers.Keys == PendingOf(w.service.table)
    && w.service.timers.Keys + ArmingFor(w.arming) == PendingOf(w.service.table)
  }

  /** No search ends while a thread is still to register its timer, no timer outlives its search
      (unless it would give up at once), no pending entry is dropped. */
  predicate Orderly(w: World, step: Step, max: nat)
    requires Enabled(w, step)
  {
    var s := w.service;
    match step
    case Answer(k) => k !in ArmingFor(w.arming)
    case Expire(t) =>
      var k := s.started[t];
      if Pending(s.table, k) then Count(s, k) < max || k !in ArmingFor(w.arming) else max == 0
    case Lose(k) => !Pending(s.table, k)
    case _ => true
  }

  lemma ArmingMore(arming: map<nat, Arming>, t: nat, a: Arming)
    requires t !in arming
    ensures ArmingFor(arming[t := a]) == ArmingFor(arming) + {a.k}
  {
    assert arming[t := a][t] == a;
    forall k | k in ArmingFor(arming) ensures k in ArmingFor(arming[t := a]) {
      var u :| u in arming && arming[u].k == k;
      assert arming[t := a][u].k == k;
    }
  }

  lemma ArmingLess(arming: map<nat, Arming>, t: nat)
    requires t in arming
    ensures ArmingFor(arming - {t}) + {arming[t].k} == ArmingFor(arming)
  {
    forall k | k in ArmingFor(arming) ensures k in ArmingFor(arming - {t}) + {arming[t].k} {
      var u :| u in arming && arming[u].k == k;
      assert u != t ==> (arming - {t})[u].k == k;
    }
  }

  lemma PendingOfAfter(table: Table, k: U48)
    ensures PendingOf(WithPending(table, k, true)) == PendingOf(table) + {k}
    ensures PendingOf(WithPending(table, k, false)) == PendingOf(table) - {k}
    ensures PendingOf(table - {k}) == PendingOf(table) - {k}
    ensures k !in table ==> k !in PendingOf(table)
    ensures Pending(table, k) <==> k in PendingOf(table)
  {
  }

  lemma LearnKeepsPending(table: Table, k: U48, e: Entry)
    ensures PendingOf(table[k := e.(lsPending := EntryOf(table, k).lsPending)]) == PendingOf(table)
  {
  }

  ghost predicate TimersFresh(w: World) {
    forall t | t in w.arming :: t < w.service.nextTimer
  }

  lemma ExpiryKeepsKeysExactly(w: World, t: nat, max: nat)
    requires t in w.service.started && KeysAgree(w) && TimersFresh(w)
    ensures KeysAgree(Next(w, Expire(t), max)) <==> Orderly(w, Expire(t), max)
  {
    hide PendingOf, ArmingFor, WithPending, Disposals, Pending;
    var k := w.service.started[t];
    PendingOfAfter(w.service.table, k);
    ArmingMore(w.arming, w.service.nextTimer, Arming(k, false));
  }

  /** A step keeps the key sets equal exactly when it is orderly. */
  lemma KeysKeptExactly(w: World, step: Step, max: nat)
    requires Enabled(w, step) && KeysAgree(w) && TimersFresh(w)
    ensures TimersFresh(Next(w, step, max))
    ensures KeysAgree(Next(w, step, max)) <==> Orderly(w, step, max)
  {
    hide PendingOf, ArmingFor, WithPending, Disposals, Pending, TimersFresh;
    var s := w.service;
    FreshKept(w, step, max);
    match step
    case Ask(k, req) =>
      AskKeepsKeys(w, k, req, max);
    case Register(t) =>
      ArmingLess(w.arming, t);
    case Expire(t) =>
      ExpiryKeepsKeysExactly(w, t, max);
    case Answer(k) =>
      PendingOfAfter(s.table, k);
    case Learn(k, e) =>
      LearnKeepsPending(s.table, k, e);
    case Lose(k) =>
      PendingOfAfter(s.table, k);
  }

  lemma FreshKept(w: World, step: Step, max: nat)
    requires Enabled(w, step) && TimersFresh(w)
    ensures TimersFresh(Next(w, step, max))
  {
    hide PendingOf, ArmingFor, WithPending, Disposals, Pending;
  }

  lemma AskKeepsKeys(w: World, k: U48, req: Option<Request>, max: nat)
    requires KeysAgree(w) && TimersFresh(w)
    ensures KeysAgree(Next(w, Ask(k, req), max))
  {
    hide PendingOf, ArmingFor, WithPending, Disposals, Pending;
    PendingOfAfter(w.service.table, k);
    ArmingMore(w.arming, w.service.nextTimer, Arming(k, true));
  }

  predicate AlwaysOrderly(steps: seq<Step>, max: nat)
    requires IsRun(steps, max)
    decreases |steps|
  {
    steps == [] || (var before := steps[..|steps| - 1];
                    AlwaysOrderly(before, max) && Orderly(Final(before, max), steps[|steps| - 1], max))
  }

  lemma {:induction false} OrderlyRunKeepsKeys(steps: seq<Step>, max: nat)
    requires IsRun(steps, max) && AlwaysOrderly(steps, max)
    ensures KeysAgree(Final(steps, max)) && TimersFresh(Final(steps, max))
    decreases |steps|
  {
    hide KeysAgree, TimersFresh, Next, Orderly;
    if steps == [] {
      assert KeysAgree(START) && TimersFresh(START) by { StartKeys(); }
    } else {
      OrderlyRunKeepsKeys(steps[..|steps| - 1], max);
      KeysKeptExactly(Final(steps[..|steps| - 1], max), steps[|steps| - 1], max);
    }
  }

  lemma StartKeys()
    ensures KeysAgree(START) && TimersFresh(START)
  {
  }

  /** When no thread is between its sections in an orderly run, timers, counters, buffers and
      pending entries all name the same addresses. */
  lemma OrderlyKeySets(steps: seq<Step>, max: nat)
    requires IsRun(steps, max) && AlwaysOrderly(steps, max) && Final(steps, max).arming == map[]
    ensures var s := Final(steps, max).service;
            s.timers.Keys == s.counters.Keys == s.buffers.Keys == PendingOf(s.table)
  {
    hide IsRun, Final, PendingOf;
    OrderlyRunKeepsKeys(steps, max);
  }

  // ---------------------------------------------------------------- LS Requests sent

  function Occurs(s: seq<U48>, k: U48): nat {
    if s == [] then 0 else Occurs(s[..|s| - 1], k) + if s[|s| - 1] == k then 1 else 0
  }

  lemma OccursMore(s: seq<U48>, k: U48, j: U48)
    ensures Occurs(s + [k], j) == Occurs(s, j) + if j == k then 1 else 0
  {
  }

  /** LS Requests a search may still send. */
  function Left(s: Service, k: U48, max: nat): int {
    if k in s.counters then max - s.counters[k] else 0
  }

  ghost predicate SendsBounded(w: World, max: nat) {
    forall k: U48 ::
      && 0 <= Left(w.service, k, max)
      && Occurs(w.service.requests, k) + Left(w.service, k, max) <= (1 + max) * Occurs(w.lives, k)
  }

  lemma OneMoreLife(max: nat, n: nat)
    ensures (1 + max) * (n + 1) == (1 + max) * n + 1 + max
  {
  }

  lemma StepBoundsSends(w: World, step: Step, max: nat)
    requires Enabled(w, step) && SendsBounded(w, max)
    ensures SendsBounded(Next(w, step, max), max)
  {
    hide Occurs, Disposals, WithPending;
    var s, n := w.service, Next(w, step, max);
    forall j: U48
      ensures 0 <= Left(n.service, j, max)
              && Occurs(n.service.requests, j) + Left(n.service, j, max) <= (1 + max) * Occurs(n.lives, j)
    {
      assert 0 <= Left(s, j, max);
      match step
      case Ask(k, req) =>
        OccursMore(s.requests, k, j);
        OccursMore(w.lives, k, j);
        OneMoreLife(max, Occurs(w.lives, j));
      case Expire(t) =>
        var k := s.started[t];
        OccursMore(s.requests, k, j);
        OccursMore(w.lives, k, j);
        OneMoreLife(max, Occurs(w.lives, j));
        assert w.lives + [] == w.lives;
      case _ =>
    }
  }

  /** Whatever happens, the LS Requests sent for an address number at most 1 + MaxRetrans for
      each time a retransmit counter came into being; what a live counter may still add counts. */
  lemma {:induction false} RequestsSentBounded(steps: seq<Step>, max: nat)
    requires IsRun(steps, max)
    ensures SendsBounded(Final(steps, max), max)
    decreases |steps|
  {
    hide SendsBounded, Next;
    if steps == [] {
      assert SendsBounded(START, max) by { StartBounded(max); }
    } else {
      RequestsSentBounded(steps[..|steps| - 1], max);
      StepBoundsSends(Final(steps[..|steps| - 1], max), steps[|steps| - 1], max);
    }
  }

  lemma StartBounded(max: nat)
    ensures SendsBounded(START, max)
  {
  }

  /** The LS Requests for k that a step sends. */
  function SentBy(w: World, step: Step, max: nat, k: U48): int
    requires Enabled(w, step)
  {
    Occurs(Next(w, step, max).service.requests, k) - Occurs(w.service.requests, k)
  }

  lemma SentByStep(w: World, step: Step, max: nat, k: U48)
    requires Enabled(w, step)
    ensures SentBy(w, step, max, k) ==
            if Begins(w, step, k) || (step.Expire? && w.service.started[step.t] == k && Count(w.service, k) < max) then 1 else 0
  {
    hide Occurs, Disposals, WithPending;
    match step
    case Ask(j, _) =>
      OccursMore(w.service.requests, j, k);
    case Expire(t) =>
      OccursMore(w.service.requests, w.service.started[t], k);
    case _ =>
  }

  /** A search for k begins. */
  predicate Begins(w: World, step: Step, k: U48) {
    step.Ask? && step.k == k && !Pending(w.service.table, k)
  }

  /** A retransmit counter for k comes into being. */
  predicate Counts(w: World, step: Step, max: nat, k: U48)
    requires Enabled(w, step)
  {
    Occurs(Next(w, step, max).lives, k) > Occurs(w.lives, k)
  }

  lemma CountsExactly(w: World, step: Step, max: nat, k: U48)
    requires Enabled(w, step)
    ensures Counts(w, step, max, k) <==>
            Begins(w, step, k)
            || (step.Expire? && w.service.started[step.t] == k && k !in w.service.counters && Count(w.service, k) < max)
  {
    hide Occurs, Disposals, WithPending;
    assert w.lives + [] == w.lives;
    match step
    case Ask(j, _) =>
      OccursMore(w.lives, j, k);
    case Expire(t) =>
      OccursMore(w.lives, w.service.started[t], k);
    case _ =>
  }

  /** The LS Requests sent for k since its last retransmit counter came into being. */
  function SinceCounter(steps: seq<Step>, max: nat, k: U48): int
    requires IsRun(steps, max)
    decreases |steps|
  {
    if steps == [] then 0
    else
      var before, step := steps[..|steps| - 1], steps[|steps| - 1];
      var w := Final(before, max);
      SentBy(w, step, max, k) + if Counts(w, step, max, k) then 0 else SinceCounter(before, max, k)
  }

  /** Whatever happens, each retransmit counter stands for at most 1 + MaxRetrans LS Requests. */
  lemma {:induction false} RequestsPerCounter(steps: seq<Step>, max: nat, k: U48)
    requires IsRun(steps, max)
    ensures var s, n := Final(steps, max).service, SinceCounter(steps, max, k);
            n <= 1 + max && (k in s.counters ==> s.counters[k] <= max && n <= 1 + s.counters[k])
    decreases |steps|
  {
    hide Next, SentBy, Counts, Begins;
    if steps != [] {
      var before, step := steps[..|steps| - 1], steps[|steps| - 1];
      RequestsPerCounter(before, max, k);
      SentByStep(Final(before, max), step, max, k);
      CountsExactly(Final(before, max), step, max, k);
      CounterAfter(Final(before, max), step, max, k);
    }
  }

  /** What a step does to a retransmit counter: it appears at 0, or at 1 with a late expiry, counts
      one up with each retransmission, or goes. */
  lemma CounterAfter(w: World, step: Step, max: nat, k: U48)
    requires Enabled(w, step)
    ensures var was, now := w.service.counters, Next(w, step, max).service.counters;
            if Begins(w, step, k) then k in now && now[k] == 0
            else if step.Expire? && w.service.started[step.t] == k && Count(w.service, k) < max then
              k in now && now[k] == Count(w.service, k) + 1
            else k in now ==> k in was && now[k] == was[k]
  {
    hide Disposals, WithPending, Pending, Buffered;
    match step
    case Expire(t) =>
      ExpiryCounts(w, t, max);
    case _ =>
  }

  lemma ExpiryCounts(w: World, t: nat, max: nat)
    requires t in w.service.started
    ensures var s, j, now := w.service, w.service.started[t], Next(w, Expire(t), max).service.counters;
            now == if Count(s, j) < max then s.counters[j := Count(s, j) + 1] else s.counters - {j}
  {
    hide Disposals, WithPending, Pending, Buffered;
  }

  /** How many searches for k the run began. */
  function Searches(steps: seq<Step>, max: nat, k: U48): nat
    requires IsRun(steps, max)
    decreases |steps|
  {
    if steps == [] then 0
    else
      var before, step := steps[..|steps| - 1], steps[|steps| - 1];
      Searches(before, max, k) +
      if Begins(Final(before, max), step, k) then 1 else 0
  }

  lemma {:induction false} LivesAreSearches(steps: seq<Step>, max: nat, k: U48)
    requires IsRun(steps, max) && AlwaysOrderly(steps, max)
    ensures Occurs(Final(steps, max).lives, k) == Searches(steps, max, k)
    decreases |steps|
  {
    hide Begun, Armed, Answered, Retried, Disposals, KeysAgree, Occurs;
    if steps == [] {
      assert Occurs([], k) == 0 by { NoOccurrence(k); }
    } else {
      var before, step := steps[..|steps| - 1], steps[|steps| - 1];
      LivesAreSearches(before, max, k);
      OrderlyRunKeepsKeys(before, max);
      LivesStep(Final(before, max), step, max, k);
    }
  }

  lemma NoOccurrence(k: U48)
    ensures Occurs([], k) == 0
  {
  }

  lemma LivesStep(w: World, step: Step, max: nat, k: U48)
    requires Enabled(w, step) && KeysAgree(w) && Orderly(w, step, max)
    ensures Occurs(Next(w, step, max).lives, k)
            == Occurs(w.lives, k) + if Begins(w, step, k) then 1 else 0
  {
    hide Begun, Armed, Answered, Retried, Disposals, Occurs;
    match step
    case Ask(j, _) =>
      OccursMore(w.lives, j, k);
    case Expire(t) =>
      assert w.lives + [] == w.lives;
      PendingOfAfter(w.service.table, w.service.started[t]);
    case _ =>
  }

  /** The LS Requests sent for k since its last search began. */
  function SinceSearch(steps: seq<Step>, max: nat, k: U48): int
    requires IsRun(steps, max)
    decreases |steps|
  {
    if steps == [] then 0
    else
      var before, step := steps[..|steps| - 1], steps[|steps| - 1];
      var w := Final(before, max);
      SentBy(w, step, max, k) + if Begins(w, step, k) then 0 else SinceSearch(before, max, k)
  }

  /** In orderly runs a counter comes into being with a search and not otherwise. */
  lemma {:induction false} CounterIsSearch(steps: seq<Step>, max: nat, k: U48)
    requires IsRun(steps, max) && AlwaysOrderly(steps, max)
    ensures SinceSearch(steps, max, k) == SinceCounter(steps, max, k)
    ensures var s := Final(steps, max).service;
            Pending(s.table, k) ==> k in s.counters && SinceSearch(steps, max, k) == 1 + s.counters[k]
    decreases |steps|
  {
    hide Next, SentBy, Counts, Begins, KeysAgree, Orderly, Pending;
    if steps == [] {
      NothingPending(k);
    } else {
      var before, step := steps[..|steps| - 1], steps[|steps| - 1];
      var w := Final(before, max);
      CounterIsSearch(before, max, k);
      OrderlyRunKeepsKeys(before, max);
      OrderlyRunKeepsKeys(steps, max);
      SentByStep(w, step, max, k);
      CountsExactly(w, step, max, k);
      CounterAfter(w, step, max, k);
      OrderlyExpiry(w, step, max, k);
      PendingIsCounted(w, k);
      PendingIsCounted(Next(w, step, max), k);
    }
  }

  lemma NothingPending(k: U48)
    ensures !Pending(START.service.table, k)
  {
  }

  lemma PendingIsCounted(w: World, k: U48)
    requires KeysAgree(w)
    ensures Pending(w.service.table, k) <==> k in w.service.counters
  {
    PendingOfAfter(w.service.table, k);
  }

  lemma OrderlyExpiry(w: World, step: Step, max: nat, k: U48)
    requires Enabled(w, step) && Orderly(w, step, max)
    ensures step.Expire? && w.service.started[step.t] == k && Count(w.service, k) < max ==> Pending(w.service.table, k)
  {
    PendingOfAfter(w.service.table, k);
  }

  /** In orderly runs each search sends at most 1 + MaxRetrans LS Requests, one more than its counter
      shows while it is on; and so many for each search in all. */
  lemma OrderlyRequests(steps: seq<Step>, max: nat, k: U48)
    requires IsRun(steps, max) && AlwaysOrderly(steps, max)
    ensures SinceSearch(steps, max, k) <= 1 + max
    ensures var s := Final(steps, max).service;
            Pending(s.table, k) ==> k in s.counters && SinceSearch(steps, max, k) == 1 + s.counters[k]
    ensures Occurs(Final(steps, max).service.requests, k) <= (1 + max) * Searches(steps, max, k)
  {
    hide IsRun, Final, AlwaysOrderly, Searches, SinceSearch, SinceCounter;
    CounterIsSearch(steps, max, k);
    RequestsPerCounter(steps, max, k);
    RequestsSentBounded(steps, max);
    LivesAreSearches(steps, max, k);
    assert 0 <= Left(Final(steps, max).service, k, max);
  }

  /** In orderly runs a search that is on is given up at an expiry exactly if it has sent all its
      1 + MaxRetrans LS Requests; else the expiry sends one more. */
  lemma GivenUpExactly(steps: seq<Step>, max: nat, t: nat)
    requires IsRun(steps, max) && AlwaysOrderly(steps, max) && t in Final(steps, max).service.started
    requires Pending(Final(steps, max).service.table, Final(steps, max).service.started[t])
    ensures var s := Final(steps, max).service; var k, n := s.started[t], Next(Final(steps, max), Expire(t), max).service;
            && (!Pending(n.table, k) <==> SinceSearch(steps, max, k) == 1 + max)
            && (!Pending(n.table, k) ==> n.requests == s.requests)
            && (Pending(n.table, k) ==> n.requests == s.requests + [k])
  {
    hide IsRun, Final, AlwaysOrderly, Searches, SinceSearch, SinceCounter, Disposals;
    var w := Final(steps, max);
    var k := w.service.started[t];
    OrderlyRequests(steps, max, k);
    RequestsPerCounter(steps, max, k);
    PendingAfter(w.service.table, k, false);
  }

  // ---------------------------------------------------------------- timers and their records

  /** A timer that will still run its callback for k. */
  ghost predicate Ticking(s: Service, k: U48) {
    exists t | t in s.started :: t !in s.cancelled && s.started[t] == k
  }

  /** Timers are numbered afresh and know their address, whatever the order of steps. */
  ghost predicate Records(w: World) {
    var s := w.service;
    && (forall t | t in w.arming ::
          t < s.nextTimer && t !in s.cancelled && (t in s.started ==> s.started[t] == w.arming[t].k))
    && (forall t | t in s.started || t in s.cancelled :: t < s.nextTimer)
    && (forall k | k in s.timers :: s.timers[k] < s.nextTimer && s.timers[k] !in w.arming
                                    && (s.timers[k] in s.started ==> s.started[s.timers[k]] == k))
  }

  lemma ExpiryKeepsRecords(w: World, t: nat, max: nat)
    requires t in w.service.started && Records(w)
    ensures Records(Next(w, Expire(t), max))
  {
    hide WithPending, Disposals;
    var k, fired := w.service.started[t], w.(service := w.service.(started := w.service.started - {t}));
    assert Records(fired);
    if Count(w.service, k) < max {
      SentKeepsRecords(fired, k, Arming(k, false));
    }
  }

  lemma SentKeepsRecords(w: World, k: U48, a: Arming)
    requires Records(w) && a.k == k
    ensures Records(w.(service := Sent(w.service, k), arming := w.arming[w.service.nextTimer := a]))
  {
  }

  lemma RecordsKept(w: World, step: Step, max: nat)
    requires Enabled(w, step) && Records(w)
    ensures Records(Next(w, step, max))
  {
    hide WithPending, Disposals, Ticking, Pending;
    match step
    case Expire(t) =>
      ExpiryKeepsRecords(w, t, max);
    case _ =>
  }

  // ---------------------------------------------------------------- atomic runs

  /** The steps of a run in which whoever starts a timer registers it at once, cancelling a timer
      always stops it, and pending entries are kept. */
  predicate Atomic(w: World, step: Step)
    requires Enabled(w, step)
  {
    && (w.arming != map[] ==> step.Register?)
    && (step.Expire? ==> step.t !in w.service.cancelled)
    && (step.Lose? ==> !Pending(w.service.table, step.k))
  }

  /** At most one thread is between its sections, and each timer still to run, but the one it
      started, is the registered timer of its address. */
  ghost predicate Registered(w: World) {
    var s := w.service;
    && (forall t, u | t in w.arming && u in w.arming :: t == u)
    && (forall t | t in s.started && t !in s.cancelled && t !in w.arming ::
          s.started[t] !in ArmingFor(w.arming) && s.started[t] in s.timers && s.timers[s.started[t]] == t)
  }

  /** This is how the code keeps its timers in step with its searches: an uncancelled timer is
      registered, and what is registered is searched for. */
  lemma AtomicIsOrderly(w: World, step: Step, max: nat)
    requires Enabled(w, step) && Atomic(w, step) && KeysAgree(w) && Registered(w)
    ensures Orderly(w, step, max)
  {
    hide WithPending, Disposals;
    if step.Expire? {
      assert w.arming == map[];
      PendingOfAfter(w.service.table, w.service.started[step.t]);
    }
  }

  lemma ExpiryKeepsRegistered(w: World, t: nat, max: nat)
    requires t in w.service.started && Atomic(w, Expire(t)) && Registered(w) && Records(w)
    ensures Registered(Next(w, Expire(t), max))
  {
    hide WithPending, Disposals, ArmingFor;
    var k := w.service.started[t];
    ArmingMore(w.arming, w.service.nextTimer, Arming(k, false));
    NobodyArming(w.arming);
  }

  lemma NobodyArming(arming: map<nat, Arming>)
    ensures arming == map[] ==> ArmingFor(arming) == {}
  {
  }

  lemma AskKeepsRegistered(w: World, k: U48, req: Option<Request>, max: nat)
    requires Atomic(w, Ask(k, req)) && Registered(w) && Records(w) && KeysAgree(w)
    ensures Registered(Next(w, Ask(k, req), max))
  {
    hide WithPending, Disposals, ArmingFor, PendingOf;
    ArmingMore(w.arming, w.service.nextTimer, Arming(k, true));
    NobodyArming(w.arming);
    PendingOfAfter(w.service.table, k);
  }

  lemma RegisterKeepsRegistered(w: World, t: nat, max: nat)
    requires t in w.arming && Registered(w) && Records(w)
    ensures Registered(Next(w, Register(t), max))
  {
    hide ArmingFor;
    ArmingLess(w.arming, t);
    assert w.arming[t].k in ArmingFor(w.arming) by {
      ArmingHas(w.arming, t);
    }
    assert w.arming - {t} == map[];
    NobodyArming(w.arming - {t});
  }

  lemma ArmingHas(arming: map<nat, Arming>, t: nat)
    requires t in arming
    ensures arming[t].k in ArmingFor(arming)
  {
  }

  lemma RegisteredKept(w: World, step: Step, max: nat)
    requires Enabled(w, step) && Atomic(w, step) && Registered(w) && Records(w) && KeysAgree(w)
    ensures Registered(Next(w, step, max))
  {
    hide WithPending, Disposals, ArmingFor, PendingOf, KeysAgree, Atomic;
    match step
    case Ask(k, req) =>
      AskKeepsRegistered(w, k, req, max);
    case Register(t) =>
      RegisterKeepsRegistered(w, t, max);
    case Expire(t) =>
      ExpiryKeepsRegistered(w, t, max);
    case _ =>
  }

  predicate AlwaysAtomic(steps: seq<Step>, max: nat)
    requires IsRun(steps, max)
    decreases |steps|
  {
    steps == [] || (var before := steps[..|steps| - 1];
                    AlwaysAtomic(before, max) && Atomic(Final(before, max), steps[|steps| - 1]))
  }

  lemma {:induction false} AtomicRun(steps: seq<Step>, max: nat)
    requires IsRun(steps, max) && AlwaysAtomic(steps, max)
    ensures AlwaysOrderly(steps, max)
    ensures Registered(Final(steps, max)) && Records(Final(steps, max)) && KeysAgree(Final(steps, max))
    decreases |steps|
  {
    hide KeysAgree, Registered, Records, Next, Orderly, Atomic;
    if steps == [] {
      StartRegistered();
      OrderlyRunKeepsKeys(steps, max);
    } else {
      var before, step := steps[..|steps| - 1], steps[|steps| - 1];
      var w := Final(before, max);
      AtomicRun(before, max);
      AtomicIsOrderly(w, step, max);
      RegisteredKept(w, step, max);
      RecordsKept(w, step, max);
      OrderlyRunKeepsKeys(steps, max);
    }
  }

  lemma StartRegistered()
    ensures Registered(START) && Records(START)
  {
  }

  lemma {:induction false} AtomicIsTimely(steps: seq<Step>, max: nat)
    requires IsRun(steps, max) && AlwaysAtomic(steps, max)
    ensures AlwaysTimely(steps, max)
    decreases |steps|
  {
    hide Next;
    if steps != [] {
      AtomicIsTimely(steps[..|steps| - 1], max);
    }
  }

  /** With requests, expiries and replies as atomic steps and pending entries kept: whenever no
      thread is between its sections, timers, counters, buffers and pending entries name the same
      addresses, and the timers still to run are the registered ones, one for each of these. */
  lemma KeySetsEqual(steps: seq<Step>, max: nat)
    requires IsRun(steps, max) && AlwaysAtomic(steps, max) && Final(steps, max).arming == map[]
    ensures var s := Final(steps, max).service;
            && s.timers.Keys == s.counters.Keys == s.buffers.Keys == PendingOf(s.table)
            && (forall t | t in s.started && t !in s.cancelled :: s.started[t] in s.timers && s.timers[s.started[t]] == t)
            && (forall k | k in s.timers :: s.timers[k] in s.started && s.timers[k] !in s.cancelled && s.started[s.timers[k]] == k)
  {
    hide IsRun, Final, PendingOf, Pending, AlwaysAtomic, AlwaysOrderly, AlwaysTimely;
    AtomicRun(steps, max);
    AtomicIsTimely(steps, max);
    OrderlyKeySets(steps, max);
    var s := Final(steps, max).service;
    forall k | k in s.timers
      ensures s.timers[k] in s.started && s.timers[k] !in s.cancelled && s.started[s.timers[k]] == k
    {
      PendingOfAfter(s.table, k);
      NoSearchStalls(steps, max, k);
    }
  }

  /** And each search sends at most 1 + MaxRetrans LS Requests, counted from where it began. */
  lemma RequestsPerSearch(steps: seq<Step>, max: nat, k: U48)
    requires IsRun(steps, max) && AlwaysAtomic(steps, max)
    ensures SinceSearch(steps, max, k) <= 1 + max
    ensures var s := Final(steps, max).service;
            Pending(s.table, k) ==> k in s.counters && SinceSearch(steps, max, k) == 1 + s.counters[k]
    ensures Occurs(Final(steps, max).service.requests, k) <= (1 + max) * Searches(steps, max, k)
  {
    hide IsRun, Final, AlwaysAtomic, AlwaysOrderly, Searches, SinceSearch;
    AtomicRun(steps, max);
    OrderlyRequests(steps, max, k);
  }

  /** Nor is a request overwritten: it waits, or is handed on or given up. */
  lemma {:induction false} AtomicNeverOverwrites(steps: seq<Step>, max: nat)
    requires IsRun(steps, max) && AlwaysAtomic(steps, max)
    ensures KeepsWaiting(steps, max) && NoneOverwritten(Final(steps, max).disposed)
    decreases |steps|
  {
    hide Next, NoneOverwritten, Pending, Buffered;
    if steps != [] {
      AtomicNeverOverwrites(steps[..|steps| - 1], max);
      NeverOverwritten(steps[..|steps| - 1], max);
    }
    NeverOverwritten(steps, max);
  }

  // ---------------------------------------------------------------- every search has a timer

  /** Every pending address has a timer that will retry or give up.  Between two steps, that is: in
      the program an address is pending and its request sent shortly before the timer starts, and a
      step of the model is over only when it has started. */
  ghost predicate AllTick(w: World) {
    forall k: U48 :: Pending(w.service.table, k) ==> Ticking(w.service, k)
  }

  /** The thread that began a search registers its timer and thereby cancels the only timer that
      would still run for the address. */
  predicate Silences(w: World, step: Step)
    requires Enabled(w, step)
  {
    step.Register? &&
    var s, k := w.service, w.arming[step.t].k;
    && w.arming[step.t].cancelsOld && Pending(s.table, k) && k in s.timers
    && s.timers[k] in s.started && s.timers[k] !in s.cancelled
    && (forall t | t in s.started :: t !in s.cancelled && s.started[t] == k ==> t == s.timers[k])
  }

  lemma NextTicks(s: Service, k: U48)
    requires forall t | t in s.cancelled :: t < s.nextTimer
    ensures Ticking(Sent(s, k), k)
  {
    assert Sent(s, k).started[s.nextTimer] == k;
  }

  lemma StillTicks(s: Service, n: Service, k: U48)
    requires Ticking(s, k)
    requires forall t | t in s.started && t !in s.cancelled && s.started[t] == k ::
               t in n.started && n.started[t] == k && t !in n.cancelled
    ensures Ticking(n, k)
  {
  }

  lemma TickingAfterExpiry(w: World, t: nat, max: nat, k: U48)
    requires t in w.service.started && Records(w)
    requires Pending(w.service.table, k) ==> Ticking(w.service, k)
    requires Pending(Next(w, Expire(t), max).service.table, k)
    ensures Ticking(Next(w, Expire(t), max).service, k)
  {
    hide WithPending, Disposals, Ticking;
    var s, n, j := w.service, Next(w, Expire(t), max).service, w.service.started[t];
    PendingAfter(s.table, j, false);
    if j == k {
      if Count(s, k) < max {
        NextTicks(s.(started := s.started - {t}, counters := s.counters[k := Count(s, k) + 1]), k);
      }
    } else {
      StillTicks(s, n, k);
    }
  }

  lemma TickingAfterAsk(w: World, j: U48, req: Option<Request>, max: nat, k: U48)
    requires Records(w)
    requires Pending(w.service.table, k) ==> Ticking(w.service, k)
    requires Pending(Next(w, Ask(j, req), max).service.table, k)
    ensures Ticking(Next(w, Ask(j, req), max).service, k)
  {
    hide WithPending, Disposals, Ticking;
    var s, n := w.service, Next(w, Ask(j, req), max).service;
    PendingAfter(s.table, j, true);
    if j == k && !Pending(s.table, k) {
      NextTicks(s.(table := WithPending(s.table, k, true), buffers := s.buffers[k := AsSeq(req)], counters := s.counters[k := 0]), k);
    } else {
      StillTicks(s, n, k);
    }
  }

  /** Registering a timer stops the ticking for an address exactly by silencing it. */
  lemma RegisterSilencesExactly(w: World, t: nat, max: nat, k: U48)
    requires t in w.arming && Records(w) && Pending(w.service.table, k) && Ticking(w.service, k)
    ensures Ticking(Next(w, Register(t), max).service, k) <==> !(w.arming[t].k == k && Silences(w, Register(t)))
  {
    var s, n := w.service, Next(w, Register(t), max).service;
    if w.arming[t].k == k && Silences(w, Register(t)) {
    } else if w.arming[t].k == k && w.arming[t].cancelsOld && k in s.timers {
      var u :| u in s.started && u !in s.cancelled && s.started[u] == k && u != s.timers[k];
      assert u in n.started && u !in n.cancelled;
    } else {
      StillTicks(s, n, k);
    }
  }

  lemma TickingAfter(w: World, step: Step, max: nat, k: U48)
    requires Enabled(w, step) && Records(w) && AllTick(w) && !step.Register?
    requires Pending(Next(w, step, max).service.table, k)
    ensures Ticking(Next(w, step, max).service, k)
  {
    hide WithPending, Disposals, Ticking;
    var s, n := w.service, Next(w, step, max).service;
    match step
    case Ask(j, req) =>
      TickingAfterAsk(w, j, req, max, k);
    case Expire(t) =>
      TickingAfterExpiry(w, t, max, k);
    case Answer(j) =>
      PendingAfter(s.table, j, false);
      StillTicks(s, n, k);
    case Learn(j, e) =>
      PendingElsewhere(s.table, j, e);
      StillTicks(s, n, k);
    case Lose(j) =>
      PendingElsewhere(s.table, j, NEW_ENTRY);
      StillTicks(s, n, k);
    case _ =>
  }

  /** From a state in which every pending address has a running timer, a step leaves one without
      exactly if it silences one. */
  lemma StallsExactly(w: World, step: Step, max: nat)
    requires Enabled(w, step) && Records(w) && AllTick(w)
    ensures AllTick(Next(w, step, max)) <==> !Silences(w, step)
  {
    hide Records, Ticking, Pending, Silences, Disposals, WithPending;
    var n := Next(w, step, max);
    if step.Register? {
      forall k: U48 | Pending(w.service.table, k)
        ensures Ticking(n.service, k) <==> !(w.arming[step.t].k == k && Silences(w, step))
      {
        RegisterSilencesExactly(w, step.t, max, k);
      }
      SilencedIsPending(w, step);
    } else {
      SilencedIsPending(w, step);
      forall k: U48 | Pending(n.service.table, k) ensures Ticking(n.service, k) {
        TickingAfter(w, step, max, k);
      }
    }
  }

  lemma SilencedIsPending(w: World, step: Step)
    requires Enabled(w, step)
    ensures Silences(w, step) ==> step.Register? && Pending(w.service.table, w.arming[step.t].k)
  {
  }

  predicate NeverSilenced(steps: seq<Step>, max: nat)
    requires IsRun(steps, max)
    decreases |steps|
  {
    steps == [] || (var before := steps[..|steps| - 1];
                    NeverSilenced(before, max) && !Silences(Final(before, max), steps[|steps| - 1]))
  }

  ghost predicate AlwaysTicks(steps: seq<Step>, max: nat)
    requires IsRun(steps, max)
    decreases |steps|
  {
    AllTick(Final(steps, max)) && (steps != [] ==> AlwaysTicks(steps[..|steps| - 1], max))
  }

  lemma {:induction false} RunRecords(steps: seq<Step>, max: nat)
    requires IsRun(steps, max)
    ensures Records(Final(steps, max))
    decreases |steps|
  {
    hide Records, Next;
    if steps == [] {
      StartRegistered();
    } else {
      RunRecords(steps[..|steps| - 1], max);
      RecordsKept(Final(steps[..|steps| - 1], max), steps[|steps| - 1], max);
    }
  }

  /** In a run with expiries at any moment, lost entries and replies: every search has a running
      timer all along if and only if no step silenced one. */
  lemma {:induction false} SearchesTickExactly(steps: seq<Step>, max: nat)
    requires IsRun(steps, max)
    ensures AlwaysTicks(steps, max) <==> NeverSilenced(steps, max)
    decreases |steps|
  {
    hide AllTick, Records, Next, Silences;
    if steps == [] {
      StartTicks();
    } else {
      var before, step := steps[..|steps| - 1], steps[|steps| - 1];
      SearchesTickExactly(before, max);
      RunRecords(before, max);
      if AlwaysTicks(before, max) {
        TicksNow(before, max);
        StallsExactly(Final(before, max), step, max);
      }
    }
  }

  lemma TicksNow(steps: seq<Step>, max: nat)
    requires IsRun(steps, max) && AlwaysTicks(steps, max)
    ensures AllTick(Final(steps, max))
  {
  }

  lemma StartTicks()
    ensures AllTick(START)
  {
  }

  /** No timer expires before the thread that started it has registered it. */
  predicate Timely(w: World, step: Step) {
    step.Expire? ==> step.t !in w.arming
  }

  predicate AlwaysTimely(steps: seq<Step>, max: nat)
    requires IsRun(steps, max)
    decreases |steps|
  {
    steps == [] || (var before := steps[..|steps| - 1];
                    AlwaysTimely(before, max) && Timely(Final(before, max), steps[|steps| - 1]))
  }

  ghost predicate ArmingStarted(w: World) {
    forall t | t in w.arming :: t in w.service.started
  }

  lemma TimelyStep(w: World, step: Step, max: nat)
    requires Enabled(w, step) && Timely(w, step) && Records(w) && ArmingStarted(w)
    ensures ArmingStarted(Next(w, step, max)) && !Silences(w, step)
  {
    hide WithPending, Disposals, Pending;
    if step.Register? {
      assert step.t in w.service.started && step.t !in w.service.cancelled;
    }
  }

  lemma {:induction false} TimelyNeverSilenced(steps: seq<Step>, max: nat)
    requires IsRun(steps, max) && AlwaysTimely(steps, max)
    ensures NeverSilenced(steps, max) && ArmingStarted(Final(steps, max))
    decreases |steps|
  {
    hide Records, Next, Silences, Timely;
    if steps != [] {
      TimelyNeverSilenced(steps[..|steps| - 1], max);
      RunRecords(steps[..|steps| - 1], max);
      TimelyStep(Final(steps[..|steps| - 1], max), steps[|steps| - 1], max);
    }
  }

  /** So no search stalls in runs with late expiries, lost entries and replies at any moment, if no
      timer expires before it is registered. */
  lemma NoSearchStalls(steps: seq<Step>, max: nat, k: U48)
    requires IsRun(steps, max) && AlwaysTimely(steps, max) && Pending(Final(steps, max).service.table, k)
    ensures Ticking(Final(steps, max).service, k)
  {
    hide IsRun, Final, NeverSilenced, AlwaysTimely, AlwaysTicks;
    TimelyNeverSilenced(steps, max);
    SearchesTickExactly(steps, max);
    TicksNow(steps, max);
  }

  /** A timer that expires before it is registered can stall the search for good: the retry's
      timer is registered first and then cancelled by the thread that began the search. */
  lemma EarlyExpiryStalls(k: U48, max: nat)
    requires max > 0
    ensures var w1 := Next(START, Ask(k, None), max);
            var w2 := Next(w1, Expire(0), max);
            var w3 := Next(w2, Register(1), max);
            var w4 := Next(w3, Register(0), max);
            Pending(w4.service.table, k) && !Ticking(w4.service, k) && w4.arming == map[]
  {
    var w1 := Next(START, Ask(k, None), max);
    assert w1.service.started == map[0 := k] && w1.arming == map[0 := Arming(k, true)];
    var w2 := Next(w1, Expire(0), max);
    assert w2.service.started == map[1 := k] && w2.arming == map[0 := Arming(k, true), 1 := Arming(k, false)];
    var w3 := Next(w2, Register(1), max);
    assert w3.arming == map[0 := Arming(k, true)];
  }

  /** A cancelled timer that expires after the reply goes on searching for an address that is not
      sought: one more LS Request, a counter and a timer, no pending entry. */
  lemma LateExpirySearches(k: U48, max: nat)
    requires max > 0
    ensures var w1 := Next(START, Ask(k, None), max);
            var w2 := Next(Next(w1, Register(0), max), Answer(k), max);
            && 0 in w2.service.started && 0 in w2.service.cancelled && !Pending(w2.service.table, k)
            && var w3 := Next(w2, Expire(0), max);
               && w3.service.requests == [k, k] && w3.service.counters == map[k := 1]
               && !Pending(w3.service.table, k) && Ticking(w3.service, k)
  {
    var w1 := Next(START, Ask(k, None), max);
    assert w1.service.started == map[0 := k] && w1.arming == map[0 := Arming(k, true)];
    var w2 := Next(Next(w1, Register(0), max), Answer(k), max);
    assert w2.service.started == map[0 := k] && w2.service.cancelled == {0};
    assert Next(w2, Expire(0), max).service.started[1] == k;
  }
}
