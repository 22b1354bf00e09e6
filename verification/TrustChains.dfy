/** What every reachable state of the trust store keeps: each certificate under its digest,
    verified, below a known issuer; chains that end at a root; permissions that shrink downwards. */
module TrustChains {
  import opened Outcomes
  import opened Certificates
  import opened CertificateLibraries

  datatype Op =
    | AddRoot(c: Certificate)
    | AddAuthority(c: Certificate)
    | AddTicket(c: Certificate)
    | AddOwn(c: Certificate)
    | VerifySome(certificates: seq<Body>)

  function Next(k: Crypto, lib: Library, op: Op): Library {
    match op
    case AddRoot(c) => After(lib, WithRoot(k, lib, c))
    case AddAuthority(c) => After(lib, WithAuthority(k, lib, c))
    case AddTicket(c) => After(lib, WithTicket(k, lib, c))
    case AddOwn(c) => After(lib, WithOwn(k, lib, c))
    case VerifySome(certificates) => VerifySequence(k, lib, certificates).0
  }

  function Run(k: Crypto, ops: seq<Op>): Library {
    if ops == [] then EMPTY else Next(k, Run(k, ops[..|ops| - 1]), ops[|ops| - 1])
  }

  // ---------------------------------------------------------------- the invariant

  /** The digest of a root or an authority. */
  predicate IsIssuer(lib: Library, d: Digest) {
    d in lib.roots || d in lib.authorities
  }

  predicate StoredVerified(k: Crypto, store: Store) {
    forall d | d in store :: DigestOf(k, store[d]) == d && Verify(k, store[d]) == Ok(true)
  }

  predicate BelowIssuer(lib: Library, c: Certificate) {
    c.body.issuerId.ByDigest? && IsIssuer(lib, c.body.issuerId.digest)
  }

  predicate AllBelow(lib: Library, store: Store) {
    forall d | d in store :: BelowIssuer(lib, store[d])
  }

  predicate Link(lib: Library, order: seq<Digest>, i: nat)
    requires i < |order|
  {
    && order[i] in lib.authorities && lib.authorities[order[i]].body.issuerId.ByDigest?
    && var d := lib.authorities[order[i]].body.issuerId.digest; d in lib.roots || d in order[..i]
  }

  /** Authorities in the order they came, each below a root or an earlier one. */
  predicate Grounded(lib: Library, order: seq<Digest>) {
    && (forall i, j | 0 <= i < j < |order| :: order[i] != order[j])
    && (forall d | d in lib.authorities :: d in order)
    && (forall i | 0 <= i < |order| :: Link(lib, order, i))
  }

  ghost predicate HasOrder(lib: Library) {
    exists order :: Grounded(lib, order)
  }

  ghost predicate Sound(k: Crypto, lib: Library) {
    && StoredVerified(k, lib.roots) && StoredVerified(k, lib.authorities)
    && StoredVerified(k, lib.tickets) && StoredVerified(k, lib.own)
    && AllBelow(lib, lib.authorities) && AllBelow(lib, lib.tickets) && AllBelow(lib, lib.own)
    && HasOrder(lib)
  }

  lemma TrustedIs(k: Crypto, lib: Library, c: Certificate)
    ensures Trusted(k, lib, c) == Ok(true) ==> BelowIssuer(lib, c) && Verify(k, c) == Ok(true)
  {
  }

  lemma StoredMore(k: Crypto, store: Store, c: Certificate)
    requires StoredVerified(k, store) && Verify(k, c) == Ok(true)
    ensures StoredVerified(k, store[DigestOf(k, c) := c])
  {
  }

  lemma BelowMore(lib: Library, n: Library, store: Store)
    requires AllBelow(lib, store)
    requires lib.roots.Keys <= n.roots.Keys && lib.authorities.Keys <= n.authorities.Keys
    ensures AllBelow(n, store)
  {
  }

  lemma BelowAdded(lib: Library, store: Store, d: Digest, c: Certificate)
    requires AllBelow(lib, store) && BelowIssuer(lib, c)
    ensures AllBelow(lib, store[d := c])
  {
  }

  lemma OrderKept(lib: Library, n: Library)
    requires HasOrder(lib) && n.authorities == lib.authorities && lib.roots.Keys <= n.roots.Keys
    ensures HasOrder(n)
  {
    var order :| Grounded(lib, order);
    forall i | 0 <= i < |order| ensures Link(n, order, i) {
      assert Link(lib, order, i);
    }
    assert Grounded(n, order);
  }

  lemma OrderExtended(lib: Library, d: Digest, c: Certificate)
    requires HasOrder(lib) && d !in lib.authorities && BelowIssuer(lib, c)
    ensures HasOrder(lib.(authorities := lib.authorities[d := c]))
  {
    var order :| Grounded(lib, order);
    var n, longer := lib.(authorities := lib.authorities[d := c]), order + [d];
    assert longer[..|order|] == order;
    forall i | 0 <= i < |longer| ensures Link(n, longer, i) {
      if i < |order| {
        assert Link(lib, order, i);
        LinkExtended(lib, order, i, d, c);
      } else {
        assert forall e | e in lib.authorities :: e in order;
      }
    }
    forall i | 0 <= i < |order| ensures order[i] in lib.authorities {
      assert Link(lib, order, i);
    }
    assert d !in order;
    assert Grounded(n, longer);
  }

  lemma LinkExtended(lib: Library, order: seq<Digest>, i: nat, d: Digest, c: Certificate)
    requires i < |order| && Link(lib, order, i) && d !in lib.authorities
    ensures Link(lib.(authorities := lib.authorities[d := c]), order + [d], i)
  {
    assert (order + [d])[i] == order[i] && (order + [d])[..i] == order[..i];
  }

  lemma AuthorityKeeps(k: Crypto, lib: Library, c: Certificate)
    requires Sound(k, lib)
    ensures Sound(k, After(lib, WithAuthority(k, lib, c)))
  {
    hide Verify, Trusted, HasOrder, StoredVerified, AllBelow, BelowIssuer;
    TrustedIs(k, lib, c);
    var d, n := DigestOf(k, c), After(lib, WithAuthority(k, lib, c));
    if d !in lib.authorities && Trusted(k, lib, c) == Ok(true) {
      StoredMore(k, lib.authorities, c);
      BelowAdded(lib, lib.authorities, d, c);
      BelowMore(lib, n, n.authorities);
      BelowMore(lib, n, lib.tickets);
      BelowMore(lib, n, lib.own);
      OrderExtended(lib, d, c);
    }
  }

  lemma TicketKeeps(k: Crypto, lib: Library, c: Certificate)
    requires Sound(k, lib)
    ensures Sound(k, After(lib, WithTicket(k, lib, c)))
  {
    hide Verify, Trusted, HasOrder, StoredVerified, AllBelow, BelowIssuer;
    TrustedIs(k, lib, c);
    var n := After(lib, WithTicket(k, lib, c));
    if n != lib {
      StoredMore(k, lib.tickets, c);
      BelowAdded(lib, lib.tickets, DigestOf(k, c), c);
    }
    BelowMore(lib, n, lib.authorities);
    BelowMore(lib, n, n.tickets);
    BelowMore(lib, n, lib.own);
    OrderKept(lib, n);
  }

  lemma RootKeeps(k: Crypto, lib: Library, c: Certificate)
    requires Sound(k, lib)
    ensures Sound(k, After(lib, WithRoot(k, lib, c)))
  {
    hide Verify, HasOrder, StoredVerified, AllBelow;
    var n := After(lib, WithRoot(k, lib, c));
    if n != lib {
      StoredMore(k, lib.roots, c);
    }
    BelowMore(lib, n, lib.authorities);
    BelowMore(lib, n, lib.tickets);
    BelowMore(lib, n, lib.own);
    OrderKept(lib, n);
  }

  lemma OwnKeeps(k: Crypto, lib: Library, c: Certificate)
    requires Sound(k, lib)
    ensures Sound(k, After(lib, WithOwn(k, lib, c)))
  {
    hide Verify, Trusted, HasOrder, StoredVerified, AllBelow, BelowIssuer;
    TrustedIs(k, lib, c);
    var n := After(lib, WithOwn(k, lib, c));
    if n != lib {
      StoredMore(k, lib.own, c);
      BelowAdded(lib, lib.own, DigestOf(k, c), c);
    }
    BelowMore(lib, n, lib.authorities);
    BelowMore(lib, n, lib.tickets);
    BelowMore(lib, n, n.own);
    OrderKept(lib, n);
  }

  lemma SequenceKeeps(k: Crypto, lib: Library, certificates: seq<Body>)
    requires Sound(k, lib)
    ensures Sound(k, VerifySequence(k, lib, certificates).0)
  {
    hide Verify, Sound, WithTicket, WithAuthority;
    forall l: Library, at: Certificate | Sound(k, l) ensures Sound(k, After(l, WithTicket(k, l, at))) {
      TicketKeeps(k, l, at);
    }
    forall at: Certificate ensures Sound(k, After(lib, WithAuthority(k, lib, at))) {
      AuthorityKeeps(k, lib, at);
    }
  }

  /** The invariant holds in every state the library reaches. */
  lemma {:induction false} RunIsSound(k: Crypto, ops: seq<Op>)
    ensures Sound(k, Run(k, ops))
  {
    hide Sound, WithRoot, WithAuthority, WithTicket, WithOwn, VerifySequence;
    if ops == [] {
      EmptyIsSound(k);
    } else {
      var lib := Run(k, ops[..|ops| - 1]);
      RunIsSound(k, ops[..|ops| - 1]);
      match ops[|ops| - 1]
      case AddRoot(c) => RootKeeps(k, lib, c);
      case AddAuthority(c) => AuthorityKeeps(k, lib, c);
      case AddTicket(c) => TicketKeeps(k, lib, c);
      case AddOwn(c) => OwnKeeps(k, lib, c);
      case VerifySome(certificates) => SequenceKeeps(k, lib, certificates);
    }
  }

  lemma EmptyIsSound(k: Crypto)
    ensures Sound(k, EMPTY)
  {
    assert Grounded(EMPTY, []);
    assert HasOrder(EMPTY);
  }

  /** So in every reachable library each ticket, authority and own certificate is signed by the
      issuer it names and permitted by it, and each root so or by itself. */
  lemma RunIsSigned(k: Crypto, ops: seq<Op>)
    ensures var lib := Run(k, ops);
            && (forall c | c in lib.tickets.Values + lib.authorities.Values + lib.own.Values :: SignedByIssuer(k, c))
            && (forall c | c in lib.roots.Values :: SignedByIssuer(k, c) || SignedBySelf(k, c))
  {
    hide Run, Verify, HasOrder, SignedByIssuer;
    RunIsSound(k, ops);
    var lib := Run(k, ops);
    forall c | c in lib.tickets.Values + lib.authorities.Values + lib.own.Values ensures SignedByIssuer(k, c) {
      KnownVerified(k, lib, c);
      VerifyExactly(k, c);
    }
    forall c | c in lib.roots.Values ensures SignedByIssuer(k, c) || SignedBySelf(k, c) {
      VerifyExactly(k, c);
    }
  }

  // ---------------------------------------------------------------- what is stored

  predicate IssuerKnown(lib: Library, b: Body) {
    b.issuerId.ByDigest? && (b.issuerId.digest in lib.roots || b.issuerId.digest in lib.authorities)
  }

  /** The store with c under its digest if it is good. */
  function Added(k: Crypto, store: Store, c: Certificate, good: bool): Store {
    if good then store[k.hashedId8(c.body) := c] else store
  }

  /** Each way of adding a certificate stores exactly those that verify and, but for roots, name a
      known issuer; tickets and authorities are not replaced; nothing else changes. */
  lemma StoredExactly(k: Crypto, lib: Library, c: Certificate)
    ensures var signed, known := SignedByIssuer(k, c) || SignedBySelf(k, c), IssuerKnown(lib, c.body);
            var d := k.hashedId8(c.body);
            && Next(k, lib, AddRoot(c)) == lib.(roots := Added(k, lib.roots, c, signed))
            && Next(k, lib, AddAuthority(c)) == lib.(authorities := Added(k, lib.authorities, c, signed && known && d !in lib.authorities))
            && Next(k, lib, AddTicket(c)) == lib.(tickets := Added(k, lib.tickets, c, signed && known && d !in lib.tickets))
            && Next(k, lib, AddOwn(c)) == lib.(own := Added(k, lib.own, c, signed && known))
  {
    hide Verify, SignedByIssuer;
    VerifyExactly(k, c);
  }

  /** The issuer that a single certificate is verified with: a root in preference to an authority. */
  function NamedIssuer(lib: Library, b: Body): Option<Certificate> {
    if !IssuerKnown(lib, b) then None
    else Some(if b.issuerId.digest in lib.roots then lib.roots[b.issuerId.digest] else lib.authorities[b.issuerId.digest])
  }

  /** A single certificate is accepted exactly if it is a known ticket, or signed by a known issuer;
      then that is what is returned, and stored. */
  lemma SingleAcceptedExactly(k: Crypto, lib: Library, b: Body)
    ensures var (n, r) := VerifySequence(k, lib, [b]); var d, c := k.hashedId8(b), Certificate(b, NamedIssuer(lib, b));
            if d in lib.tickets then n == lib && r == Ok(Some(lib.tickets[d]))
            else
              && (Accepts(k, lib, [b]) <==> c.issuer.Some? && SignedByIssuer(k, c))
              && (if Accepts(k, lib, [b]) then r == Ok(Some(c)) && n == lib.(tickets := lib.tickets[d := c]) else n == lib)
  {
    hide Verify, SignedByIssuer;
    var c := Certificate(b, NamedIssuer(lib, b));
    VerifyExactly(k, c);
  }

  /** A ticket with its authority is accepted exactly if a known root signed the authority, and the
      authority or the ticket itself signed the ticket; an authority and a ticket so signed are kept. */
  lemma PairAcceptedExactly(k: Crypto, lib: Library, at: Body, aa: Body)
    requires aa.issuerId.ByDigest? && aa.issuerId.digest in lib.roots
    ensures var authority := Certificate(aa, Some(lib.roots[aa.issuerId.digest])); var ticket := Certificate(at, Some(authority));
            && (Accepts(k, lib, [at, aa]) <==>
                  SignedByIssuer(k, authority) && (SignedByIssuer(k, ticket) || SignedBySelf(k, ticket)))
            && (Accepts(k, lib, [at, aa]) ==> VerifySequence(k, lib, [at, aa]).1 == Ok(Some(ticket)))
            && var good := SignedByIssuer(k, authority);
               VerifySequence(k, lib, [at, aa]).0 ==
                 lib.(authorities := Added(k, lib.authorities, authority, good && k.hashedId8(aa) !in lib.authorities),
                      tickets := Added(k, lib.tickets, ticket, good && SignedByIssuer(k, ticket) && k.hashedId8(at) !in lib.tickets))
  {
    hide Verify, Permitted;
    var authority := Certificate(aa, Some(lib.roots[aa.issuerId.digest]));
    VerifyExactly(k, authority);
    VerifyExactly(k, Certificate(at, Some(authority)));
  }

  // ---------------------------------------------------------------- chains

  /** Following issuer digests from d reaches a root within n steps. */
  predicate Climbs(lib: Library, d: Digest, n: nat)
    decreases n
  {
    d in lib.roots ||
    (n > 0 && d in lib.authorities && lib.authorities[d].body.issuerId.ByDigest? &&
     Climbs(lib, lib.authorities[d].body.issuerId.digest, n - 1))
  }

  lemma {:induction false} ClimbsFurther(lib: Library, d: Digest, n: nat, m: nat)
    requires Climbs(lib, d, n) && n <= m
    ensures Climbs(lib, d, m)
    decreases n
  {
    if d !in lib.roots {
      ClimbsFurther(lib, lib.authorities[d].body.issuerId.digest, n - 1, m - 1);
    }
  }

  lemma GroundedAt(lib: Library, order: seq<Digest>, i: nat) returns (j: nat)
    requires Grounded(lib, order) && i < |order|
    ensures order[i] in lib.authorities && lib.authorities[order[i]].body.issuerId.ByDigest?
    ensures var d := lib.authorities[order[i]].body.issuerId.digest; d in lib.roots || (j < i && order[j] == d)
  {
    assert Link(lib, order, i);
    var d := lib.authorities[order[i]].body.issuerId.digest;
    j := 0;
    if d !in lib.roots {
      j :| 0 <= j < i && order[..i][j] == d;
    }
  }

  lemma {:induction false} AuthorityClimbs(lib: Library, order: seq<Digest>, i: nat)
    requires Grounded(lib, order) && i < |order|
    ensures Climbs(lib, order[i], i + 1)
    decreases i
  {
    hide Grounded, Link;
    var j := GroundedAt(lib, order, i);
    var d := lib.authorities[order[i]].body.issuerId.digest;
    if d !in lib.roots {
      AuthorityClimbs(lib, order, j);
      ClimbsFurther(lib, d, j + 1, i);
    }
  }

  lemma {:induction false} OrderCount(order: seq<Digest>, s: set<Digest>)
    requires forall i, j | 0 <= i < j < |order| :: order[i] != order[j]
    requires forall i | 0 <= i < |order| :: order[i] in s
    ensures |order| <= |s|
  {
    if order != [] {
      var last := order[|order| - 1];
      OrderCount(order[..|order| - 1], s - {last});
    }
  }

  lemma GroundedClimbs(lib: Library, d: Digest)
    requires HasOrder(lib) && d in lib.authorities
    ensures Climbs(lib, d, |lib.authorities|)
  {
    hide Climbs, Link;
    var order :| Grounded(lib, order);
    var i :| 0 <= i < |order| && order[i] == d;
    AuthorityClimbs(lib, order, i);
    forall j | 0 <= j < |order| ensures order[j] in lib.authorities.Keys {
      var _ := GroundedAt(lib, order, j);
    }
    OrderCount(order, lib.authorities.Keys);
    ClimbsFurther(lib, d, i + 1, |lib.authorities|);
  }

  /** Every known issuer reaches a known root in at most as many steps as there are authorities;
      so the chains of a reachable library have no cycle. */
  lemma ChainEndsAtRoot(k: Crypto, ops: seq<Op>, d: Digest)
    requires IsIssuer(Run(k, ops), d)
    ensures Climbs(Run(k, ops), d, |Run(k, ops).authorities|)
  {
    hide Run, Verify, HasOrder, StoredVerified, AllBelow;
    RunIsSound(k, ops);
    if d !in Run(k, ops).roots {
      GroundedClimbs(Run(k, ops), d);
    }
  }

  // ---------------------------------------------------------------- permissions along a chain

  function IssuerAt(lib: Library, d: Digest): Certificate
    requires IsIssuer(lib, d)
  {
    if d in lib.roots then lib.roots[d] else lib.authorities[d]
  }

  /** The certificates from d up to the root. */
  function Chain(lib: Library, d: Digest, n: nat): seq<Certificate>
    requires Climbs(lib, d, n)
    decreases n
  {
    if d in lib.roots then [lib.roots[d]]
    else [lib.authorities[d]] + Chain(lib, lib.authorities[d].body.issuerId.digest, n - 1)
  }

  /** Issuer objects that certificates were built with and stored issuers of the same digest
      grant the same. */
  predicate NoCollisions(k: Crypto, lib: Library) {
    forall c, d | c in lib.tickets.Values + lib.authorities.Values + lib.own.Values && IsIssuer(lib, d) && c.issuer.Some? ::
      k.hashedId8(c.issuer.value.body) == d ==>
        c.issuer.value.body.certIssuePermissions == IssuerAt(lib, d).body.certIssuePermissions
  }

  /** One link: a verified certificate needs no more than its stored issuer allows. */
  lemma LinkContains(k: Crypto, lib: Library, c: Certificate)
    requires Verify(k, c) == Ok(true) && BelowIssuer(lib, c) && NoCollisions(k, lib)
    requires c in lib.tickets.Values + lib.authorities.Values + lib.own.Values
    requires !HasAll(IssuerAt(lib, c.body.issuerId.digest).body)
    ensures c.body.appPermissions.Some? && Needed(c.body) <= Allowed(IssuerAt(lib, c.body.issuerId.digest).body)
  {
  }

  /** The chain above an authority is the rest of the chain. */
  lemma ChainAbove(lib: Library, d: Digest, n: nat)
    requires IsIssuer(lib, d) && Climbs(lib, d, n)
    ensures Chain(lib, d, n)[0] == IssuerAt(lib, d)
    ensures d !in lib.roots ==>
              n > 0 && d in lib.authorities && lib.authorities[d].body.issuerId.ByDigest?
              && Climbs(lib, lib.authorities[d].body.issuerId.digest, n - 1)
              && Chain(lib, d, n)[1..] == Chain(lib, lib.authorities[d].body.issuerId.digest, n - 1)
    ensures d in lib.roots ==> |Chain(lib, d, n)| == 1
  {
  }

  lemma {:induction false} ChainContains(k: Crypto, lib: Library, c: Certificate, n: nat, j: nat)
    requires StoredVerified(k, lib.authorities) && AllBelow(lib, lib.authorities) && NoCollisions(k, lib)
    requires Verify(k, c) == Ok(true) && BelowIssuer(lib, c)
    requires c in lib.tickets.Values + lib.authorities.Values + lib.own.Values
    requires Climbs(lib, c.body.issuerId.digest, n) && j < |Chain(lib, c.body.issuerId.digest, n)|
    requires forall i | 0 <= i <= j :: !HasAll(Chain(lib, c.body.issuerId.digest, n)[i].body)
    ensures c.body.appPermissions.Some?
    ensures Needed(c.body) <= Allowed(Chain(lib, c.body.issuerId.digest, n)[j].body)
    decreases n
  {
    hide Verify, NoCollisions, HasAll, Allowed, Chain, Climbs, Needed;
    var d := c.body.issuerId.digest;
    var chain := Chain(lib, d, n);
    ChainAbove(lib, d, n);
    LinkContains(k, lib, c);
    if j > 0 {
      var aa := lib.authorities[d];
      assert forall i | 0 <= i < j :: chain[1..][i] == chain[i + 1];
      assert aa in lib.authorities.Values;
      ChainContains(k, lib, aa, n - 1, j - 1);
      AllowedIsNeeded(aa.body);
    }
  }

  lemma AllowedIsNeeded(b: Body)
    requires b.appPermissions.Some?
    ensures Allowed(b) <= Needed(b)
  {
  }

  /** In every reachable library without colliding digests: whatever a known ticket, authority or own
      certificate needs is allowed by each certificate of its chain, as far up as none holds "all". */
  lemma PermissionsContained(k: Crypto, ops: seq<Op>, c: Certificate, n: nat, j: nat)
    requires var lib := Run(k, ops); c in lib.tickets.Values + lib.authorities.Values + lib.own.Values
    requires NoCollisions(k, Run(k, ops))
    ensures var lib := Run(k, ops);
            && BelowIssuer(lib, c)
            && (Climbs(lib, c.body.issuerId.digest, n) ==>
                  var chain := Chain(lib, c.body.issuerId.digest, n);
                  j < |chain| && (forall i | 0 <= i <= j :: !HasAll(chain[i].body)) ==>
                    c.body.appPermissions.Some? && forall i | 0 <= i <= j :: Needed(c.body) <= Allowed(chain[i].body))
  {
    hide Run, Verify, NoCollisions, HasAll, Allowed, HasOrder, Needed;
    RunIsSound(k, ops);
    var lib := Run(k, ops);
    KnownVerified(k, lib, c);
    if Climbs(lib, c.body.issuerId.digest, n) {
      var chain := Chain(lib, c.body.issuerId.digest, n);
      if j < |chain| && forall i | 0 <= i <= j :: !HasAll(chain[i].body) {
        forall i | 0 <= i <= j ensures c.body.appPermissions.Some? && Needed(c.body) <= Allowed(chain[i].body) {
          ChainContains(k, lib, c, n, i);
        }
        assert c.body.appPermissions.Some? by {
          ChainContains(k, lib, c, n, j);
        }
      }
    }
  }

  lemma KnownVerified(k: Crypto, lib: Library, c: Certificate)
    requires Sound(k, lib) && c in lib.tickets.Values + lib.authorities.Values + lib.own.Values
    ensures Verify(k, c) == Ok(true) && BelowIssuer(lib, c)
  {
    hide Verify, HasOrder, BelowIssuer;
    var d :| (d in lib.tickets && lib.tickets[d] == c) || (d in lib.authorities && lib.authorities[d] == c)
             || (d in lib.own && lib.own[d] == c);
  }

  /** In every reachable library without colliding digests: whatever a known ticket needs is
      allowed by every certificate on its chain up to the root, as long as none there holds "all". */
  lemma TicketPermissionsContained(k: Crypto, ops: seq<Op>, d: Digest, n: nat)
    requires d in Run(k, ops).tickets && NoCollisions(k, Run(k, ops))
    ensures var lib, c := Run(k, ops), Run(k, ops).tickets[d];
            && BelowIssuer(lib, c)
            && (Climbs(lib, c.body.issuerId.digest, n) ==>
                  var chain := Chain(lib, c.body.issuerId.digest, n);
                  (forall i | 0 <= i < |chain| :: !HasAll(chain[i].body)) ==>
                    c.body.appPermissions.Some? && forall i | 0 <= i < |chain| :: Needed(c.body) <= Allowed(chain[i].body))
  {
    hide Run, Verify, NoCollisions, HasAll, Allowed, Climbs, Chain;
    var lib, c := Run(k, ops), Run(k, ops).tickets[d];
    assert c in lib.tickets.Values;
    PermissionsContained(k, ops, c, n, 0);
    if Climbs(lib, c.body.issuerId.digest, n) {
      ChainNotEmpty(lib, c.body.issuerId.digest, n);
      PermissionsContained(k, ops, c, n, |Chain(lib, c.body.issuerId.digest, n)| - 1);
    }
  }

  lemma ChainNotEmpty(lib: Library, d: Digest, n: nat)
    requires Climbs(lib, d, n)
    ensures |Chain(lib, d, n)| > 0
  {
  }

  // ---------------------------------------------------------------- sequences of certificates

  /** A ticket that verify_sequence_of_certificates returns is the first of the sequence by its
      digest and verifies; it is below a known issuer exactly if it names its issuer by digest,
      and then it is known from then on. */
  ghost predicate GoodResult(k: Crypto, lib: Library, at: Body, r: Result<Option<Certificate>>) {
    r.Ok? && r.value.Some? ==>
      var c := r.value.value;
      && DigestOf(k, c) == k.hashedId8(at) && Verify(k, c) == Ok(true)
      && (SignedByIssuer(k, c) || SignedBySelf(k, c))
      && (BelowIssuer(lib, c) <==> c.body.issuerId.ByDigest?)
      && (c.body.issuerId.ByDigest? ==> k.hashedId8(at) in lib.tickets)
  }

  lemma SequenceResultKnown(k: Crypto, ops: seq<Op>, certificates: seq<Body>)
    ensures var (lib, r) := VerifySequence(k, Run(k, ops), certificates);
            if 1 <= |certificates| <= 3 then GoodResult(k, lib, certificates[0], r) else r == Ok(None)
  {
    hide Run, Verify, Sound, VerifyOne, VerifyTwo;
    RunIsSound(k, ops);
    var lib := Run(k, ops);
    if |certificates| == 1 {
      OneKnown(k, lib, certificates[0]);
    } else if |certificates| == 2 || |certificates| == 3 {
      TwoKnown(k, lib, certificates[0], certificates[1]);
    }
  }

  lemma TicketKnown(k: Crypto, lib: Library, at: Certificate)
    requires at.body.issuerId.ByDigest? ==> BelowIssuer(lib, at)
    ensures var (n, r) := VerifyTicket(k, lib, at); GoodResult(k, n, at.body, r)
  {
    hide Verify, SignedByIssuer, SignedBySelf;
    VerifyExactly(k, at);
    OtherIssuerFails(k, at);
  }

  lemma OtherIssuerFails(k: Crypto, c: Certificate)
    ensures Verify(k, c) == Ok(true) ==> c.body.issuerId != OtherIssuer
  {
  }

  lemma OneKnown(k: Crypto, lib: Library, b: Body)
    requires Sound(k, lib)
    ensures var (n, r) := VerifyOne(k, lib, b); GoodResult(k, n, b, r)
  {
    hide Verify, VerifyTicket, HasOrder, SignedByIssuer, SignedBySelf;
    if k.hashedId8(b) in lib.tickets {
      VerifyExactly(k, lib.tickets[k.hashedId8(b)]);
    }
    var issuer := IssuerCertificate(lib, b);
    if issuer.Ok? && issuer.value.Some? {
      TicketKnown(k, lib, Certificate(b, issuer.value));
    }
  }

  /** A verified ticket that names its issuer by digest names the authority it came with. */
  lemma NamesItsIssuer(k: Crypto, at: Certificate)
    requires at.issuer.Some? && Verify(k, at) == Ok(true) && at.body.issuerId.ByDigest?
    ensures at.body.issuerId.digest == DigestOf(k, at.issuer.value)
  {
  }

  lemma TwoKnown(k: Crypto, lib: Library, at: Body, aa: Body)
    requires Sound(k, lib)
    ensures var (n, r) := VerifyTwo(k, lib, at, aa); GoodResult(k, n, at, r)
  {
    hide Sound, Verify, HasOrder;
    if aa.issuerId.ByDigest? && aa.issuerId.digest in lib.roots {
      var authority := Certificate(aa, Some(lib.roots[aa.issuerId.digest]));
      var ticket := Certificate(at, Some(authority));
      if Verify(k, authority) == Ok(true) {
        var added := WithAuthority(k, lib, authority);
        assert added.Ok? && DigestOf(k, authority) in added.value.authorities;
        if Verify(k, ticket) == Ok(true) {
          if at.issuerId.ByDigest? {
            NamesItsIssuer(k, ticket);
          }
          TicketKnown(k, added.value, ticket);
        }
      }
    }
  }

  /** A self-signed first certificate is returned when a good authority comes second, although
      it has no issuer and is not stored. */
  lemma SelfSignedFirst(k: Crypto, lib: Library, at: Body, aa: Body)
    requires aa.issuerId.ByDigest? && aa.issuerId.digest in lib.roots
    requires Verify(k, Certificate(aa, Some(lib.roots[aa.issuerId.digest]))) == Ok(true)
    requires at.issuerId == SelfSigned(true) && KeyMatchesType(at) && UsesNistP256(at) && k.signedBySelf(at)
    requires k.hashedId8(at) !in lib.tickets
    ensures var (n, r) := VerifySequence(k, lib, [at, aa]);
            r.Ok? && r.value.Some? && r.value.value.body == at && !BelowIssuer(n, r.value.value) && k.hashedId8(at) !in n.tickets
  {
  }

  predicate Accepts(k: Crypto, lib: Library, certificates: seq<Body>) {
    var r := VerifySequence(k, lib, certificates).1;
    r.Ok? && r.value.Some?
  }

  /** Accepted with a third certificate means accepted without it, when that one is a known root. */
  lemma ThirdOnlyKnown(k: Crypto, lib: Library, at: Body, aa: Body, root: Body)
    ensures Accepts(k, lib, [at, aa, root]) <==> Accepts(k, lib, [at, aa]) && k.hashedId8(root) in lib.roots
    ensures Accepts(k, lib, [at, aa]) ==> aa.issuerId.ByDigest? && aa.issuerId.digest in lib.roots
  {
    hide Verify, WithAuthority, VerifyTicket;
  }

  /** Only a known digest is asked of the third certificate.  In every reachable library that accepts
      a ticket and its authority, the root named third is always the one that issued the authority if
      and only if no other root is known. */
  lemma NamedRootExactly(k: Crypto, ops: seq<Op>, at: Body, aa: Body)
    requires Accepts(k, Run(k, ops), [at, aa])
    ensures aa.issuerId.ByDigest?
    ensures (forall root | Accepts(k, Run(k, ops), [at, aa, root]) :: aa.issuerId == ByDigest(k.hashedId8(root)))
            <==> Run(k, ops).roots.Keys == {aa.issuerId.digest}
  {
    hide Run, Accepts, Verify, AllBelow, HasOrder;
    var lib := Run(k, ops);
    ThirdOnlyKnown(k, lib, at, aa, aa);
    forall root ensures Accepts(k, lib, [at, aa, root]) <==> k.hashedId8(root) in lib.roots {
      ThirdOnlyKnown(k, lib, at, aa, root);
    }
    RunIsSound(k, ops);
    if d :| d in lib.roots.Keys && d != aa.issuerId.digest {
      assert k.hashedId8(lib.roots[d].body) == d;
      assert Accepts(k, lib, [at, aa, lib.roots[d].body]);
    } else {
      assert lib.roots.Keys == {aa.issuerId.digest};
    }
  }

  const ROOT := Body(ExplicitCertificate, SelfSigned(true), None, Some([All]), VerificationKey(true, 1), true, 1)
  const OTHER_ROOT := ROOT.(signature := 2)

  /** Digests that tell the certificates of the example apart, and signatures that all hold. */
  const EXAMPLE := Crypto(
    (b: Body) => [b.signature % 256, 0, 0, 0, 0, 0, 0, 0], (b: Body, issuer: Body) => true, (b: Body) => true)

  const AUTHORITY := ROOT.(issuerId := ByDigest(EXAMPLE.hashedId8(ROOT)), signature := 3)
  const TICKET := Body(ExplicitCertificate, ByDigest(EXAMPLE.hashedId8(AUTHORITY)), Some([36]), None, VerificationKey(true, 4), true, 4)

  /** A ticket below one root, sent with the certificate of another, is accepted. */
  lemma OtherRootNamed()
    ensures var lib := Run(EXAMPLE, [AddRoot(Certificate(ROOT, None)), AddRoot(Certificate(OTHER_ROOT, None))]);
            Accepts(EXAMPLE, lib, [TICKET, AUTHORITY, OTHER_ROOT])
            && AUTHORITY.issuerId != ByDigest(EXAMPLE.hashedId8(OTHER_ROOT))
  {
    var ops := [AddRoot(Certificate(ROOT, None)), AddRoot(Certificate(OTHER_ROOT, None))];
    var lib := Run(EXAMPLE, ops);
    assert ops[..1] == [AddRoot(Certificate(ROOT, None))] && ops[..1][..0] == [];
    assert Run(EXAMPLE, ops[..1]).roots == map[EXAMPLE.hashedId8(ROOT) := Certificate(ROOT, None)];
    assert EXAMPLE.hashedId8(ROOT)[0] == 1 && EXAMPLE.hashedId8(OTHER_ROOT)[0] == 2;
    ThirdOnlyKnown(EXAMPLE, lib, TICKET, AUTHORITY, OTHER_ROOT);
    var authority := Certificate(AUTHORITY, Some(Certificate(ROOT, None)));
    assert Verify(EXAMPLE, authority) == Ok(true);
    assert Verify(EXAMPLE, Certificate(TICKET, Some(authority))) == Ok(true);
  }
}
