/** Certificates, their verification and their permissions (security/certificate.py).  Hashing and
    signature checks are uninterpreted; a raised KeyError or ValueError is an Err. */
module Certificates {
  import opened Bits
  import opened Outcomes

  type Digest = seq<Byte>

  /** The issuer choice of a certificate: itself, named by digest, or anything else. */
  datatype IssuerId = SelfSigned(sha256: bool) | ByDigest(digest: Digest) | OtherIssuer

  /** A subjectPermissions choice in certIssuePermissions. */
  datatype Grant = Explicit(psids: seq<nat>) | All

  datatype KeyIndicator = VerificationKey(nistP256: bool, key: nat) | ReconstructionValue

  datatype CertificateType = ExplicitCertificate | ImplicitCertificate

  /** The certificate dictionary. */
  datatype Body = Body(
    certificateType: CertificateType,
    issuerId: IssuerId,
    appPermissions: Option<seq<nat>>,
    certIssuePermissions: Option<seq<Grant>>,
    verifyKeyIndicator: KeyIndicator,
    signatureNistP256: bool,
    signature: nat)

  /** A certificate object, with the issuer object it was built with. */
  datatype Certificate = Certificate(body: Body, issuer: Option<Certificate>)

  /** The digest of the canonical encoding, and what the ECDSA back end says. */
  datatype Crypto = Crypto(
    hashedId8: Body -> Digest,
    signedBy: (Body, Body) -> bool,    // by the key of the second
    signedBySelf: Body -> bool)

  // ---------------------------------------------------------------- permissions

  function Members(psids: seq<nat>): set<nat> {
    set p | p in psids
  }

  lemma Appended(s: seq<nat>, p: nat)
    ensures Members(s + [p]) == Members(s) + {p}
  {
  }

  function GrantPsids(g: Grant): set<nat> {
    match g
    case All => {}
    case Explicit(psids) => Members(psids)
  }

  function GrantsPsids(gs: seq<Grant>): set<nat> {
    if gs == [] then {} else GrantsPsids(gs[..|gs| - 1]) + GrantPsids(gs[|gs| - 1])
  }

  function Grants(b: Body): seq<Grant> {
    if b.certIssuePermissions.Some? then b.certIssuePermissions.value else []
  }

  /** What a certificate may grant by PSID; what it grants as "all" does not count here. */
  function Allowed(b: Body): set<nat> {
    GrantsPsids(Grants(b))
  }

  /** What its issuer must allow: what it may grant and what it may do itself. */
  function Needed(b: Body): set<nat>
    requires b.appPermissions.Some?
  {
    Allowed(b) + Members(b.appPermissions.value)
  }

  predicate HasAll(b: Body) {
    All in Grants(b)
  }

  /** check_issuer_has_subject_permissions: appPermissions are read unless the issuer has "all". */
  function Granted(b: Body, issuer: Body): Result<bool> {
    if HasAll(issuer) then Ok(true)
    else if b.appPermissions.None? then Err(KeyError)
    else Ok(Needed(b) <= Allowed(issuer))
  }

  /** get_list_of_psid_from_cert_issue_permissions, also the list of allowed permissions. */
  method GetListOfPsidFromCertIssuePermissions(b: Body) returns (psids: seq<nat>)
    ensures Members(psids) == Allowed(b)
  {
    psids := [];
    var gs := Grants(b);
    var i := 0;
    while i < |gs|
      invariant 0 <= i <= |gs|
      invariant Members(psids) == GrantsPsids(gs[..i])
    {
      assert gs[..i + 1][..i] == gs[..i];
      if gs[i].Explicit? {
        var elems, j := gs[i].psids, 0;
        while j < |elems|
          invariant 0 <= j <= |elems|
          invariant Members(psids) == GrantsPsids(gs[..i]) + Members(elems[..j])
        {
          assert elems[..j + 1] == elems[..j] + [elems[j]];
          Appended(elems[..j], elems[j]);
          Appended(psids, elems[j]);
          psids := psids + [elems[j]];
          j := j + 1;
        }
        assert elems[..j] == elems;
      }
      i := i + 1;
    }
    assert gs[..i] == gs;
  }

  /** get_list_of_needed_permissions, without duplicates. */
  method GetListOfNeededPermissions(b: Body) returns (r: Result<seq<nat>>)
    ensures r.Ok? <==> b.appPermissions.Some?
    ensures r.Ok? ==> Members(r.value) == Needed(b)
    ensures r.Ok? ==> forall i, j | 0 <= i < j < |r.value| :: r.value[i] != r.value[j]
  {
    var issue := GetListOfPsidFromCertIssuePermissions(b);
    if b.appPermissions.None? {
      return Err(KeyError);
    }
    var both := issue + b.appPermissions.value;
    var unique: seq<nat> := [];
    var i := 0;
    while i < |both|
      invariant 0 <= i <= |both|
      invariant Members(unique) == Members(both[..i])
      invariant forall x, y | 0 <= x < y < |unique| :: unique[x] != unique[y]
    {
      assert both[..i + 1] == both[..i] + [both[i]];
      Appended(both[..i], both[i]);
      Appended(unique, both[i]);
      if both[i] !in unique {
        unique := unique + [both[i]];
      }
      i := i + 1;
    }
    assert both[..i] == both;
    r := Ok(unique);
  }

  method CheckIssuerHasSubjectPermissions(b: Body, issuer: Body) returns (r: Result<bool>)
    ensures r == Granted(b, issuer)
  {
    if All in Grants(issuer) {
      return Ok(true);
    }
    var needed := GetListOfNeededPermissions(b);
    if needed.Err? {
      return Err(KeyError);
    }
    var allowed := GetListOfPsidFromCertIssuePermissions(issuer);
    var i := 0;
    while i < |needed.value|
      invariant 0 <= i <= |needed.value|
      invariant forall j | 0 <= j < i :: needed.value[j] in Allowed(issuer)
    {
      assert needed.value[i] in Needed(b);
      if needed.value[i] !in allowed {
        assert needed.value[i] !in Allowed(issuer);
        return Ok(false);
      }
      i := i + 1;
    }
    assert forall p | p in Needed(b) :: p in needed.value;
    r := Ok(true);
  }

  // ---------------------------------------------------------------- verification

  predicate IsIssued(b: Body) {
    b.issuerId.ByDigest? && |b.issuerId.digest| == 8
  }

  predicate KeyMatchesType(b: Body) {
    if b.certificateType == ExplicitCertificate then b.verifyKeyIndicator.VerificationKey?
    else b.verifyKeyIndicator == ReconstructionValue
  }

  predicate UsesNistP256(b: Body) {
    b.signatureNistP256 && b.verifyKeyIndicator.VerificationKey? && b.verifyKeyIndicator.nistP256
  }

  function VerifyIssued(k: Crypto, b: Body, issuer: Body): Result<bool> {
    if b.issuerId != ByDigest(k.hashedId8(issuer)) then Ok(false)
    else
      var granted :- Granted(b, issuer);
      Ok(granted && UsesNistP256(b) && k.signedBy(b, issuer))
  }

  /** Certificate.verify, against the issuer object the certificate was built with. */
  function Verify(k: Crypto, c: Certificate): Result<bool> {
    if !KeyMatchesType(c.body) then Ok(false)
    else if c.issuer.Some? && IsIssued(c.body) then VerifyIssued(k, c.body, c.issuer.value.body)
    else if c.body.issuerId == SelfSigned(true) then Ok(UsesNistP256(c.body) && k.signedBySelf(c.body))
    else Ok(false)
  }

  // ---------------------------------------------------------------- what verifies, by the bodies and the back end

  /** The issuer may grant the PSID to others, in so many words. */
  predicate Grantable(issuer: Body, psid: nat) {
    issuer.certIssuePermissions.Some? &&
    exists g | g in issuer.certIssuePermissions.value :: g.Explicit? && psid in g.psids
  }

  predicate GrantsAll(issuer: Body) {
    issuer.certIssuePermissions.Some? && All in issuer.certIssuePermissions.value
  }

  /** The issuer may grant all, or each PSID the certificate has for itself or may grant. */
  ghost predicate Permitted(b: Body, issuer: Body) {
    GrantsAll(issuer) ||
    (b.appPermissions.Some? &&
     (forall psid | psid in b.appPermissions.value :: Grantable(issuer, psid)) &&
     (forall psid | Grantable(b, psid) :: Grantable(issuer, psid)))
  }

  /** An explicit certificate with a NIST P-256 key and a NIST P-256 signature. */
  predicate OnP256(b: Body) {
    && b.certificateType == ExplicitCertificate && b.signatureNistP256
    && b.verifyKeyIndicator.VerificationKey? && b.verifyKeyIndicator.nistP256
  }

  /** Signed with the key of the issuer object, which the certificate names by its digest. */
  ghost predicate SignedByIssuer(k: Crypto, c: Certificate) {
    && c.issuer.Some? && OnP256(c.body)
    && c.body.issuerId == ByDigest(k.hashedId8(c.issuer.value.body)) && |c.body.issuerId.digest| == 8
    && k.signedBy(c.body, c.issuer.value.body)
    && Permitted(c.body, c.issuer.value.body)
  }

  /** Signed with its own key, and saying so. */
  predicate SignedBySelf(k: Crypto, c: Certificate) {
    c.body.issuerId == SelfSigned(true) && OnP256(c.body) && k.signedBySelf(c.body)
  }

  lemma {:induction false} GrantsPsidsAre(gs: seq<Grant>, psid: nat)
    ensures psid in GrantsPsids(gs) <==> exists g | g in gs :: g.Explicit? && psid in g.psids
  {
    if gs != [] {
      var front, last := gs[..|gs| - 1], gs[|gs| - 1];
      GrantsPsidsAre(front, psid);
      assert gs == front + [last];
    }
  }

  lemma AllowedExactly(b: Body, psid: nat)
    ensures psid in Allowed(b) <==> Grantable(b, psid)
  {
    hide GrantsPsids;
    GrantsPsidsAre(Grants(b), psid);
  }

  lemma GrantedExactly(b: Body, issuer: Body)
    ensures Granted(b, issuer) == Ok(true) <==> Permitted(b, issuer)
    ensures Granted(b, issuer).Err? <==> !GrantsAll(issuer) && b.appPermissions.None?
  {
    hide Allowed, Grantable;
    forall psid ensures psid in Allowed(b) <==> Grantable(b, psid) {
      AllowedExactly(b, psid);
    }
    forall psid ensures psid in Allowed(issuer) <==> Grantable(issuer, psid) {
      AllowedExactly(issuer, psid);
    }
    if b.appPermissions.Some? {
      assert Needed(b) <= Allowed(issuer) <==> forall psid | psid in Needed(b) :: psid in Allowed(issuer);
    }
  }

  /** A certificate verifies if and only if its issuer signed it and permits it, or it signed itself;
      an implicit certificate never does.  The call raises exactly for a certificate of a plausible
      type that names its issuer object, is not granted all and has no appPermissions. */
  lemma VerifyExactly(k: Crypto, c: Certificate)
    ensures Verify(k, c) == Ok(true) <==> SignedByIssuer(k, c) || SignedBySelf(k, c)
    ensures Verify(k, c).Err? <==>
            && (c.body.certificateType == ExplicitCertificate <==> c.body.verifyKeyIndicator.VerificationKey?)
            && c.issuer.Some? && c.body.issuerId == ByDigest(k.hashedId8(c.issuer.value.body)) && |c.body.issuerId.digest| == 8
            && !GrantsAll(c.issuer.value.body) && c.body.appPermissions.None?
  {
    hide Granted, Permitted, GrantsAll;
    if c.issuer.Some? {
      GrantedExactly(c.body, c.issuer.value.body);
    }
  }

  method VerifyCertificate(k: Crypto, c: Certificate) returns (r: Result<bool>)
    ensures r == Verify(k, c)
  {
    var b := c.body;
    if b.certificateType == ExplicitCertificate && !b.verifyKeyIndicator.VerificationKey? {
      return Ok(false);
    }
    if b.certificateType == ImplicitCertificate && b.verifyKeyIndicator != ReconstructionValue {
      return Ok(false);
    }
    if c.issuer.Some? && IsIssued(b) {
      var issuer := c.issuer.value.body;
      if b.issuerId.digest != k.hashedId8(issuer) {
        return Ok(false);
      }
      var granted := CheckIssuerHasSubjectPermissions(b, issuer);
      if granted.Err? || !granted.value {
        return granted;
      }
      return Ok(UsesNistP256(b) && k.signedBy(b, issuer));
    }
    if b.issuerId == SelfSigned(true) {
      return Ok(UsesNistP256(b) && k.signedBySelf(b));
    }
    r := Ok(false);
  }
}
