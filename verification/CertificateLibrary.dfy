/** The trust store (security/certificate_library.py): roots, authorization authorities and
    tickets, each under its digest, extended only by certificates that verify. */
module CertificateLibraries {
  import opened Outcomes
  import opened Certificates

  type Store = map<Digest, Certificate>

  datatype Library = Library(roots: Store, authorities: Store, tickets: Store, own: Store)

  const EMPTY := Library(map[], map[], map[], map[])

  function DigestOf(k: Crypto, c: Certificate): Digest {
    k.hashedId8(c.body)
  }

  /** get_issuer_certificate: roots take precedence over authorities. */
  function IssuerCertificate(lib: Library, b: Body): Result<Option<Certificate>> {
    match b.issuerId
    case SelfSigned(_) => Ok(None)
    case OtherIssuer => Err(ValueError)
    case ByDigest(d) =>
      Ok(if d in lib.roots then Some(lib.roots[d])
         else if d in lib.authorities then Some(lib.authorities[d]) else None)
  }

  /** A certificate whose issuer is known and that verifies. */
  function Trusted(k: Crypto, lib: Library, c: Certificate): Result<bool> {
    var issuer :- IssuerCertificate(lib, c.body);
    if issuer.None? then Ok(false) else Verify(k, c)
  }

  function WithTicket(k: Crypto, lib: Library, c: Certificate): Result<Library> {
    if DigestOf(k, c) in lib.tickets then Ok(lib)
    else
      var trusted :- Trusted(k, lib, c);
      Ok(if trusted then lib.(tickets := lib.tickets[DigestOf(k, c) := c]) else lib)
  }

  function WithAuthority(k: Crypto, lib: Library, c: Certificate): Result<Library> {
    if DigestOf(k, c) in lib.authorities then Ok(lib)
    else
      var trusted :- Trusted(k, lib, c);
      Ok(if trusted then lib.(authorities := lib.authorities[DigestOf(k, c) := c]) else lib)
  }

  function WithRoot(k: Crypto, lib: Library, c: Certificate): Result<Library> {
    var verified :- Verify(k, c);
    Ok(if verified then lib.(roots := lib.roots[DigestOf(k, c) := c]) else lib)
  }

  function WithOwn(k: Crypto, lib: Library, c: Certificate): Result<Library> {
    var trusted :- Trusted(k, lib, c);
    Ok(if trusted then lib.(own := lib.own[DigestOf(k, c) := c]) else lib)
  }

  /** The library afterwards, unchanged by a call that raises. */
  function After(lib: Library, r: Result<Library>): Library {
    if r.Ok? then r.value else lib
  }

  /** verify_sequence_of_certificates: the library may grow before a call raises. */
  function VerifySequence(k: Crypto, lib: Library, certificates: seq<Body>): (Library, Result<Option<Certificate>>) {
    if |certificates| == 1 then VerifyOne(k, lib, certificates[0])
    else if |certificates| == 2 then VerifyTwo(k, lib, certificates[0], certificates[1])
    else if |certificates| == 3 && k.hashedId8(certificates[2]) in lib.roots then
      VerifyTwo(k, lib, certificates[0], certificates[1])
    else (lib, Ok(None))
  }

  function VerifyOne(k: Crypto, lib: Library, b: Body): (Library, Result<Option<Certificate>>) {
    if k.hashedId8(b) in lib.tickets then (lib, Ok(Some(lib.tickets[k.hashedId8(b)])))
    else
      match IssuerCertificate(lib, b)
      case Err(e) => (lib, Err(e))
      case Ok(None) => (lib, Ok(None))
      case Ok(issuer) => VerifyTicket(k, lib, Certificate(b, issuer))
  }

  function VerifyTicket(k: Crypto, lib: Library, at: Certificate): (Library, Result<Option<Certificate>>) {
    match Verify(k, at)
    case Err(e) => (lib, Err(e))
    case Ok(verified) =>
      if verified then
        var added := WithTicket(k, lib, at);
        (After(lib, added), if added.Ok? then Ok(Some(at)) else Err(added.error))
      else (lib, Ok(None))
  }

  function VerifyTwo(k: Crypto, lib: Library, at: Body, aa: Body): (Library, Result<Option<Certificate>>) {
    if aa.issuerId == OtherIssuer then (lib, Err(ValueError))
    else if !(aa.issuerId.ByDigest? && aa.issuerId.digest in lib.roots) then (lib, Ok(None))
    else
      var authority := Certificate(aa, Some(lib.roots[aa.issuerId.digest]));
      match Verify(k, authority)
      case Err(e) => (lib, Err(e))
      case Ok(verified) =>
        if verified then
          var added := WithAuthority(k, lib, authority);
          if added.Ok? then VerifyTicket(k, added.value, Certificate(at, Some(authority))) else (lib, Err(added.error))
        else (lib, Ok(None))
  }

  class CertificateLibrary {
    const crypto: Crypto
    var ownCertificates: Store
    var knownAuthorizationTickets: Store
    var knownAuthorizationAuthorities: Store
    var knownRootCertificates: Store

    function View(): Library
      reads this
    {
      Library(knownRootCertificates, knownAuthorizationAuthorities, knownAuthorizationTickets, ownCertificates)
    }

    constructor (crypto: Crypto)
      ensures this.crypto == crypto && View() == EMPTY
    {
      this.crypto := crypto;
      ownCertificates, knownAuthorizationTickets := map[], map[];
      knownAuthorizationAuthorities, knownRootCertificates := map[], map[];
    }

    method GetIssuerCertificate(b: Body) returns (r: Result<Option<Certificate>>)
      ensures r == IssuerCertificate(View(), b)
    {
      if b.issuerId.SelfSigned? {
        return Ok(None);
      }
      if b.issuerId.ByDigest? {
        var d := b.issuerId.digest;
        if d in knownRootCertificates {
          return Ok(Some(knownRootCertificates[d]));
        }
        if d in knownAuthorizationAuthorities {
          return Ok(Some(knownAuthorizationAuthorities[d]));
        }
        return Ok(None);
      }
      r := Err(ValueError);
    }

    method IsTrusted(c: Certificate) returns (r: Result<bool>)
      ensures r == Trusted(crypto, View(), c)
    {
      var issuer := GetIssuerCertificate(c.body);
      if issuer.Err? {
        return Err(issuer.error);
      }
      if issuer.value.None? {
        return Ok(false);
      }
      r := VerifyCertificate(crypto, c);
    }

    method AddAuthorizationTicket(c: Certificate) returns (r: Result<()>)
      modifies this`knownAuthorizationTickets
      ensures View() == After(old(View()), WithTicket(crypto, old(View()), c))
      ensures r == match WithTicket(crypto, old(View()), c) case Ok(_) => Ok(()) case Err(e) => Err(e)
    {
      hide Verify;
      var d := DigestOf(crypto, c);
      if d !in knownAuthorizationTickets {
        var trusted :- IsTrusted(c);
        if trusted {
          knownAuthorizationTickets := knownAuthorizationTickets[d := c];
        }
      }
      r := Ok(());
    }

    method AddAuthorizationAuthority(c: Certificate) returns (r: Result<()>)
      modifies this`knownAuthorizationAuthorities
      ensures View() == After(old(View()), WithAuthority(crypto, old(View()), c))
      ensures r == match WithAuthority(crypto, old(View()), c) case Ok(_) => Ok(()) case Err(e) => Err(e)
    {
      hide Verify;
      var d := DigestOf(crypto, c);
      if d !in knownAuthorizationAuthorities {
        var trusted :- IsTrusted(c);
        if trusted {
          knownAuthorizationAuthorities := knownAuthorizationAuthorities[d := c];
        }
      }
      r := Ok(());
    }

    method AddRootCertificate(c: Certificate) returns (r: Result<()>)
      modifies this`knownRootCertificates
      ensures View() == After(old(View()), WithRoot(crypto, old(View()), c))
      ensures r == match WithRoot(crypto, old(View()), c) case Ok(_) => Ok(()) case Err(e) => Err(e)
    {
      hide Verify;
      var verified :- VerifyCertificate(crypto, c);
      if verified {
        knownRootCertificates := knownRootCertificates[DigestOf(crypto, c) := c];
      }
      r := Ok(());
    }

    method AddOwnCertificate(c: Certificate) returns (r: Result<()>)
      modifies this`ownCertificates
      ensures View() == After(old(View()), WithOwn(crypto, old(View()), c))
      ensures r == match WithOwn(crypto, old(View()), c) case Ok(_) => Ok(()) case Err(e) => Err(e)
    {
      hide Verify;
      var trusted :- IsTrusted(c);
      if trusted {
        ownCertificates := ownCertificates[DigestOf(crypto, c) := c];
      }
      r := Ok(());
    }

    method VerifySequenceOfCertificates(certificates: seq<Body>) returns (r: Result<Option<Certificate>>)
      modifies this
      ensures (View(), r) == VerifySequence(crypto, old(View()), certificates)
      decreases |certificates|
    {
      hide Verify, Trusted, WithTicket, WithAuthority;
      if |certificates| == 1 {
        var b := certificates[0];
        var d := crypto.hashedId8(b);
        if d in knownAuthorizationTickets {
          return Ok(Some(knownAuthorizationTickets[d]));
        }
        var issuer :- GetIssuerCertificate(b);
        if issuer.None? {
          return Ok(None);
        }
        r := VerifyAndAddTicket(Certificate(b, issuer));
        return;
      } else if |certificates| == 2 {
        var aa := certificates[1];
        if aa.issuerId == OtherIssuer {
          return Err(ValueError);
        }
        if aa.issuerId.ByDigest? && aa.issuerId.digest in knownRootCertificates {
          var authority := Certificate(aa, Some(knownRootCertificates[aa.issuerId.digest]));
          var verified :- VerifyCertificate(crypto, authority);
          if verified {
            var added := AddAuthorizationAuthority(authority);
            if added.Err? {
              return Err(added.error);
            }
            r := VerifyAndAddTicket(Certificate(certificates[0], Some(authority)));
            return;
          }
        }
      } else if |certificates| == 3 && crypto.hashedId8(certificates[2]) in knownRootCertificates {
        assert certificates[..2][0] == certificates[0] && certificates[..2][1] == certificates[1];
        r := VerifySequenceOfCertificates(certificates[..2]);
        return;
      }
      r := Ok(None);
    }

    method VerifyAndAddTicket(at: Certificate) returns (r: Result<Option<Certificate>>)
      modifies this`knownAuthorizationTickets
      ensures (View(), r) == VerifyTicket(crypto, old(View()), at)
    {
      hide Verify, WithTicket;
      var verified :- VerifyCertificate(crypto, at);
      if !verified {
        return Ok(None);
      }
      var added := AddAuthorizationTicket(at);
      if added.Err? {
        return Err(added.error);
      }
      r := Ok(Some(at));
    }
  }
}
