/**
 * `CSRFMiddleware`: `generateToken` stores a random token in the session once;
 * `verifyToken` compares the `X-CSRF-Token` header with the `CSRF_SECRET`
 * environment variable and never looks at the session token.
 */
module Csrf {
  import opened Wrappers
  import opened ByteStrings

  /** The PHP session: `$_SESSION['csrf_token']`. */
  class Session {
    var csrfToken: Option<string>

    constructor ()
      ensures csrfToken == None
    {
      csrfToken := None;
    }

    /** `generateToken()` with `random_bytes(32)` = `random`: only an empty session gets a new token. */
    method GenerateToken(random: Bytes) returns (token: string)
      modifies this
      ensures old(csrfToken).Some? ==> csrfToken == old(csrfToken) && token == old(csrfToken).value
      ensures old(csrfToken).None? ==> token == Bin2Hex(random) && csrfToken == Some(token)
    {
      if csrfToken.None? {
        csrfToken := Some(Bin2Hex(random));
      }
      token := csrfToken.value;
    }
  }

  /** Repeated calls hand out the first token, whatever randomness they are given. */
  method GenerateTwice(session: Session, r1: Bytes, r2: Bytes) returns (t1: string, t2: string)
    modifies session
    ensures t1 == t2 && session.csrfToken == Some(t1)
    ensures old(session.csrfToken).None? && |r1| == 32 ==>
      |t1| == 64 && forall i :: 0 <= i < 64 ==> IsLowerHex(t1[i])
  {
    t1 := session.GenerateToken(r1);
    t2 := session.GenerateToken(r2);
  }

  /** `!$token` for a string: "" and "0" are falsy. */
  predicate Falsy(s: string) {
    s == "" || s == "0"
  }

  /**
   * `verifyToken()` with `$_SERVER['HTTP_X_CSRF_TOKEN']` = `header` and
   * `getenv('CSRF_SECRET')` = `secret` (None where getenv gives false).
   */
  function VerifyToken(header: Option<string>, secret: Option<string>): (ok: bool)
    ensures ok <==> header.Some? && secret.Some? && header.value == secret.value && !Falsy(header.value)
  {
    if header.None? || Falsy(header.value) then false
    else secret.Some? && header.value == secret.value
  }

  /** An unset secret, or one PHP finds falsy ("" or "0"), lets nothing through. */
  lemma FalsySecretRejectsAll(header: Option<string>, secret: Option<string>)
    requires secret.None? || Falsy(secret.value)
    ensures !VerifyToken(header, secret)
  {
  }

  /**
   * The token a session was given plays no part: it is accepted only if it
   * happens to equal the static secret, and the secret is accepted in every session.
   */
  lemma SessionTokenIgnored(session: Option<string>, random: Bytes, secret: string)
    requires !Falsy(secret)
    ensures var issued := if session.Some? then session.value else Bin2Hex(random);
            VerifyToken(Some(issued), Some(secret)) <==> issued == secret
    ensures VerifyToken(Some(secret), Some(secret))
  {
    var issued := if session.Some? then session.value else Bin2Hex(random);
    if issued == secret {
      assert !Falsy(issued);
    }
  }
}
