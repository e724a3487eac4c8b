/**
 * `JWTService`, the near-copy of `JWTServices`: the same key handling and the
 * same token layout, but `verify` checks the signature before expiry, answers
 * `false` instead of null, returns any decoded payload unchanged, and has no
 * `catch`, so a missing key escapes as an exception.
 */
module JwtService {
  import opened Wrappers
  import opened Php
  import opened ByteStrings
  import PhpNumeric
  import Base64Url
  import opened TokenCodec
  import JwtServices

  /** What `verify` gives back: the decoded payload, `false`, or an exception. */
  datatype Outcome = Payload(value: Value) | False | Throws(message: string)

  /** `verify($token)` after `initKey` returned. */
  function VerifyWithKey(prims: Primitives, key: Bytes, token: Bytes, now: int): (o: Outcome)
    ensures !o.Throws?
    ensures |Explode(token, Dot)| != 3 ==> o == False
  {
    var parts := Explode(token, Dot);
    if |parts| != 3 then False
    else if Base64Url.Decode(parts[2]) != prims.hmacSha256(parts[0] + [Dot] + parts[1], key) then False
    else
      var payload := prims.jsonDecode(Base64Url.Decode(parts[1]));
      if Expired(payload, now) then False else Payload(payload)
  }

  class JWTService {
    /** `JWTService::$key` */
    var key: Option<Bytes>

    constructor ()
      ensures key == None
    {
      key := None;
    }

    /** `initKey()`, as in `JWTServices`. */
    method InitKey(env: Option<Bytes>) returns (r: Result<(), string>)
      modifies this
      ensures (key, r.Failure?) == InitKeyStep(old(key), env)
    {
      if key.None? || key == Some([]) {
        key := Some(env.GetOr([]));
        if key.value == [] || key.value == [48] {
          return Failure("Clé secrète non défini dans la configuration actuelle (JWT_SECRET_KEY)");
        }
      }
      return Success(());
    }

    /** `generate($payload)`: the same layout and lifetime as `JWTServices::generate`. */
    method Generate(prims: Primitives, env: Option<Bytes>, now: int, payload: seq<(Key, Value)>)
      returns (r: Result<Bytes, string>)
      modifies this
      ensures key == InitKeyStep(old(key), env).0
      ensures r.Failure? <==> InitKeyStep(old(key), env).1
      ensures r.Success? ==> key.Some? && r.value == Issue(prims, key.value, payload, now)
    {
      var init := InitKey(env);
      if init.Failure? {
        return Failure(init.error);
      }
      return Success(Issue(prims, key.value, payload, now));
    }

    /** `verify($token)`: `initKey` is outside any `try`, so its exception escapes. */
    method Verify(prims: Primitives, env: Option<Bytes>, now: int, token: Bytes) returns (o: Outcome)
      modifies this
      ensures key == InitKeyStep(old(key), env).0
      ensures InitKeyStep(old(key), env).1 ==> o.Throws?
      ensures !InitKeyStep(old(key), env).1 ==> key.Some? && o == VerifyWithKey(prims, key.value, token, now)
    {
      var init := InitKey(env);
      if init.Failure? {
        return Throws(init.error);
      }
      var parts := Explode(token, Dot);
      if |parts| != 3 {
        return False;
      }
      var signature := prims.hmacSha256(parts[0] + [Dot] + parts[1], key.value);
      if Base64Url.Decode(parts[2]) != signature {
        return False;
      }
      var payload := prims.jsonDecode(Base64Url.Decode(parts[1]));
      if Isset(payload, "exp") && PhpNumeric.LooseLess(Index(payload, "exp"), now) {
        return False;
      }
      return Payload(payload);
    }
  }

  // ---------------------------------------------------------------------------
  // Properties

  /** The signature is checked first: a mismatch gives `false` whatever the payload says. */
  lemma SignatureFirst(prims: Primitives, key: Bytes, token: Bytes, now: int)
    requires var parts := Explode(token, Dot);
             |parts| == 3 && Base64Url.Decode(parts[2]) != prims.hmacSha256(parts[0] + [Dot] + parts[1], key)
    ensures VerifyWithKey(prims, key, token, now) == False
  {
  }

  /** A correctly signed payload without exp never expires. */
  lemma NoExpNeverExpires(prims: Primitives, key: Bytes, token: Bytes, now: int)
    requires var parts := Explode(token, Dot);
             |parts| == 3 && Base64Url.Decode(parts[2]) == prims.hmacSha256(parts[0] + [Dot] + parts[1], key)
    requires !Isset(prims.jsonDecode(Base64Url.Decode(Explode(token, Dot)[1])), "exp")
    ensures VerifyWithKey(prims, key, token, now) == Payload(prims.jsonDecode(Base64Url.Decode(Explode(token, Dot)[1])))
  {
  }

  /**
   * Round trip, and the accepted payload is returned unchanged: a generated
   * token verifies up to and including its expiry second, and is `false` after.
   */
  lemma VerifyIssued(prims: Primitives, key: Bytes, payload: seq<(Key, Value)>, issuedAt: int, now: int)
    requires prims.jsonDecode(prims.jsonEncode(Arr(Claims(payload, issuedAt)))) == Arr(Claims(payload, issuedAt))
    ensures now <= issuedAt + Lifetime ==>
      VerifyWithKey(prims, key, Issue(prims, key, payload, issuedAt), now) == Payload(Arr(Claims(payload, issuedAt)))
    ensures now > issuedAt + Lifetime ==>
      VerifyWithKey(prims, key, Issue(prims, key, payload, issuedAt), now) == False
  {
    IssuedPayload(prims, key, payload, issuedAt);
    IssuedSignature(prims, key, payload, issuedAt);
    var c := Claims(payload, issuedAt);
    assert Index(Arr(c), "exp") == Int(issuedAt + Lifetime);
  }

  /**
   * The two services accept the same correctly signed, unexpired array
   * payloads and return the same claims for them; they differ only in the
   * order of the checks and in how they fail.
   */
  lemma AgreesWithJWTServices(prims: Primitives, key: Bytes, token: Bytes, now: int)
    ensures JwtServices.VerifyWithKey(prims, key, token, now).Valid? ==>
      VerifyWithKey(prims, key, token, now) == Payload(JwtServices.VerifyWithKey(prims, key, token, now).claims)
    ensures VerifyWithKey(prims, key, token, now).Payload? && VerifyWithKey(prims, key, token, now).value.Arr? ==>
      JwtServices.VerifyWithKey(prims, key, token, now) == JwtServices.Valid(VerifyWithKey(prims, key, token, now).value)
  {
  }
}
