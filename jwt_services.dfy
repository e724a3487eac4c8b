/**
 * `JWTServices`: the token service the controllers call. Its static `$key` is
 * a field of the class; `time()` and the environment are parameters.
 * `verify` catches every exception and answers null, checks expiry before the
 * signature, and accepts a token at the very second it expires.
 */
module JwtServices {
  import opened Wrappers
  import opened Php
  import opened ByteStrings
  import PhpNumeric
  import Base64Url
  import opened TokenCodec

  /** What `verify` gives back: the claims, null, or an error its `catch` does not handle. */
  datatype Verdict = Valid(claims: Value) | Invalid | Raises(error: string)

  /**
   * `verify($token)` after `initKey` returned: three '.'-separated parts, then
   * expiry, then the signature. A non-array payload cannot be returned as
   * `?array` and raises a TypeError, which is not an Exception.
   */
  function VerifyWithKey(prims: Primitives, key: Bytes, token: Bytes, now: int): (v: Verdict)
    ensures |Explode(token, Dot)| != 3 ==> v == Invalid
    ensures v.Valid? ==> v.claims.Arr?
  {
    var parts := Explode(token, Dot);
    if |parts| != 3 then Invalid
    else
      var payload := prims.jsonDecode(Base64Url.Decode(parts[1]));
      if Expired(payload, now) then Invalid
      else if Base64Url.Decode(parts[2]) != prims.hmacSha256(parts[0] + [Dot] + parts[1], key) then Invalid
      else match payload
        case Null => Invalid
        case Arr(_) => Valid(payload)
        case _ => Raises("TypeError")
  }

  /** The message of the exception `initKey` throws. */
  const KeyMissing := "Clé secrète non définie dans la configuration (JWT_SECRET_KEY)"

  class JWTServices {
    /** `JWTServices::$key` */
    var key: Option<Bytes>

    constructor ()
      ensures key == None
    {
      key := None;
    }

    /** `initKey()`: read the key only while it is loosely null; throw when it is empty. */
    method InitKey(env: Option<Bytes>) returns (r: Result<(), string>)
      modifies this
      ensures (key, r.Failure?) == InitKeyStep(old(key), env)
      ensures r.Failure? ==> r.error == KeyMissing
    {
      if key.None? || key == Some([]) {
        key := Some(env.GetOr([]));
        if key.value == [] || key.value == [48] {
          return Failure(KeyMissing);
        }
      }
      return Success(());
    }

    /** `generate($payload)` at time `now`. */
    method Generate(prims: Primitives, env: Option<Bytes>, now: int, payload: seq<(Key, Value)>)
      returns (r: Result<Bytes, string>)
      modifies this
      ensures key == InitKeyStep(old(key), env).0
      ensures r.Failure? <==> InitKeyStep(old(key), env).1
      ensures r.Failure? ==> r.error == KeyMissing
      ensures r.Success? ==> key.Some? && r.value == Issue(prims, key.value, payload, now)
    {
      var init := InitKey(env);
      if init.Failure? {
        return Failure(init.error);
      }
      var claims := Put(payload, StrKey("exp"), Int(now + 24 * 60 * 60));
      var h := Base64Url.Encode(prims.jsonEncode(Header));
      var p := Base64Url.Encode(prims.jsonEncode(Arr(claims)));
      var signature := prims.hmacSha256(h + [Dot] + p, key.value);
      return Success(h + [Dot] + p + [Dot] + Base64Url.Encode(signature));
    }

    /** `verify($token)` at time `now`: a failing `initKey` is caught and gives null. */
    method Verify(prims: Primitives, env: Option<Bytes>, now: int, token: Bytes) returns (v: Verdict)
      modifies this
      ensures key == InitKeyStep(old(key), env).0
      ensures InitKeyStep(old(key), env).1 ==> v == Invalid
      ensures !InitKeyStep(old(key), env).1 ==> key.Some? && v == VerifyWithKey(prims, key.value, token, now)
    {
      var init := InitKey(env);
      if init.Failure? {
        return Invalid;
      }
      var parts := Explode(token, Dot);
      if |parts| != 3 {
        return Invalid;
      }
      var payload := prims.jsonDecode(Base64Url.Decode(parts[1]));
      if Isset(payload, "exp") && PhpNumeric.LooseLess(Index(payload, "exp"), now) {
        return Invalid;
      }
      var signature := Base64Url.Decode(parts[2]);
      var expected := prims.hmacSha256(parts[0] + [Dot] + parts[1], key.value);
      if signature != expected {
        return Invalid;
      }
      match payload {
        case Null => return Invalid;
        case Arr(_) => return Valid(payload);
        case _ => return Raises("TypeError");
      }
    }
  }

  // ---------------------------------------------------------------------------
  // Properties

  /**
   * Round trip: a token from `generate` verifies, under the same key, at any
   * time up to and including its expiry, and yields the caller's claims with
   * exp added — provided `json_decode` inverts `json_encode` on those claims.
   */
  lemma VerifyIssued(prims: Primitives, key: Bytes, payload: seq<(Key, Value)>, issuedAt: int, now: int)
    requires now <= issuedAt + Lifetime
    requires prims.jsonDecode(prims.jsonEncode(Arr(Claims(payload, issuedAt)))) == Arr(Claims(payload, issuedAt))
    ensures VerifyWithKey(prims, key, Issue(prims, key, payload, issuedAt), now) == Valid(Arr(Claims(payload, issuedAt)))
  {
    IssuedPayload(prims, key, payload, issuedAt);
    IssuedSignature(prims, key, payload, issuedAt);
    var c := Claims(payload, issuedAt);
    assert Index(Arr(c), "exp") == Int(issuedAt + Lifetime);
  }

  /** After its expiry a generated token is refused, although its signature is right. */
  lemma IssuedExpires(prims: Primitives, key: Bytes, payload: seq<(Key, Value)>, issuedAt: int, now: int)
    requires now > issuedAt + Lifetime
    requires prims.jsonDecode(prims.jsonEncode(Arr(Claims(payload, issuedAt)))) == Arr(Claims(payload, issuedAt))
    ensures VerifyWithKey(prims, key, Issue(prims, key, payload, issuedAt), now) == Invalid
  {
    IssuedPayload(prims, key, payload, issuedAt);
    var c := Claims(payload, issuedAt);
    assert Index(Arr(c), "exp") == Int(issuedAt + Lifetime);
  }

  /** Expiry is checked first: an expired payload is refused whatever the signature. */
  lemma ExpiredBeforeSignature(prims: Primitives, key: Bytes, token: Bytes, now: int)
    requires |Explode(token, Dot)| == 3
    requires Expired(prims.jsonDecode(Base64Url.Decode(Explode(token, Dot)[1])), now)
    ensures VerifyWithKey(prims, key, token, now) == Invalid
  {
  }

  /** Nothing is accepted unless the decoded third part equals the recomputed HMAC. */
  lemma AcceptedMeansSigned(prims: Primitives, key: Bytes, token: Bytes, now: int)
    requires VerifyWithKey(prims, key, token, now).Valid?
    ensures var parts := Explode(token, Dot);
            |parts| == 3 && Base64Url.Decode(parts[2]) == prims.hmacSha256(parts[0] + [Dot] + parts[1], key)
    ensures !Expired(VerifyWithKey(prims, key, token, now).claims, now)
  {
  }

  /**
   * The lenient decoder lets a third part with an '=' appended verify exactly
   * like the original, so an altered token can still be accepted.
   */
  lemma PaddedSignatureAccepted(prims: Primitives, key: Bytes, token: Bytes, now: int)
    ensures VerifyWithKey(prims, key, token + [Base64Url.Pad], now) == VerifyWithKey(prims, key, token, now)
  {
    var parts := Explode(token, Dot);
    var parts' := Explode(token + [Base64Url.Pad], Dot);
    ExplodeAppend(token, Base64Url.Pad, Dot);
    if |parts| == 3 {
      assert parts'[2] == parts[2] + [Base64Url.Pad];
      DecodeSkipsPad(parts[2]);
    }
  }

  lemma {:induction false} ExplodeAppend(s: Bytes, b: byte, sep: byte)
    requires b != sep
    ensures var p, p' := Explode(s, sep), Explode(s + [b], sep);
            |p'| == |p| && p'[..|p| - 1] == p[..|p| - 1] && p'[|p| - 1] == p[|p| - 1] + [b]
  {
    if |s| == 0 {
      assert s + [b] == [b] && [b][1..] == [];
      assert Explode([b], sep) == [[b] + []] + [[]][1..];
    } else {
      assert (s + [b])[1..] == s[1..] + [b];
      ExplodeAppend(s[1..], b, sep);
    }
  }

  lemma DecodeSkipsPad(s: Bytes)
    ensures Base64Url.Decode(s + [Base64Url.Pad]) == Base64Url.Decode(s)
  {
    var t := Base64Url.Translate(s, Base64Url.Minus, Base64Url.Underscore, Base64Url.Plus, Base64Url.Slash);
    assert Base64Url.Translate(s + [Base64Url.Pad], Base64Url.Minus, Base64Url.Underscore, Base64Url.Plus, Base64Url.Slash)
      == t + [Base64Url.Pad];
    ValuesSkipPad(t);
  }

  lemma {:induction false} ValuesSkipPad(t: Bytes)
    ensures Base64Url.Values(t + [Base64Url.Pad]) == Base64Url.Values(t)
  {
    if |t| == 0 {
      assert Base64Url.Values([Base64Url.Pad]) == Base64Url.Values([]);
    } else {
      assert (t + [Base64Url.Pad])[1..] == t[1..] + [Base64Url.Pad];
      ValuesSkipPad(t[1..]);
    }
  }
}
