/**
 * What the two token services share: the lazily initialised signing key, the
 * token layout built by `generate`, and the abstract primitives they call.
 * The layout is the JWS compact serialisation (section 7.1 of RFC 7515) with
 * HMAC-SHA256 (section 3.2 of RFC 7518), except that the header names its
 * type under the key "type" where section 4.1.9 of RFC 7515 says "typ".
 */
module TokenCodec {
  import opened Wrappers
  import opened Php
  import opened ByteStrings
  import PhpNumeric
  import Base64Url

  /**
   * Library functions the services call and the model does not open up:
   * `json_encode`, `json_decode($s, true)` (null when the text is not JSON)
   * and `hash_hmac('sha256', $data, $key, true)`.
   */
  datatype Primitives = Primitives(
    jsonEncode: Value -> Bytes,
    jsonDecode: Bytes -> Value,
    hmacSha256: (Bytes, Bytes) -> Bytes)

  /** Seconds a token stays valid: 24 hours. */
  const Lifetime: int := 24 * 60 * 60

  /** The header every token carries. */
  const Header: Value := Arr([(StrKey("type"), Str("JWT")), (StrKey("alg"), Str("HS256"))])

  // ---------------------------------------------------------------------------
  // The static key and `initKey`

  /** `$key == null` under PHP's loose comparison: true for null and for "". */
  predicate LooselyNull(key: Option<Bytes>) {
    key.None? || key == Some([])
  }

  /** `empty($key)` for a string: "" or "0". */
  predicate EmptyKey(k: Bytes) {
    k == [] || k == [48]
  }

  /**
   * One call of `initKey` with `$_ENV["JWT_SECRET_KEY"]` = `env`: the new key
   * and whether the call throws.
   */
  function InitKeyStep(key: Option<Bytes>, env: Option<Bytes>): (r: (Option<Bytes>, bool))
    ensures !LooselyNull(key) ==> r == (key, false)
    ensures LooselyNull(key) ==> r.0 == Some(env.GetOr([]))
    ensures r.1 <==> LooselyNull(key) && EmptyKey(env.GetOr([]))
  {
    if LooselyNull(key) then
      var k := env.GetOr([]);
      (Some(k), EmptyKey(k))
    else (key, false)
  }

  /** Runs `initKey` once per environment in `envs`, in order; reports whether the last call threw. */
  function InitKeyRuns(key: Option<Bytes>, envs: seq<Option<Bytes>>): (Option<Bytes>, bool)
    requires |envs| > 0
    decreases |envs|
  {
    var step := InitKeyStep(key, envs[0]);
    if |envs| == 1 then step else InitKeyRuns(step.0, envs[1..])
  }

  /** Once a call succeeded with a key other than "", the key is never read from the environment again. */
  lemma {:induction false} KeyFixedOnceSet(key: Option<Bytes>, envs: seq<Option<Bytes>>)
    requires key.Some? && key.value != []
    requires |envs| > 0
    ensures InitKeyRuns(key, envs) == (key, false)
    decreases |envs|
  {
    if |envs| > 1 {
      KeyFixedOnceSet(key, envs[1..]);
    }
  }

  /** With the variable unset or "", every call throws and leaves "" behind, so the next call reads again. */
  lemma {:induction false} MissingKeyAlwaysThrows(key: Option<Bytes>, envs: seq<Option<Bytes>>)
    requires LooselyNull(key)
    requires |envs| > 0 && forall i :: 0 <= i < |envs| ==> envs[i].GetOr([]) == []
    ensures InitKeyRuns(key, envs) == (Some([]), true)
    decreases |envs|
  {
    if |envs| > 1 {
      MissingKeyAlwaysThrows(Some([]), envs[1..]);
    }
  }

  /** A key of "0" makes the first call throw but is kept, so every later call succeeds with it. */
  lemma ZeroKeyThrowsOnlyOnce(env2: Option<Bytes>)
    ensures InitKeyStep(None, Some([48])) == (Some([48]), true)
    ensures InitKeyStep(Some([48]), env2) == (Some([48]), false)
  {
  }

  // ---------------------------------------------------------------------------
  // `generate`, and the expiry test of `verify`

  /** `isset($payload['exp']) && $payload['exp'] < time()` */
  predicate Expired(payload: Value, now: int) {
    Isset(payload, "exp") && PhpNumeric.LooseLess(Index(payload, "exp"), now)
  }

  /** `$payload['exp'] = time() + 24 * 60 * 60`: overwrites a caller's exp in place. */
  function Claims(payload: seq<(Key, Value)>, now: int): (c: seq<(Key, Value)>)
    ensures Lookup(c, StrKey("exp")) == Some(Int(now + Lifetime))
    ensures forall k :: k != StrKey("exp") ==> Lookup(c, k) == Lookup(payload, k)
  {
    Put(payload, StrKey("exp"), Int(now + Lifetime))
  }

  /** The signature segment over the first two segments. */
  function Sign(prims: Primitives, key: Bytes, h: Bytes, p: Bytes): Bytes {
    Base64Url.Encode(prims.hmacSha256(h + [Dot] + p, key))
  }

  /** `generate($payload)` once the key is available. */
  function Issue(prims: Primitives, key: Bytes, payload: seq<(Key, Value)>, now: int): (token: Bytes)
    ensures var h := Base64Url.Encode(prims.jsonEncode(Header));
            var p := Base64Url.Encode(prims.jsonEncode(Arr(Claims(payload, now))));
            Explode(token, Dot) == [h, p, Sign(prims, key, h, p)]
  {
    var h := Base64Url.Encode(prims.jsonEncode(Header));
    var p := Base64Url.Encode(prims.jsonEncode(Arr(Claims(payload, now))));
    var s := Sign(prims, key, h, p);
    Base64Url.EncodeAlphabet(prims.jsonEncode(Header));
    Base64Url.EncodeAlphabet(prims.jsonEncode(Arr(Claims(payload, now))));
    Base64Url.EncodeAlphabet(prims.hmacSha256(h + [Dot] + p, key));
    ExplodeThree(h, p, s, Dot);
    h + [Dot] + p + [Dot] + s
  }

  /** The decoded third segment of a generated token is the HMAC of the first two. */
  lemma IssuedSignature(prims: Primitives, key: Bytes, payload: seq<(Key, Value)>, now: int)
    ensures var parts := Explode(Issue(prims, key, payload, now), Dot);
            |parts| == 3 &&
            Base64Url.Decode(parts[2]) == prims.hmacSha256(parts[0] + [Dot] + parts[1], key)
  {
    var h := Base64Url.Encode(prims.jsonEncode(Header));
    var p := Base64Url.Encode(prims.jsonEncode(Arr(Claims(payload, now))));
    Base64Url.DecodeEncode(prims.hmacSha256(h + [Dot] + p, key));
  }

  /** The decoded second segment of a generated token is the JSON of the claims. */
  lemma IssuedPayload(prims: Primitives, key: Bytes, payload: seq<(Key, Value)>, now: int)
    ensures var parts := Explode(Issue(prims, key, payload, now), Dot);
            |parts| == 3 &&
            Base64Url.Decode(parts[1]) == prims.jsonEncode(Arr(Claims(payload, now)))
  {
    Base64Url.DecodeEncode(prims.jsonEncode(Arr(Claims(payload, now))));
  }
}
