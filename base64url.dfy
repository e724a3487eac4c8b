/**
 * The token codec's `base64url_encode` / `base64url_decode` helpers: PHP's
 * `base64_encode` (the standard alphabet of RFC 4648 section 4, with '='
 * padding) followed by `strtr('+/', '-_')` and `rtrim('=')`; and `strtr('-_', '+/')`
 * followed by PHP's non-strict `base64_decode`, which skips '=' and every byte
 * outside the alphabet and never fails.
 */
module Base64Url {
  import opened Wrappers
  import opened ByteStrings

  type sextet = x: int | 0 <= x < 64

  const Plus: byte := 43
  const Slash: byte := 47
  const Minus: byte := 45
  const Underscore: byte := 95
  const Pad: byte := 61

  /** The standard alphabet of RFC 4648 section 4. */
  function StdChar(v: sextet): byte {
    if v < 26 then 65 + v
    else if v < 52 then 97 + (v - 26)
    else if v < 62 then 48 + (v - 52)
    else if v == 62 then Plus
    else Slash
  }

  /** Inverse of StdChar; None for every byte outside the alphabet (including '='). */
  function StdValue(c: byte): (r: Option<sextet>)
    ensures r.Some? ==> StdChar(r.value) == c
  {
    if 65 <= c <= 90 then Some(c - 65)
    else if 97 <= c <= 122 then Some(c - 71)
    else if 48 <= c <= 57 then Some(c + 4)
    else if c == Plus then Some(62)
    else if c == Slash then Some(63)
    else None
  }

  /** The URL-safe alphabet of RFC 4648 section 5. */
  function UrlChar(v: sextet): byte {
    if v == 62 then Minus else if v == 63 then Underscore else StdChar(v)
  }

  /** The sextets of `d`, three bytes to four sextets, a final partial group zero-filled. */
  function Sextets(d: Bytes): (r: seq<sextet>)
    ensures |r| == (4 * |d| + 2) / 3
  {
    if |d| == 0 then []
    else if |d| == 1 then [d[0] / 4, (d[0] % 4) * 16]
    else if |d| == 2 then [d[0] / 4, (d[0] % 4) * 16 + d[1] / 16, (d[1] % 16) * 4]
    else [d[0] / 4, (d[0] % 4) * 16 + d[1] / 16, (d[1] % 16) * 4 + d[2] / 64, d[2] % 64] + Sextets(d[3..])
  }

  function Chars(alphabet: sextet -> byte, vs: seq<sextet>): Bytes {
    seq(|vs|, i requires 0 <= i < |vs| => alphabet(vs[i]))
  }

  /** '=' padding up to a multiple of four characters. */
  function Padding(n: nat): Bytes {
    if n % 3 == 1 then [Pad, Pad] else if n % 3 == 2 then [Pad] else []
  }

  /** PHP `base64_encode`. */
  function StdEncode(d: Bytes): Bytes {
    Chars(StdChar, Sextets(d)) + Padding(|d|)
  }

  /** PHP `strtr($s, $from, $to)` for a two-byte table. */
  function Translate(s: Bytes, from0: byte, from1: byte, to0: byte, to1: byte): Bytes {
    seq(|s|, i requires 0 <= i < |s| => if s[i] == from0 then to0 else if s[i] == from1 then to1 else s[i])
  }

  /** PHP `rtrim($s, '=')`. */
  function TrimPad(s: Bytes): (r: Bytes)
    ensures |r| <= |s| && r == s[..|r|]
    ensures |r| > 0 ==> r[|r| - 1] != Pad
  {
    if |s| > 0 && s[|s| - 1] == Pad then TrimPad(s[..|s| - 1]) else s
  }

  /** `base64url_encode`, as the source writes it. */
  function Encode(d: Bytes): Bytes {
    TrimPad(Translate(StdEncode(d), Plus, Slash, Minus, Underscore))
  }

  /** The sextets of the alphabet bytes in `s`; '=' and every other byte are skipped. */
  function Values(s: Bytes): seq<sextet> {
    if |s| == 0 then []
    else match StdValue(s[0])
      case Some(v) => [v] + Values(s[1..])
      case None => Values(s[1..])
  }

  /** Four sextets to three bytes; a final group of three gives two, of two gives one, of one nothing. */
  function Regroup(vs: seq<sextet>): Bytes {
    if |vs| >= 4 then
      [vs[0] as int * 4 + vs[1] / 16, (vs[1] % 16) as int * 16 + vs[2] / 4, (vs[2] % 4) as int * 64 + vs[3]]
      + Regroup(vs[4..])
    else if |vs| == 3 then [vs[0] as int * 4 + vs[1] / 16, (vs[1] % 16) as int * 16 + vs[2] / 4]
    else if |vs| == 2 then [vs[0] as int * 4 + vs[1] / 16]
    else []
  }

  /** PHP non-strict `base64_decode`. */
  function StdDecode(s: Bytes): Bytes {
    Regroup(Values(s))
  }

  /** `base64url_decode`, as the source writes it. */
  function Decode(s: Bytes): Bytes {
    StdDecode(Translate(s, Minus, Underscore, Plus, Slash))
  }

  // ---------------------------------------------------------------------------
  // Properties

  /** The encoding is the URL-safe alphabet applied to the sextets, with no padding. */
  lemma EncodeUnpadded(d: Bytes)
    ensures Encode(d) == Chars(UrlChar, Sextets(d))
  {
    var ubody := Chars(UrlChar, Sextets(d));
    var p := Padding(|d|);
    var t := Translate(StdEncode(d), Plus, Slash, Minus, Underscore);
    assert |t| == |ubody| + |p|;
    forall i | 0 <= i < |t| ensures t[i] == (ubody + p)[i] {
      if i < |ubody| {
        UrlCharIsTranslated(Sextets(d)[i]);
      }
    }
    assert t == ubody + p;
    UrlCharsArePlain(Sextets(d));
    TrimPadAppended(ubody, |d|);
  }

  lemma UrlCharIsTranslated(v: sextet)
    ensures UrlChar(v) == (if StdChar(v) == Plus then Minus else if StdChar(v) == Slash then Underscore else StdChar(v))
    ensures StdChar(v) == (if UrlChar(v) == Minus then Plus else if UrlChar(v) == Underscore then Slash else UrlChar(v))
    ensures UrlChar(v) !in {Plus, Slash, Pad, Dot}
  {
  }

  lemma UrlCharsArePlain(vs: seq<sextet>)
    ensures Plus !in Chars(UrlChar, vs) && Slash !in Chars(UrlChar, vs)
    ensures Pad !in Chars(UrlChar, vs) && Dot !in Chars(UrlChar, vs)
  {
    forall i | 0 <= i < |vs| ensures Chars(UrlChar, vs)[i] !in {Plus, Slash, Pad, Dot} {
      UrlCharIsTranslated(vs[i]);
    }
  }

  lemma {:induction false} TrimPadAppended(u: Bytes, n: nat)
    requires Pad !in u
    ensures TrimPad(u + Padding(n)) == u
  {
    assert TrimPad(u) == u by {
      if |u| > 0 {
        assert u[|u| - 1] in u;
      }
    }
    if n % 3 == 1 {
      assert (u + [Pad, Pad])[..|u| + 1] == u + [Pad];
      assert (u + [Pad])[..|u|] == u;
    } else if n % 3 == 2 {
      assert (u + [Pad])[..|u|] == u;
    } else {
      assert u + [] == u;
    }
  }

  /** Every encoded byte is in the URL-safe alphabet: no '+', '/', '=' and no '.'. */
  lemma EncodeAlphabet(d: Bytes)
    ensures forall i :: 0 <= i < |Encode(d)| ==> exists v: sextet :: Encode(d)[i] == UrlChar(v)
    ensures Plus !in Encode(d) && Slash !in Encode(d) && Pad !in Encode(d) && Dot !in Encode(d)
  {
    EncodeUnpadded(d);
    UrlCharsArePlain(Sextets(d));
  }

  lemma {:induction false} RegroupSextets(d: Bytes)
    ensures Regroup(Sextets(d)) == d
  {
    if |d| >= 3 {
      var vs := Sextets(d);
      assert vs[4..] == Sextets(d[3..]);
      RegroupSextets(d[3..]);
      assert d == d[..3] + d[3..];
    }
  }

  lemma {:induction false} ValuesChars(vs: seq<sextet>)
    ensures Values(Chars(StdChar, vs)) == vs
  {
    if |vs| > 0 {
      assert Chars(StdChar, vs)[1..] == Chars(StdChar, vs[1..]);
      ValuesChars(vs[1..]);
    }
  }

  /** Round trip: `base64url_decode(base64url_encode($d)) === $d`. */
  lemma DecodeEncode(d: Bytes)
    ensures Decode(Encode(d)) == d
  {
    EncodeUnpadded(d);
    var vs := Sextets(d);
    forall i | 0 <= i < |vs| {
      UrlCharIsTranslated(vs[i]);
    }
    assert Translate(Chars(UrlChar, vs), Minus, Underscore, Plus, Slash) == Chars(StdChar, vs);
    ValuesChars(vs);
    RegroupSextets(d);
  }
}
