/** PHP strings seen as byte strings, and `explode` on them. */
module ByteStrings {

  type byte = x: int | 0 <= x < 256
  type Bytes = seq<byte>

  /** ASCII '.' */
  const Dot: byte := 46

  /** `explode($sep, $s)`: the pieces between the occurrences of `sep`, in order. */
  function Explode(s: Bytes, sep: byte): (parts: seq<Bytes>)
    ensures |parts| >= 1
    ensures forall i :: 0 <= i < |parts| ==> sep !in parts[i]
  {
    if |s| == 0 then [[]]
    else
      var rest := Explode(s[1..], sep);
      if s[0] == sep then [[]] + rest
      else [[s[0]] + rest[0]] + rest[1..]
  }

  /** `implode($sep, $parts)` */
  function Join(parts: seq<Bytes>, sep: byte): Bytes
    requires |parts| >= 1
  {
    if |parts| == 1 then parts[0] else parts[0] + [sep] + Join(parts[1..], sep)
  }

  /** Number of occurrences of `b` in `s`. */
  function Count(s: Bytes, b: byte): nat {
    if |s| == 0 then 0 else (if s[0] == b then 1 else 0) + Count(s[1..], b)
  }

  /** `explode` yields one piece more than there are separators. */
  lemma {:induction false} ExplodeCount(s: Bytes, sep: byte)
    ensures |Explode(s, sep)| == Count(s, sep) + 1
  {
    if |s| > 0 {
      ExplodeCount(s[1..], sep);
    }
  }

  /** Joining the pieces gives the string back. */
  lemma {:induction false} JoinExplode(s: Bytes, sep: byte)
    ensures Join(Explode(s, sep), sep) == s
  {
    if |s| > 0 {
      var rest := Explode(s[1..], sep);
      JoinExplode(s[1..], sep);
      if s[0] == sep {
        assert Explode(s, sep)[1..] == rest;
      } else {
        var parts := Explode(s, sep);
        if |rest| == 1 {
          assert parts == [[s[0]] + rest[0]];
        } else {
          assert parts[1..] == rest[1..];
          assert Join(rest, sep) == rest[0] + [sep] + Join(rest[1..], sep);
        }
      }
    }
  }

  /** A separator-free prefix becomes the first piece. */
  lemma {:induction false} ExplodeCons(a: Bytes, t: Bytes, sep: byte)
    requires sep !in a
    ensures Explode(a + [sep] + t, sep) == [a] + Explode(t, sep)
  {
    if |a| == 0 {
      assert a + [sep] + t == [sep] + t;
      assert ([sep] + t)[1..] == t;
    } else {
      assert (a + [sep] + t)[1..] == a[1..] + [sep] + t;
      ExplodeCons(a[1..], t, sep);
      assert [a[0]] + a[1..] == a;
    }
  }

  /** A string without separator is a single piece. */
  lemma {:induction false} ExplodeNone(a: Bytes, sep: byte)
    requires sep !in a
    ensures Explode(a, sep) == [a]
  {
    if |a| > 0 {
      ExplodeNone(a[1..], sep);
      assert [a[0]] + a[1..] == a;
    }
  }

  /** Three separator-free pieces joined by the separator split back into exactly those three. */
  lemma ExplodeThree(a: Bytes, b: Bytes, c: Bytes, sep: byte)
    requires sep !in a && sep !in b && sep !in c
    ensures Explode(a + [sep] + b + [sep] + c, sep) == [a, b, c]
  {
    assert a + [sep] + b + [sep] + c == a + [sep] + (b + [sep] + c);
    ExplodeCons(a, b + [sep] + c, sep);
    ExplodeCons(b, c, sep);
    ExplodeNone(c, sep);
  }

  // ---------------------------------------------------------------------------
  // bin2hex

  function HexDigit(d: int): (c: char)
    requires 0 <= d < 16
    ensures IsLowerHex(c)
  {
    if d < 10 then ('0' as int + d) as char else ('a' as int + d - 10) as char
  }

  predicate IsLowerHex(c: char) {
    '0' <= c <= '9' || 'a' <= c <= 'f'
  }

  function HexValue(c: char): (d: int)
    requires IsLowerHex(c)
    ensures 0 <= d < 16 && HexDigit(d) == c
  {
    if c <= '9' then c as int - '0' as int else c as int - 'a' as int + 10
  }

  /** `bin2hex($bytes)`: two lower-case hex digits per byte, high nibble first. */
  function Bin2Hex(b: Bytes): (h: string)
    ensures |h| == 2 * |b|
    ensures forall i :: 0 <= i < |h| ==> IsLowerHex(h[i])
  {
    if |b| == 0 then [] else [HexDigit(b[0] / 16), HexDigit(b[0] % 16)] + Bin2Hex(b[1..])
  }

  /** `hex2bin($h)` for a string of lower-case hex digit pairs. */
  function Hex2Bin(h: string): Bytes
    requires |h| % 2 == 0 && forall i :: 0 <= i < |h| ==> IsLowerHex(h[i])
  {
    if |h| == 0 then [] else [HexValue(h[0]) * 16 + HexValue(h[1])] + Hex2Bin(h[2..])
  }

  /** `bin2hex` loses nothing: `hex2bin(bin2hex($b)) === $b`. */
  lemma {:induction false} HexRoundTrip(b: Bytes)
    ensures Hex2Bin(Bin2Hex(b)) == b
  {
    if |b| > 0 {
      var h := Bin2Hex(b);
      assert h[2..] == Bin2Hex(b[1..]);
      HexRoundTrip(b[1..]);
      assert HexValue(h[0]) == b[0] / 16 && HexValue(h[1]) == b[0] % 16;
    }
  }
}
