/**
 * `SecurityUtils::sanitizeRequestData`: every string value of a request array
 * becomes `htmlspecialchars(strip_tags($value), ENT_QUOTES, 'UTF-8')`; other
 * values and all keys pass through. `strip_tags` and the UTF-8 validity test
 * are parameters.
 */
module SecurityUtils {
  import opened Php

  type Array = seq<(Key, Value)>

  /** The entity `htmlspecialchars` writes for a special character under ENT_QUOTES. */
  function Entity(c: char): string
    requires Special(c)
  {
    if c == '&' then "&amp;"
    else if c == '"' then "&quot;"
    else if c == '\'' then "&#039;"
    else if c == '<' then "&lt;"
    else "&gt;"
  }

  predicate Special(c: char) {
    c == '&' || c == '"' || c == '\'' || c == '<' || c == '>'
  }

  /** `htmlspecialchars($s, ENT_QUOTES, 'UTF-8')` on valid UTF-8 text. */
  function Escape(s: string): (r: string)
    ensures forall i :: 0 <= i < |r| ==> r[i] != '<' && r[i] != '>' && r[i] != '"' && r[i] != '\''
    ensures |r| >= |s|
  {
    if |s| == 0 then []
    else
      var head := if Special(s[0]) then Entity(s[0]) else [s[0]];
      head + Escape(s[1..])
  }

  /** Reads the five entities back; the reference the escaping is checked against. */
  function Unescape(s: string): string {
    if |s| == 0 then []
    else if |s| >= 5 && s[..5] == "&amp;" then "&" + Unescape(s[5..])
    else if |s| >= 6 && s[..6] == "&quot;" then "\"" + Unescape(s[6..])
    else if |s| >= 6 && s[..6] == "&#039;" then "'" + Unescape(s[6..])
    else if |s| >= 4 && s[..4] == "&lt;" then "<" + Unescape(s[4..])
    else if |s| >= 4 && s[..4] == "&gt;" then ">" + Unescape(s[4..])
    else [s[0]] + Unescape(s[1..])
  }

  /**
   * The new value of one entry. `htmlspecialchars` returns "" for input that is
   * not valid UTF-8 (no ENT_SUBSTITUTE flag).
   */
  function Clean(v: Value, stripTags: string -> string, validUtf8: string -> bool): Value {
    match v
    case Str(s) =>
      var t := stripTags(s);
      Str(if validUtf8(t) then Escape(t) else "")
    case _ => v
  }

  /** The sanitized array: same keys in the same order, each value cleaned. */
  function Sanitized(data: Array, stripTags: string -> string, validUtf8: string -> bool): (r: Array)
    ensures |r| == |data| && forall i :: 0 <= i < |data| ==> r[i].0 == data[i].0
    ensures forall i :: 0 <= i < |data| ==> (r[i].1.Str? <==> data[i].1.Str?)
    ensures forall i :: 0 <= i < |data| && !data[i].1.Str? ==> r[i].1 == data[i].1
  {
    seq(|data|, i requires 0 <= i < |data| => (data[i].0, Clean(data[i].1, stripTags, validUtf8)))
  }

  /** `sanitizeRequestData($data)`: a PHP array never repeats a key. */
  method SanitizeRequestData(data: Array, stripTags: string -> string, validUtf8: string -> bool)
    returns (sanitized: Array)
    requires UniqueKeys(data)
    ensures sanitized == Sanitized(data, stripTags, validUtf8)
  {
    sanitized := [];
    for i := 0 to |data|
      invariant sanitized == Sanitized(data[..i], stripTags, validUtf8)
    {
      var (key, value) := data[i];
      assert Find(sanitized, key).None? by {
        forall j | 0 <= j < i ensures sanitized[j].0 != key {
          assert sanitized[j].0 == data[j].0;
        }
      }
      var cleaned := if value.Str? then Str(if validUtf8(stripTags(value.s)) then Escape(stripTags(value.s)) else "") else value;
      sanitized := Put(sanitized, key, cleaned);
      assert sanitized == Sanitized(data[..i + 1], stripTags, validUtf8);
    }
    assert data[..|data|] == data;
  }

  // ---------------------------------------------------------------------------
  // Properties

  /** No sanitized string value contains a character that can open a tag or close an attribute. */
  lemma NoMarkupLeft(data: Array, stripTags: string -> string, validUtf8: string -> bool, i: nat)
    requires i < |data| && data[i].1.Str?
    ensures var s := Sanitized(data, stripTags, validUtf8)[i].1.s;
            forall j :: 0 <= j < |s| ==> s[j] != '<' && s[j] != '>' && s[j] != '"' && s[j] != '\''
  {
  }

  /** Nothing is lost by escaping: the entities decode to the text they replaced. */
  lemma {:induction false} UnescapeEscape(s: string)
    ensures Unescape(Escape(s)) == s
  {
    if |s| > 0 {
      UnescapeEscape(s[1..]);
      var e := Escape(s);
      var rest := Escape(s[1..]);
      if Special(s[0]) {
        assert e == Entity(s[0]) + rest;
        UnescapeEntity(s[0], rest);
      } else {
        assert e == [s[0]] + rest;
        assert e[1..] == rest;
        UnescapePlain(e);
      }
    }
  }

  /** Text that does not start with '&' starts no entity: its first character is kept. */
  lemma UnescapePlain(e: string)
    requires |e| > 0 && e[0] != '&'
    ensures Unescape(e) == [e[0]] + Unescape(e[1..])
  {
    assert |e| >= 4 ==> e[..4][0] == e[0];
    assert |e| >= 5 ==> e[..5][0] == e[0];
    assert |e| >= 6 ==> e[..6][0] == e[0];
  }

  lemma UnescapeEntity(c: char, rest: string)
    requires Special(c)
    ensures Unescape(Entity(c) + rest) == [c] + Unescape(rest)
  {
    var e := Entity(c) + rest;
    assert e[..|Entity(c)|] == Entity(c);
    assert e[|Entity(c)|..] == rest;
    if c == '"' {
      assert e[4] != ';';
    } else if c == '\'' {
      assert e[1] != 'a' && e[1] != 'q';
    } else if c == '<' {
      assert e[1] != 'a' && e[1] != 'q' && e[1] != '#';
    } else if c == '>' {
      assert e[1] != 'a' && e[1] != 'q' && e[1] != '#' && e[1] != 'l';
    }
  }

  /** Sanitizing twice escapes the ampersands of the first pass again. */
  lemma NotIdempotent()
    ensures Escape("&") == "&amp;"
    ensures Escape(Escape("&")) == "&amp;amp;"
  {
    assert Escape("&") == "&amp;" + Escape("");
    var e := "&amp;";
    assert e[1..] == "amp;";
    assert Escape("amp;") == "amp;" by {
      assert Escape(";") == ";" + Escape("");
      assert "p;"[1..] == ";";
      assert Escape("p;") == "p" + Escape(";");
      assert "mp;"[1..] == "p;";
      assert Escape("mp;") == "m" + Escape("p;");
      assert "amp;"[1..] == "mp;";
      assert Escape("amp;") == "a" + Escape("mp;");
    }
  }

  /** Keys, order and every non-string value are left as they were. */
  lemma OnlyStringsChange(data: Array, stripTags: string -> string, validUtf8: string -> bool)
    ensures Keys(Sanitized(data, stripTags, validUtf8)) == Keys(data)
    ensures forall i :: 0 <= i < |data| && !data[i].1.Str? ==> Sanitized(data, stripTags, validUtf8)[i].1 == data[i].1
  {
  }
}
