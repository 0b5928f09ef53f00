/** The few Python string built-ins the marketplace core relies on:
    `int(s)`, `str(n)`, `s.lower()`, `needle in hay`, `s.startswith(p)`
    and `urllib.parse.unquote_plus` / `quote_plus` on their ASCII subset. */
module Strings {
  import opened Wrappers

  predicate IsDigit(c: char) { '0' <= c <= '9' }

  /** A non-empty string of ASCII decimal digits. */
  predicate IsDecimal(s: string)
  {
    |s| > 0 && forall i :: 0 <= i < |s| ==> IsDigit(s[i])
  }

  /** Value of a digit string, most significant digit first. */
  function DigitsValue(s: string): nat
    requires forall i :: 0 <= i < |s| ==> IsDigit(s[i])
  {
    if |s| == 0 then 0
    else DigitsValue(s[..|s| - 1]) * 10 + DigitValue(s[|s| - 1])
  }

  function DigitValue(c: char): nat
    requires IsDigit(c)
  {
    c as int - '0' as int
  }

  /** Python's `int(s)` on decimal digit strings; any other string raises
      ValueError, which is `None` here. */
  function ParseInt(s: string): (r: Option<nat>)
    ensures r.Some? <==> IsDecimal(s)
  {
    if IsDecimal(s) then Some(DigitsValue(s)) else None
  }

  function DigitChar(d: nat): (c: char)
    requires d < 10
    ensures IsDigit(c) && c as int - '0' as int == d
  {
    ('0' as int + d) as char
  }

  /** Python's `str(n)` for a non-negative integer: canonical decimal,
      no leading zero unless the number is zero. */
  function NatToString(n: nat): (r: string)
    ensures IsDecimal(r)
    ensures |r| > 1 ==> r[0] != '0'
    decreases n
  {
    if n < 10 then [DigitChar(n)] else NatToString(n / 10) + [DigitChar(n % 10)]
  }

  /** `int(str(n)) == n`. */
  lemma {:induction false} ParseNatToString(n: nat)
    ensures ParseInt(NatToString(n)) == Some(n)
    decreases n
  {
    var s := NatToString(n);
    if n < 10 {
      assert s[..0] == [];
      assert DigitsValue(s) == DigitValue(DigitChar(n)) == n;
    } else {
      ParseNatToString(n / 10);
      var prefix := NatToString(n / 10);
      assert s == prefix + [DigitChar(n % 10)];
      assert s[..|s| - 1] == prefix;
      assert DigitsValue(s) == DigitsValue(prefix) * 10 + n % 10;
    }
  }

  /** Leading zeros do not change the value: `int("04") == int("4")`. */
  lemma {:induction false} ParseIntLeadingZero(s: string)
    requires IsDecimal(s)
    ensures ParseInt("0" + s) == ParseInt(s)
  {
    DigitsValueLeadingZero(s);
  }

  lemma {:induction false} DigitsValueLeadingZero(s: string)
    requires forall i :: 0 <= i < |s| ==> IsDigit(s[i])
    ensures forall i :: 0 <= i < |"0" + s| ==> IsDigit(("0" + s)[i])
    ensures DigitsValue("0" + s) == DigitsValue(s)
    decreases |s|
  {
    var z := "0" + s;
    assert forall i :: 0 <= i < |z| ==> IsDigit(z[i]) by {
      forall i | 0 <= i < |z| ensures IsDigit(z[i]) {
        if i > 0 { assert z[i] == s[i - 1]; }
      }
    }
    if |s| == 0 {
      assert z[..0] == [];
    } else {
      var init := s[..|s| - 1];
      DigitsValueLeadingZero(init);
      assert z[..|z| - 1] == "0" + init;
    }
  }

  /** Python's `str.lower()` on one character, for the ASCII and Latin-1
      upper-case letters (A-Z, and U+00C0 to U+00DE except U+00D7). */
  function LowerChar(c: char): char
  {
    if 'A' <= c <= 'Z' || ('\U{00C0}' <= c <= '\U{00DE}' && c != '\U{00D7}')
    then (c as int + 32) as char
    else c
  }

  function Lower(s: string): (r: string)
    ensures |r| == |s|
  {
    seq(|s|, i requires 0 <= i < |s| => LowerChar(s[i]))
  }

  /** `needle` occurs in `hay` starting at index `i`. */
  predicate OccursAt(hay: string, needle: string, i: nat)
  {
    i + |needle| <= |hay| && hay[i..i + |needle|] == needle
  }

  /** Python's `needle in hay` for strings. */
  function Contains(hay: string, needle: string): (r: bool)
    ensures r <==> exists i: nat :: OccursAt(hay, needle, i)
    decreases |hay|
  {
    if |needle| > |hay| then false
    else if hay[..|needle|] == needle then
      assert OccursAt(hay, needle, 0);
      true
    else
      var rest := hay[1..];
      var r := Contains(rest, needle);
      assert forall i: nat :: OccursAt(rest, needle, i) <==> OccursAt(hay, needle, i + 1) by {
        forall i: nat ensures OccursAt(rest, needle, i) <==> OccursAt(hay, needle, i + 1) {
          if i + |needle| <= |rest| {
            assert rest[i..i + |needle|] == hay[i + 1..i + 1 + |needle|];
          }
        }
      }
      assert r ==> exists i: nat :: OccursAt(hay, needle, i) by {
        if r {
          var i: nat :| OccursAt(rest, needle, i);
          assert OccursAt(hay, needle, i + 1);
        }
      }
      assert (exists i: nat :: OccursAt(hay, needle, i)) ==> r by {
        if exists i: nat :: OccursAt(hay, needle, i) {
          var i: nat :| OccursAt(hay, needle, i);
          assert i != 0;
          assert OccursAt(rest, needle, i - 1);
        }
      }
      r
  }

  /** Lower-casing works character by character. */
  lemma LowerAppend(a: string, b: string)
    ensures Lower(a + b) == Lower(a) + Lower(b)
  {
  }

  /** What occurs in the middle part occurs in the whole. */
  lemma ContainsInMiddle(x: string, y: string, z: string, needle: string)
    requires Contains(y, needle)
    ensures Contains(x + y + z, needle)
  {
    var i: nat :| OccursAt(y, needle, i);
    var hay := x + y + z;
    assert hay[|x| + i..|x| + i + |needle|] == y[i..i + |needle|];
    assert OccursAt(hay, needle, |x| + i);
  }

  /** The empty string is `in` every string. */
  lemma EmptyIsContained(hay: string)
    ensures Contains(hay, "")
  {
    assert OccursAt(hay, "", 0);
  }

  /** Python's `s.startswith(prefix)`. */
  predicate StartsWith(s: string, prefix: string)
  {
    |prefix| <= |s| && s[..|prefix|] == prefix
  }

  // ---------------------------------------------------------------------
  // unquote_plus / quote_plus, ASCII subset

  predicate IsHex(c: char)
  {
    '0' <= c <= '9' || 'a' <= c <= 'f' || 'A' <= c <= 'F'
  }

  function HexValue(c: char): (v: nat)
    requires IsHex(c)
    ensures v < 16
  {
    if '0' <= c <= '9' then c as int - '0' as int
    else if 'a' <= c <= 'f' then c as int - 'a' as int + 10
    else c as int - 'A' as int + 10
  }

  /** Upper-case hexadecimal digit, as `quote` writes it. */
  function HexDigit(v: nat): (c: char)
    requires v < 16
    ensures IsHex(c) && HexValue(c) == v
  {
    if v < 10 then ('0' as int + v) as char else ('A' as int + v - 10) as char
  }

  function Prepend(c: char, o: Option<string>): Option<string>
  {
    match o
    case None => None
    case Some(t) => Some([c] + t)
  }

  /** `urllib.parse.unquote_plus`: '+' becomes a space and `%XX` becomes the
      byte XX. Only escapes of ASCII bytes (below 0x80) are modelled: an
      escape of a higher byte starts a UTF-8 sequence, and the result is then
      `None` (outside the modelled subset). A '%' not followed by two hex
      digits is kept as it is. */
  function UnquotePlus(s: string): Option<string>
    decreases |s|
  {
    if s == [] then Some([])
    else if s[0] == '+' then Prepend(' ', UnquotePlus(s[1..]))
    else if s[0] == '%' && |s| >= 3 && IsHex(s[1]) && IsHex(s[2]) then
      var b := HexValue(s[1]) * 16 + HexValue(s[2]);
      if b < 0x80 then Prepend(b as char, UnquotePlus(s[3..])) else None
    else Prepend(s[0], UnquotePlus(s[1..]))
  }

  predicate IsAscii(s: string)
  {
    forall i :: 0 <= i < |s| ==> s[i] < '\U{0080}'
  }

  /** The characters `quote` never escapes. */
  predicate IsUnreserved(c: char)
  {
    'a' <= c <= 'z' || 'A' <= c <= 'Z' || '0' <= c <= '9' || c == '_' || c == '.' || c == '-' || c == '~'
  }

  function QuoteChar(c: char): string
    requires c < '\U{0080}'
  {
    if IsUnreserved(c) then [c]
    else if c == ' ' then "+"
    else ['%', HexDigit(c as int / 16), HexDigit(c as int % 16)]
  }

  /** `urllib.parse.quote_plus` on an ASCII string. */
  function QuotePlus(s: string): string
    requires IsAscii(s)
  {
    if s == [] then [] else QuoteChar(s[0]) + QuotePlus(s[1..])
  }

  /** Decoding undoes encoding: `unquote_plus(quote_plus(s)) == s`. */
  lemma {:induction false} UnquoteQuotePlus(s: string)
    requires IsAscii(s)
    ensures UnquotePlus(QuotePlus(s)) == Some(s)
  {
    if s != [] {
      var c, rest := s[0], s[1..];
      UnquoteQuotePlus(rest);
      var q := QuoteChar(c);
      var t := q + QuotePlus(rest);
      assert QuotePlus(s) == t;
      if IsUnreserved(c) {
        assert t[0] == c && t[1..] == QuotePlus(rest);
      } else if c == ' ' {
        assert t[0] == '+' && t[1..] == QuotePlus(rest);
      } else {
        assert t[0] == '%' && t[1] == HexDigit(c as int / 16) && t[2] == HexDigit(c as int % 16);
        assert t[3..] == QuotePlus(rest);
        assert HexValue(t[1]) * 16 + HexValue(t[2]) == c as int;
      }
      assert s == [c] + rest;
    }
  }
}
