/** JavaScript `parseInt(s)` with no radix argument, on the strings an Express
    query string carries. NaN is None. The result is exact: the rounding of
    very long digit strings to a double is not modelled. */
module JsNumbers {
  import opened Wrappers
  import opened Strings
  import opened Validators

  /** The input with its leading white space removed. */
  function TrimStart(s: string): (t: string)
    ensures |t| <= |s| && t == s[|s| - |t|..]
    ensures t == [] || !IsSpace(t[0])
    ensures forall k | 0 <= k < |s| - |t| :: IsSpace(s[k])
    decreases |s|
  {
    if s != [] && IsSpace(s[0]) then TrimStart(s[1..]) else s
  }

  /** The longest prefix made of decimal digits. */
  function DigitPrefix(s: string): (d: string)
    ensures AllDigits(d) && |d| <= |s| && d == s[..|d|]
    ensures |d| == |s| || !IsDigit(s[|d|])
    decreases |s|
  {
    if s != [] && IsDigit(s[0]) then [s[0]] + DigitPrefix(s[1..]) else []
  }

  predicate IsHexDigit(c: char) {
    IsDigit(c) || 'a' <= c <= 'f' || 'A' <= c <= 'F'
  }

  function HexValue(c: char): (v: nat)
    requires IsHexDigit(c)
    ensures v < 16
  {
    if IsDigit(c) then c as int - '0' as int
    else if 'a' <= c <= 'f' then c as int - 'a' as int + 10
    else c as int - 'A' as int + 10
  }

  /** The longest prefix made of hexadecimal digits. */
  function HexPrefix(s: string): (h: string)
    ensures |h| <= |s| && h == s[..|h|]
    ensures forall k | 0 <= k < |h| :: IsHexDigit(h[k])
    ensures |h| == |s| || !IsHexDigit(s[|h|])
    decreases |s|
  {
    if s != [] && IsHexDigit(s[0]) then [s[0]] + HexPrefix(s[1..]) else []
  }

  function ParseHex(h: string): nat
    requires forall k | 0 <= k < |h| :: IsHexDigit(h[k])
    decreases |h|
  {
    if h == [] then 0 else ParseHex(h[..|h| - 1]) * 16 + HexValue(h[|h| - 1])
  }

  /** The text after an optional sign starts with `0x` or `0X`. */
  predicate HexMarked(u: string) {
    |u| >= 2 && u[0] == '0' && (u[1] == 'x' || u[1] == 'X')
  }

  /** The magnitude read after the sign: hexadecimal after a `0x` marker,
      decimal otherwise; None when no digit follows. */
  function Magnitude(u: string): (m: Option<nat>)
    ensures !HexMarked(u) ==> (m.None? <==> DigitPrefix(u) == [])
    ensures HexMarked(u) ==> (m.None? <==> HexPrefix(u[2..]) == [])
  {
    if HexMarked(u) then
      var h := HexPrefix(u[2..]);
      if h == [] then None else Some(ParseHex(h))
    else
      var d := DigitPrefix(u);
      if d == [] then None else Some(ParseDigits(d))
  }

  /** The number read from a text that starts after the white space: an
      optional sign, then the magnitude. */
  function Signed(t: string): (r: Option<int>)
    ensures t == [] ==> r.None?
    ensures r.Some? && t[0] == '-' ==> r.value <= 0
    ensures r.Some? && t[0] != '-' ==> r.value >= 0
  {
    if t == [] then None
    else
      var negative := t[0] == '-';
      var m := Magnitude(if negative || t[0] == '+' then t[1..] else t);
      if m.None? then None
      else if negative then Some(0 - m.value)
      else Some(m.value)
  }

  /** `parseInt(s)`: leading white space is skipped, one sign is read, then the
      longest run of digits; whatever follows is ignored. */
  function ParseInt(s: string): (r: Option<int>)
    ensures TrimStart(s) == [] ==> r.None?
    ensures r.Some? && TrimStart(s)[0] == '-' ==> r.value <= 0
    ensures r.Some? && TrimStart(s)[0] != '-' ==> r.value >= 0
  {
    Signed(TrimStart(s))
  }

  /** Nothing is trimmed from a text that does not start with white space. */
  lemma {:induction false} TrimStartStops(s: string)
    requires s == [] || !IsSpace(s[0])
    ensures TrimStart(s) == s
  {
  }

  /** `parseInt` of a text that starts with no white space reads it from its
      first character. */
  lemma {:induction false} ParseIntNoSpace(u: string)
    requires u != [] && !IsSpace(u[0])
    ensures ParseInt(u) == Signed(u)
  {
    TrimStartStops(u);
  }

  lemma {:induction false} DigitPrefixOfDigits(d: string, rest: string)
    requires AllDigits(d)
    requires rest == [] || !IsDigit(rest[0])
    ensures DigitPrefix(d + rest) == d
    decreases |d|
  {
    if d == [] {
      assert d + rest == rest;
    } else {
      assert (d + rest)[1..] == d[1..] + rest;
      DigitPrefixOfDigits(d[1..], rest);
    }
  }

  /** The magnitude of a decimal number followed by text that neither extends
      it nor marks it hexadecimal. */
  lemma {:induction false} MagnitudeOfDigits(d: string, rest: string)
    requires |d| >= 1 && AllDigits(d)
    requires rest == [] || (!IsDigit(rest[0]) && rest[0] != 'x' && rest[0] != 'X')
    ensures Magnitude(d + rest) == Some(ParseDigits(d))
  {
    var u := d + rest;
    DigitPrefixOfDigits(d, rest);
    assert u[0] == d[0];
    if |d| > 1 {
      assert u[1] == d[1];
    }
  }

  /** The sign read in front of a magnitude. */
  lemma {:induction false} SignedMagnitude(u: string)
    requires u != [] && IsDigit(u[0])
    ensures Signed(u) == (if Magnitude(u).None? then None else Some(Magnitude(u).value as int))
    ensures Signed("-" + u) == (if Magnitude(u).None? then None else Some(0 - Magnitude(u).value))
  {
    assert ("-" + u)[0] == '-' && ("-" + u)[1..] == u;
  }

  /** A minus sign in front of a decimal magnitude negates it. */
  lemma {:induction false} NegatedParse(u: string, v: nat)
    requires u != [] && IsDigit(u[0]) && Magnitude(u) == Some(v)
    ensures ParseInt("-" + u) == Some(0 - v)
  {
    SignedMagnitude(u);
    assert Signed("-" + u) == Some(0 - v);
    ParseIntNoSpace("-" + u);
  }

  /** A decimal number followed by anything that is not a digit and cannot turn
      a leading `0` into a hexadecimal marker reads as that number:
      `parseInt("10abc")` is 10. */
  lemma {:induction false} UnsignedTrailingText(d: string, rest: string)
    requires |d| >= 1 && AllDigits(d)
    requires rest == [] || (!IsDigit(rest[0]) && rest[0] != 'x' && rest[0] != 'X')
    ensures ParseInt(d + rest) == Some(ParseDigits(d))
  {
    var u := d + rest;
    MagnitudeOfDigits(d, rest);
    assert IsDigit(u[0]);
    SignedMagnitude(u);
    ParseIntNoSpace(u);
  }

  /** The same with a minus sign in front: `parseInt("-10abc")` is -10. */
  lemma {:induction false} NegativeTrailingText(d: string, rest: string)
    requires |d| >= 1 && AllDigits(d)
    requires rest == [] || (!IsDigit(rest[0]) && rest[0] != 'x' && rest[0] != 'X')
    ensures ParseInt("-" + d + rest) == Some(0 - ParseDigits(d))
  {
    var u := d + rest;
    assert "-" + d + rest == "-" + u;
    MagnitudeOfDigits(d, rest);
    assert IsDigit(u[0]);
    NegatedParse(u, ParseDigits(d));
  }

  /** Both signs together. */
  lemma {:induction false} TrailingTextIgnored(d: string, rest: string)
    requires |d| >= 1 && AllDigits(d)
    requires rest == [] || (!IsDigit(rest[0]) && rest[0] != 'x' && rest[0] != 'X')
    ensures ParseInt(d + rest) == Some(ParseDigits(d))
    ensures ParseInt("-" + d + rest) == Some(0 - ParseDigits(d))
  {
    UnsignedTrailingText(d, rest);
    NegativeTrailingText(d, rest);
  }

  /** `parseInt(String(n))` is n. */
  lemma {:induction false} ParseIntNatToString(n: nat)
    ensures ParseInt(NatToString(n)) == Some(n)
  {
    NatToStringDigits(n);
    ParseNatToString(n);
    UnsignedTrailingText(NatToString(n), []);
    assert NatToString(n) + [] == NatToString(n);
  }

  /** `parseInt("-" + String(n))` is -n. */
  lemma {:induction false} ParseIntNegatedNatToString(n: nat)
    ensures ParseInt("-" + NatToString(n)) == Some(0 - n)
  {
    NatToStringDigits(n);
    ParseNatToString(n);
    NegativeTrailingText(NatToString(n), []);
    assert "-" + NatToString(n) + [] == "-" + NatToString(n);
  }

  /** Leading white space makes no difference. */
  lemma {:induction false} LeadingSpaceIgnored(s: string)
    ensures ParseInt(" " + s) == ParseInt(s)
  {
    assert (" " + s)[0] == ' ' && (" " + s)[1..] == s;
  }

  /** `parseInt("0x1A")` is 26: a `0x` marker switches to hexadecimal. */
  lemma {:induction false} ParseIntHexExample()
    ensures ParseInt("0x1A") == Some(26)
  {
    TrimStartStops("0x1A");
    assert HexMarked("0x1A") && "0x1A"[2..] == "1A";
    assert HexPrefix("1A") == "1A" by {
      assert "1A"[1..] == "A";
      assert HexPrefix("A") == "A" by {
        assert "A"[1..] == [];
      }
    }
    assert ParseHex("1A") == 26 by {
      assert "1A"[..1] == "1";
    }
  }

  predicate AllHex(h: string) {
    forall k | 0 <= k < |h| :: IsHexDigit(h[k])
  }

  lemma {:induction false} HexPrefixOfHex(h: string, rest: string)
    requires AllHex(h)
    requires rest == [] || !IsHexDigit(rest[0])
    ensures HexPrefix(h + rest) == h
    decreases |h|
  {
    if h == [] {
      assert h + rest == rest;
    } else {
      assert (h + rest)[1..] == h[1..] + rest;
      HexPrefixOfHex(h[1..], rest);
    }
  }

  /** The magnitude after a `0x` or `0X` marker is the hexadecimal digits up
      to the first character that is not one. */
  lemma {:induction false} MagnitudeOfHex(x: char, h: string, rest: string)
    requires x == 'x' || x == 'X'
    requires |h| >= 1 && AllHex(h)
    requires rest == [] || !IsHexDigit(rest[0])
    ensures Magnitude(['0', x] + h + rest) == Some(ParseHex(h))
  {
    var u := ['0', x] + h + rest;
    assert HexMarked(u) && u[2..] == h + rest;
    HexPrefixOfHex(h, rest);
  }

  /** `parseInt` reads a `0x` or `0X` marked number as hexadecimal, with or
      without a minus sign in front: `parseInt("0x1Azz")` is 26 and
      `parseInt("-0x1A")` is -26. */
  lemma {:induction false} HexTrailingText(x: char, h: string, rest: string)
    requires x == 'x' || x == 'X'
    requires |h| >= 1 && AllHex(h)
    requires rest == [] || !IsHexDigit(rest[0])
    ensures ParseInt(['0', x] + h + rest) == Some(ParseHex(h))
    ensures ParseInt("-" + ['0', x] + h + rest) == Some(0 - ParseHex(h))
  {
    var u := ['0', x] + h + rest;
    MagnitudeOfHex(x, h, rest);
    assert u[0] == '0';
    ParseIntNoSpace(u);
    var v := "-" + u;
    assert v[0] == '-' && v[1..] == u;
    ParseIntNoSpace(v);
    assert "-" + ['0', x] + h + rest == v;
  }

  /** A text that starts with neither white space, a sign nor a digit is NaN. */
  lemma {:induction false} NoDigitIsNaN(u: string)
    requires u != [] && !IsSpace(u[0]) && u[0] != '-' && u[0] != '+' && !IsDigit(u[0])
    ensures ParseInt(u) == None
  {
    ParseIntNoSpace(u);
    assert !HexMarked(u);
    assert DigitPrefix(u) == [];
  }

  /** `parseInt("abc")` is NaN. */
  lemma {:induction false} ParseIntOfLetters()
    ensures ParseInt("abc") == None
  {
    var abc := "abc";
    assert abc[0] == 'a';
    NoDigitIsNaN(abc);
  }

  /** A sign with nothing after it is NaN. */
  lemma {:induction false} ParseIntOfSignOnly()
    ensures ParseInt("-") == None
  {
    var minus := "-";
    assert minus[0] == '-' && minus[1..] == [];
    assert Magnitude([]) == None by {
      assert !HexMarked([]) && DigitPrefix([]) == [];
    }
    assert Signed(minus) == None;
    ParseIntNoSpace(minus);
  }

  /** The empty string is NaN. */
  lemma {:induction false} ParseIntOfEmpty()
    ensures ParseInt("") == None
  {
    TrimStartStops("");
  }
}
