/** Input validators and identifier generators (backend/utils/validators.js).
    The three validators are anchored regular expressions; the two fixed-length ones
    are written as sequences of counted character classes, the e-mail one as the
    decomposition its pattern allows. Randomness and the clock are parameters. */
module Validators {
  import opened Strings

  /** The character classes of the fixed-length patterns. JavaScript's `\d`
      matches the ASCII digits only. */
  datatype CharClass = Digit | UpperLetter | Between(lo: char, hi: char)

  predicate InClass(c: char, cls: CharClass) {
    match cls
    case Digit => IsDigit(c)
    case UpperLetter => 'A' <= c <= 'Z'
    case Between(lo, hi) => lo <= c <= hi
  }

  /** `cls{count}`: exactly `count` characters of class `cls`. */
  datatype Piece = Piece(cls: CharClass, count: nat)

  /** The anchored pattern `^p1 p2 ... pn$` matches the whole of s. */
  predicate MatchesAnchored(pattern: seq<Piece>, s: string)
    decreases |pattern|
  {
    if pattern == [] then s == []
    else
      var p := pattern[0];
      && p.count <= |s|
      && (forall k | 0 <= k < p.count :: InClass(s[k], p.cls))
      && MatchesAnchored(pattern[1..], s[p.count..])
  }

  /** `/^[6-9]\d{9}$/` */
  const PhonePattern: seq<Piece> := [Piece(Between('6', '9'), 1), Piece(Digit, 9)]

  /** `/^[A-Z]{2}\d{2}[A-Z]{2}\d{4}$/` */
  const CarNumberPattern: seq<Piece> :=
    [Piece(UpperLetter, 2), Piece(Digit, 2), Piece(UpperLetter, 2), Piece(Digit, 4)]

  predicate ValidatePhone(phone: string) {
    MatchesAnchored(PhonePattern, phone)
  }

  predicate ValidateCarNumber(carNumber: string) {
    MatchesAnchored(CarNumberPattern, carNumber)
  }

  /** One counted piece at the front: the first `count` characters are in the
      class and the rest matches the remaining pattern. */
  lemma MatchesCons(p: Piece, rest: seq<Piece>, s: string)
    ensures MatchesAnchored([p] + rest, s) <==>
      p.count <= |s| && (forall k | 0 <= k < p.count :: InClass(s[k], p.cls))
      && MatchesAnchored(rest, s[p.count..])
  {
    assert ([p] + rest)[0] == p;
    assert ([p] + rest)[1..] == rest;
  }

  /** A phone number is accepted exactly when it has ten characters, the first in
      '6'..'9' and the other nine decimal digits. */
  lemma PhoneFormat(phone: string)
    ensures ValidatePhone(phone) <==>
      |phone| == 10 && '6' <= phone[0] <= '9' && forall k | 1 <= k < 10 :: IsDigit(phone[k])
  {
    var digits := Piece(Digit, 9);
    MatchesCons(Piece(Between('6', '9'), 1), [digits], phone);
    if |phone| >= 1 {
      var tail := phone[1..];
      MatchesCons(digits, [], tail);
      assert [digits] == [digits] + [];
      assert forall k | 1 <= k < |phone| :: phone[k] == tail[k - 1];
    }
  }

  /** A car number is accepted exactly when it has ten characters: two upper-case
      letters, two digits, two upper-case letters, four digits. */
  lemma CarNumberFormat(carNumber: string)
    ensures ValidateCarNumber(carNumber) <==>
      && |carNumber| == 10
      && (forall k | 0 <= k < 2 || 4 <= k < 6 :: 'A' <= carNumber[k] <= 'Z')
      && (forall k | 2 <= k < 4 || 6 <= k < 10 :: IsDigit(carNumber[k]))
  {
    var s := carNumber;
    var p0, p1, p2, p3 := Piece(UpperLetter, 2), Piece(Digit, 2), Piece(UpperLetter, 2), Piece(Digit, 4);
    assert CarNumberPattern == [p0] + [p1, p2, p3];
    assert [p1, p2, p3] == [p1] + [p2, p3];
    assert [p2, p3] == [p2] + [p3];
    assert [p3] == [p3] + [];
    MatchesCons(p0, [p1, p2, p3], s);
    if |s| >= 2 {
      MatchesCons(p1, [p2, p3], s[2..]);
      if |s| >= 4 {
        assert s[2..][2..] == s[4..];
        MatchesCons(p2, [p3], s[4..]);
        if |s| >= 6 {
          assert s[4..][2..] == s[6..];
          MatchesCons(p3, [], s[6..]);
          if |s| >= 10 {
            assert s[6..][4..] == s[10..];
          }
        }
      }
    }
  }

  /** Lower-case letters are rejected wherever they stand. */
  lemma CarNumberRejectsLowercase(carNumber: string, k: int)
    requires 0 <= k < |carNumber| && 'a' <= carNumber[k] <= 'z'
    ensures !ValidateCarNumber(carNumber)
  {
    CarNumberFormat(carNumber);
  }

  /** JavaScript's `\s`: the WhiteSpace and LineTerminator code points. */
  predicate IsSpace(c: char) {
    || c == '\t' || c == '\n' || c == '\U{000B}' || c == '\U{000C}' || c == '\r' || c == ' '
    || c == '\U{00A0}' || c == '\U{1680}' || ('\U{2000}' <= c <= '\U{200A}')
    || c == '\U{2028}' || c == '\U{2029}' || c == '\U{202F}' || c == '\U{205F}'
    || c == '\U{3000}' || c == '\U{FEFF}'
  }

  /** `[^\s@]` */
  predicate EmailChar(c: char) {
    !IsSpace(c) && c != '@'
  }

  /** `[^\s@]+` */
  predicate EmailRun(s: string) {
    |s| >= 1 && forall k | 0 <= k < |s| :: EmailChar(s[k])
  }

  /** The pattern `^[^\s@]+@[^\s@]+\.[^\s@]+$` matches with its '@' at index `at`
      and its literal '.' at index `dot`. */
  predicate EmailMatchAt(email: string, at: int, dot: int) {
    && 0 < at && at + 1 < dot && dot + 1 < |email|
    && EmailRun(email[..at])
    && email[at] == '@'
    && EmailRun(email[at + 1..dot])
    && email[dot] == '.'
    && EmailRun(email[dot + 1..])
  }

  /** `/^[^\s@]+@[^\s@]+\.[^\s@]+$/.test(email)`: some way of placing the '@' and
      the '.' makes the pattern match (the regular expression backtracks over the
      possible dots). */
  predicate ValidateEmail(email: string) {
    exists at, dot | 0 < at < |email| && at + 1 < dot < |email| - 1 :: EmailMatchAt(email, at, dot)
  }

  /** A '.' that is neither the first nor the last character. */
  predicate DotInside(d: string) {
    exists k | 0 < k < |d| - 1 :: d[k] == '.'
  }

  /** No whitespace anywhere. */
  predicate NoSpace(s: string) {
    forall k | 0 <= k < |s| :: !IsSpace(s[k])
  }

  /** The single occurrence of c sits at index i: the count is one and nothing
      else equals c. */
  lemma SingleOccurrence(s: string, i: int, c: char)
    requires 0 <= i < |s| && s[i] == c
    ensures CountChar(s, c) == 1 <==> c !in s[..i] && c !in s[i + 1..]
  {
    assert s == s[..i] + ([c] + s[i + 1..]);
    CountCharAppend(s[..i], [c] + s[i + 1..], c);
    CountCharAppend([c], s[i + 1..], c);
    CountCharZero(s[..i], c);
    CountCharZero(s[i + 1..], c);
  }

  /** The characterization of accepted e-mail addresses stated below. */
  predicate EmailShape(email: string) {
    && NoSpace(email)
    && CountChar(email, '@') == 1
    && exists at | 0 < at < |email| :: email[at] == '@' && DotInside(email[at + 1..])
  }

  /** An e-mail address is accepted exactly when it holds no whitespace and
      exactly one '@', with something before the '@', and the part after the '@'
      has a '.' that is neither its first nor its last character. */
  lemma EmailFormat(email: string)
    ensures ValidateEmail(email) <==> EmailShape(email)
  {
    if ValidateEmail(email) {
      var at, dot :| 0 < at < |email| && at + 1 < dot < |email| - 1 && EmailMatchAt(email, at, dot);
      MatchHasShape(email, at, dot);
    }
    if EmailShape(email) {
      ShapeHasMatch(email);
    }
  }

  lemma MatchHasShape(email: string, at: int, dot: int)
    requires EmailMatchAt(email, at, dot)
    ensures EmailShape(email)
  {
    var local, host, top := email[..at], email[at + 1..dot], email[dot + 1..];
    forall k | 0 <= k < |email| ensures !IsSpace(email[k]) && (k != at ==> email[k] != '@') {
      if k < at {
        assert email[k] == local[k];
      } else if at < k < dot {
        assert email[k] == host[k - at - 1];
      } else if dot < k {
        assert email[k] == top[k - dot - 1];
      }
    }
    SingleOccurrence(email, at, '@');
    var d := email[at + 1..];
    assert d[dot - at - 1] == '.';
    assert DotInside(d);
  }

  lemma ShapeHasMatch(email: string)
    requires EmailShape(email)
    ensures ValidateEmail(email)
  {
    var at :| 0 < at < |email| && email[at] == '@' && DotInside(email[at + 1..]);
    var d := email[at + 1..];
    var k :| 0 < k < |d| - 1 && d[k] == '.';
    var dot := at + 1 + k;
    SingleOccurrence(email, at, '@');
    assert email[dot] == '.';
    var local, host, top := email[..at], email[at + 1..dot], email[dot + 1..];
    assert forall j | 0 <= j < |local| :: local[j] == email[j];
    assert forall j | 0 <= j < |host| :: host[j] == d[j];
    assert forall j | 0 <= j < |top| :: top[j] == d[k + 1 + j];
    assert EmailRun(local);
    assert EmailRun(host);
    assert EmailRun(top);
    assert EmailMatchAt(email, at, dot);
  }

  /** `Math.floor(100000 + Math.random() * 900000).toString()`, with the random
      draw given as an integer in [0, 900000). The code is always six digits with
      no leading zero, and it reads back as 100000 + draw. */
  function GenerateOtp(draw: nat): (code: string)
    requires draw < 900000
    ensures |code| == 6 && AllDigits(code) && code[0] != '0'
    ensures ParseDigits(code) == 100000 + draw
  {
    var n := 100000 + draw;
    assert Pow10(5) == 100000 && Pow10(6) == 1000000;
    NatToStringLength(n, 6);
    NatToStringNoLeadingZero(n);
    ParseNatToString(n);
    NatToString(n)
  }

  /** The shape of every generated identifier: `prefix + Date.now() + '_' + r`,
      with the clock reading in milliseconds and the random base-36 suffix
      `Math.random().toString(36).substr(2, 9)` given as parameters. */
  function GenerateId(prefix: string, nowMs: nat, suffix: string): (id: string)
    ensures |id| == |prefix| + |NatToString(nowMs)| + 1 + |suffix|
    ensures id[..|prefix|] == prefix && id[|id| - |suffix|..] == suffix
    ensures id[|prefix|..|prefix| + |NatToString(nowMs)|] == NatToString(nowMs)
  {
    prefix + NatToString(nowMs) + "_" + suffix
  }

  /** Two identifiers with the same prefix are equal exactly when they were made
      from the same clock reading and the same suffix. */
  lemma GenerateIdInjective(prefix: string, n1: nat, s1: string, n2: nat, s2: string)
    ensures GenerateId(prefix, n1, s1) == GenerateId(prefix, n2, s2) <==> n1 == n2 && s1 == s2
  {
    if GenerateId(prefix, n1, s1) == GenerateId(prefix, n2, s2) {
      var d1, d2 := NatToString(n1), NatToString(n2);
      NatToStringDigits(n1);
      NatToStringDigits(n2);
      var a, b := d1 + "_" + s1, d2 + "_" + s2;
      assert GenerateId(prefix, n1, s1) == prefix + a;
      assert GenerateId(prefix, n2, s2) == prefix + b;
      assert a == (prefix + a)[|prefix|..] == (prefix + b)[|prefix|..] == b;
      assert |d1| == |d2| by {
        FirstSeparator(d1, s1);
        FirstSeparator(d2, s2);
      }
      assert d1 == a[..|d1|] == b[..|d2|] == d2;
      NatToStringInjective(n1, n2);
      assert s1 == a[|d1| + 1..] == b[|d2| + 1..] == s2;
    }
  }

  /** In `digits + "_" + rest` the first '_' is the one after the digits. */
  lemma FirstSeparator(digits: string, rest: string)
    requires AllDigits(digits)
    ensures (digits + "_" + rest)[|digits|] == '_'
    ensures forall k | 0 <= k < |digits| :: (digits + "_" + rest)[k] != '_'
  {
  }

  function GenerateUserId(nowMs: nat, suffix: string): (id: string)
    ensures StartsWith(id, "user_")
  {
    GenerateId("user_", nowMs, suffix)
  }

  function GenerateCarId(nowMs: nat, suffix: string): (id: string)
    ensures StartsWith(id, "car_")
  {
    GenerateId("car_", nowMs, suffix)
  }

  function GenerateQrId(nowMs: nat, suffix: string): (id: string)
    ensures StartsWith(id, "qr_")
  {
    GenerateId("qr_", nowMs, suffix)
  }

  function GenerateScanId(nowMs: nat, suffix: string): (id: string)
    ensures StartsWith(id, "scan_")
  {
    GenerateId("scan_", nowMs, suffix)
  }

  function GeneratePaymentId(nowMs: nat, suffix: string): (id: string)
    ensures StartsWith(id, "pay_")
  {
    GenerateId("pay_", nowMs, suffix)
  }
}
