/** The two number/string conversions the users query codec relies on:
    `Number.parseInt(s, 10)` and `String(n)` for an integer-valued number.
    Numbers are exact integers here; see README for the IEEE-754 limits. */
module JsNumber {
  import opened Wrappers
  import opened JsText

  predicate IsDigit(c: char) {
    '0' <= c <= '9'
  }

  predicate AllDigits(s: string) {
    forall i | 0 <= i < |s| :: IsDigit(s[i])
  }

  function DigitChar(d: nat): (c: char)
    requires d < 10
    ensures IsDigit(c) && c as int - '0' as int == d
  {
    (d + '0' as int) as char
  }

  function DigitValue(c: char): nat
    requires IsDigit(c)
  {
    c as int - '0' as int
  }

  /** The decimal digits of `n`, most significant first, without leading zeros. */
  function DigitsOf(n: nat): (r: string)
    ensures r != [] && AllDigits(r)
    ensures r[0] == '0' ==> n == 0
    decreases n
  {
    if n < 10 then [DigitChar(n)] else DigitsOf(n / 10) + [DigitChar(n % 10)]
  }

  /** The number a string of decimal digits denotes. */
  function DigitsValue(s: string): nat
    requires AllDigits(s)
    decreases |s|
  {
    if s == [] then 0 else DigitsValue(s[..|s| - 1]) * 10 + DigitValue(s[|s| - 1])
  }

  /** Reading back the digits of `n` gives `n`. */
  lemma {:induction false} DigitsRoundTrip(n: nat)
    ensures DigitsValue(DigitsOf(n)) == n
    decreases n
  {
    if n >= 10 {
      var d := DigitsOf(n);
      assert d[..|d| - 1] == DigitsOf(n / 10);
      DigitsRoundTrip(n / 10);
    }
  }

  /** `String(n)` for an integer `n`: its decimal digits, with a minus sign
      in front when it is negative. */
  function NumberToString(n: int): (r: string)
    ensures r != []
    ensures n >= 0 ==> AllDigits(r)
    ensures n < 0 ==> r[0] == '-' && AllDigits(r[1..])
  {
    if n < 0 then "-" + DigitsOf(-n) else DigitsOf(n)
  }

  /** The digits of `String(n)` denote `|n|` and carry no leading zero
      (only 0 itself is written "0"). */
  lemma NumberToStringDigits(n: int)
    ensures var r := NumberToString(n);
      n >= 0 ==> DigitsValue(r) == n && (r[0] == '0' ==> n == 0)
    ensures var r := NumberToString(n);
      n < 0 ==> |r| >= 2 && DigitsValue(r[1..]) == -n && r[1] != '0'
  {
    if n < 0 {
      var d := DigitsOf(-n);
      DigitsRoundTrip(-n);
      assert NumberToString(n) == "-" + d;
      assert NumberToString(n)[1..] == d;
    } else {
      DigitsRoundTrip(n);
      assert NumberToString(n) == DigitsOf(n);
    }
  }

  /** Length of the run of decimal digits at the start of `s`. */
  function DigitRun(s: string): (k: nat)
    ensures k <= |s| && AllDigits(s[..k])
    ensures k == |s| || !IsDigit(s[k])
    decreases |s|
  {
    if |s| > 0 && IsDigit(s[0]) then 1 + DigitRun(s[1..]) else 0
  }

  /** The unsigned part of `parseInt`: the longest run of decimal digits at
      the start of `u`, or None when `u` does not start with a digit. */
  function ParseDigits(u: string): (r: Option<nat>)
    ensures r.Some? <==> u != [] && IsDigit(u[0])
  {
    var k := DigitRun(u);
    if k == 0 then None else Some(DigitsValue(u[..k]))
  }

  /** An optionally signed digit run at the start of `t`. */
  function ParseSigned(t: string): Option<int>
  {
    if t != [] && t[0] == '-' then
      match ParseDigits(t[1..])
      case None => None
      case Some(n) => Some(-(n as int))
    else if t != [] && t[0] == '+' then
      ParseDigits(t[1..])
    else
      ParseDigits(t)
  }

  /** `Number.parseInt(s, 10)`: skip leading whitespace, read an optional
      sign, then the longest run of decimal digits; anything after the run
      is ignored. No digits at all gives NaN, modelled as None. */
  function ParseInt(s: string): Option<int>
  {
    ParseSigned(TrimStart(s))
  }

  /** The signed reader only succeeds on a string holding a digit. */
  lemma ParseSignedNeedsDigit(t: string)
    ensures ParseSigned(t).Some? ==> exists i | 0 <= i < |t| :: IsDigit(t[i])
  {
    if ParseSigned(t).Some? && t != [] && (t[0] == '-' || t[0] == '+') {
      assert IsDigit(t[1..][0]);
    }
  }

  /** `parseInt` is NaN on a string without a single decimal digit. */
  lemma ParseIntNeedsDigit(s: string)
    ensures (forall i | 0 <= i < |s| :: !IsDigit(s[i])) ==> ParseInt(s).None?
  {
    var t := TrimStart(s);
    ParseSignedNeedsDigit(t);
    if ParseInt(s).Some? {
      var i :| 0 <= i < |t| && IsDigit(t[i]);
      assert s[|s| - |t| + i] == t[i];
    }
  }

  /** A digit run followed by a non-digit (or nothing) is read to its end. */
  lemma {:induction false} DigitRunOfDigits(d: string, rest: string)
    requires AllDigits(d)
    requires rest == [] || !IsDigit(rest[0])
    ensures DigitRun(d + rest) == |d|
    decreases |d|
  {
    if d == [] {
      assert d + rest == rest;
    } else {
      assert (d + rest)[0] == d[0];
      assert (d + rest)[1..] == d[1..] + rest;
      DigitRunOfDigits(d[1..], rest);
    }
  }

  /** The digit reader reads a whole digit run when a non-digit (or
      nothing) follows it. */
  lemma ParseDigitsOfRun(d: string, rest: string)
    requires d != [] && AllDigits(d)
    requires rest == [] || !IsDigit(rest[0])
    ensures ParseDigits(d + rest) == Some(DigitsValue(d))
  {
    DigitRunOfDigits(d, rest);
    assert (d + rest)[..|d|] == d;
  }

  /** A string that starts with a digit or a minus sign has no leading
      whitespace to skip. */
  lemma NoLeadingWhitespace(s: string)
    requires s != [] && (IsDigit(s[0]) || s[0] == '-')
    ensures TrimStart(s) == s
  {
  }

  /** The signed reader reads an unsigned digit run as it is. */
  lemma ParseSignedOfRun(d: string, rest: string)
    requires d != [] && AllDigits(d)
    requires rest == [] || !IsDigit(rest[0])
    ensures ParseSigned(d + rest) == Some(DigitsValue(d))
  {
    assert (d + rest)[0] == d[0];
    ParseDigitsOfRun(d, rest);
  }

  /** An unsigned digit run reads back as its value. */
  lemma ParseIntOfRun(d: string, rest: string)
    requires d != [] && AllDigits(d)
    requires rest == [] || !IsDigit(rest[0])
    ensures ParseInt(d + rest) == Some(DigitsValue(d))
  {
    var s := d + rest;
    assert s[0] == d[0];
    NoLeadingWhitespace(s);
    ParseSignedOfRun(d, rest);
  }

  /** After a minus sign the signed reader negates what the digit reader
      reads. */
  lemma ParseSignedMinus(t: string, n: nat)
    requires t != [] && t[0] == '-'
    requires ParseDigits(t[1..]) == Some(n)
    ensures ParseSigned(t) == Some(-(n as int))
  {
  }

  /** The signed reader negates the digit run after a minus sign. */
  lemma ParseSignedOfNegativeRun(d: string, rest: string)
    requires d != [] && AllDigits(d)
    requires rest == [] || !IsDigit(rest[0])
    ensures ParseSigned(("-" + d) + rest) == Some(-(DigitsValue(d) as int))
  {
    var s := ("-" + d) + rest;
    assert s[1..] == d + rest;
    ParseDigitsOfRun(d, rest);
    ParseSignedMinus(s, DigitsValue(d));
  }

  /** A minus sign before a digit run reads back as the negated value. */
  lemma ParseIntOfNegativeRun(d: string, rest: string)
    requires d != [] && AllDigits(d)
    requires rest == [] || !IsDigit(rest[0])
    ensures ParseInt(("-" + d) + rest) == Some(-(DigitsValue(d) as int))
  {
    var s := ("-" + d) + rest;
    assert s[0] == '-';
    NoLeadingWhitespace(s);
    ParseSignedOfNegativeRun(d, rest);
  }

  /** `parseInt` reads back what `String` wrote, and ignores trailing
      garbage that does not start with a digit. */
  lemma ParseIntOfNumberToString(n: int, rest: string)
    requires rest == [] || !IsDigit(rest[0])
    ensures ParseInt(NumberToString(n) + rest) == Some(n)
  {
    var m: nat := if n < 0 then -n else n;
    var d := DigitsOf(m);
    DigitsRoundTrip(m);
    if n < 0 {
      assert NumberToString(n) == "-" + d;
      ParseIntOfNegativeRun(d, rest);
    } else {
      assert NumberToString(n) == d;
      ParseIntOfRun(d, rest);
    }
  }

  /** Leading whitespace does not change what `parseInt` reads. */
  lemma ParseIntSkipsWhitespace(ws: string, s: string)
    requires AllWhitespace(ws)
    ensures ParseInt(ws + s) == ParseInt(s)
  {
    TrimStartSkipsWhitespace(ws, s);
  }
}
