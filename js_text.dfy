/** The JavaScript string built-ins the services rely on, as ECMAScript
    defines them: String.prototype.trim, the global parseInt (called without
    a radix), and a decimal rendering used as parseInt's inverse. */
module JsText {
  import opened Wrappers

  /** ECMAScript WhiteSpace and LineTerminator code points: what trim
      removes and what parseInt skips before a number. */
  predicate IsWhiteSpace(c: char) {
    || c == '\t' || c == '\n' || c == '\U{000B}' || c == '\U{000C}' || c == '\r'
    || c == ' ' || c == '\U{00A0}' || c == '\U{1680}'
    || ('\U{2000}' <= c <= '\U{200A}')
    || c == '\U{2028}' || c == '\U{2029}' || c == '\U{202F}' || c == '\U{205F}'
    || c == '\U{3000}' || c == '\U{FEFF}'
  }

  /** `s` with its leading white space removed. */
  function TrimStart(s: string): (r: string)
    ensures |r| <= |s|
  {
    if s != [] && IsWhiteSpace(s[0]) then TrimStart(s[1..]) else s
  }

  /** TrimStart keeps a suffix of `s` that does not start with white space,
      and everything it drops is white space. */
  lemma {:induction false} TrimStartShape(s: string)
    ensures var r := TrimStart(s);
      && r == s[|s| - |r|..]
      && (r == [] || !IsWhiteSpace(r[0]))
      && forall i | 0 <= i < |s| - |r| :: IsWhiteSpace(s[i])
  {
    if s != [] && IsWhiteSpace(s[0]) {
      TrimStartShape(s[1..]);
      var r := TrimStart(s);
      forall i | 0 < i < |s| - |r| ensures IsWhiteSpace(s[i]) {
        assert s[i] == s[1..][i - 1];
      }
    }
  }

  /** `s` with its trailing white space removed. */
  function TrimEnd(s: string): (r: string)
    ensures |r| <= |s|
  {
    if s != [] && IsWhiteSpace(s[|s| - 1]) then TrimEnd(s[..|s| - 1]) else s
  }

  /** TrimEnd keeps a prefix of `s` that does not end with white space, and
      everything it drops is white space. */
  lemma {:induction false} TrimEndShape(s: string)
    ensures var r := TrimEnd(s);
      && r == s[..|r|]
      && (r == [] || !IsWhiteSpace(r[|r| - 1]))
      && forall i | |r| <= i < |s| :: IsWhiteSpace(s[i])
  {
    if s != [] && IsWhiteSpace(s[|s| - 1]) {
      TrimEndShape(s[..|s| - 1]);
      var r := TrimEnd(s);
      forall i | |r| <= i < |s| - 1 ensures IsWhiteSpace(s[i]) {
        assert s[i] == s[..|s| - 1][i];
      }
    }
  }

  /** String.prototype.trim. */
  function Trim(s: string): string {
    TrimEnd(TrimStart(s))
  }

  /** The number of white-space characters trim removes from the front. */
  function LeadingWhiteSpace(s: string): nat {
    |s| - |TrimStart(s)|
  }

  /** Trim keeps one contiguous slice of `s`, which neither starts nor ends
      with white space, and everything it drops is white space. */
  lemma TrimSlice(s: string)
    ensures var r, lead := Trim(s), LeadingWhiteSpace(s);
      && lead + |r| <= |s|
      && r == s[lead..lead + |r|]
      && (r == [] || (!IsWhiteSpace(r[0]) && !IsWhiteSpace(r[|r| - 1])))
      && forall i | 0 <= i < |s| && !(lead <= i < lead + |r|) :: IsWhiteSpace(s[i])
  {
    var t := TrimStart(s);
    var r := TrimEnd(t);
    var lead := LeadingWhiteSpace(s);
    TrimStartShape(s);
    TrimEndShape(t);
    assert r == [] || r[0] == t[0];
    forall i | lead + |r| <= i < |s| ensures IsWhiteSpace(s[i]) {
      assert s[i] == t[i - lead];
    }
  }

  /** A string that neither starts nor ends with white space is left alone. */
  lemma {:induction false} TrimFixed(s: string)
    requires s == [] || (!IsWhiteSpace(s[0]) && !IsWhiteSpace(s[|s| - 1]))
    ensures Trim(s) == s
  {
  }

  /** Trimming twice is trimming once. */
  lemma TrimIdempotent(s: string)
    ensures Trim(Trim(s)) == Trim(s)
  {
    TrimSlice(s);
    TrimFixed(Trim(s));
  }

  /** The value of a character as a digit in radices up to 36; 36 for a
      character that is no digit at all. */
  function DigitValue(c: char): nat {
    if '0' <= c <= '9' then c as nat - '0' as nat
    else if 'a' <= c <= 'z' then c as nat - 'a' as nat + 10
    else if 'A' <= c <= 'Z' then c as nat - 'A' as nat + 10
    else 36
  }

  predicate IsDecimalDigit(c: char) {
    '0' <= c <= '9'
  }

  /** The longest prefix of `s` made of digits of the given radix. */
  function LeadingDigits(s: string, radix: nat): (d: string)
    ensures |d| <= |s| && d == s[..|d|]
    ensures forall i | 0 <= i < |d| :: DigitValue(d[i]) < radix
    ensures |d| == |s| || DigitValue(s[|d|]) >= radix
  {
    if s != [] && DigitValue(s[0]) < radix then [s[0]] + LeadingDigits(s[1..], radix) else []
  }

  /** The number a string of digits denotes in the given radix. */
  function DigitsValue(d: string, radix: nat): nat {
    if d == [] then 0 else DigitsValue(d[..|d| - 1], radix) * radix + DigitValue(d[|d| - 1])
  }

  /** The "0x"/"0X" prefix that switches parseInt to radix 16. */
  predicate HasHexPrefix(s: string) {
    |s| >= 2 && s[0] == '0' && (s[1] == 'x' || s[1] == 'X')
  }

  /** parseInt(s) with no radix: skip leading white space, take one optional
      sign, then a hexadecimal number after "0x"/"0X" or else a decimal one;
      None stands for NaN, returned when no digit follows. */
  function ParseInt(s: string): Option<int> {
    ParseSigned(TrimStart(s))
  }

  function ParseSigned(t: string): Option<int> {
    if t != [] && t[0] == '-' then
      match ParseUnsigned(t[1..])
      case None => None
      case Some(n) => Some(-(n as int))
    else if t != [] && t[0] == '+' then ParseUnsigned(t[1..])
    else ParseUnsigned(t)
  }

  function ParseUnsigned(u: string): Option<nat> {
    if HasHexPrefix(u) then DigitRun(u[2..], 16) else DigitRun(u, 10)
  }

  /** The value of the leading run of digits, or None if there is none. */
  function DigitRun(b: string, radix: nat): Option<nat> {
    var d := LeadingDigits(b, radix);
    if d == [] then None else Some(DigitsValue(d, radix))
  }

  /** `parseInt(s) || 0`: NaN, +0 and -0 all become 0. */
  function ParseIntOrZero(s: string): int {
    match ParseInt(s)
    case None => 0
    case Some(n) => n
  }

  /** A text that starts with a decimal digit (and not with "0x") reads as
      the decimal value of its leading digit run. */
  lemma ParseIntDecimal(s: string)
    requires s != [] && IsDecimalDigit(s[0]) && !HasHexPrefix(s)
    ensures ParseInt(s) == Some(DigitsValue(LeadingDigits(s, 10), 10))
    ensures ParseIntOrZero(s) == DigitsValue(LeadingDigits(s, 10), 10)
  {
    DigitIsNotWhiteSpace(s[0]);
    assert TrimStart(s) == s;
    assert ParseSigned(s) == ParseUnsigned(s);
    assert LeadingDigits(s, 10) != [];
  }

  lemma DigitIsNotWhiteSpace(c: char)
    requires IsDecimalDigit(c)
    ensures !IsWhiteSpace(c) && c != '+' && c != '-'
  {
  }

  /** A text that starts with neither white space, a sign nor a digit reads as 0. */
  lemma ParseIntNonNumeric(s: string)
    requires s == [] || !(IsWhiteSpace(s[0]) || s[0] == '+' || s[0] == '-' || IsDecimalDigit(s[0]))
    ensures ParseInt(s) == None
    ensures ParseIntOrZero(s) == 0
  {
    assert TrimStart(s) == s;
  }

  /** A decimal digit character. */
  function Digit(n: nat): (c: char)
    requires n < 10
    ensures IsDecimalDigit(c) && DigitValue(c) == n
  {
    ('0' as nat + n) as char
  }

  /** The decimal rendering of a natural number, without leading zeros
      (String(n) for integers JavaScript represents exactly). */
  function DecimalString(n: nat): (s: string)
    ensures s != []
    ensures forall i | 0 <= i < |s| :: IsDecimalDigit(s[i])
    ensures |s| == 1 <==> n < 10
  {
    if n < 10 then [Digit(n)] else DecimalString(n / 10) + [Digit(n % 10)]
  }

  lemma {:induction false} DigitsValueOfDecimal(n: nat)
    ensures DigitsValue(DecimalString(n), 10) == n
  {
    var s := DecimalString(n);
    if n >= 10 {
      DigitsValueOfDecimal(n / 10);
      assert s[..|s| - 1] == DecimalString(n / 10);
    }
  }

  lemma {:induction false} LeadingDigitsOfRun(d: string, rest: string, radix: nat)
    requires forall i | 0 <= i < |d| :: DigitValue(d[i]) < radix
    requires rest == [] || DigitValue(rest[0]) >= radix
    ensures LeadingDigits(d + rest, radix) == d
  {
    if d != [] {
      assert (d + rest)[1..] == d[1..] + rest;
      LeadingDigitsOfRun(d[1..], rest, radix);
    } else {
      assert d + rest == rest;
    }
  }

  /** parseInt reads back a rendered number, whatever non-digit text follows
      it, unless a bare "0" is followed by "x" and so becomes a hex prefix. */
  lemma ParseIntOfDecimal(n: nat, rest: string)
    requires rest == [] || !IsDecimalDigit(rest[0])
    requires n == 0 ==> rest == [] || (rest[0] != 'x' && rest[0] != 'X')
    ensures ParseInt(DecimalString(n) + rest) == Some(n)
    ensures ParseIntOrZero(DecimalString(n) + rest) == n
  {
    var d := DecimalString(n);
    var s := d + rest;
    assert s[0] == d[0];
    DigitIsNotWhiteSpace(s[0]);
    assert TrimStart(s) == s;
    assert ParseSigned(s) == ParseUnsigned(s);
    if |d| == 1 {
      assert d == [Digit(n)];
    } else {
      assert s[1] == d[1];
    }
    assert !HasHexPrefix(s);
    assert rest == [] || DigitValue(rest[0]) >= 10;
    LeadingDigitsOfRun(d, rest, 10);
    DigitsValueOfDecimal(n);
  }

  /** One leading sign: "-" negates what follows, "+" leaves it as it is. */
  lemma ParseIntSigned(t: string)
    ensures ParseInt("-" + t) == (match ParseUnsigned(t) case None => None case Some(n) => Some(-(n as int)))
    ensures ParseInt("+" + t) == ParseUnsigned(t)
  {
    assert ("-" + t)[1..] == t;
    assert ("+" + t)[1..] == t;
    assert TrimStart("-" + t) == "-" + t;
    assert TrimStart("+" + t) == "+" + t;
  }

  /** The kill-count readings the snapshot relies on. */
  lemma ParseIntExamples()
    ensures ParseIntOrZero("") == 0
    ensures ParseIntOrZero("7") == 7
    ensures ParseIntOrZero("12:3") == 12
    ensures ParseIntOrZero("x7") == 0
  {
    ParseIntNonNumeric("");
    ParseIntNonNumeric("x7");
    assert ParseIntOrZero("7") == 7 by {
      assert DecimalString(7) + "" == "7";
      ParseIntOfDecimal(7, "");
    }
    assert ParseIntOrZero("12:3") == 12 by {
      var d := DecimalString(12);
      assert d == "12";
      assert d + ":3" == "12:3";
      ParseIntOfDecimal(12, ":3");
    }
  }

  /** Leading white space is skipped. */
  lemma ParseIntSkipsSpace()
    ensures ParseIntOrZero(" 42") == 42
  {
    assert " 42"[1..] == "42";
    DigitIsNotWhiteSpace('4');
    assert TrimStart(" 42") == "42";
    assert DecimalString(42) + "" == "42";
    ParseIntOfDecimal(42, "");
    assert ParseInt(" 42") == ParseInt("42");
  }

  /** A leading minus sign is honoured. */
  lemma ParseIntNegative()
    ensures ParseIntOrZero("-3") == -3
  {
    ParseIntSigned("3");
    assert "-" + "3" == "-3";
    assert LeadingDigits("3", 10) == "3";
    assert DigitsValue("3", 10) == 3 by { assert "3"[..0] == ""; }
    assert ParseUnsigned("3") == Some(3);
  }

  /** With no radix given, a "0x" prefix makes parseInt read hexadecimal. */
  lemma ParseIntHexPrefix()
    ensures ParseIntOrZero("0x1A") == 26
  {
    var s := "0x1A";
    assert TrimStart(s) == s by {
      assert !IsWhiteSpace(s[0]);
    }
    assert ParseSigned(s) == ParseUnsigned(s);
    assert HasHexPrefix(s) && s[2..] == "1A";
    HexRunValue();
  }

  /** The hexadecimal digit run "1A" is worth 26. */
  lemma HexRunValue()
    ensures DigitRun("1A", 16) == Some(26)
  {
    assert LeadingDigits("1A", 16) == "1A" by {
      assert "1A"[1..] == "A";
      assert "A"[1..] == "";
    }
    assert DigitsValue("1A", 16) == 26 by {
      assert "1A"[..1] == "1";
      assert "1"[..0] == "";
    }
  }
}
