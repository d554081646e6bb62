/**
 * The few Python string built-ins that the slice-selector codec of
 * wavenet/layers.py relies on: str() of an int, int() of a str,
 * str.split with a one-character separator, str.index and str.startswith.
 */
module PyText {
  import opened Wrappers

  predicate IsDigit(c: char) {
    '0' <= c <= '9'
  }

  predicate AllDigits(s: string) {
    forall i :: 0 <= i < |s| ==> IsDigit(s[i])
  }

  function DigitChar(d: nat): (c: char)
    requires d < 10
    ensures IsDigit(c) && DigitValue(c) == d
  {
    (('0' as int) + d) as char
  }

  function DigitValue(c: char): nat
    requires IsDigit(c)
  {
    (c as int) - ('0' as int)
  }

  /** Decimal text of a non-negative integer, most significant digit first, no leading zeros. */
  function NatToDecimal(n: nat): (s: string)
    ensures |s| > 0 && AllDigits(s)
    ensures |s| > 1 ==> s[0] != '0'
  {
    if n < 10 then [DigitChar(n)] else NatToDecimal(n / 10) + [DigitChar(n % 10)]
  }

  /** Value of a run of decimal digits. */
  function DecimalValue(s: string): nat
    requires AllDigits(s)
  {
    if |s| == 0 then 0 else DecimalValue(s[..|s| - 1]) * 10 + DigitValue(s[|s| - 1])
  }

  lemma {:induction false} DecimalRoundTrip(n: nat)
    ensures DecimalValue(NatToDecimal(n)) == n
  {
    if n >= 10 {
      DecimalRoundTrip(n / 10);
      var s := NatToDecimal(n);
      assert s[..|s| - 1] == NatToDecimal(n / 10);
    }
  }

  /** Python's str() of an int: an optional minus sign followed by the decimal digits. */
  function IntToStr(n: int): (s: string)
    ensures |s| > 0
    ensures forall i :: 0 <= i < |s| ==> IsDigit(s[i]) || (i == 0 && s[i] == '-')
    ensures n < 0 <==> s[0] == '-'
  {
    if n < 0 then "-" + NatToDecimal(-n) else NatToDecimal(n)
  }

  /** The whitespace that int() strips; only the ASCII members of Python's set are modelled. */
  predicate IsSpace(c: char) {
    c == ' ' || c == '\t' || c == '\n' || c == '\r' || c as int == 11 || c as int == 12 ||
    c as int == 28 || c as int == 29 || c as int == 30 || c as int == 31
  }

  function StripLeft(s: string): (t: string)
    ensures |t| <= |s| && t == s[|s| - |t|..]
    ensures |t| > 0 ==> !IsSpace(t[0])
  {
    if |s| > 0 && IsSpace(s[0]) then StripLeft(s[1..]) else s
  }

  function StripRight(s: string): (t: string)
    ensures |t| <= |s| && t == s[..|t|]
    ensures |t| > 0 ==> !IsSpace(t[|t| - 1])
  {
    if |s| > 0 && IsSpace(s[|s| - 1]) then StripRight(s[..|s| - 1]) else s
  }

  /** Python's str.strip() with no argument. */
  function Strip(s: string): string {
    StripRight(StripLeft(s))
  }

  /**
   * The digit part int() accepts in base 10: digits, where single
   * underscores may separate two digits.
   */
  predicate IsGroupedDigits(s: string) {
    && |s| > 0 && IsDigit(s[0]) && IsDigit(s[|s| - 1])
    && (forall i :: 0 <= i < |s| ==> IsDigit(s[i]) || s[i] == '_')
    && (forall i :: 0 <= i < |s| - 1 ==> !(s[i] == '_' && s[i + 1] == '_'))
  }

  function DropUnderscores(s: string): (t: string)
    requires forall i :: 0 <= i < |s| ==> IsDigit(s[i]) || s[i] == '_'
    ensures AllDigits(t)
    ensures AllDigits(s) ==> t == s
  {
    if |s| == 0 then ""
    else if s[0] == '_' then DropUnderscores(s[1..])
    else [s[0]] + DropUnderscores(s[1..])
  }

  /** Python's int() of a str in base 10; None stands for the ValueError it raises. */
  function ParseInt(s: string): Option<int> {
    ParseSigned(Strip(s))
  }

  /** int() of text with no surrounding whitespace: an optional sign, then grouped digits. */
  function ParseSigned(t: string): Option<int> {
    if |t| > 0 && (t[0] == '-' || t[0] == '+') then
      match ParseUnsigned(t[1..])
      case None => None
      case Some(v) =>
        var x: int := if t[0] == '-' then 0 - (v as int) else v as int;
        Some(x)
    else match ParseUnsigned(t)
      case None => None
      case Some(v) => Some(v)
  }

  lemma StripNoSpace(s: string)
    requires forall i :: 0 <= i < |s| ==> !IsSpace(s[i])
    ensures Strip(s) == s
  {
    if |s| > 0 {
      assert StripLeft(s) == s;
      assert StripRight(s) == s;
    }
  }

  lemma NatToDecimalGrouped(n: nat)
    ensures IsGroupedDigits(NatToDecimal(n))
  {
  }

  /** int() of text that has no surrounding whitespace and no sign character. */
  function ParseUnsigned(t: string): Option<nat> {
    if IsGroupedDigits(t) then Some(DecimalValue(DropUnderscores(t))) else None
  }

  lemma ParseDecimal(n: nat)
    ensures ParseUnsigned(NatToDecimal(n)) == Some(n)
  {
    var body := NatToDecimal(n);
    NatToDecimalGrouped(n);
    assert DropUnderscores(body) == body;
    DecimalRoundTrip(n);
  }

  lemma IntToStrNoSpace(n: int)
    ensures Strip(IntToStr(n)) == IntToStr(n)
  {
    var s := IntToStr(n);
    forall i | 0 <= i < |s| ensures !IsSpace(s[i]) {
      assert s[i] == '-' || IsDigit(s[i]);
    }
    StripNoSpace(s);
  }

  lemma ParseIntUnsigned(s: string, v: nat)
    requires |s| > 0 && IsDigit(s[0])
    requires ParseUnsigned(s) == Some(v)
    ensures ParseSigned(s) == Some(v)
  {
  }

  lemma ParseIntNegative(s: string, v: nat)
    requires |s| > 0 && s[0] == '-'
    requires ParseUnsigned(s[1..]) == Some(v)
    ensures ParseSigned(s) == Some(0 - (v as int))
  {
  }

  lemma ParseNegativeText(n: int)
    requires n < 0
    ensures ParseSigned(IntToStr(n)) == Some(n)
  {
    var s := IntToStr(n);
    assert s == "-" + NatToDecimal(-n);
    assert s[1..] == NatToDecimal(-n);
    ParseDecimal(-n);
    ParseIntNegative(s, -n);
  }

  lemma ParseNonNegativeText(n: int)
    requires n >= 0
    ensures ParseSigned(IntToStr(n)) == Some(n)
  {
    var s := IntToStr(n);
    assert s == NatToDecimal(n);
    ParseDecimal(n);
    ParseIntUnsigned(s, n);
  }

  /** int(str(n)) == n for every integer n. */
  lemma ParseIntOfIntToStr(n: int)
    ensures ParseInt(IntToStr(n)) == Some(n)
  {
    var s := IntToStr(n);
    if n < 0 {
      ParseNegativeText(n);
    } else {
      ParseNonNegativeText(n);
    }
    assert ParseSigned(s) == Some(n);
    IntToStrNoSpace(n);
  }

  /** Position of the first occurrence of c; None stands for str.index's ValueError. */
  function IndexOf(s: string, c: char): (r: Option<nat>)
    ensures r.Some? ==> r.value < |s| && s[r.value] == c && c !in s[..r.value]
    ensures r.None? <==> c !in s
  {
    if |s| == 0 then None
    else if s[0] == c then Some(0)
    else match IndexOf(s[1..], c)
      case None => None
      case Some(i) => Some(i + 1)
  }

  /** The first occurrence is the one position holding c with no c before it. */
  lemma IndexOfAt(s: string, c: char, i: nat)
    requires i < |s| && s[i] == c && c !in s[..i]
    ensures IndexOf(s, c) == Some(i)
  {
    assert s[i] in s;
  }

  /** The same, with the absence of c before i stated position by position. */
  lemma IndexOfFirst(s: string, c: char, i: nat)
    requires i < |s| && s[i] == c
    requires forall k :: 0 <= k < i ==> s[k] != c
    ensures IndexOf(s, c) == Some(i)
  {
    assert forall k :: 0 <= k < i ==> s[..i][k] == s[k];
    IndexOfAt(s, c, i);
  }

  /** Python's s[lo:hi] for 0 <= lo, hi <= |s|: empty when lo >= hi. */
  function Substring(s: string, lo: nat, hi: nat): (t: string)
    requires lo <= |s| && hi <= |s|
  {
    if lo >= hi then "" else s[lo..hi]
  }

  /** Python's s.split(c) for a one-character separator. */
  function Split(s: string, c: char): (parts: seq<string>)
    ensures |parts| > 0
    ensures forall i :: 0 <= i < |parts| ==> c !in parts[i]
    decreases |s|
  {
    match IndexOf(s, c)
    case None => [s]
    case Some(i) => [s[..i]] + Split(s[i + 1..], c)
  }

  /** c.join(parts): the partner of Split. */
  function Join(parts: seq<string>, c: char): string
    requires |parts| > 0
  {
    if |parts| == 1 then parts[0] else parts[0] + [c] + Join(parts[1..], c)
  }

  /** Splitting on c undoes joining on c when no part contains c. */
  lemma {:induction false} SplitOfJoin(parts: seq<string>, c: char)
    requires |parts| > 0
    requires forall i :: 0 <= i < |parts| ==> c !in parts[i]
    ensures Split(Join(parts, c), c) == parts
  {
    if |parts| > 1 {
      var rest := Join(parts[1..], c);
      var s := parts[0] + [c] + rest;
      assert s == Join(parts, c);
      var k := |parts[0]|;
      assert s[..k] == parts[0];
      assert s[k] == c;
      IndexOfAt(s, c, k);
      assert s[k + 1..] == rest;
      assert forall i :: 0 <= i < |parts[1..]| ==> parts[1..][i] == parts[i + 1];
      SplitOfJoin(parts[1..], c);
    } else {
      assert c !in Join(parts, c);
    }
  }
}
