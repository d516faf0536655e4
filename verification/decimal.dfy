// Decimal text: what operator<< prints, and what std::stoi and std::stoull read back.
module Decimal {
  import opened Wrappers

  // The exceptions of the C++ conversions.
  datatype ParseError = InvalidArgument | OutOfRange

  predicate IsDigit(c: char) { '0' <= c <= '9' }

  // isspace in the C locale
  predicate IsSpace(c: char) { c == ' ' || '\t' <= c <= '\r' }

  predicate AllDigits(s: string) {
    forall i :: 0 <= i < |s| ==> IsDigit(s[i])
  }

  function DigitChar(d: nat): (c: char)
    requires d < 10
    ensures IsDigit(c) && DigitValue(c) == d
  {
    '0' + d as char
  }

  function DigitValue(c: char): nat
    requires IsDigit(c)
  {
    (c - '0') as nat
  }

  function PrintNat(n: nat): (s: string)
    ensures |s| > 0 && AllDigits(s)
  {
    if n < 10 then [DigitChar(n)] else PrintNat(n / 10) + [DigitChar(n % 10)]
  }

  function PrintInt(i: int): string {
    if i < 0 then "-" + PrintNat(-i) else PrintNat(i)
  }

  function Value(s: string): nat
    requires AllDigits(s)
  {
    if |s| == 0 then 0 else 10 * Value(s[..|s| - 1]) + DigitValue(s[|s| - 1])
  }

  // How many digits s starts with.
  function LeadingDigits(s: string): (n: nat)
    ensures n <= |s| && AllDigits(s[..n]) && (n < |s| ==> !IsDigit(s[n]))
  {
    if |s| == 0 || !IsDigit(s[0]) then 0
    else
      var n := LeadingDigits(s[1..]);
      assert s[..n + 1] == [s[0]] + s[1..][..n];
      n + 1
  }

  function SkipSpace(s: string): (t: string)
    ensures |t| <= |s| && (|t| > 0 ==> !IsSpace(t[0]))
  {
    if |s| > 0 && IsSpace(s[0]) then SkipSpace(s[1..]) else s
  }

  // strtol and strtoull in base 10: optional space, optional sign, then as many digits as there
  // are; None when there are none. Whatever follows is ignored.
  function Scan(s: string): Option<(bool, nat)> {
    var t := SkipSpace(s);
    var negative := |t| > 0 && t[0] == '-';
    var u := if |t| > 0 && (t[0] == '-' || t[0] == '+') then t[1..] else t;
    var n := LeadingDigits(u);
    if n == 0 then None else Some((negative, Value(u[..n])))
  }

  const TWO31: int := 0x8000_0000
  const TWO64: int := 0x1_0000_0000_0000_0000

  function StoI(s: string): Result<int, ParseError> {
    match Scan(s)
    case None => Failure(InvalidArgument)
    case Some((negative, n)) =>
      var i: int := if negative then -(n as int) else n;
      if -TWO31 <= i < TWO31 then Success(i) else Failure(OutOfRange)
  }

  // strtoull accepts a minus sign and negates modulo 2^64.
  function StoULL(s: string): Result<nat, ParseError> {
    match Scan(s)
    case None => Failure(InvalidArgument)
    case Some((negative, n)) =>
      if n >= TWO64 then Failure(OutOfRange)
      else Success(if negative && n > 0 then TWO64 - n else n)
  }

  lemma {:induction false} ValuePrint(n: nat)
    ensures Value(PrintNat(n)) == n
  {
    if n >= 10 {
      ValuePrint(n / 10);
      var s := PrintNat(n);
      assert s[..|s| - 1] == PrintNat(n / 10) && s[|s| - 1] == DigitChar(n % 10);
    } else {
      assert PrintNat(n)[..0] == "";
    }
  }

  lemma {:induction false} LeadingAll(s: string)
    requires AllDigits(s)
    ensures LeadingDigits(s) == |s|
  {
    if |s| > 0 { LeadingAll(s[1..]); }
  }

  lemma ScanDigits(d: string)
    requires |d| > 0 && AllDigits(d)
    ensures Scan(d) == Some((false, Value(d)))
  {
    hide Value, LeadingDigits;
    LeadingAll(d);
    assert IsDigit(d[0]) && d[..|d|] == d;
    assert SkipSpace(d) == d;
  }

  lemma ScanMinus(d: string)
    requires |d| > 0 && AllDigits(d)
    ensures Scan("-" + d) == Some((true, Value(d)))
  {
    hide Value, LeadingDigits;
    LeadingAll(d);
    assert d[..|d|] == d;
    var m := "-" + d;
    assert m[0] == '-' && m[1..] == d;
    assert SkipSpace(m) == m;
  }

  lemma ScanPrint(i: int)
    ensures Scan(PrintInt(i)) == Some((i < 0, if i < 0 then -i else i))
  {
    var n: nat := if i < 0 then -i else i;
    ValuePrint(n);
    if i < 0 { ScanMinus(PrintNat(n)); } else { ScanDigits(PrintNat(n)); }
  }

  // Round trips over the whole range of the C++ types.
  lemma StoIPrint(i: int)
    ensures StoI(PrintInt(i)) == if -2147483648 <= i <= 2147483647 then Success(i) else Failure(OutOfRange)
  {
    ScanPrint(i);
  }

  lemma StoULLPrint(n: nat)
    ensures StoULL(PrintNat(n)) == if n <= 18446744073709551615 then Success(n) else Failure(OutOfRange)
  {
    ScanPrint(n);
  }

  // ----- any text

  lemma {:induction false} LeadingStops(d: string, rest: string)
    requires AllDigits(d) && |rest| > 0 && !IsDigit(rest[0])
    ensures LeadingDigits(d + rest) == |d|
  {
    if |d| == 0 {
      assert d + rest == rest;
    } else {
      assert (d + rest)[1..] == d[1..] + rest;
      LeadingStops(d[1..], rest);
    }
  }

  // The characters isspace accepts.
  predicate Blank(s: string) {
    forall i :: 0 <= i < |s| ==> s[i] == ' ' || 9 <= s[i] as int <= 13
  }

  predicate IsSign(s: string) {
    s == "" || s == "+" || s == "-"
  }

  lemma {:induction false} SkipsBlank(space: string, t: string)
    requires Blank(space) && (|t| > 0 ==> !IsSpace(t[0]))
    ensures SkipSpace(space + t) == t
  {
    if |space| == 0 {
      assert space + t == t;
    } else {
      assert (space + t)[1..] == space[1..] + t;
      SkipsBlank(space[1..], t);
    }
  }

  lemma {:induction false} LeadingPrefix(d: string, rest: string)
    requires AllDigits(d) && (|rest| > 0 ==> !IsDigit(rest[0]))
    ensures LeadingDigits(d + rest) == |d| && (d + rest)[..|d|] == d
  {
    if |rest| > 0 {
      LeadingStops(d, rest);
    } else {
      assert d + rest == d;
      LeadingAll(d);
    }
  }

  // Space, a sign, digits, and anything that does not go on with a digit.
  lemma ScanReads(space: string, sign: string, d: string, rest: string)
    requires Blank(space) && IsSign(sign) && AllDigits(d) && (|rest| > 0 ==> !IsDigit(rest[0]))
    requires |d| > 0 || sign != "" || (|rest| > 0 ==> !IsSpace(rest[0]) && rest[0] != '+' && rest[0] != '-')
    ensures Scan(space + (sign + (d + rest))) == if |d| == 0 then None else Some((sign == "-", Value(d)))
  {
    hide Value, LeadingDigits, SkipSpace;
    var u := d + rest;
    var t := sign + u;
    assert |d| > 0 ==> IsDigit(u[0]) && u[0] == d[0];
    SkipsBlank(space, t);
    LeadingPrefix(d, rest);
    if sign == "" { assert t == u; } else { assert t[1..] == u; }
  }

  // What the conversions make of any text: the number in front, whatever follows it, unless there is
  // none or it does not fit.
  lemma StoIReads(space: string, sign: string, d: string, rest: string)
    requires Blank(space) && IsSign(sign) && AllDigits(d) && (|rest| > 0 ==> !IsDigit(rest[0]))
    requires |d| > 0 || sign != "" || (|rest| > 0 ==> !IsSpace(rest[0]) && rest[0] != '+' && rest[0] != '-')
    ensures var i := if sign == "-" then -(Value(d) as int) else Value(d);
            StoI(space + (sign + (d + rest))) ==
            if |d| == 0 then Failure(InvalidArgument)
            else if -2147483648 <= i <= 2147483647 then Success(i) else Failure(OutOfRange)
  {
    hide Scan, Value;
    ScanReads(space, sign, d, rest);
  }

  // A minus sign is accepted for an unsigned number, and wraps.
  lemma StoULLReads(space: string, sign: string, d: string, rest: string)
    requires Blank(space) && IsSign(sign) && AllDigits(d) && (|rest| > 0 ==> !IsDigit(rest[0]))
    requires |d| > 0 || sign != "" || (|rest| > 0 ==> !IsSpace(rest[0]) && rest[0] != '+' && rest[0] != '-')
    ensures var n := Value(d);
            StoULL(space + (sign + (d + rest))) ==
            if |d| == 0 then Failure(InvalidArgument)
            else if n > 18446744073709551615 then Failure(OutOfRange)
            else Success(if sign == "-" && n > 0 then 18446744073709551616 - n else n)
  {
    hide Scan, Value;
    ScanReads(space, sign, d, rest);
  }

  function Pow10(k: nat): (p: nat)
    ensures p > 0
  {
    if k == 0 then 1 else 10 * Pow10(k - 1)
  }

  lemma {:induction false} PrintLength(n: nat, k: nat)
    requires k >= 1 && n < Pow10(k)
    ensures |PrintNat(n)| <= k
  {
    if n >= 10 {
      assert Pow10(1) == 10 * Pow10(0);
      assert n / 10 < Pow10(k - 1);
      PrintLength(n / 10, k - 1);
    }
  }
}
