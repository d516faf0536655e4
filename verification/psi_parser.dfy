// PsiPoller::parse_psi_file: lines, words, key=value tokens.
module PsiParser {
  import opened Wrappers
  import opened Decimal
  import opened Policy
  import opened Protocol

  type Outcome<T> = Result<T, ParseError>

  // The four values of one line: avg10, avg60, avg300 and total.
  datatype Half = Half(avg10: real, avg60: real, avg300: real, total: nat)

  const Zero := PsiData(0.0, 0.0, 0.0, 0, 0.0, 0.0, 0.0, 0)

  function SomeHalf(d: PsiData): Half {
    Half(d.someAvg10, d.someAvg60, d.someAvg300, d.someTotal)
  }

  function FullHalf(d: PsiData): Half {
    Half(d.fullAvg10, d.fullAvg60, d.fullAvg300, d.fullTotal)
  }

  function WithSome(d: PsiData, h: Half): PsiData {
    d.(someAvg10 := h.avg10, someAvg60 := h.avg60, someAvg300 := h.avg300, someTotal := h.total)
  }

  function WithFull(d: PsiData, h: Half): PsiData {
    d.(fullAvg10 := h.avg10, fullAvg60 := h.avg60, fullAvg300 := h.avg300, fullTotal := h.total)
  }

  // ----- std::stod on decimal numbers

  function SignLength(s: string): (n: nat)
    ensures n <= |s|
  {
    if |s| > 0 && (s[0] == '-' || s[0] == '+') then 1 else 0
  }

  function Signed(s: string, x: real): real {
    if |s| > 0 && s[0] == '-' then -x else x
  }

  // The digits behind a point that s starts with.
  function FractionDigits(s: string): (f: string)
    ensures AllDigits(f) && (|f| > 0 ==> |f| < |s|)
  {
    if |s| > 0 && s[0] == '.' then s[1..][..LeadingDigits(s[1..])] else ""
  }

  // The digits s starts with, behind an optional sign; 0 if there are none.
  function SignedDigits(s: string): int {
    var u := s[SignLength(s)..];
    var n: int := Value(u[..LeadingDigits(u)]);
    if |s| > 0 && s[0] == '-' then -n else n
  }

  // The power of ten that s starts with, 0 if there is none.
  function Exponent(s: string): int {
    if |s| > 0 && (s[0] == 'e' || s[0] == 'E') then SignedDigits(s[1..]) else 0
  }

  function Scaled(x: real, e: int): real {
    if e >= 0 then x * Pow10(e) as real else x / Pow10(-e) as real
  }

  // i before the point and f behind it.
  function Mantissa(i: string, f: string): real
    requires AllDigits(i) && AllDigits(f)
  {
    Value(i) as real + Value(f) as real / Pow10(|f|) as real
  }

  // Digits with or without a point, an optional exponent; None without any digit.
  function Magnitude(s: string): Option<real> {
    var n := LeadingDigits(s);
    var f := FractionDigits(s[n..]);
    if n + |f| == 0 then None
    else
      var end := if n < |s| && s[n] == '.' then n + 1 + |f| else n;
      Some(Scaled(Mantissa(s[..n], f), Exponent(s[end..])))
  }

  // Optional space, an optional sign, and a magnitude; whatever follows is ignored.
  function StoD(s: string): Outcome<real> {
    var t := SkipSpace(s);
    match Magnitude(t[SignLength(t)..])
    case None => Failure(InvalidArgument)
    case Some(x) => Success(Signed(t, x))
  }

  // ----- splitting

  // std::getline: the position of the first line end, or the length.
  function LineEnd(s: string): (e: nat)
    ensures e <= |s| && '\n' !in s[..e] && (e < |s| ==> s[e] == '\n')
  {
    if |s| == 0 || s[0] == '\n' then 0
    else
      var e := LineEnd(s[1..]);
      assert s[..e + 1] == [s[0]] + s[1..][..e];
      e + 1
  }

  function Lines(s: string): seq<string> {
    if |s| == 0 then []
    else
      var e := LineEnd(s);
      [s[..e]] + if e < |s| then Lines(s[e + 1..]) else []
  }

  // How many characters s starts with before a space.
  function WordEnd(s: string): (e: nat)
    ensures e <= |s| && (e < |s| ==> IsSpace(s[e])) && (|s| > 0 && !IsSpace(s[0]) ==> e > 0)
  {
    if |s| == 0 || IsSpace(s[0]) then 0 else 1 + WordEnd(s[1..])
  }

  // The words that operator>> extracts.
  function Words(s: string): seq<string>
    decreases |s|
  {
    var t := SkipSpace(s);
    if |t| == 0 then [] else [t[..WordEnd(t)]] + Words(t[WordEnd(t)..])
  }

  // ----- meaning

  function Token(h: Half, token: string): Outcome<Half> {
    match FindFirstOf(token, "=", 0)
    case None => Success(h)
    case Some(eq) =>
      var key, val := token[..eq], token[eq + 1..];
      if key == "avg10" then
        (match StoD(val) case Success(x) => Success(h.(avg10 := x)) case Failure(e) => Failure(e))
      else if key == "avg60" then
        (match StoD(val) case Success(x) => Success(h.(avg60 := x)) case Failure(e) => Failure(e))
      else if key == "avg300" then
        (match StoD(val) case Success(x) => Success(h.(avg300 := x)) case Failure(e) => Failure(e))
      else if key == "total" then
        (match StoULL(val) case Success(x) => Success(h.(total := x)) case Failure(e) => Failure(e))
      else Success(h)
  }

  function Tokens(h: Half, ts: seq<string>): Outcome<Half> {
    if |ts| == 0 then Success(h)
    else
      match Tokens(h, ts[..|ts| - 1])
      case Failure(e) => Failure(e)
      case Success(g) => Token(g, ts[|ts| - 1])
  }

  // The tokens of a line are its words after the first.
  function LineTokens(l: string): seq<string> {
    if |Words(l)| == 0 then [] else Words(l)[1..]
  }

  function Line(d: PsiData, l: string): Outcome<PsiData> {
    if "some" <= l then
      (match Tokens(SomeHalf(d), LineTokens(l)) case Success(h) => Success(WithSome(d, h)) case Failure(e) => Failure(e))
    else if "full" <= l then
      (match Tokens(FullHalf(d), LineTokens(l)) case Success(h) => Success(WithFull(d, h)) case Failure(e) => Failure(e))
    else Success(d)
  }

  function AllLines(d: PsiData, ls: seq<string>): Outcome<PsiData>
    decreases |ls|
  {
    if |ls| == 0 then Success(d)
    else
      match Line(d, ls[0])
      case Failure(e) => Failure(e)
      case Success(g) => AllLines(g, ls[1..])
  }

  // ----- the loops

  method ParseLine(l: string, h: Half) returns (r: Outcome<Half>)
    ensures r == Tokens(h, LineTokens(l))
  {
    hide Token, Words;
    var words := Words(l);
    var half := h;
    var ts := if |words| == 0 then [] else words[1..];
    for i := 0 to |ts|
      invariant Tokens(h, ts[..i]) == Success(half)
    {
      assert ts[..i + 1][..i] == ts[..i];
      var token := ts[i];
      var next := Token(half, token);
      if next.Failure? {
        FailureStays(h, ts, i + 1);
        return Failure(next.error);
      }
      half := next.value;
    }
    assert ts[..|ts|] == ts;
    return Success(half);
  }

  lemma {:induction false} FailureStays(h: Half, ts: seq<string>, n: nat)
    requires n <= |ts| && Tokens(h, ts[..n]).Failure?
    ensures Tokens(h, ts) == Tokens(h, ts[..n])
  {
    if n < |ts| {
      assert ts[..|ts| - 1][..n] == ts[..n];
      FailureStays(h, ts[..|ts| - 1], n);
    } else {
      assert ts[..n] == ts;
    }
  }

  // parse_psi_file, reading its stream line by line
  method ParsePsiFile(content: string) returns (r: Outcome<PsiData>)
    ensures r == AllLines(Zero, Lines(content))
  {
    var data := Zero;
    var rest := content;
    while |rest| > 0
      invariant AllLines(Zero, Lines(content)) == AllLines(data, Lines(rest))
      decreases |rest|
    {
      var e := LineEnd(rest);
      var line := rest[..e];
      ghost var all := Lines(rest);
      rest := if e < |rest| then rest[e + 1..] else "";
      assert all == [line] + Lines(rest) && all[1..] == Lines(rest);
      if "some" <= line {
        var h := ParseLine(line, SomeHalf(data));
        if h.Failure? { return Failure(h.error); }
        data := WithSome(data, h.value);
      } else if "full" <= line {
        var h := ParseLine(line, FullHalf(data));
        if h.Failure? { return Failure(h.error); }
        data := WithFull(data, h.value);
      }
    }
    return Success(data);
  }
}
