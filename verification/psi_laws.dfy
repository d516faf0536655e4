// Parsing a PSI file is a fold over its lines, and reads back whatever the kernel prints, with the
// fields of a line and the lines of the file in any order.
module PsiLaws {
  import opened Wrappers
  import opened Decimal
  import opened Policy
  import opened Protocol
  import opened PsiParser

  // ----- a fold

  lemma {:induction false} LineEndConcat(a: string, b: string)
    requires '\n' in a
    ensures LineEnd(a + b) == LineEnd(a) < |a|
  {
    if a[0] != '\n' {
      assert (a + b)[1..] == a[1..] + b;
      assert '\n' in a[1..] by {
        var i :| 0 <= i < |a| && a[i] == '\n';
        assert a[1..][i - 1] == '\n';
      }
      LineEndConcat(a[1..], b);
    }
  }

  lemma NoLines()
    ensures Lines("") == []
  {
  }

  lemma LinesStep(s: string, e: nat)
    requires |s| > 0 && e == LineEnd(s) < |s|
    ensures Lines(s) == [s[..e]] + Lines(s[e + 1..])
  {
    hide LineEnd;
  }

  lemma CutInFront(a: string, b: string, e: nat)
    requires e < |a|
    ensures (a + b)[..e] == a[..e] && (a + b)[e + 1..] == a[e + 1..] + b
  {
  }

  lemma ConsConcat(l: string, x: seq<string>, y: seq<string>)
    ensures [l] + (x + y) == [l] + x + y
  {
  }

  lemma {:induction false} LinesConcat(a: string, b: string)
    requires |a| == 0 || a[|a| - 1] == '\n'
    ensures Lines(a + b) == Lines(a) + Lines(b)
  {
    hide Lines, LineEnd;
    if |a| == 0 {
      NoLines();
      assert a + b == b && [] + Lines(b) == Lines(b);
    } else {
      LineEndConcat(a, b);
      var e := LineEnd(a);
      var rest := a[e + 1..];
      assert |rest| > 0 ==> rest[|rest| - 1] == '\n';
      LinesConcat(rest, b);
      LinesStep(a, e);
      CutInFront(a, b, e);
      LinesStep(a + b, e);
      ConsConcat(a[..e], Lines(rest), Lines(b));
    }
  }

  ghost function Then(r: Outcome<PsiData>, ls: seq<string>): Outcome<PsiData> {
    match r
    case Failure(e) => Failure(e)
    case Success(d) => AllLines(d, ls)
  }

  lemma {:induction false} AllLinesConcat(d: PsiData, x: seq<string>, y: seq<string>)
    ensures AllLines(d, x + y) == Then(AllLines(d, x), y)
    decreases |x|
  {
    if |x| == 0 {
      assert x + y == y;
    } else {
      assert (x + y)[1..] == x[1..] + y;
      var r := Line(d, x[0]);
      if r.Success? { AllLinesConcat(r.value, x[1..], y); }
    }
  }

  // Whole lines a followed by anything b: parse a, then parse b from the state a leaves.
  lemma ParseConcat(d: PsiData, a: string, b: string)
    requires |a| == 0 || a[|a| - 1] == '\n'
    ensures AllLines(d, Lines(a + b)) == Then(AllLines(d, Lines(a)), Lines(b))
  {
    LinesConcat(a, b);
    AllLinesConcat(d, Lines(a), Lines(b));
  }

  // ----- what a line says

  // Averages are printed in hundredths of a per cent. A word is foreign if no key is in front of its
  // first equals sign.
  datatype Field = Avg10(h: nat) | Avg60(h: nat) | Avg300(h: nat) | Total(n: nat) | Other(text: string)

  datatype Key = KeyAvg10 | KeyAvg60 | KeyAvg300 | KeyTotal

  function KeyOf(f: Field): Option<Key> {
    match f
    case Avg10(_) => Some(KeyAvg10)
    case Avg60(_) => Some(KeyAvg60)
    case Avg300(_) => Some(KeyAvg300)
    case Total(_) => Some(KeyTotal)
    case Other(_) => None
  }

  function KeyName(k: Key): string {
    match k
    case KeyAvg10 => "avg10"
    case KeyAvg60 => "avg60"
    case KeyAvg300 => "avg300"
    case KeyTotal => "total"
  }

  function Hundredths(h: nat): string {
    PrintNat(h / 100) + ("." + [DigitChar(h % 100 / 10), DigitChar(h % 10)])
  }

  function FieldText(f: Field): string {
    match f
    case Avg10(h) => "avg10" + "=" + Hundredths(h)
    case Avg60(h) => "avg60" + "=" + Hundredths(h)
    case Avg300(h) => "avg300" + "=" + Hundredths(h)
    case Total(n) => "total" + "=" + PrintNat(n)
    case Other(text) => text
  }

  ghost predicate IsField(f: Field) {
    && (f.Total? ==> f.n < TWO64)
    && (f.Other? ==>
          && IsWord(f.text)
          && forall k, eq :: FindFirstOf(f.text, "=", 0) == Some(eq) ==> f.text[..eq] != KeyName(k))
  }

  // The value a field gives to its key, and the value a half has for a key.
  function Said(f: Field): real
    requires KeyOf(f).Some?
  {
    match f
    case Avg10(h) => h as real / 100.0
    case Avg60(h) => h as real / 100.0
    case Avg300(h) => h as real / 100.0
    case Total(n) => n as real
  }

  function At(h: Half, k: Key): real {
    match k
    case KeyAvg10 => h.avg10
    case KeyAvg60 => h.avg60
    case KeyAvg300 => h.avg300
    case KeyTotal => h.total as real
  }

  function Put(h: Half, f: Field): Half {
    match f
    case Avg10(n) => h.(avg10 := n as real / 100.0)
    case Avg60(n) => h.(avg60 := n as real / 100.0)
    case Avg300(n) => h.(avg300 := n as real / 100.0)
    case Total(n) => h.(total := n)
    case Other(_) => h
  }

  function PutAll(h: Half, fs: seq<Field>): Half {
    if |fs| == 0 then h else Put(PutAll(h, fs[..|fs| - 1]), fs[|fs| - 1])
  }

  lemma PutSets(h: Half, f: Field, k: Key)
    ensures At(Put(h, f), k) == if KeyOf(f) == Some(k) then Said(f) else At(h, k)
  {
  }

  // i is the last place of fs where k is.
  ghost predicate IsLast(fs: seq<Field>, k: Key, i: nat) {
    i < |fs| && KeyOf(fs[i]) == Some(k) && forall j :: i < j < |fs| ==> KeyOf(fs[j]) != Some(k)
  }

  // However often a key occurs and with whatever values, its last occurrence decides.
  lemma {:induction false} LastFieldWins(h: Half, fs: seq<Field>, k: Key, i: nat)
    requires IsLast(fs, k, i)
    ensures At(PutAll(h, fs), k) == Said(fs[i])
  {
    hide Put, KeyOf, Said, At, IsLast;
    var n := |fs| - 1;
    LastInFront(fs, k, i);
    PutSets(PutAll(h, fs[..n]), fs[n], k);
    if i < n { LastFieldWins(h, fs[..n], k, i); }
  }

  // A key that does not occur keeps the value it had.
  lemma {:induction false} AbsentFieldKeeps(h: Half, fs: seq<Field>, k: Key)
    requires forall i :: 0 <= i < |fs| ==> KeyOf(fs[i]) != Some(k)
    ensures At(PutAll(h, fs), k) == At(h, k)
  {
    if |fs| > 0 {
      hide Put, KeyOf, Said, At;
      AbsentFieldKeeps(h, fs[..|fs| - 1], k);
      PutSets(PutAll(h, fs[..|fs| - 1]), fs[|fs| - 1], k);
    }
  }

  lemma LastInFront(fs: seq<Field>, k: Key, i: nat)
    requires IsLast(fs, k, i)
    ensures i < |fs| && KeyOf(fs[i]) == Some(k)
    ensures i == |fs| - 1 || (KeyOf(fs[|fs| - 1]) != Some(k) && IsLast(fs[..|fs| - 1], k, i))
  {
    hide KeyOf;
  }

  lemma {:induction false} PutAllConcat(h: Half, x: seq<Field>, y: seq<Field>)
    ensures PutAll(h, x + y) == PutAll(PutAll(h, x), y)
  {
    if |y| == 0 {
      assert x + y == x;
    } else {
      var n := |y| - 1;
      assert (x + y)[..|x + y| - 1] == x + y[..n];
      PutAllConcat(h, x, y[..n]);
    }
  }

  // ----- one number

  // Digits, a point, digits, and anything that does not go on with a digit.
  lemma MagnitudeReads(i: string, f: string, tail: string)
    requires AllDigits(i) && AllDigits(f) && |i| + |f| > 0 && (|tail| > 0 ==> !IsDigit(tail[0]))
    ensures Magnitude(i + ("." + (f + tail))) == Some(Scaled(Mantissa(i, f), Exponent(tail)))
  {
    hide Mantissa, LeadingDigits, Scaled, Exponent;
    var rest := "." + (f + tail);
    var s := i + rest;
    LeadingStops(i, rest);
    LeadingPrefix(f, tail);
    assert s[|i|..] == rest && rest[1..] == f + tail;
    assert s[..|i|] == i && s[|i| + 1 + |f|..] == tail;
  }

  lemma SignedReads(space: string, sign: string, u: string, x: real)
    requires Blank(space) && IsSign(sign) && |u| > 0 && (IsDigit(u[0]) || u[0] == '.') && Magnitude(u) == Some(x)
    ensures StoD(space + (sign + u)) == Success(if sign == "-" then -x else x)
  {
    hide Magnitude, SkipSpace;
    var t := sign + u;
    SkipsBlank(space, t);
    if sign == "" { assert t == u && t[0..] == u; } else { assert t[1..] == u; }
  }

  // The number in front of any text: its sign, its digits before and behind the point, its power of
  // ten.
  lemma StoDReads(space: string, sign: string, i: string, f: string, tail: string)
    requires Blank(space) && IsSign(sign)
    requires AllDigits(i) && AllDigits(f) && |i| + |f| > 0 && (|tail| > 0 ==> !IsDigit(tail[0]))
    ensures var x := Mantissa(i, f);
            var e := Exponent(tail);
            var y := if e >= 0 then x * Pow10(e) as real else x / Pow10(-e) as real;
            var r := StoD(space + (sign + (i + ("." + (f + tail)))));
            r.Success? && r.value == if sign == "-" then -y else y
  {
    hide Magnitude, StoD, Exponent, Value, Pow10, Scaled, Mantissa;
    var u := i + ("." + (f + tail));
    MagnitudeReads(i, f, tail);
    assert u[0] == (if |i| > 0 then i[0] else '.');
    SignedReads(space, sign, u, Scaled(Mantissa(i, f), Exponent(tail)));
    ScaledIs(Mantissa(i, f), Exponent(tail));
  }

  lemma ScaledIs(x: real, e: int)
    ensures Scaled(x, e) == if e >= 0 then x * Pow10(e) as real else x / Pow10(-e) as real
  {
  }

  lemma ExponentReads(e: string, sign: string, d: string, rest: string)
    requires |e| == 1 && (e[0] == 'e' || e[0] == 'E')
    requires IsSign(sign) && AllDigits(d) && |d| > 0 && (|rest| > 0 ==> !IsDigit(rest[0]))
    ensures Exponent(e + (sign + (d + rest))) == if sign == "-" then -(Value(d) as int) else Value(d)
  {
    hide SignedDigits, Value;
    SignedDigitsRead(sign, d, rest);
    assert (e + (sign + (d + rest)))[1..] == sign + (d + rest);
  }

  lemma SignedDigitsRead(sign: string, d: string, rest: string)
    requires IsSign(sign) && AllDigits(d) && |d| > 0 && (|rest| > 0 ==> !IsDigit(rest[0]))
    ensures SignedDigits(sign + (d + rest)) == if sign == "-" then -(Value(d) as int) else Value(d)
  {
    hide Value, LeadingDigits, SignLength, AllDigits;
    LeadingPrefix(d, rest);
    SignPrefix(sign, d, rest);
    assert (sign + (d + rest))[|sign|..] == d + rest;
  }

  lemma SignPrefix(sign: string, d: string, rest: string)
    requires IsSign(sign) && AllDigits(d) && |d| > 0
    ensures var s := sign + (d + rest);
            SignLength(s) == |sign| && |s| > 0 && (s[0] == '-' <==> sign == "-")
  {
    var u := d + rest;
    assert u[0] == d[0] && IsDigit(u[0]);
    if sign == "" { assert sign + u == u; }
  }

  lemma NoExponent(tail: string)
    requires |tail| > 0 ==> tail[0] != 'e' && tail[0] != 'E'
    ensures Exponent(tail) == 0
  {
  }

  lemma ScaledByOne(x: real)
    ensures Scaled(x, 0) == x
  {
  }

  // Without sign, exponent or anything behind.
  lemma DecimalReads(i: string, f: string)
    requires AllDigits(i) && AllDigits(f) && |i| > 0
    ensures StoD(i + ("." + f)) == Success(Mantissa(i, f))
  {
    hide Mantissa, Magnitude, StoD;
    MagnitudeReads(i, f, "");
    assert f + "" == f && "" + (i + ("." + f)) == i + ("." + f);
    ScaledByOne(Mantissa(i, f));
    SignedReads("", "", i + ("." + f), Mantissa(i, f));
  }

  lemma HundredthsReads(h: nat)
    ensures StoD(Hundredths(h)) == Success(h as real / 100.0)
  {
    hide StoD, PrintNat, Pow10, Value, AllDigits;
    var tens, ones := h % 100 / 10, h % 10;
    var f := [DigitChar(tens), DigitChar(ones)];
    TwoDigits(tens, ones);
    DecimalReads(PrintNat(h / 100), f);
    ValuePrint(h / 100);
    TwoPlaces();
    SplitHundredths(h, h / 100, 10 * tens + ones);
  }

  lemma SplitHundredths(h: nat, whole: nat, rest: nat)
    requires h == 100 * whole + rest
    ensures whole as real + rest as real / 100.0 == h as real / 100.0
  {
  }

  lemma TwoPlaces()
    ensures Pow10(2) == 100
  {
    assert Pow10(0) == 1 && Pow10(1) == 10;
  }

  lemma TwoDigits(tens: nat, ones: nat)
    requires tens < 10 && ones < 10
    ensures var f := [DigitChar(tens), DigitChar(ones)];
            AllDigits(f) && Value(f) == 10 * tens + ones
  {
    var f := [DigitChar(tens), DigitChar(ones)];
    assert f[..1] == [DigitChar(tens)] && f[..1][..0] == "";
    assert Value(f[..1]) == tens;
  }

  // ----- one field

  lemma SplitAtEquals(key: string, val: string)
    requires '=' !in key
    ensures var token := key + "=" + val;
            FindFirstOf(token, "=", 0) == Some(|key|) && token[..|key|] == key && token[|key| + 1..] == val
  {
    var token := key + "=" + val;
    assert token[|key|] == '=';
    assert forall i :: 0 <= i < |key| ==> token[i] == key[i];
  }

  lemma FieldReads(h: Half, f: Field)
    requires IsField(f)
    ensures Token(h, FieldText(f)) == Success(Put(h, f))
  {
    hide Token, FieldText, IsWord;
    match f
    case Avg10(_) => AverageReads(h, f);
    case Avg60(_) => AverageReads(h, f);
    case Avg300(_) => AverageReads(h, f);
    case Total(n) => TotalReads(h, n);
    case Other(text) =>
      OtherReads(h, text);
      OtherText(text);
  }

  lemma AverageReads(h: Half, f: Field)
    requires f.Avg10? || f.Avg60? || f.Avg300?
    ensures Token(h, FieldText(f)) == Success(Put(h, f))
  {
    hide StoD, StoULL, Hundredths, PrintNat, FindFirstOf;
    HundredthsReads(f.h);
    SplitAtEquals(if f.Avg10? then "avg10" else if f.Avg60? then "avg60" else "avg300", Hundredths(f.h));
  }

  lemma TotalReads(h: Half, n: nat)
    requires n < TWO64
    ensures Token(h, FieldText(Total(n))) == Success(Put(h, Total(n)))
  {
    hide StoD, StoULL, Hundredths, PrintNat, FindFirstOf;
    SplitAtEquals("total", PrintNat(n));
    StoULLPrint(n);
  }

  lemma OtherText(text: string)
    ensures FieldText(Other(text)) == text
  {
  }

  lemma OtherReads(h: Half, text: string)
    requires IsField(Other(text))
    ensures Token(h, text) == Success(h)
  {
    hide StoD, StoULL, FindFirstOf, IsWord;
    assert KeyName(KeyAvg10) == "avg10" && KeyName(KeyAvg60) == "avg60";
    assert KeyName(KeyAvg300) == "avg300" && KeyName(KeyTotal) == "total";
  }

  ghost predicate AreFields(fs: seq<Field>) {
    forall i :: 0 <= i < |fs| ==> IsField(fs[i])
  }

  function Texts(fs: seq<Field>): (ts: seq<string>)
    ensures |ts| == |fs| && forall i :: 0 <= i < |fs| ==> ts[i] == FieldText(fs[i])
  {
    seq(|fs|, i requires 0 <= i < |fs| => FieldText(fs[i]))
  }

  lemma {:induction false} FieldsRead(h: Half, fs: seq<Field>)
    requires AreFields(fs)
    ensures Tokens(h, Texts(fs)) == Success(PutAll(h, fs))
  {
    if |fs| > 0 {
      hide Token, FieldText, IsField, Put;
      var n := |fs| - 1;
      FieldsRead(h, fs[..n]);
      assert Texts(fs)[..n] == Texts(fs[..n]);
      FieldReads(PutAll(h, fs[..n]), fs[n]);
    }
  }

  // ----- splitting what was printed

  predicate IsWord(w: string) {
    |w| > 0 && forall i :: 0 <= i < |w| ==> !IsSpace(w[i])
  }

  lemma {:induction false} WordEndsAt(w: string, rest: string)
    requires (forall i :: 0 <= i < |w| ==> !IsSpace(w[i])) && (|rest| > 0 ==> IsSpace(rest[0]))
    ensures WordEnd(w + rest) == |w|
  {
    if |w| == 0 {
      assert w + rest == rest;
    } else {
      assert (w + rest)[1..] == w[1..] + rest;
      WordEndsAt(w[1..], rest);
    }
  }

  lemma FirstWord(w: string, rest: string)
    requires IsWord(w) && (|rest| > 0 ==> IsSpace(rest[0]))
    ensures Words(w + rest) == [w] + Words(rest)
  {
    var s := w + rest;
    WordEndsAt(w, rest);
    assert !IsSpace(s[0]) && SkipSpace(s) == s;
    assert s[..|w|] == w && s[|w|..] == rest;
  }

  function Spaced(ts: seq<string>): string {
    if |ts| == 0 then "" else " " + ts[0] + Spaced(ts[1..])
  }

  lemma {:induction false} WordsSpaced(ts: seq<string>)
    requires forall t :: t in ts ==> IsWord(t)
    ensures Words(Spaced(ts)) == ts
  {
    if |ts| > 0 {
      var rest := Spaced(ts[1..]);
      WordsSpaced(ts[1..]);
      FirstWord(ts[0], rest);
      SpaceFirst(ts[0] + rest);
      assert Spaced(ts) == " " + (ts[0] + rest);
      assert ts == [ts[0]] + ts[1..];
    }
  }

  // Words behind gaps of any white space, and white space behind the last.
  function Gapped(ts: seq<string>, gaps: seq<string>, end: string): string
    requires |gaps| == |ts|
  {
    if |ts| == 0 then end else gaps[0] + (ts[0] + Gapped(ts[1..], gaps[1..], end))
  }

  lemma {:induction false} WordsGapped(ts: seq<string>, gaps: seq<string>, end: string)
    requires |gaps| == |ts| && Blank(end)
    requires forall i :: 0 <= i < |ts| ==> IsWord(ts[i]) && Blank(gaps[i]) && |gaps[i]| > 0
    ensures Words(Gapped(ts, gaps, end)) == ts
    decreases |ts|
  {
    if |ts| == 0 {
      SkipsBlank(end, "");
      assert end + "" == end;
    } else {
      var rest := Gapped(ts[1..], gaps[1..], end);
      WordsGapped(ts[1..], gaps[1..], end);
      assert |rest| > 0 ==> IsSpace(rest[0]) by { if |ts| > 1 { assert rest[0] == gaps[1][0]; } }
      FirstWord(ts[0], rest);
      SkipsBlank(gaps[0], ts[0] + rest);
      SameWords(gaps[0] + (ts[0] + rest), ts[0] + rest);
      assert ts == [ts[0]] + ts[1..];
    }
  }

  lemma SameWords(s: string, t: string)
    requires SkipSpace(s) == t && SkipSpace(t) == t
    ensures Words(s) == Words(t)
  {
  }

  // The tokens of a line do not depend on the white space between them.
  lemma GappedLine(prefix: string, ts: seq<string>, gaps: seq<string>, end: string)
    requires IsWord(prefix) && |gaps| == |ts| && Blank(end)
    requires forall i :: 0 <= i < |ts| ==> IsWord(ts[i]) && Blank(gaps[i]) && |gaps[i]| > 0
    ensures LineTokens(prefix + Gapped(ts, gaps, end)) == ts
  {
    var rest := Gapped(ts, gaps, end);
    WordsGapped(ts, gaps, end);
    assert |rest| > 0 ==> IsSpace(rest[0]) by { if |ts| > 0 { assert rest[0] == gaps[0][0]; } }
    FirstWord(prefix, rest);
    assert ([prefix] + ts)[1..] == ts;
  }

  lemma SpaceFirst(s: string)
    ensures Words(" " + s) == Words(s)
  {
    assert (" " + s)[1..] == s;
  }

  lemma LineSplits(prefix: string, ts: seq<string>)
    requires IsWord(prefix) && forall t :: t in ts ==> IsWord(t)
    ensures LineTokens(prefix + Spaced(ts)) == ts
  {
    FirstWord(prefix, Spaced(ts));
    WordsSpaced(ts);
    assert ([prefix] + ts)[1..] == ts;
  }

  lemma DigitsAreWord(s: string)
    requires AllDigits(s) && |s| > 0
    ensures IsWord(s)
  {
  }

  lemma HundredthsWord(h: nat)
    ensures IsWord(Hundredths(h))
  {
    DigitsAreWord(PrintNat(h / 100));
  }

  lemma FieldIsWord(f: Field)
    requires IsField(f)
    ensures IsWord(FieldText(f))
  {
    hide Hundredths, PrintNat;
    match f
    case Avg10(n) => HundredthsWord(n);
    case Avg60(n) => HundredthsWord(n);
    case Avg300(n) => HundredthsWord(n);
    case Total(n) => DigitsAreWord(PrintNat(n));
    case Other(_) =>
  }

  // ----- lines

  datatype FileLine = SomeLine(fs: seq<Field>) | FullLine(fs: seq<Field>) | Foreign(text: string)

  ghost predicate IsFileLine(l: FileLine) {
    match l
    case Foreign(text) => '\n' !in text && !("some" <= text) && !("full" <= text)
    case _ => AreFields(l.fs)
  }

  function LineText(l: FileLine): string {
    match l
    case SomeLine(fs) => "some" + Spaced(Texts(fs))
    case FullLine(fs) => "full" + Spaced(Texts(fs))
    case Foreign(text) => text
  }

  function PutLine(d: PsiData, l: FileLine): PsiData {
    match l
    case SomeLine(fs) => WithSome(d, PutAll(SomeHalf(d), fs))
    case FullLine(fs) => WithFull(d, PutAll(FullHalf(d), fs))
    case Foreign(_) => d
  }

  lemma FieldLineReads(prefix: string, h: Half, fs: seq<Field>)
    requires IsWord(prefix) && AreFields(fs)
    ensures var l := prefix + Spaced(Texts(fs));
            Tokens(h, LineTokens(l)) == Success(PutAll(h, fs)) && prefix <= l && '\n' !in l
  {
    hide FieldText, IsField, Words, Tokens;
    forall t | t in Texts(fs) ensures IsWord(t) {
      var i :| 0 <= i < |fs| && Texts(fs)[i] == t;
      FieldIsWord(fs[i]);
    }
    LineSplits(prefix, Texts(fs));
    FieldsRead(h, fs);
    SpacedHasNoNewline(Texts(fs));
    WordHasNoNewline(prefix);
  }

  lemma LineReads(d: PsiData, l: FileLine)
    requires IsFileLine(l)
    ensures Line(d, LineText(l)) == Success(PutLine(d, l)) && '\n' !in LineText(l)
  {
    hide Tokens, LineTokens, Spaced, Texts;
    match l
    case SomeLine(fs) => FieldLineReads("some", SomeHalf(d), fs);
    case FullLine(fs) =>
      FieldLineReads("full", FullHalf(d), fs);
      assert LineText(l)[0] == 'f';
    case Foreign(_) =>
  }

  lemma WordHasNoNewline(w: string)
    requires IsWord(w)
    ensures '\n' !in w
  {
    assert IsSpace('\n');
  }

  lemma {:induction false} SpacedHasNoNewline(ts: seq<string>)
    requires forall t :: t in ts ==> IsWord(t)
    ensures '\n' !in Spaced(ts)
  {
    if |ts| > 0 {
      SpacedHasNoNewline(ts[1..]);
      WordHasNoNewline(ts[0]);
    }
  }

  // ----- a printed file

  function Terminated(ls: seq<string>): string {
    if |ls| == 0 then "" else ls[0] + "\n" + Terminated(ls[1..])
  }

  lemma {:induction false} LinesTerminated(ls: seq<string>)
    requires forall l :: l in ls ==> '\n' !in l
    ensures Lines(Terminated(ls)) == ls
  {
    if |ls| > 0 {
      LinesTerminated(ls[1..]);
      OneLine(ls[0], Terminated(ls[1..]));
      assert ls == [ls[0]] + ls[1..];
    }
  }

  // A last line without its line end is a line too.
  lemma {:induction false} LinesUnterminated(ls: seq<string>, last: string)
    requires (forall l :: l in ls ==> '\n' !in l) && '\n' !in last && |last| > 0
    ensures Lines(Terminated(ls) + last) == ls + [last]
  {
    hide Lines, LineEnd;
    if |ls| > 0 {
      LinesUnterminated(ls[1..], last);
      OneLine(ls[0], Terminated(ls[1..]) + last);
      assert Terminated(ls) + last == ls[0] + "\n" + (Terminated(ls[1..]) + last);
      assert ls + [last] == [ls[0]] + (ls[1..] + [last]);
    } else {
      assert Terminated(ls) + last == last;
      NoLineEnd(last);
    }
  }

  lemma {:induction false} NoLineEnd(l: string)
    requires '\n' !in l
    ensures LineEnd(l) == |l| && (|l| > 0 ==> Lines(l) == [l])
  {
    if |l| > 0 { NoLineEnd(l[1..]); }
    assert l[..|l|] == l;
  }

  lemma OneLine(l: string, rest: string)
    requires '\n' !in l
    ensures Lines(l + "\n" + rest) == [l] + Lines(rest)
  {
    var s := l + "\n" + rest;
    LineEndAt(l, rest);
    LinesStep(s, |l|);
    assert s[..|l|] == l && s[|l| + 1..] == rest;
  }

  lemma {:induction false} LineEndAt(l: string, rest: string)
    requires '\n' !in l
    ensures LineEnd(l + "\n" + rest) == |l|
  {
    if |l| > 0 {
      assert (l + "\n" + rest)[1..] == l[1..] + "\n" + rest;
      LineEndAt(l[1..], rest);
    }
  }

  // ----- a file

  ghost predicate AreLines(ls: seq<FileLine>) {
    forall i :: 0 <= i < |ls| ==> IsFileLine(ls[i])
  }

  function LineTexts(ls: seq<FileLine>): (ts: seq<string>)
    ensures |ts| == |ls| && forall i :: 0 <= i < |ls| ==> ts[i] == LineText(ls[i])
  {
    seq(|ls|, i requires 0 <= i < |ls| => LineText(ls[i]))
  }

  // Everything said about one half, in the order of the lines.
  function SomeFields(ls: seq<FileLine>): seq<Field> {
    if |ls| == 0 then [] else (if ls[0].SomeLine? then ls[0].fs else []) + SomeFields(ls[1..])
  }

  function FullFields(ls: seq<FileLine>): seq<Field> {
    if |ls| == 0 then [] else (if ls[0].FullLine? then ls[0].fs else []) + FullFields(ls[1..])
  }

  lemma {:induction false} LinesRead(d: PsiData, ls: seq<FileLine>)
    requires AreLines(ls)
    ensures AllLines(d, LineTexts(ls)) ==
            Success(WithFull(WithSome(d, PutAll(SomeHalf(d), SomeFields(ls))), PutAll(FullHalf(d), FullFields(ls))))
    decreases |ls|
  {
    if |ls| > 0 {
      hide Line, IsFileLine, LineText, PutAll;
      var g := PutLine(d, ls[0]);
      LineReads(d, ls[0]);
      assert LineTexts(ls)[1..] == LineTexts(ls[1..]);
      LinesRead(g, ls[1..]);
      var fs := if ls[0].Foreign? then [] else ls[0].fs;
      PutAllConcat(SomeHalf(d), fs, SomeFields(ls[1..]));
      PutAllConcat(FullHalf(d), fs, FullFields(ls[1..]));
      assert [] + SomeFields(ls[1..]) == SomeFields(ls[1..]) && [] + FullFields(ls[1..]) == FullFields(ls[1..]);
    }
  }

  // Main result: a file of such lines, in any order and any number, parses to what its fields say,
  // the "some" lines about one half and the "full" lines about the other.
  lemma FileReads(ls: seq<FileLine>)
    requires AreLines(ls)
    ensures AllLines(Zero, Lines(Terminated(LineTexts(ls)))) ==
            Success(WithFull(WithSome(Zero, PutAll(SomeHalf(Zero), SomeFields(ls))), PutAll(FullHalf(Zero), FullFields(ls))))
  {
    hide LineText, PutAll, IsFileLine, AllLines, Lines;
    forall l | l in LineTexts(ls) ensures '\n' !in l {
      var i :| 0 <= i < |ls| && LineTexts(ls)[i] == l;
      LineReads(Zero, ls[i]);
    }
    LinesTerminated(LineTexts(ls));
    LinesRead(Zero, ls);
  }

  // The same for a file whose last line does not end.
  lemma UnterminatedReads(ls: seq<FileLine>, last: FileLine)
    requires AreLines(ls + [last]) && |LineText(last)| > 0
    ensures AllLines(Zero, Lines(Terminated(LineTexts(ls)) + LineText(last))) ==
            AllLines(Zero, Lines(Terminated(LineTexts(ls + [last]))))
  {
    hide LineText, IsFileLine, AllLines, Lines;
    var all := ls + [last];
    forall l | l in LineTexts(all) ensures '\n' !in l {
      var i :| 0 <= i < |all| && LineTexts(all)[i] == l;
      LineReads(Zero, all[i]);
    }
    assert LineTexts(all) == LineTexts(ls) + [LineText(last)];
    assert LineTexts(all)[|ls|] == LineText(last);
    LinesTerminated(LineTexts(all));
    LinesUnterminated(LineTexts(ls), LineText(last));
  }

  // ----- what throws

  // A value of one of the four keys that does not convert: whatever stands before and behind it, the
  // line throws what the conversion throws.
  lemma BadFieldThrows(h: Half, fs: seq<Field>, key: Key, val: string, e: ParseError, rest: seq<string>)
    requires AreFields(fs) && (if key == KeyTotal then StoULL(val) == Failure(e) else StoD(val) == Failure(e))
    ensures Tokens(h, Texts(fs) + [KeyName(key) + "=" + val] + rest) == Failure(e)
  {
    hide StoD, StoULL, Texts, Token;
    var token := KeyName(key) + "=" + val;
    var ts := Texts(fs) + [token];
    FieldsRead(h, fs);
    BadToken(PutAll(h, fs), key, val, e);
    assert ts[..|ts| - 1] == Texts(fs);
    assert (ts + rest)[..|ts|] == ts;
    FailureStays(h, ts + rest, |ts|);
  }

  lemma BadToken(h: Half, key: Key, val: string, e: ParseError)
    requires if key == KeyTotal then StoULL(val) == Failure(e) else StoD(val) == Failure(e)
    ensures Token(h, KeyName(key) + "=" + val) == Failure(e)
  {
    hide StoD, StoULL, FindFirstOf;
    SplitAtEquals(KeyName(key), val);
  }

  // A line that throws ends the parse, whatever stands before and behind it.
  lemma BadLineThrows(ls: seq<FileLine>, bad: string, e: ParseError, rest: seq<string>)
    requires AreLines(ls) && forall d :: Line(d, bad) == Failure(e)
    ensures AllLines(Zero, LineTexts(ls) + [bad] + rest) == Failure(e)
  {
    hide Line, LineTexts, AllLines, PutAll;
    LinesRead(Zero, ls);
    var d := AllLines(Zero, LineTexts(ls)).value;
    AllLinesConcat(Zero, LineTexts(ls), [bad] + rest);
    assert LineTexts(ls) + ([bad] + rest) == LineTexts(ls) + [bad] + rest;
    BadFirst(d, bad, e, rest);
  }

  lemma BadFirst(d: PsiData, bad: string, e: ParseError, rest: seq<string>)
    requires Line(d, bad) == Failure(e)
    ensures AllLines(d, [bad] + rest) == Failure(e)
  {
    hide Line;
  }

  // A text with no digit in front throws invalid_argument.
  lemma StoDNone(space: string, sign: string, rest: string)
    requires Blank(space) && IsSign(sign) && (|rest| > 0 ==> !IsDigit(rest[0]) && !(rest[0] == '.' && |rest| > 1 && IsDigit(rest[1])))
    requires sign != "" || (|rest| > 0 ==> !IsSpace(rest[0]) && rest[0] != '+' && rest[0] != '-')
    ensures StoD(space + (sign + rest)) == Failure(InvalidArgument)
  {
    hide SkipSpace, Magnitude;
    var t := sign + rest;
    SkipsBlank(space, t);
    NoMagnitude(rest);
    if sign == "" { assert t == rest && t[0..] == rest; } else { assert t[1..] == rest; }
  }

  lemma NoMagnitude(s: string)
    requires |s| > 0 ==> !IsDigit(s[0]) && !(s[0] == '.' && |s| > 1 && IsDigit(s[1]))
    ensures Magnitude(s) == None
  {
    hide Scaled, Mantissa, Exponent;
    assert s[0..] == s && LeadingDigits(s) == 0;
    if |s| > 1 { assert s[1..][0] == s[1]; }
  }

  // ----- what the kernel prints

  // One line's values, the averages in hundredths of a per cent.
  datatype Kernel = Kernel(avg10: nat, avg60: nat, avg300: nat, total: nat)

  function HalfOf(k: Kernel): Half {
    Half(k.avg10 as real / 100.0, k.avg60 as real / 100.0, k.avg300 as real / 100.0, k.total)
  }

  // The four fields once each, in any order.
  ghost predicate Prints(fs: seq<Field>, k: Kernel) {
    multiset(fs) == multiset{Avg10(k.avg10), Avg60(k.avg60), Avg300(k.avg300), Total(k.total)}
  }

  lemma PrintedWins(h: Half, fs: seq<Field>, k: Kernel, f: Field)
    requires Prints(fs, k) && f in {Avg10(k.avg10), Avg60(k.avg60), Avg300(k.avg300), Total(k.total)}
    ensures At(PutAll(h, fs), KeyOf(f).value) == Said(f)
  {
    hide PutAll;
    assert f in multiset(fs);
    var i :| 0 <= i < |fs| && fs[i] == f;
    var last := LastPlace(fs, KeyOf(f).value, i);
    assert fs[last] in multiset(fs);
    LastFieldWins(h, fs, KeyOf(f).value, last);
  }

  lemma {:induction false} LastPlace(fs: seq<Field>, k: Key, i: nat) returns (last: nat)
    requires i < |fs| && KeyOf(fs[i]) == Some(k)
    ensures IsLast(fs, k, last)
    decreases |fs| - i
  {
    if j :| i < j < |fs| && KeyOf(fs[j]) == Some(k) {
      last := LastPlace(fs, k, j);
    } else {
      last := i;
    }
  }

  lemma PrintedHalf(h: Half, fs: seq<Field>, k: Kernel)
    requires Prints(fs, k)
    ensures PutAll(h, fs) == HalfOf(k)
  {
    hide PutAll, Prints;
    PrintedWins(h, fs, k, Avg10(k.avg10));
    PrintedWins(h, fs, k, Avg60(k.avg60));
    PrintedWins(h, fs, k, Avg300(k.avg300));
    PrintedWins(h, fs, k, Total(k.total));
    WholeNumbers(PutAll(h, fs).total, k.total);
  }

  lemma WholeNumbers(m: nat, n: nat)
    requires m as real == n as real
    ensures m == n
  {
  }

  // i is the last "some" line, or "full" line.
  ghost predicate IsLastSome(ls: seq<FileLine>, i: nat) {
    i < |ls| && ls[i].SomeLine? && forall j :: i < j < |ls| ==> !ls[j].SomeLine?
  }

  ghost predicate IsLastFull(ls: seq<FileLine>, i: nat) {
    i < |ls| && ls[i].FullLine? && forall j :: i < j < |ls| ==> !ls[j].FullLine?
  }

  lemma {:induction false} LastSome(ls: seq<FileLine>, i: nat) returns (before: seq<Field>)
    requires IsLastSome(ls, i)
    ensures SomeFields(ls) == before + ls[i].fs
  {
    if i == 0 {
      NoSome(ls[1..]);
      before := [];
    } else {
      assert IsLastSome(ls[1..], i - 1);
      before := LastSome(ls[1..], i - 1);
      before := (if ls[0].SomeLine? then ls[0].fs else []) + before;
    }
  }

  lemma {:induction false} NoSome(ls: seq<FileLine>)
    requires forall i :: 0 <= i < |ls| ==> !ls[i].SomeLine?
    ensures SomeFields(ls) == []
  {
    if |ls| > 0 { NoSome(ls[1..]); }
  }

  lemma {:induction false} LastFull(ls: seq<FileLine>, i: nat) returns (before: seq<Field>)
    requires IsLastFull(ls, i)
    ensures FullFields(ls) == before + ls[i].fs
  {
    if i == 0 {
      NoFull(ls[1..]);
      before := [];
    } else {
      assert IsLastFull(ls[1..], i - 1);
      before := LastFull(ls[1..], i - 1);
      before := (if ls[0].FullLine? then ls[0].fs else []) + before;
    }
  }

  lemma {:induction false} NoFull(ls: seq<FileLine>)
    requires forall i :: 0 <= i < |ls| ==> !ls[i].FullLine?
    ensures FullFields(ls) == []
  {
    if |ls| > 0 { NoFull(ls[1..]); }
  }

  // Main result: in a file of lines with any fields, if the last "some" line and the last "full" line
  // are what the kernel prints for two sets of values, parsing gives exactly these, whatever the lines
  // before say.
  lemma KernelRoundTrip(ls: seq<FileLine>, i: nat, some: Kernel, j: nat, full: Kernel)
    requires AreLines(ls) && IsLastSome(ls, i) && IsLastFull(ls, j)
    requires Prints(ls[i].fs, some) && Prints(ls[j].fs, full)
    ensures var r := AllLines(Zero, Lines(Terminated(LineTexts(ls))));
            && r.Success?
            && r.value.someAvg10 == some.avg10 as real / 100.0 && r.value.someAvg60 == some.avg60 as real / 100.0
            && r.value.someAvg300 == some.avg300 as real / 100.0 && r.value.someTotal == some.total
            && r.value.fullAvg10 == full.avg10 as real / 100.0 && r.value.fullAvg60 == full.avg60 as real / 100.0
            && r.value.fullAvg300 == full.avg300 as real / 100.0 && r.value.fullTotal == full.total
  {
    hide AllLines, Lines, Prints, IsFileLine, PutAll;
    FileReads(ls);
    var before := LastSome(ls, i);
    PutAllConcat(SomeHalf(Zero), before, ls[i].fs);
    PrintedHalf(PutAll(SomeHalf(Zero), before), ls[i].fs, some);
    before := LastFull(ls, j);
    PutAllConcat(FullHalf(Zero), before, ls[j].fs);
    PrintedHalf(PutAll(FullHalf(Zero), before), ls[j].fs, full);
  }

  // A half without a line keeps its zeros.
  lemma MissingHalf(ls: seq<FileLine>)
    requires AreLines(ls)
    ensures var r := AllLines(Zero, Lines(Terminated(LineTexts(ls))));
            && r.Success?
            && ((forall i :: 0 <= i < |ls| ==> !ls[i].SomeLine?) ==>
                  r.value.someAvg10 == 0.0 && r.value.someAvg60 == 0.0 && r.value.someAvg300 == 0.0 && r.value.someTotal == 0)
            && ((forall i :: 0 <= i < |ls| ==> !ls[i].FullLine?) ==>
                  r.value.fullAvg10 == 0.0 && r.value.fullAvg60 == 0.0 && r.value.fullAvg300 == 0.0 && r.value.fullTotal == 0)
  {
    hide AllLines, Lines, IsFileLine;
    FileReads(ls);
    if forall i :: 0 <= i < |ls| ==> !ls[i].SomeLine? { NoSome(ls); }
    if forall i :: 0 <= i < |ls| ==> !ls[i].FullLine? { NoFull(ls); }
  }
}
