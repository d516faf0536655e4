// The decoder inverts the printer, whatever text follows the printed object.
module WireRoundTrip {
  import opened Wrappers
  import opened Decimal
  import opened Protocol

  predicate QuoteFree(s: string) { '\"' !in s }

  // The first occurrence of "key" is at n, and tail is what follows it.
  ghost predicate Field(s: string, key: string, n: nat, tail: string) {
    && At(s, Quoted(key), n)
    && (forall i: nat :: i < n ==> !At(s, Quoted(key), i))
    && s[n + |key| + 2..] == tail
  }

  lemma StartsWithQuote(s: string, key: string, i: nat)
    requires i < |s|
    ensures At(s, Quoted(key), i) ==> s[i] == '\"'
  {
    if At(s, Quoted(key), i) { assert s[i] == s[i..i + |key| + 2][0]; }
  }

  // A word free of the delimiters ends at the first of them.
  lemma WordEnds(s: string, p: nat, word: string, chars: string)
    requires p + |word| < |s| && s[p..p + |word|] == word && s[p + |word|] in chars
    requires forall c :: c in word ==> c !in chars
    ensures FindFirstOf(s, chars, p) == Some(p + |word|)
  {
    assert forall j :: p <= j < p + |word| ==> s[j] == s[p..p + |word|][j - p];
  }

  lemma AtShift(s: string, b: string, k: nat, pat: string, i: nat)
    requires k <= i && k <= |s| && s[k..] == b
    ensures At(s, pat, i) <==> At(b, pat, i - k)
  {
    if i + |pat| <= |s| {
      assert forall j :: i <= j < i + |pat| ==> s[j] == b[j - k];
      assert s[i..i + |pat|] == b[i - k..i - k + |pat|];
    }
  }

  lemma FieldHere(pre: string, key: string, tail: string)
    requires QuoteFree(pre)
    ensures Field(pre + (Quoted(key) + tail), key, |pre|, tail)
  {
    var s := pre + (Quoted(key) + tail);
    assert Quoted(key)[0] == '\"';
    assert s[|pre|..|pre| + |key| + 2] == Quoted(key);
    forall i: nat | i < |pre| ensures !At(s, Quoted(key), i) {
      StartsWithQuote(s, key, i);
    }
  }

  lemma QuotePlaces(pre: string, w: string, b: string, i: nat)
    requires QuoteFree(pre) && QuoteFree(w) && i < |pre| + |w| + 2
    ensures (pre + (Quoted(w) + b))[i] == '\"' ==> i == |pre| || i == |pre| + |w| + 1
  {
  }

  lemma FirstQuoteMatches(w: string, b: string, key: string)
    requires QuoteFree(w) && QuoteFree(key) && At(Quoted(w) + b, Quoted(key), 0)
    ensures key == w
  {
    var s := Quoted(w) + b;
    assert s[1..1 + |w|] == w && s[1 + |w|] == '\"';
    var m := s[0..|key| + 2];
    assert s[1 + |key|] == m[1 + |key|] && s[1..1 + |key|] == m[1..1 + |key|] == key;
    WordEnds(s, 1, w, "\"");
    WordEnds(s, 1, key, "\"");
  }

  lemma SecondQuoteMatches(w: string, b: string, key: string)
    requires |b| > 0 && |key| > 0 && At(Quoted(w) + b, Quoted(key), |w| + 1)
    ensures b[0] == key[0]
  {
    var s := Quoted(w) + b;
    assert s[|w| + 2] == s[|w| + 1..|w| + 1 + |key| + 2][1];
  }

  // A match that starts inside or just after a quoted word is that word, or is made by its
  // second quote and the text behind it.
  lemma MatchInWord(pre: string, w: string, b: string, key: string, i: nat)
    requires QuoteFree(pre) && QuoteFree(w) && QuoteFree(key) && |key| > 0 && |b| > 0
    requires i < |pre| + |w| + 2 && At(pre + (Quoted(w) + b), Quoted(key), i)
    ensures key == w || b[0] == key[0]
  {
    hide Quoted, At;
    var s := pre + (Quoted(w) + b);
    QuotedLength(w);
    StartsWithQuote(s, key, i);
    QuotePlaces(pre, w, b, i);
    AtShift(s, Quoted(w) + b, |pre|, Quoted(key), i);
    if i == |pre| { FirstQuoteMatches(w, b, key); } else { SecondQuoteMatches(w, b, key); }
  }

  lemma QuotedLength(w: string)
    ensures |Quoted(w)| == |w| + 2
  {
  }

  lemma FieldLater(pre: string, w: string, b: string, key: string, n: nat, tail: string)
    requires QuoteFree(pre) && QuoteFree(w) && QuoteFree(key) && key != w
    requires |key| > 0 && |b| > 0 && b[0] != key[0]
    requires Field(b, key, n, tail)
    ensures Field(pre + (Quoted(w) + b), key, |pre| + |w| + 2 + n, tail)
  {
    hide At, Quoted;
    QuotedLength(w);
    QuotedLength(key);
    var k := |pre| + |w| + 2;
    var s := pre + (Quoted(w) + b);
    assert s[k..] == b;
    AtShift(s, b, k, Quoted(key), k + n);
    AtFits(b, Quoted(key), n);
    DropMore(s, b, k, n + |key| + 2);
    forall i: nat | i < k + n ensures !At(s, Quoted(key), i) {
      if i >= k {
        AtShift(s, b, k, Quoted(key), i);
      } else if At(s, Quoted(key), i) {
        MatchInWord(pre, w, b, key, i);
      }
    }
  }

  lemma AtFits(s: string, pat: string, i: nat)
    requires At(s, pat, i)
    ensures i + |pat| <= |s|
  {
  }

  lemma DropMore(s: string, b: string, k: nat, n: nat)
    requires k <= |s| && s[k..] == b && n <= |b|
    ensures s[k + n..] == b[n..]
  {
  }

  // ----- reading a value

  predicate Numeric(s: string) {
    |s| > 0 && forall i :: 0 <= i < |s| ==> s[i] == '-' || IsDigit(s[i])
  }

  // Where the first colon after the key is.
  lemma ColonAfter(s: string, key: string, n: nat, tail: string)
    requires Field(s, key, n, tail) && ':' !in key && |tail| > 0 && tail[0] == ':'
    ensures Find(s, Quoted(key), 0) == Some(n)
    ensures Find(s, ":", n) == Some(n + |key| + 2)
  {
    var c := n + |key| + 2;
    assert s[c] == ':';
    assert At(s, ":", c);
    forall i: nat | n <= i < c ensures !At(s, ":", i) {
      assert s[i] == Quoted(key)[i - n] by { assert s[n..n + |key| + 2][i - n] == s[i]; }
    }
  }

  lemma CharAt(s: string, c: nat, tail: string, i: nat)
    requires c <= |s| && s[c..] == tail && i < |tail|
    ensures s[c + i] == tail[i]
  {
  }

  lemma SliceAt(s: string, c: nat, tail: string, i: nat, word: string)
    requires c <= |s| && s[c..] == tail && i + |word| <= |tail| && tail[i..i + |word|] == word
    ensures s[c + i..c + i + |word|] == word
  {
    assert s[c + i..c + i + |word|] == s[c..][i..i + |word|];
  }

  lemma NotBlank(s: string, i: nat)
    requires i < |s| && s[i] !in " \t\""
    ensures FindFirstNotOf(s, " \t\"", i) == Some(i)
  {
  }

  lemma BlankQuote(s: string, i: nat)
    requires i + 1 < |s| && s[i] == '\"' && s[i + 1] !in " \t\""
    ensures FindFirstNotOf(s, " \t\"", i) == Some(i + 1)
  {
    var blanks := " \t\"";
    assert blanks[2] == s[i];
    NotBlank(s, i + 1);
  }

  lemma NumericChars(num: string)
    requires Numeric(num)
    ensures |num| > 0 && num[0] !in " \t\"" && forall c :: c in num ==> c !in ",}"
  {
  }

  lemma QuoteEnds(s: string, p: nat, word: string)
    requires QuoteFree(word) && p + |word| < |s| && s[p..p + |word|] == word && s[p + |word|] == '\"'
    ensures Find(s, "\"", p) == Some(p + |word|)
  {
    var e := p + |word|;
    assert s[e..e + 1] == "\"" && At(s, "\"", e);
    var r := Find(s, "\"", p).value;
    assert s[r] == s[r..r + 1][0];
  }

  lemma NumberField(s: string, key: string, n: nat, num: string, rest: string)
    requires Field(s, key, n, ":" + num + rest) && ':' !in key
    requires Numeric(num) && |rest| > 0 && rest[0] in ",}"
    ensures ExtractString(s, key) == num
  {
    hide Find, FindFirstOf, FindFirstNotOf;
    var tail := ":" + num + rest;
    var c := n + |key| + 2;
    ColonAfter(s, key, n, tail);
    NumberAt(s, c, num, rest);
  }

  // Reading from the colon at c: the first character that is no blank starts the number, and it
  // does not follow a quote.
  lemma NumberAt(s: string, c: nat, num: string, rest: string)
    requires c <= |s| && s[c..] == ":" + num + rest
    requires Numeric(num) && |rest| > 0 && rest[0] in ",}"
    ensures |s| > c + 1 + |num| && s[c] == ':'
    ensures FindFirstNotOf(s, " \t\"", c + 1) == Some(c + 1)
    ensures FindFirstOf(s, ",}", c + 1) == Some(c + 1 + |num|)
    ensures s[c + 1..c + 1 + |num|] == num
  {
    hide Find, FindFirstOf, FindFirstNotOf, Numeric;
    NumericChars(num);
    var tail := ":" + num + rest;
    CharAt(s, c, tail, 0);
    CharAt(s, c, tail, 1);
    NotBlank(s, c + 1);
    NumberEnds(s, c, num, rest);
  }

  lemma NumberEnds(s: string, c: nat, num: string, rest: string)
    requires c <= |s| && s[c..] == ":" + num + rest
    requires Numeric(num) && |rest| > 0 && rest[0] in ",}"
    ensures |s| > c + 1 + |num|
    ensures FindFirstOf(s, ",}", c + 1) == Some(c + 1 + |num|)
    ensures s[c + 1..c + 1 + |num|] == num
  {
    hide Find, FindFirstOf, FindFirstNotOf, Numeric;
    NumericChars(num);
    var tail := ":" + num + rest;
    assert tail[1..1 + |num|] == num;
    SliceAt(s, c, tail, 1, num);
    CharAt(s, c, tail, 1 + |num|);
    WordEnds(s, c + 1, num, ",}");
  }

  lemma WordField(s: string, key: string, n: nat, word: string, rest: string)
    requires Field(s, key, n, ":" + Quoted(word) + rest) && ':' !in key
    requires QuoteFree(word) && |word| > 0 && word[0] != ' ' && word[0] != '\t'
    ensures ExtractString(s, key) == word
  {
    hide Find, FindFirstOf, FindFirstNotOf;
    var tail := ":" + Quoted(word) + rest;
    var c := n + |key| + 2;
    ColonAfter(s, key, n, tail);
    WordAt(s, c, word, rest);
  }

  lemma WordAt(s: string, c: nat, word: string, rest: string)
    requires c <= |s| && s[c..] == ":" + Quoted(word) + rest
    requires QuoteFree(word) && |word| > 0 && word[0] != ' ' && word[0] != '\t'
    ensures |s| > c + 2 + |word| && s[c + 1] == '\"'
    ensures FindFirstNotOf(s, " \t\"", c + 1) == Some(c + 2)
    ensures Find(s, "\"", c + 2) == Some(c + 2 + |word|)
    ensures s[c + 2..c + 2 + |word|] == word
  {
    hide Find, FindFirstOf, FindFirstNotOf;
    var tail := ":" + Quoted(word) + rest;
    CharAt(s, c, tail, 1);
    CharAt(s, c, tail, 2);
    BlankQuote(s, c + 1);
    assert tail[2..2 + |word|] == word;
    SliceAt(s, c, tail, 2, word);
    CharAt(s, c, tail, 2 + |word|);
    QuoteEnds(s, c + 2, word);
  }

  // ----- the printed object, split at its keys

  function AfterTier(m: Message, rest: string): string {
    ":" + PrintInt(m.tier) + ("}" + rest)
  }

  function AfterCurrent(m: Message, rest: string): string {
    ":" + PrintNat(m.currentSizeBytes) + ("," + (Quoted("tier") + AfterTier(m, rest)))
  }

  function AfterTarget(m: Message, rest: string): string {
    ":" + PrintNat(m.targetBytes) + ("," + (Quoted("current_size_bytes") + AfterCurrent(m, rest)))
  }

  function AfterPid(m: Message, rest: string): string {
    ":" + PrintInt(m.pid) + ("," + (Quoted("target_bytes") + AfterTarget(m, rest)))
  }

  function AfterType(m: Message, rest: string): string {
    ":" + Quoted(TypeToString(m.kind)) + ("," + (Quoted("pid") + AfterPid(m, rest)))
  }

  lemma KeyPart(open: string, key: string, val: string, tail: string)
    requires open == Quoted(key) + ":"
    ensures (open + val) + tail == Quoted(key) + (":" + val + tail)
  {
  }

  lemma CommaPart(open: string, key: string, val: string, tail: string)
    requires open == Quoted(key) + ":"
    ensures (open + val + ",") + tail == Quoted(key) + (":" + val + ("," + tail))
  {
    KeyPart(open, key, val, "," + tail);
    assert (open + val + ",") + tail == (open + val) + ("," + tail);
  }

  lemma TypePartSplits(m: Message, tail: string)
    ensures TypePart(m) + tail == Quoted("type") + (":" + Quoted(TypeToString(m.kind)) + ("," + tail))
  {
    var t := TypeToString(m.kind);
    assert "\"type\":\"" + t + "\"," == "\"type\":" + Quoted(t) + ",";
    CommaPart("\"type\":", "type", Quoted(t), tail);
  }

  lemma SevenParts(a: string, b: string, c: string, d: string, e: string, f: string, g: string, rest: string)
    ensures (a + b + c + d + e + f + g) + rest == a + (b + (c + (d + (e + (f + (g + rest))))))
  {
  }

  lemma TierSplits(m: Message, rest: string)
    ensures TierPart(m) + ("}" + rest) == Quoted("tier") + AfterTier(m, rest)
  {
    hide PrintInt;
    KeyPart("\"tier\":", "tier", PrintInt(m.tier), "}" + rest);
  }

  lemma CurrentSplits(m: Message, rest: string)
    ensures CurrentPart(m) + (Quoted("tier") + AfterTier(m, rest)) == Quoted("current_size_bytes") + AfterCurrent(m, rest)
  {
    hide PrintNat, AfterTier;
    CommaPart("\"current_size_bytes\":", "current_size_bytes", PrintNat(m.currentSizeBytes), Quoted("tier") + AfterTier(m, rest));
  }

  lemma TargetSplits(m: Message, rest: string)
    ensures TargetPart(m) + (Quoted("current_size_bytes") + AfterCurrent(m, rest)) == Quoted("target_bytes") + AfterTarget(m, rest)
  {
    hide PrintNat, AfterCurrent;
    CommaPart("\"target_bytes\":", "target_bytes", PrintNat(m.targetBytes), Quoted("current_size_bytes") + AfterCurrent(m, rest));
  }

  lemma PidSplits(m: Message, rest: string)
    ensures PidPart(m) + (Quoted("target_bytes") + AfterTarget(m, rest)) == Quoted("pid") + AfterPid(m, rest)
  {
    hide PrintInt, AfterTarget;
    CommaPart("\"pid\":", "pid", PrintInt(m.pid), Quoted("target_bytes") + AfterTarget(m, rest));
  }

  lemma TextSplits(m: Message, rest: string)
    ensures Text(m) + rest == "{" + (Quoted("type") + AfterType(m, rest))
  {
    hide TypePart, PidPart, TargetPart, CurrentPart, TierPart, Quoted, AfterPid, AfterTarget, AfterCurrent, AfterTier;
    SevenParts("{", TypePart(m), PidPart(m), TargetPart(m), CurrentPart(m), TierPart(m), "}", rest);
    TierSplits(m, rest);
    CurrentSplits(m, rest);
    TargetSplits(m, rest);
    PidSplits(m, rest);
    TypePartSplits(m, Quoted("pid") + AfterPid(m, rest));
  }

  // ----- the five fields

  lemma PrintIsNumeric(i: int)
    ensures Numeric(PrintInt(i)) && QuoteFree(PrintInt(i))
  {
  }

  lemma NumberPrefix(num: string)
    requires Numeric(num)
    ensures QuoteFree(":" + num + ",")
  {
  }

  lemma TypeIsWord(t: MessageType)
    ensures var w := TypeToString(t);
            && QuoteFree(w) && |w| > 0 && 'A' <= w[0] <= 'Z'
            && StringToType(w) == t
  {
  }

  // Where each key is found first, reading the object from its end.
  lemma TierField(m: Message, rest: string) returns (n: nat)
    ensures Field(Text(m) + rest, "tier", n, AfterTier(m, rest))
  {
    hide PrintInt, PrintNat, Field, Text;
    PrefixesQuoteFree(m);
    var c4 := ":" + PrintNat(m.currentSizeBytes) + ",";
    FieldHere(c4, "tier", AfterTier(m, rest));
    Regroup(":" + PrintNat(m.currentSizeBytes), Quoted("tier") + AfterTier(m, rest));
    n := FromCurrent(m, rest, "tier", |c4|, AfterTier(m, rest));
  }

  lemma Regroup(a: string, b: string)
    ensures a + ("," + b) == (a + ",") + b
  {
  }

  lemma PrefixesQuoteFree(m: Message)
    ensures QuoteFree(":" + PrintInt(m.pid) + ",")
    ensures QuoteFree(":" + PrintNat(m.targetBytes) + ",")
    ensures QuoteFree(":" + PrintNat(m.currentSizeBytes) + ",")
  {
    PrintIsNumeric(m.pid);
    PrintIsNumeric(m.targetBytes);
    PrintIsNumeric(m.currentSizeBytes);
    NumberPrefix(PrintInt(m.pid));
    NumberPrefix(PrintNat(m.targetBytes));
    NumberPrefix(PrintNat(m.currentSizeBytes));
  }

  // A key searched for behind "current_size_bytes" is found there from the start of the object.
  lemma FromCurrent(m: Message, rest: string, key: string, n: nat, tail: string) returns (k: nat)
    requires Field(AfterCurrent(m, rest), key, n, tail)
    requires QuoteFree(key) && |key| > 0 && key[0] != ':' && key[0] != ',' && !('A' <= key[0] <= 'Z')
    requires key !in {"type", "pid", "target_bytes", "current_size_bytes"}
    ensures Field(Text(m) + rest, key, k, tail)
  {
    hide PrintInt, PrintNat, Field, Text, AfterCurrent;
    PrefixesQuoteFree(m);
    var c := ":" + PrintNat(m.targetBytes) + ",";
    AfterStartsWithColon(m, rest);
    FieldLater(c, "current_size_bytes", AfterCurrent(m, rest), key, n, tail);
    Regroup(":" + PrintNat(m.targetBytes), Quoted("current_size_bytes") + AfterCurrent(m, rest));
    k := FromTarget(m, rest, key, |c| + 20 + n, tail);
  }

  lemma FromTarget(m: Message, rest: string, key: string, n: nat, tail: string) returns (k: nat)
    requires Field(AfterTarget(m, rest), key, n, tail)
    requires QuoteFree(key) && |key| > 0 && key[0] != ':' && key[0] != ',' && !('A' <= key[0] <= 'Z')
    requires key !in {"type", "pid", "target_bytes"}
    ensures Field(Text(m) + rest, key, k, tail)
  {
    hide PrintInt, PrintNat, Field, Text, AfterTarget;
    PrefixesQuoteFree(m);
    var c := ":" + PrintInt(m.pid) + ",";
    AfterStartsWithColon(m, rest);
    FieldLater(c, "target_bytes", AfterTarget(m, rest), key, n, tail);
    Regroup(":" + PrintInt(m.pid), Quoted("target_bytes") + AfterTarget(m, rest));
    k := FromPid(m, rest, key, |c| + 14 + n, tail);
  }

  lemma FromPid(m: Message, rest: string, key: string, n: nat, tail: string) returns (k: nat)
    requires Field(AfterPid(m, rest), key, n, tail)
    requires QuoteFree(key) && |key| > 0 && key[0] != ':' && key[0] != ',' && !('A' <= key[0] <= 'Z')
    requires key !in {"type", "pid"}
    ensures Field(Text(m) + rest, key, k, tail)
  {
    hide PrintInt, PrintNat, Field, Text, AfterPid, TypeToString;
    AfterStartsWithColon(m, rest);
    FieldLater(",", "pid", AfterPid(m, rest), key, n, tail);
    k := FromType(m, rest, key, 6 + n, tail);
  }

  lemma FromType(m: Message, rest: string, key: string, n: nat, tail: string) returns (k: nat)
    requires Field("," + (Quoted("pid") + AfterPid(m, rest)), key, n, tail)
    requires QuoteFree(key) && |key| > 0 && key[0] != ':' && key[0] != ',' && !('A' <= key[0] <= 'Z')
    requires key != "type"
    ensures Field(Text(m) + rest, key, k, tail)
  {
    hide PrintInt, PrintNat, Field, Text, AfterPid, TypeToString;
    var b := "," + (Quoted("pid") + AfterPid(m, rest));
    var w := TypeToString(m.kind);
    TypeIsWord(m.kind);
    FieldLater(":", w, b, key, n, tail);
    assert AfterType(m, rest) == ":" + (Quoted(w) + b);
    k := 1 + |w| + 2 + n;
    FieldLater("{", "type", AfterType(m, rest), key, k, tail);
    k := k + 7;
    TextSplits(m, rest);
  }

  lemma AfterStartsWithColon(m: Message, rest: string)
    ensures |AfterCurrent(m, rest)| > 0 && AfterCurrent(m, rest)[0] == ':'
    ensures |AfterTarget(m, rest)| > 0 && AfterTarget(m, rest)[0] == ':'
    ensures |AfterPid(m, rest)| > 0 && AfterPid(m, rest)[0] == ':'
  {
  }

  lemma TierText(m: Message, rest: string)
    ensures ExtractString(Text(m) + rest, "tier") == PrintInt(m.tier)
  {
    hide PrintInt, Field, Text, ExtractString, Numeric;
    var n := TierField(m, rest);
    PrintIsNumeric(m.tier);
    NumberField(Text(m) + rest, "tier", n, PrintInt(m.tier), "}" + rest);
  }

  lemma CurrentText(m: Message, rest: string)
    ensures ExtractString(Text(m) + rest, "current_size_bytes") == PrintNat(m.currentSizeBytes)
  {
    hide PrintInt, PrintNat, Field, Text, ExtractString, Numeric, AfterCurrent;
    PrefixesQuoteFree(m);
    var key := "current_size_bytes";
    var c := ":" + PrintNat(m.targetBytes) + ",";
    FieldHere(c, key, AfterCurrent(m, rest));
    Regroup(":" + PrintNat(m.targetBytes), Quoted(key) + AfterCurrent(m, rest));
    var n := FromTarget(m, rest, key, |c|, AfterCurrent(m, rest));
    NatIsNumeric(m.currentSizeBytes);
    var tail := "," + (Quoted("tier") + AfterTier(m, rest));
    AfterCurrentIs(m, rest);
    NumberField(Text(m) + rest, key, n, PrintNat(m.currentSizeBytes), tail);
  }

  lemma TargetText(m: Message, rest: string)
    ensures ExtractString(Text(m) + rest, "target_bytes") == PrintNat(m.targetBytes)
  {
    hide PrintInt, PrintNat, Field, Text, ExtractString, Numeric, AfterTarget;
    PrefixesQuoteFree(m);
    var key := "target_bytes";
    var c := ":" + PrintInt(m.pid) + ",";
    FieldHere(c, key, AfterTarget(m, rest));
    Regroup(":" + PrintInt(m.pid), Quoted(key) + AfterTarget(m, rest));
    var n := FromPid(m, rest, key, |c|, AfterTarget(m, rest));
    NatIsNumeric(m.targetBytes);
    var tail := "," + (Quoted("current_size_bytes") + AfterCurrent(m, rest));
    AfterTargetIs(m, rest);
    NumberField(Text(m) + rest, key, n, PrintNat(m.targetBytes), tail);
  }

  lemma PidText(m: Message, rest: string)
    ensures ExtractString(Text(m) + rest, "pid") == PrintInt(m.pid)
  {
    hide PrintInt, PrintNat, Field, Text, ExtractString, Numeric, AfterPid;
    FieldHere(",", "pid", AfterPid(m, rest));
    var n := FromType(m, rest, "pid", 1, AfterPid(m, rest));
    PrintIsNumeric(m.pid);
    var tail := "," + (Quoted("target_bytes") + AfterTarget(m, rest));
    AfterPidIs(m, rest);
    NumberField(Text(m) + rest, "pid", n, PrintInt(m.pid), tail);
  }

  lemma TypeText(m: Message, rest: string)
    ensures ExtractString(Text(m) + rest, "type") == TypeToString(m.kind)
  {
    hide Field, Text, ExtractString, AfterPid, TypeToString;
    TextSplits(m, rest);
    FieldHere("{", "type", AfterType(m, rest));
    TypeIsWord(m.kind);
    WordField(Text(m) + rest, "type", 1, TypeToString(m.kind), "," + (Quoted("pid") + AfterPid(m, rest)));
  }

  lemma NatIsNumeric(n: nat)
    ensures Numeric(PrintNat(n))
  {
  }

  lemma AfterCurrentIs(m: Message, rest: string)
    ensures AfterCurrent(m, rest) == ":" + PrintNat(m.currentSizeBytes) + ("," + (Quoted("tier") + AfterTier(m, rest)))
  {
  }

  lemma AfterTargetIs(m: Message, rest: string)
    ensures AfterTarget(m, rest) ==
            ":" + PrintNat(m.targetBytes) + ("," + (Quoted("current_size_bytes") + AfterCurrent(m, rest)))
  {
  }

  lemma AfterPidIs(m: Message, rest: string)
    ensures AfterPid(m, rest) == ":" + PrintInt(m.pid) + ("," + (Quoted("target_bytes") + AfterTarget(m, rest)))
  {
  }

  // Main result: whatever follows the object, decoding gives the message back exactly when its
  // numbers fit the C++ field types; a number that does not fit throws out_of_range.
  lemma DecodeInvertsText(m: Message, rest: string)
    ensures Decode(Text(m) + rest) == if Representable(m) then Success(m) else Failure(OutOfRange)
  {
    hide Text, ExtractString, TypeToString, StringToType, PrintInt, PrintNat, StoI, StoULL;
    TypeText(m, rest);
    PidText(m, rest);
    TargetText(m, rest);
    CurrentText(m, rest);
    TierText(m, rest);
    TypeIsWord(m.kind);
    NonEmpty(m.pid);
    NonEmpty(m.tier);
    StoIPrint(m.pid);
    StoULLPrint(m.targetBytes);
    StoULLPrint(m.currentSizeBytes);
    StoIPrint(m.tier);
  }

  lemma NonEmpty(i: int)
    ensures PrintInt(i) != ""
  {
  }

  // ----- sizes

  // Every payload, newline included, is between 1 and 138 bytes, so no reader's limit rejects it.
  lemma TextLength(m: Message)
    requires Representable(m)
    ensures 0 < |Text(m)| <= 137
  {
    hide PrintInt, PrintNat;
    IntLength(m.pid);
    IntLength(m.tier);
    SizeLength(m.targetBytes);
    SizeLength(m.currentSizeBytes);
    assert |TypeToString(m.kind)| <= 11;
  }

  lemma IntLength(i: int)
    requires -TWO31 <= i < TWO31
    ensures |PrintInt(i)| <= 11
  {
    hide PrintNat;
    var n: nat := if i < 0 then -i else i;
    assert Pow10(5) == 100000;
    assert Pow10(10) == 10000000000;
    PrintLength(n, 10);
  }

  lemma SizeLength(n: nat)
    requires n < TWO64
    ensures |PrintNat(n)| <= 20
  {
    hide PrintNat;
    assert Pow10(5) == 100000;
    assert Pow10(10) == 10000000000;
    assert Pow10(15) == 1000000000000000;
    assert Pow10(20) == 100000000000000000000;
    PrintLength(n, 20);
  }
}
