// The wire protocol: a printer, and a decoder that searches for fields instead of parsing.
module Protocol {
  import opened Wrappers
  import opened Decimal

  datatype MessageType = REGISTER | REPORT_SIZE | SHRINK | GROW | ACK | HEARTBEAT | UNKNOWN

  datatype Message = Message(kind: MessageType, pid: int, targetBytes: nat, currentSizeBytes: nat, tier: int)

  const EmptyMessage := Message(UNKNOWN, 0, 0, 0, 0)

  // The values the C++ field types can hold.
  predicate Representable(m: Message) {
    && -TWO31 <= m.pid < TWO31 && -TWO31 <= m.tier < TWO31
    && m.targetBytes < TWO64 && m.currentSizeBytes < TWO64
  }

  function TypeToString(t: MessageType): string {
    match t
    case REGISTER => "REGISTER"
    case REPORT_SIZE => "REPORT_SIZE"
    case SHRINK => "SHRINK"
    case GROW => "GROW"
    case ACK => "ACK"
    case HEARTBEAT => "HEARTBEAT"
    case UNKNOWN => "UNKNOWN"
  }

  function StringToType(s: string): MessageType {
    if s == "REGISTER" then REGISTER
    else if s == "REPORT_SIZE" then REPORT_SIZE
    else if s == "SHRINK" then SHRINK
    else if s == "GROW" then GROW
    else if s == "ACK" then ACK
    else if s == "HEARTBEAT" then HEARTBEAT
    else UNKNOWN
  }

  function Quoted(w: string): string {
    "\"" + w + "\""
  }

  function TypePart(m: Message): string { "\"type\":\"" + TypeToString(m.kind) + "\"," }
  function PidPart(m: Message): string { "\"pid\":" + PrintInt(m.pid) + "," }
  function TargetPart(m: Message): string { "\"target_bytes\":" + PrintNat(m.targetBytes) + "," }
  function CurrentPart(m: Message): string { "\"current_size_bytes\":" + PrintNat(m.currentSizeBytes) + "," }
  function TierPart(m: Message): string { "\"tier\":" + PrintInt(m.tier) }

  function Text(m: Message): string {
    "{" + TypePart(m) + PidPart(m) + TargetPart(m) + CurrentPart(m) + TierPart(m) + "}"
  }

  // Message::serialize, appending to its stream
  method Serialize(m: Message) returns (ss: string)
    ensures ss == Text(m)
  {
    ss := "{";
    ss := ss + TypePart(m);
    ss := ss + PidPart(m);
    ss := ss + TargetPart(m);
    ss := ss + CurrentPart(m);
    ss := ss + TierPart(m);
    ss := ss + "}";
  }

  // ----- std::string searches

  predicate At(s: string, pat: string, i: nat) {
    i + |pat| <= |s| && s[i..i + |pat|] == pat
  }

  function Find(s: string, pat: string, from: nat): (r: Option<nat>)
    ensures r.Some? ==> from <= r.value && At(s, pat, r.value)
    ensures forall i: nat :: from <= i && (r.Some? ==> i < r.value) ==> !At(s, pat, i)
    decreases |s| - from
  {
    if from + |pat| > |s| then None
    else if s[from..from + |pat|] == pat then Some(from)
    else Find(s, pat, from + 1)
  }

  function FindFirstOf(s: string, chars: string, from: nat): (r: Option<nat>)
    ensures r.Some? ==> from <= r.value < |s| && s[r.value] in chars
    ensures forall i: nat :: from <= i < (if r.Some? then r.value else |s|) ==> s[i] !in chars
    decreases |s| - from
  {
    if from >= |s| then None else if s[from] in chars then Some(from) else FindFirstOf(s, chars, from + 1)
  }

  function FindFirstNotOf(s: string, chars: string, from: nat): (r: Option<nat>)
    ensures r.Some? ==> from <= r.value < |s| && s[r.value] !in chars
    ensures forall i: nat :: from <= i < (if r.Some? then r.value else |s|) ==> s[i] in chars
    decreases |s| - from
  {
    if from >= |s| then None else if s[from] !in chars then Some(from) else FindFirstNotOf(s, chars, from + 1)
  }

  // extract_string: the text after the first "key", the next colon, and any blanks and quotes. A
  // quote just before the value makes the next quote end it, otherwise a comma or a brace does.
  function ExtractString(json: string, key: string): string {
    match ValueStart(json, key)
    case None => ""
    case Some(start) =>
      match ValueEnd(json, start)
      case None => ""
      case Some(end) => json[start..end]
  }

  function ValueStart(json: string, key: string): (start: Option<nat>)
    ensures start.Some? ==> 0 < start.value < |json|
  {
    match Find(json, Quoted(key), 0)
    case None => None
    case Some(k) =>
      match Find(json, ":", k)
      case None => None
      case Some(pos) => FindFirstNotOf(json, " \t\"", pos + 1)
  }

  function ValueEnd(json: string, start: nat): (end: Option<nat>)
    requires 0 < start < |json|
    ensures end.Some? ==> start <= end.value <= |json|
  {
    if json[start - 1] == '\"' then Find(json, "\"", start) else FindFirstOf(json, ",}", start)
  }

  // A field that is not found keeps its default; a field that does not convert throws.
  function IntField(json: string, key: string): Result<int, ParseError> {
    var s := ExtractString(json, key);
    if s == "" then Success(0) else StoI(s)
  }

  function SizeField(json: string, key: string): Result<nat, ParseError> {
    var s := ExtractString(json, key);
    if s == "" then Success(0) else StoULL(s)
  }

  function Decode(json: string): Result<Message, ParseError> {
    match IntField(json, "pid")
    case Failure(e) => Failure(e)
    case Success(pid) =>
      match SizeField(json, "target_bytes")
      case Failure(e) => Failure(e)
      case Success(target) =>
        match SizeField(json, "current_size_bytes")
        case Failure(e) => Failure(e)
        case Success(current) =>
          match IntField(json, "tier")
          case Failure(e) => Failure(e)
          case Success(tier) =>
            Success(Message(StringToType(ExtractString(json, "type")), pid, target, current, tier))
  }

  // ----- what a field's text is, by positions

  ghost predicate FirstKey(json: string, key: string, k: nat) {
    At(json, "\"" + key + "\"", k) && forall i: nat :: i < k ==> !At(json, "\"" + key + "\"", i)
  }

  // The first place from `from` on, up to but not including `to`, is not yet one of chars; `to` is.
  predicate FirstOf(json: string, chars: set<char>, from: nat, to: nat) {
    from <= to < |json| && json[to] in chars && forall i :: from <= i < to ==> json[i] !in chars
  }

  predicate NoneOf(json: string, chars: set<char>, from: nat) {
    forall i :: from <= i < |json| ==> json[i] !in chars
  }

  // The value starts behind the first colon from the key on, past blanks and quotes.
  ghost predicate StartsAt(json: string, key: string, start: nat) {
    exists k: nat, colon: nat ::
      && FirstKey(json, key, k) && FirstOf(json, {':'}, k, colon)
      && colon < start < |json| && json[start] !in {' ', '\t', '\"'}
      && forall i :: colon < i < start ==> json[i] in {' ', '\t', '\"'}
  }

  lemma StartIs(json: string, key: string, start: nat)
    requires StartsAt(json, key, start)
    ensures ValueStart(json, key) == Some(start)
  {
    hide Find, FindFirstNotOf, FirstKey, FirstOf;
    var k: nat, colon: nat :| FirstKey(json, key, k) && FirstOf(json, {':'}, k, colon)
      && colon < start < |json| && json[start] !in {' ', '\t', '\"'}
      && forall i :: colon < i < start ==> json[i] in {' ', '\t', '\"'};
    KeyFound(json, key, k);
    CharFound(json, ':', ":", k, colon);
    StartFound(json, colon + 1, start);
  }

  // It ends at the next quote if it starts right behind one, and otherwise at the next comma or brace;
  // without such an end there is none.
  lemma ExtractionIs(json: string, key: string, start: nat, end: nat)
    requires StartsAt(json, key, start) && 0 < start < |json|
    ensures FirstOf(json, if json[start - 1] == '\"' then {'\"'} else {',', '}'}, start, end) ==>
              ExtractString(json, key) == json[start..end]
    ensures NoneOf(json, if json[start - 1] == '\"' then {'\"'} else {',', '}'}, start) ==> ExtractString(json, key) == ""
  {
    StartIs(json, key, start);
    if json[start - 1] == '\"' { QuotedEnd(json, start, end); } else { PlainEnd(json, start, end); }
    hide ValueStart, ValueEnd, StartsAt, FirstOf, NoneOf;
  }

  lemma QuotedEnd(json: string, start: nat, end: nat)
    requires 0 < start < |json| && json[start - 1] == '\"'
    ensures FirstOf(json, {'\"'}, start, end) ==> ValueEnd(json, start) == Some(end)
    ensures NoneOf(json, {'\"'}, start) ==> ValueEnd(json, start) == None
  {
    hide Find, FindFirstOf, FirstOf, NoneOf;
    if FirstOf(json, {'\"'}, start, end) { CharFound(json, '\"', "\"", start, end); }
    if NoneOf(json, {'\"'}, start) { CharMissing(json, '\"', "\"", start); }
  }

  lemma PlainEnd(json: string, start: nat, end: nat)
    requires 0 < start < |json| && json[start - 1] != '\"'
    ensures FirstOf(json, {',', '}'}, start, end) ==> ValueEnd(json, start) == Some(end)
    ensures NoneOf(json, {',', '}'}, start) ==> ValueEnd(json, start) == None
  {
    hide Find, FindFirstOf, FirstOf, NoneOf;
    if FirstOf(json, {',', '}'}, start, end) { EndFound(json, start, end); }
    if NoneOf(json, {',', '}'}, start) { EndMissing(json, start); }
  }

  // Without a colon behind the key, or without a value behind the colon, there is none either.
  lemma NoStart(json: string, key: string, k: nat)
    requires FirstKey(json, key, k)
    ensures NoneOf(json, {':'}, k) ==> ExtractString(json, key) == ""
    ensures forall colon: nat :: FirstOf(json, {':'}, k, colon) && (forall i :: colon < i < |json| ==> json[i] in {' ', '\t', '\"'}) ==>
              ExtractString(json, key) == ""
  {
    hide Find, FindFirstOf, FindFirstNotOf, FirstOf, NoneOf, FirstKey, ValueEnd;
    KeyFound(json, key, k);
    if NoneOf(json, {':'}, k) { CharMissing(json, ':', ":", k); }
    forall colon: nat | FirstOf(json, {':'}, k, colon) && (forall i :: colon < i < |json| ==> json[i] in {' ', '\t', '\"'})
      ensures ExtractString(json, key) == ""
    {
      CharFound(json, ':', ":", k, colon);
      StartMissing(json, colon + 1);
    }
  }

  lemma KeyFound(json: string, key: string, k: nat)
    requires FirstKey(json, key, k)
    ensures Find(json, Quoted(key), 0) == Some(k)
  {
    hide Find, At;
  }

  lemma CharFound(s: string, c: char, pat: string, from: nat, to: nat)
    requires pat == [c] && FirstOf(s, {c}, from, to)
    ensures Find(s, pat, from) == Some(to)
  {
    hide Find;
    assert s[to..to + 1] == pat && At(s, pat, to);
    var r := Find(s, pat, from);
    assert r.Some? ==> s[r.value..r.value + 1][0] == s[r.value];
  }

  lemma CharMissing(s: string, c: char, pat: string, from: nat)
    requires pat == [c] && NoneOf(s, {c}, from)
    ensures Find(s, pat, from) == None
  {
    hide Find;
    forall i: nat | from <= i < |s| ensures !At(s, pat, i) {
      assert s[i..i + 1][0] == s[i] && s[i] !in {c};
    }
  }

  lemma StartFound(s: string, from: nat, to: nat)
    requires from <= to < |s| && s[to] !in {' ', '\t', '\"'} && forall i :: from <= i < to ==> s[i] in {' ', '\t', '\"'}
    ensures FindFirstNotOf(s, " \t\"", from) == Some(to)
  {
    hide FindFirstNotOf;
    Blanks();
  }

  lemma StartMissing(s: string, from: nat)
    requires forall i :: from <= i < |s| ==> s[i] in {' ', '\t', '\"'}
    ensures FindFirstNotOf(s, " \t\"", from) == None
  {
    hide FindFirstNotOf;
    Blanks();
  }

  lemma Blanks()
    ensures forall c :: c in " \t\"" <==> c in {' ', '\t', '\"'}
    ensures forall c :: c in ",}" <==> c in {',', '}'}
  {
    assert " \t\""[0] == ' ' && " \t\""[1] == '\t' && " \t\""[2] == '\"';
    assert ",}"[0] == ',' && ",}"[1] == '}';
  }

  lemma EndFound(s: string, from: nat, to: nat)
    requires FirstOf(s, {',', '}'}, from, to)
    ensures FindFirstOf(s, ",}", from) == Some(to)
  {
    hide FindFirstOf;
    Blanks();
  }

  lemma EndMissing(s: string, from: nat)
    requires NoneOf(s, {',', '}'}, from)
    ensures FindFirstOf(s, ",}", from) == None
  {
    hide FindFirstOf;
    Blanks();
  }

  // ----- the whole text

  // The numbers are converted in this order, and the first that does not convert throws; a field that
  // is missing or empty is 0.
  lemma DecodeOrder(json: string)
    ensures var pid, target := ExtractString(json, "pid"), ExtractString(json, "target_bytes");
            var current, tier := ExtractString(json, "current_size_bytes"), ExtractString(json, "tier");
            var r := Decode(json);
            if pid != "" && StoI(pid).Failure? then r == Failure(StoI(pid).error)
            else if target != "" && StoULL(target).Failure? then r == Failure(StoULL(target).error)
            else if current != "" && StoULL(current).Failure? then r == Failure(StoULL(current).error)
            else if tier != "" && StoI(tier).Failure? then r == Failure(StoI(tier).error)
            else
              && r.Success?
              && r.value.pid == (if pid == "" then 0 else StoI(pid).value)
              && r.value.targetBytes == (if target == "" then 0 else StoULL(target).value)
              && r.value.currentSizeBytes == (if current == "" then 0 else StoULL(current).value)
              && r.value.tier == (if tier == "" then 0 else StoI(tier).value)
              && (r.value.kind == UNKNOWN || TypeToString(r.value.kind) == ExtractString(json, "type"))
  {
    hide ExtractString, StoI, StoULL;
  }

  // A text without any quoted key keeps every default.
  lemma NoFields(json: string)
    requires forall i: nat :: !At(json, "\"type\"", i) && !At(json, "\"pid\"", i) && !At(json, "\"tier\"", i)
    requires forall i: nat :: !At(json, "\"target_bytes\"", i) && !At(json, "\"current_size_bytes\"", i)
    ensures Decode(json) == Success(Message(UNKNOWN, 0, 0, 0, 0))
  {
    hide StoI, StoULL, ExtractString, At;
    NoField(json, "type", "\"type\"");
    NoField(json, "pid", "\"pid\"");
    NoField(json, "target_bytes", "\"target_bytes\"");
    NoField(json, "current_size_bytes", "\"current_size_bytes\"");
    NoField(json, "tier", "\"tier\"");
  }

  lemma NoField(json: string, key: string, quoted: string)
    requires quoted == "\"" + key + "\"" && forall i: nat :: !At(json, quoted, i)
    ensures ExtractString(json, key) == ""
  {
    hide FindFirstOf, FindFirstNotOf, At;
    assert Quoted(key) == quoted;
  }

  // The printed object, and the names of the types.
  lemma TextIs(m: Message)
    ensures Text(m) ==
            "{\"type\":\"" + TypeToString(m.kind) + "\",\"pid\":" + PrintInt(m.pid)
            + ",\"target_bytes\":" + PrintNat(m.targetBytes) + ",\"current_size_bytes\":" + PrintNat(m.currentSizeBytes)
            + ",\"tier\":" + PrintInt(m.tier) + "}"
  {
    hide TypePart, PidPart, TargetPart, CurrentPart, TierPart, TypeToString, PrintInt, PrintNat;
    AppendType(m);
    var x := "{\"type\":\"" + TypeToString(m.kind);
    AppendPid(m, x);
    x := x + "\",\"pid\":" + PrintInt(m.pid);
    AppendTarget(m, x);
    x := x + ",\"target_bytes\":" + PrintNat(m.targetBytes);
    AppendCurrent(m, x);
    x := x + ",\"current_size_bytes\":" + PrintNat(m.currentSizeBytes);
    AppendTier(m, x);
  }

  // Each key and value behind what was printed up to the separator.
  lemma AppendType(m: Message)
    ensures "{" + TypePart(m) == "{\"type\":\"" + TypeToString(m.kind) + "\","
  {
    hide TypeToString;
  }

  lemma AppendPid(m: Message, x: string)
    ensures (x + "\",") + PidPart(m) == x + "\",\"pid\":" + PrintInt(m.pid) + ","
  {
    hide PrintInt;
  }

  lemma AppendTarget(m: Message, x: string)
    ensures (x + ",") + TargetPart(m) == x + ",\"target_bytes\":" + PrintNat(m.targetBytes) + ","
  {
    hide PrintNat;
  }

  lemma AppendCurrent(m: Message, x: string)
    ensures (x + ",") + CurrentPart(m) == x + ",\"current_size_bytes\":" + PrintNat(m.currentSizeBytes) + ","
  {
    hide PrintNat;
  }

  lemma AppendTier(m: Message, x: string)
    ensures (x + ",") + TierPart(m) == x + ",\"tier\":" + PrintInt(m.tier)
  {
    hide PrintInt;
  }

  lemma TypeNames()
    ensures TypeToString(REGISTER) == "REGISTER" && TypeToString(REPORT_SIZE) == "REPORT_SIZE"
    ensures TypeToString(SHRINK) == "SHRINK" && TypeToString(GROW) == "GROW"
    ensures TypeToString(ACK) == "ACK" && TypeToString(HEARTBEAT) == "HEARTBEAT" && TypeToString(UNKNOWN) == "UNKNOWN"
    ensures forall s :: s !in {"REGISTER", "REPORT_SIZE", "SHRINK", "GROW", "ACK", "HEARTBEAT"} ==> StringToType(s) == UNKNOWN
  {
  }

  // Message::deserialize, filling a local message field by field
  method Deserialize(json: string) returns (r: Result<Message, ParseError>)
    ensures r == Decode(json)
  {
    var msg := EmptyMessage;
    msg := msg.(kind := StringToType(ExtractString(json, "type")));
    var pidStr := ExtractString(json, "pid");
    if pidStr != "" {
      var pid := StoI(pidStr);
      if pid.Failure? { return Failure(pid.error); }
      msg := msg.(pid := pid.value);
    }
    var tbStr := ExtractString(json, "target_bytes");
    if tbStr != "" {
      var tb := StoULL(tbStr);
      if tb.Failure? { return Failure(tb.error); }
      msg := msg.(targetBytes := tb.value);
    }
    var cbStr := ExtractString(json, "current_size_bytes");
    if cbStr != "" {
      var cb := StoULL(cbStr);
      if cb.Failure? { return Failure(cb.error); }
      msg := msg.(currentSizeBytes := cb.value);
    }
    var tierStr := ExtractString(json, "tier");
    if tierStr != "" {
      var tier := StoI(tierStr);
      if tier.Failure? { return Failure(tier.error); }
      msg := msg.(tier := tier.value);
    }
    return Success(msg);
  }
}
