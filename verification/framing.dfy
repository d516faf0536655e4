// Length-prefixed framing: what goes on the stream, and what the two readers make of a stream.
module Framing {
  import opened Wrappers
  import opened Decimal
  import opened Protocol
  import opened WireRoundTrip

  type Byte = b: int | 0 <= b < 256

  // Text as bytes and back; bytes are what std::string holds.
  function ToBytes(s: string): seq<Byte> {
    seq(|s|, i requires 0 <= i < |s| => s[i] as int % 256)
  }

  function ToText(bs: seq<Byte>): string {
    seq(|bs|, i requires 0 <= i < |bs| => bs[i] as char)
  }

  const HEADER: nat := 4

  // htonl and ntohl: four bytes, most significant first.
  function BigEndian(n: nat): (bs: seq<Byte>)
    ensures |bs| == HEADER
  {
    [n / 0x100_0000 % 256, n / 0x1_0000 % 256, n / 0x100 % 256, n % 256]
  }

  function FromBigEndian(bs: seq<Byte>): nat
    requires |bs| == HEADER
  {
    ((bs[0] as int * 256 + bs[1] as int) * 256 + bs[2] as int) * 256 + bs[3] as int
  }

  function Payload(m: Message): string {
    Text(m) + "\n"
  }

  function FrameBytes(m: Message): seq<Byte> {
    BigEndian(|Payload(m)|) + ToBytes(Payload(m))
  }

  // memcpy of bytes to offset at
  method CopyTo(buffer: array<Byte>, at: nat, bytes: seq<Byte>)
    requires at + |bytes| <= buffer.Length
    modifies buffer
    ensures buffer[..at] == old(buffer[..at])
    ensures buffer[at..at + |bytes|] == bytes
  {
    for i := 0 to |bytes|
      invariant buffer[..at] == old(buffer[..at])
      invariant buffer[at..at + i] == bytes[..i]
    {
      buffer[at + i] := bytes[i];
      assert buffer[at..at + i + 1] == buffer[at..at + i] + [bytes[i]];
    }
  }

  // Message::frame, copying the header and then the payload into a byte buffer
  method Frame(m: Message) returns (buffer: array<Byte>)
    ensures fresh(buffer) && buffer[..] == FrameBytes(m)
    ensures buffer.Length == 4 + |Text(m)| + 1 && buffer[buffer.Length - 1] == 10
    ensures forall i :: 0 <= i < |Text(m)| ==> buffer[4 + i] == Text(m)[i] as int
    ensures Representable(m) ==>
              buffer[0] as int * 0x100_0000 + buffer[1] as int * 0x1_0000 + buffer[2] as int * 0x100 + buffer[3] as int
              == buffer.Length - 4
  {
    FrameLayout(m);
    hide Text, FrameBytes, BigEndian, ToBytes;
    var payload := Serialize(m);
    payload := payload + "\n";
    var len := BigEndian(|payload|);
    var bytes := ToBytes(payload);
    ByteCount(payload);
    buffer := new Byte[HEADER + |payload|];
    CopyTo(buffer, 0, len);
    CopyTo(buffer, HEADER, bytes);
    assert buffer[..] == buffer[..HEADER] + buffer[HEADER..HEADER + |bytes|];
    FrameIs(m, len, bytes);
  }

  lemma FrameIs(m: Message, len: seq<Byte>, bytes: seq<Byte>)
    requires len == BigEndian(|Payload(m)|) && bytes == ToBytes(Payload(m))
    ensures FrameBytes(m) == len + bytes
  {
  }

  // The layout of a frame: the length of what follows, the most significant byte first; the characters
  // of the text; a line feed.
  lemma FrameLayout(m: Message)
    ensures var bs, text := FrameBytes(m), Text(m);
            && |bs| == 4 + |text| + 1 && bs[|bs| - 1] == 10
            && (forall i :: 0 <= i < |text| ==> bs[4 + i] == text[i] as int)
            && (Representable(m) ==>
                  bs[0] as int * 0x100_0000 + bs[1] as int * 0x1_0000 + bs[2] as int * 0x100 + bs[3] as int == |bs| - 4)
  {
    hide Text;
    var bs, text := FrameBytes(m), Text(m);
    ByteCount(Payload(m));
    PayloadAscii(m);
    assert Payload(m)[|text|] == '\n';
    forall i | 0 <= i < |text| ensures bs[4 + i] == text[i] as int { AsciiByte(Payload(m), i); }
    if Representable(m) { TextLength(m); }
  }

  lemma AsciiByte(s: string, i: nat)
    requires Ascii(s) && i < |s|
    ensures ToBytes(s)[i] == s[i] as int
  {
  }

  lemma ByteCount(s: string)
    ensures |ToBytes(s)| == |s|
  {
  }

  function Frames(ms: seq<Message>): seq<Byte> {
    if |ms| == 0 then [] else FrameBytes(ms[0]) + Frames(ms[1..])
  }

  // Why a reader stopped.
  datatype Ending = EndOfStream | ShortHeader | BadLength | Truncated | Threw(error: ParseError)

  const MAX_PAYLOAD: nat := 65536

  // The client: an empty or oversized frame drops the connection, a malformed number escapes.
  function ClientDecode(input: seq<Byte>): (seq<Message>, Ending)
    decreases |input|
  {
    if |input| == 0 then ([], EndOfStream)
    else if |input| < HEADER then ([], ShortHeader)
    else
      var len := FromBigEndian(input[..HEADER]);
      if len == 0 || len > MAX_PAYLOAD then ([], BadLength)
      else if |input| < HEADER + len then ([], Truncated)
      else
        match Decode(ToText(input[HEADER..HEADER + len]))
        case Failure(e) => ([], Threw(e))
        case Success(m) =>
          var (ms, ending) := ClientDecode(input[HEADER + len..]);
          ([m] + ms, ending)
  }

  // The daemon: any length is read, a malformed number is ignored.
  function ServerDecode(input: seq<Byte>): (seq<Message>, Ending)
    decreases |input|
  {
    if |input| == 0 then ([], EndOfStream)
    else if |input| < HEADER then ([], ShortHeader)
    else
      var len := FromBigEndian(input[..HEADER]);
      if |input| < HEADER + len then ([], Truncated)
      else
        var (ms, ending) := ServerDecode(input[HEADER + len..]);
        match Decode(ToText(input[HEADER..HEADER + len]))
        case Failure(e) => (ms, ending)
        case Success(m) => ([m] + ms, ending)
  }

  // ----- round trips

  predicate Ascii(s: string) {
    forall i :: 0 <= i < |s| ==> s[i] < 128 as char
  }

  lemma BytesRoundTrip(s: string)
    requires Ascii(s)
    ensures ToText(ToBytes(s)) == s
  {
  }

  lemma PrintAscii(i: int)
    ensures Ascii(PrintInt(i))
  {
  }

  lemma AsciiConcat(a: string, b: string)
    requires Ascii(a) && Ascii(b)
    ensures Ascii(a + b)
  {
  }

  lemma PartsAscii(m: Message)
    ensures Ascii(TypePart(m)) && Ascii(PidPart(m)) && Ascii(TargetPart(m)) && Ascii(CurrentPart(m)) && Ascii(TierPart(m))
  {
    hide TypeToString, PrintInt, PrintNat, Ascii;
    PrintAscii(m.pid);
    PrintAscii(m.tier);
    NatAscii(m.targetBytes);
    NatAscii(m.currentSizeBytes);
    TypeAscii(m.kind);
    KeysAscii();
    PartAscii("\"type\":\"", TypeToString(m.kind), "\",");
    PartAscii("\"pid\":", PrintInt(m.pid), ",");
    PartAscii("\"target_bytes\":", PrintNat(m.targetBytes), ",");
    PartAscii("\"current_size_bytes\":", PrintNat(m.currentSizeBytes), ",");
    AsciiConcat("\"tier\":", PrintInt(m.tier));
  }

  lemma PartAscii(open: string, value: string, close: string)
    requires Ascii(open) && Ascii(value) && Ascii(close)
    ensures Ascii(open + value + close)
  {
    AsciiConcat(open, value);
    AsciiConcat(open + value, close);
  }

  lemma KeysAscii()
    ensures Ascii("\"type\":\"") && Ascii("\",") && Ascii("\"pid\":") && Ascii(",")
    ensures Ascii("\"target_bytes\":") && Ascii("\"current_size_bytes\":") && Ascii("\"tier\":")
  {
  }

  lemma TypeAscii(t: MessageType)
    ensures Ascii(TypeToString(t))
  {
  }

  lemma PayloadAscii(m: Message)
    ensures Ascii(Payload(m))
  {
    hide TypePart, PidPart, TargetPart, CurrentPart, TierPart, Ascii;
    PartsAscii(m);
    SymbolsAscii();
    AsciiConcat("{", TypePart(m));
    AsciiConcat("{" + TypePart(m), PidPart(m));
    AsciiConcat("{" + TypePart(m) + PidPart(m), TargetPart(m));
    AsciiConcat("{" + TypePart(m) + PidPart(m) + TargetPart(m), CurrentPart(m));
    AsciiConcat("{" + TypePart(m) + PidPart(m) + TargetPart(m) + CurrentPart(m), TierPart(m));
    AsciiConcat("{" + TypePart(m) + PidPart(m) + TargetPart(m) + CurrentPart(m) + TierPart(m), "}");
    AsciiConcat(Text(m), "\n");
  }

  lemma SymbolsAscii()
    ensures Ascii("{") && Ascii("}") && Ascii("\n")
  {
  }

  lemma NatAscii(n: nat)
    ensures Ascii(PrintNat(n))
  {
  }

  lemma HeaderRoundTrip(n: nat)
    requires n < 0x1_0000_0000
    ensures FromBigEndian(BigEndian(n)) == n
  {
    var a, b, c := n / 0x100_0000, n / 0x1_0000, n / 0x100;
    assert b / 256 == a && c / 256 == b && n / 256 == c;
  }

  // One frame at the front of a stream is read back and leaves the rest of the stream.
  lemma FrameFirst(m: Message, rest: seq<Byte>)
    requires Representable(m)
    ensures var input := FrameBytes(m) + rest;
            var len := |Payload(m)|;
            && 0 < len <= 138 && |input| >= HEADER + len
            && FromBigEndian(input[..HEADER]) == len
            && Decode(ToText(input[HEADER..HEADER + len])) == Success(m)
            && input[HEADER + len..] == rest
  {
    hide Text, Decode, BigEndian, FromBigEndian;
    TextLength(m);
    var len := |Payload(m)|;
    HeaderRoundTrip(len);
    PayloadAscii(m);
    BytesRoundTrip(Payload(m));
    DecodeInvertsText(m, "\n");
    var input := FrameBytes(m) + rest;
    assert input[..HEADER] == BigEndian(len);
    assert input[HEADER..HEADER + len] == ToBytes(Payload(m));
  }

  // ----- what is not a frame

  // The length in front of a stream, the most significant byte first.
  function Announced(input: seq<Byte>): int
    requires |input| >= 4
  {
    input[0] as int * 0x100_0000 + input[1] as int * 0x1_0000 + input[2] as int * 0x100 + input[3] as int
  }

  // The client gives up on a length of 0 or above 65536; both wait for what has not arrived.
  lemma NoFrame(input: seq<Byte>)
    ensures |input| == 0 ==> ClientDecode(input) == ([], EndOfStream) && ServerDecode(input) == ([], EndOfStream)
    ensures 0 < |input| < 4 ==> ClientDecode(input) == ([], ShortHeader) && ServerDecode(input) == ([], ShortHeader)
    ensures |input| >= 4 && (Announced(input) == 0 || Announced(input) > 65536) ==> ClientDecode(input) == ([], BadLength)
    ensures |input| >= 4 && |input| < 4 + Announced(input) ==> ServerDecode(input) == ([], Truncated)
    ensures |input| >= 4 && |input| < 4 + Announced(input) <= 4 + 65536 ==> ClientDecode(input) == ([], Truncated)
  {
    if |input| >= 4 { assert input[..HEADER][0] == input[0]; }
  }

  // A message whose numbers do not fit: the daemon skips its frame, and the client's listener is ended
  // by it.
  lemma GarbledFrame(m: Message, rest: seq<Byte>)
    requires !Representable(m) && |Payload(m)| < 0x1_0000_0000
    ensures ServerDecode(FrameBytes(m) + rest) == ServerDecode(rest)
    ensures |Text(m)| < 65536 ==> ClientDecode(FrameBytes(m) + rest) == ([], Threw(OutOfRange))
  {
    hide Text, Decode, BigEndian, FromBigEndian;
    var len := |Payload(m)|;
    HeaderRoundTrip(len);
    PayloadAscii(m);
    BytesRoundTrip(Payload(m));
    DecodeInvertsText(m, "\n");
    var input := FrameBytes(m) + rest;
    assert input[..HEADER] == BigEndian(len);
    assert input[HEADER..HEADER + len] == ToBytes(Payload(m));
    assert input[HEADER + len..] == rest;
    var (ms, ending) := ServerDecode(rest);
  }

  // An empty frame is a message of no type to the daemon.
  lemma EmptyFrame(rest: seq<Byte>)
    ensures var (ms, ending) := ServerDecode(rest);
            ServerDecode([0, 0, 0, 0] + rest) == ([Message(UNKNOWN, 0, 0, 0, 0)] + ms, ending)
  {
    hide Decode;
    var input := [0, 0, 0, 0] + rest;
    assert input[..HEADER] == [0, 0, 0, 0] && input[HEADER..HEADER] == [] && input[HEADER..] == rest;
    assert ToText([]) == "";
    NoFields("");
  }

  lemma DecodeFirst(m: Message, rest: seq<Byte>)
    requires Representable(m)
    ensures ClientDecode(FrameBytes(m) + rest) == ([m] + ClientDecode(rest).0, ClientDecode(rest).1)
    ensures ServerDecode(FrameBytes(m) + rest) == ([m] + ServerDecode(rest).0, ServerDecode(rest).1)
  {
    hide Decode, FrameBytes, Payload, FromBigEndian, ToText;
    FrameFirst(m, rest);
  }

  // Any messages the C++ types can hold, framed one after another in front of anything: both
  // readers recover exactly them, in order, and go on with what follows.
  lemma {:induction false} StreamRoundTrip(ms: seq<Message>, rest: seq<Byte>)
    requires forall m :: m in ms ==> Representable(m)
    ensures ClientDecode(Frames(ms) + rest) == (ms + ClientDecode(rest).0, ClientDecode(rest).1)
    ensures ServerDecode(Frames(ms) + rest) == (ms + ServerDecode(rest).0, ServerDecode(rest).1)
  {
    hide ClientDecode, ServerDecode, FrameBytes, Representable;
    if |ms| == 0 {
      assert Frames(ms) + rest == rest;
      assert ms + ClientDecode(rest).0 == ClientDecode(rest).0;
      assert ms + ServerDecode(rest).0 == ServerDecode(rest).0;
    } else {
      var tail := Frames(ms[1..]) + rest;
      assert forall m :: m in ms[1..] ==> m in ms;
      StreamRoundTrip(ms[1..], rest);
      DecodeFirst(ms[0], tail);
      assert Frames(ms) + rest == FrameBytes(ms[0]) + tail;
      ConsAssoc(ms, ClientDecode(rest).0);
      ConsAssoc(ms, ServerDecode(rest).0);
    }
  }

  lemma ConsAssoc(ms: seq<Message>, tail: seq<Message>)
    requires |ms| > 0
    ensures [ms[0]] + (ms[1..] + tail) == ms + tail
  {
  }
}
