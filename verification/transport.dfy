// The read and write loops over a stream socket that may split a transfer anywhere.
module Transport {
  import opened Wrappers
  import opened Decimal
  import opened Protocol
  import opened Framing

  // One end of a connection. incoming is what the peer has written and this end has not read; stalls
  // is how many more times the kernel answers EAGAIN, finitely often.
  class Socket {
    var incoming: seq<Byte>
    var sent: seq<Byte>
    var stalls: nat

    constructor (arriving: seq<Byte>)
      ensures incoming == arriving && sent == [] && stalls == 0
    {
      incoming, sent, stalls := arriving, [], 0;
    }

    // A read of at most max bytes: any non-empty part of what is there, nothing at end of stream.
    method Read(max: nat) returns (data: seq<Byte>)
      requires max > 0
      modifies this`incoming
      ensures old(incoming) == data + incoming
      ensures |data| <= max && (|data| == 0 <==> |old(incoming)| == 0)
    {
      if |incoming| == 0 { return []; }
      var k :| 1 <= k <= max && k <= |incoming|;
      data, incoming := incoming[..k], incoming[k..];
    }

    // A read of the length prefix, delivered whole.
    method ReadHeader() returns (data: seq<Byte>)
      modifies this`incoming
      ensures old(incoming) == data + incoming && |data| == Min(HEADER, |old(incoming)|)
    {
      var k := Min(HEADER, |incoming|);
      data, incoming := incoming[..k], incoming[k..];
    }

    // A write: -1 for an error, otherwise how many bytes of data the kernel took.
    method Write(data: seq<Byte>) returns (n: int)
      requires |data| > 0
      modifies this`sent
      ensures -1 <= n <= |data|
      ensures sent == old(sent) + data[..if n < 0 then 0 else n]
    {
      n :| -1 <= n <= |data|;
      sent := sent + data[..if n < 0 then 0 else n];
    }

    // A non-blocking write: None is EAGAIN; a write that takes nothing does not happen.
    method TryWrite(data: seq<Byte>) returns (r: Option<int>)
      requires |data| > 0
      modifies this`sent, this`stalls
      ensures r.None? ==> stalls < old(stalls) && sent == old(sent)
      ensures r.Some? ==> stalls == old(stalls) && (r.value == -1 || 1 <= r.value <= |data|)
      ensures r.Some? ==> sent == old(sent) + data[..if r.value < 0 then 0 else r.value]
    {
      if stalls > 0 {
        stalls := stalls - 1;
        return None;
      }
      if * { return Some(-1); }
      var n :| 1 <= n <= |data|;
      sent := sent + data[..n];
      r := Some(n);
    }
  }

  // The loops that read msg_len bytes: the payload, or fewer bytes at end of stream.
  method ReadPayload(sock: Socket, len: nat) returns (payload: seq<Byte>)
    modifies sock`incoming
    ensures old(sock.incoming) == payload + sock.incoming
    ensures |payload| == Min(len, |old(sock.incoming)|)
  {
    payload := [];
    while |payload| < len
      invariant old(sock.incoming) == payload + sock.incoming
      invariant |payload| <= len
    {
      var part := sock.Read(len - |payload|);
      if |part| == 0 { return; }
      payload := payload + part;
    }
  }

  // One turn of the client's read loop: a message, or why there is none.
  method ReadMessage(sock: Socket) returns (r: Result<Message, Ending>)
    modifies sock`incoming
    ensures match r
            case Failure(ending) => ClientDecode(old(sock.incoming)) == ([], ending)
            case Success(m) =>
              |sock.incoming| < |old(sock.incoming)|
              && var (ms, ending) := ClientDecode(sock.incoming);
                 ClientDecode(old(sock.incoming)) == ([m] + ms, ending)
  {
    hide Decode, FromBigEndian;
    ghost var input := sock.incoming;
    var header := sock.ReadHeader();
    if |header| == 0 { return Failure(EndOfStream); }
    if |header| != HEADER { return Failure(ShortHeader); }
    assert input[..HEADER] == header;
    var len := FromBigEndian(header);
    if len == 0 || len > MAX_PAYLOAD { return Failure(BadLength); }
    var payload := ReadPayload(sock, len);
    if |payload| < len { return Failure(Truncated); }
    assert input[HEADER..HEADER + len] == payload && input[HEADER + len..] == sock.incoming;
    var msg := Deserialize(ToText(payload));
    match msg
    case Failure(e) => return Failure(Threw(e));
    case Success(m) => return Success(m);
  }

  lemma PrefixGrows(s: seq<Byte>, i: nat, n: nat)
    requires i + n <= |s|
    ensures s[..i + n] == s[..i] + s[i..][..n]
  {
  }

  lemma FrameNotEmpty(m: Message)
    ensures |FrameBytes(m)| > 0
  {
  }

  // The bytes of Message::frame's buffer.
  method Framed(msg: Message) returns (frame: seq<Byte>)
    ensures frame == FrameBytes(msg)
  {
    hide FrameBytes, Text, Representable;
    var buffer := Frame(msg);
    frame := buffer[..];
  }

  // ClientRegistry::send_to_client: EAGAIN is retried, any other error gives up.
  method SendToClient(sock: Socket, msg: Message) returns (complete: bool)
    modifies sock`sent, sock`stalls
    ensures complete ==> sock.sent == old(sock.sent) + FrameBytes(msg)
    ensures !complete ==> SentPart(old(sock.sent), sock.sent, msg)
  {
    hide FrameBytes;
    var frame := Framed(msg);
    var totalWritten := 0;
    while totalWritten < |frame|
      invariant 0 <= totalWritten <= |frame|
      invariant sock.sent == old(sock.sent) + frame[..totalWritten]
      decreases |frame| - totalWritten + sock.stalls
    {
      var n := sock.TryWrite(frame[totalWritten..]);
      if n.None? { continue; }
      if n.value == -1 { return false; }
      PrefixGrows(frame, totalWritten, n.value);
      totalWritten := totalWritten + n.value;
    }
    assert frame[..totalWritten] == frame;
    return true;
  }

  function RegisterMessage(pid: int, bytes: nat): Message {
    Message(REGISTER, pid, 0, bytes, 0)
  }

  function ReportMessage(pid: int, bytes: nat): Message {
    Message(REPORT_SIZE, pid, 0, bytes, 0)
  }

  // The values int32_t and uint64_t hold.
  predicate Fits(pid: int, bytes: nat) {
    -2147483648 <= pid <= 2147483647 && bytes <= 18446744073709551615
  }

  // What the daemon makes of the two messages a client sends.
  lemma RegisterSays(pid: int, bytes: nat)
    requires Fits(pid, bytes)
    ensures ServerDecode(FrameBytes(RegisterMessage(pid, bytes))) == ([Message(REGISTER, pid, 0, bytes, 0)], EndOfStream)
  {
    OneFrame(RegisterMessage(pid, bytes));
  }

  lemma ReportSays(pid: int, bytes: nat)
    requires Fits(pid, bytes)
    ensures ServerDecode(FrameBytes(ReportMessage(pid, bytes))) == ([Message(REPORT_SIZE, pid, 0, bytes, 0)], EndOfStream)
  {
    OneFrame(ReportMessage(pid, bytes));
  }

  lemma OneFrame(m: Message)
    requires Representable(m)
    ensures ServerDecode(FrameBytes(m)) == ([m], EndOfStream)
  {
    hide FrameBytes;
    DecodeFirst(m, []);
    assert FrameBytes(m) + [] == FrameBytes(m) && [m] + [] == [m];
  }

  // process_message: which callback a message is for, and with what target.
  datatype Command = ShrinkTo(bytes: nat) | GrowTo(bytes: nat)

  function CommandOf(msg: Message): Option<Command> {
    if msg.kind == SHRINK then Some(ShrinkTo(msg.targetBytes))
    else if msg.kind == GROW then Some(GrowTo(msg.targetBytes))
    else None
  }

  // Which callbacks have been set.
  datatype Callbacks = Callbacks(shrink: bool, grow: bool)

  // A write that failed: a proper prefix of the frame of msg has been sent.
  ghost predicate SentPart(before: seq<Byte>, after: seq<Byte>, msg: Message) {
    exists k: nat :: k < |FrameBytes(msg)| && after == before + FrameBytes(msg)[..k]
  }

  class GovernorClient {
    const pid: int     // getpid()
    var sock: Socket
    var connected: bool
    var on: Callbacks  // shrink_callback_ and grow_callback_

    constructor (s: Socket, processId: int)
      ensures sock == s && !connected && pid == processId && on == Callbacks(false, false)
    {
      pid, sock, connected, on := processId, s, false, Callbacks(false, false);
    }

    method OnShrink()
      modifies this`on
      ensures on == old(on).(shrink := true)
    {
      on := on.(shrink := true);
    }

    method OnGrow()
      modifies this`on
      ensures on == old(on).(grow := true)
    {
      on := on.(grow := true);
    }

    // connect; accepted says whether the operating system makes the connection.
    method Connect(accepted: bool) returns (ok: bool)
      modifies this`connected
      ensures ok == connected && connected == (old(connected) || accepted)
    {
      if connected { return true; }
      if !accepted { return false; }
      connected := true;
      return true;
    }

    // send_message: a short write goes on, an error or a write of nothing drops the connection.
    method SendMessage(msg: Message) returns (ok: bool)
      modifies this`connected, sock`sent
      ensures sock == old(sock)
      ensures ok ==> old(connected) && connected && sock.sent == old(sock.sent) + FrameBytes(msg)
      ensures !ok ==> !connected && SentPart(old(sock.sent), sock.sent, msg)
    {
      hide FrameBytes;
      FrameNotEmpty(msg);
      if !connected {
        assert sock.sent == old(sock.sent) + FrameBytes(msg)[..0];
        return false;
      }
      var frame := Framed(msg);
      var totalWritten := 0;
      while totalWritten < |frame|
        invariant 0 <= totalWritten <= |frame| && sock == old(sock) && connected
        invariant sock.sent == old(sock.sent) + frame[..totalWritten]
      {
        var n := sock.Write(frame[totalWritten..]);
        if n <= 0 {
          connected := false;
          return false;
        }
        PrefixGrows(frame, totalWritten, n);
        totalWritten := totalWritten + n;
      }
      assert frame[..totalWritten] == frame;
      return true;
    }

    method RegisterCache(currentSizeBytes: nat) returns (ok: bool)
      modifies this`connected, sock`sent
      ensures sock == old(sock)
      ensures ok ==> old(connected) && connected && sock.sent == old(sock.sent) + FrameBytes(RegisterMessage(pid, currentSizeBytes))
      ensures !ok ==> !connected && SentPart(old(sock.sent), sock.sent, RegisterMessage(pid, currentSizeBytes))
      ensures ok && Fits(pid, currentSizeBytes) ==>
                old(sock.sent) <= sock.sent
                && ServerDecode(sock.sent[|old(sock.sent)|..]) == ([Message(REGISTER, pid, 0, currentSizeBytes, 0)], EndOfStream)
    {
      hide FrameBytes, SentPart, ServerDecode;
      if Fits(pid, currentSizeBytes) { RegisterSays(pid, currentSizeBytes); }
      ok := SendMessage(RegisterMessage(pid, currentSizeBytes));
    }

    method ReportSize(currentSizeBytes: nat) returns (ok: bool)
      modifies this`connected, sock`sent
      ensures sock == old(sock)
      ensures ok ==> old(connected) && connected && sock.sent == old(sock.sent) + FrameBytes(ReportMessage(pid, currentSizeBytes))
      ensures !ok ==> !connected && SentPart(old(sock.sent), sock.sent, ReportMessage(pid, currentSizeBytes))
      ensures ok && Fits(pid, currentSizeBytes) ==>
                old(sock.sent) <= sock.sent
                && ServerDecode(sock.sent[|old(sock.sent)|..]) == ([Message(REPORT_SIZE, pid, 0, currentSizeBytes, 0)], EndOfStream)
    {
      hide FrameBytes, SentPart, ServerDecode;
      if Fits(pid, currentSizeBytes) { ReportSays(pid, currentSizeBytes); }
      ok := SendMessage(ReportMessage(pid, currentSizeBytes));
    }
  }

  lemma SnocAssoc(ms: seq<Message>, m: Message, rest: seq<Message>)
    ensures ms + ([m] + rest) == ms + [m] + rest
  {
  }

  // End to end over the bytes: whatever commands the daemon frames, the client runs exactly those,
  // in order, however the stream is split.
  lemma CommandsArrive(ms: seq<Message>)
    requires forall m :: m in ms ==> Representable(m)
    ensures ClientDecode(Frames(ms)) == (ms, EndOfStream)
    ensures ServerDecode(Frames(ms)) == (ms, EndOfStream)
  {
    StreamRoundTrip(ms, []);
    assert Frames(ms) + [] == Frames(ms);
    assert ms + [] == ms;
  }
}
