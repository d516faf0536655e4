// What the listener does with a stream: which messages it takes, what becomes of the cache, and what
// it writes back meanwhile.
module Listener {
  import opened Wrappers
  import opened Protocol
  import opened Framing
  import opened Transport
  import opened GovernedModel

  // Messages taken one after another: the cache, and the sizes reported on the way.
  ghost function TakeAll(c: Store, entryBytes: nat, ms: seq<Message>): (Store, seq<nat>)
    requires entryBytes > 0
  {
    if |ms| == 0 then (c, [])
    else
      var (d, sizes) := TakeAll(c, entryBytes, ms[..|ms| - 1]);
      var (e, report) := Take(d, entryBytes, ms[|ms| - 1]);
      (e, if report.Some? then sizes + [report.value] else sizes)
  }

  function Reports(pid: int, sizes: seq<nat>): (ms: seq<Message>)
    ensures |ms| == |sizes| && forall i :: 0 <= i < |ms| ==> ms[i] == ReportMessage(pid, sizes[i])
  {
    seq(|sizes|, i requires 0 <= i < |sizes| => ReportMessage(pid, sizes[i]))
  }

  // What happened on one connection: the messages taken, the bytes written, and why it ended; None if
  // a report could not be written.
  datatype Talk = Talk(handled: seq<Message>, sent: seq<Byte>, ending: Option<Ending>)

  // The last message taken made a report, of which only a part was written.
  ghost predicate ReportLost(before: Store, entryBytes: nat, pid: int, handled: seq<Message>, sent: seq<Byte>)
    requires entryBytes > 0
  {
    && |handled| > 0
    && var (c, sizes) := TakeAll(before, entryBytes, handled[..|handled| - 1]);
       var report := Take(c, entryBytes, handled[|handled| - 1]).1;
       report.Some? && SentPart(Frames(Reports(pid, sizes)), sent, ReportMessage(pid, report.value))
  }

  // A connection over which stream arrives. All its messages are taken and all their reports written;
  // or a report is lost, and the connection with it, and the messages behind are never read.
  ghost predicate Heard(before: Store, entryBytes: nat, pid: int, stream: seq<Byte>, talk: Talk)
    requires entryBytes > 0
  {
    var (ms, ending) := ClientDecode(stream);
    && talk.handled <= ms
    && match talk.ending
       case Some(e) =>
         e == ending && talk.handled == ms && talk.sent == Frames(Reports(pid, TakeAll(before, entryBytes, ms).1))
       case None => ReportLost(before, entryBytes, pid, talk.handled, talk.sent)
  }

  // A connection heard to its end.
  ghost function HeardOut(before: Store, entryBytes: nat, pid: int, stream: seq<Byte>, handled: seq<Message>, ending: Ending): (talk: Talk)
    requires entryBytes > 0 && ClientDecode(stream) == (handled, ending)
    ensures Heard(before, entryBytes, pid, stream, talk) && talk.handled == handled && talk.ending == Some(ending)
    ensures talk.sent == Frames(Reports(pid, TakeAll(before, entryBytes, handled).1))
  {
    Talk(handled, Frames(Reports(pid, TakeAll(before, entryBytes, handled).1)), Some(ending))
  }

  // One lost with a report.
  ghost function HeardLost(before: Store, entryBytes: nat, pid: int, stream: seq<Byte>, handled: seq<Message>, sent: seq<Byte>): (talk: Talk)
    requires entryBytes > 0 && handled <= ClientDecode(stream).0 && ReportLost(before, entryBytes, pid, handled, sent)
    ensures Heard(before, entryBytes, pid, stream, talk) && talk == Talk(handled, sent, None)
  {
    Talk(handled, sent, None)
  }

  lemma NothingHeard(before: Store, entryBytes: nat, pid: int, stream: seq<Byte>, sent: seq<Byte>)
    requires entryBytes > 0
    ensures TakeAll(before, entryBytes, []) == (before, []) && sent == sent + Frames(Reports(pid, []))
    ensures ClientDecode(stream) == ([] + ClientDecode(stream).0, ClientDecode(stream).1)
  {
    hide ClientDecode, FrameBytes;
    var (ms, ending) := ClientDecode(stream);
    assert [] + ms == ms;
  }

  // The cache after the first n connections.
  ghost function CacheAfter(before: Store, entryBytes: nat, talks: seq<Talk>): Store
    requires entryBytes > 0
  {
    if |talks| == 0 then before
    else TakeAll(CacheAfter(before, entryBytes, talks[..|talks| - 1]), entryBytes, talks[|talks| - 1].handled).0
  }

  ghost predicate HeardAll(before: Store, entryBytes: nat, pid: int, streams: seq<seq<Byte>>, talks: seq<Talk>)
    requires entryBytes > 0
  {
    && |talks| <= |streams|
    && forall i :: 0 <= i < |talks| ==>
         Heard(CacheAfter(before, entryBytes, talks[..i]), entryBytes, pid, streams[i], talks[i])
  }

  // Successive connections: each goes on with the cache the one before left, and only a number that
  // throws keeps the listener from the next.
  ghost predicate HeardThrough(before: Store, entryBytes: nat, pid: int, streams: seq<seq<Byte>>, talks: seq<Talk>)
    requires entryBytes > 0
  {
    && HeardAll(before, entryBytes, pid, streams, talks)
    && (forall i :: 0 <= i < |talks| - 1 ==> !Throws(talks[i]))
    && (|talks| < |streams| ==> |talks| > 0 && Throws(talks[|talks| - 1]))
  }

  predicate Throws(talk: Talk) {
    talk.ending.Some? && talk.ending.value.Threw?
  }

  lemma HeardNone(before: Store, entryBytes: nat, pid: int, streams: seq<seq<Byte>>)
    requires entryBytes > 0
    ensures HeardAll(before, entryBytes, pid, streams, []) && CacheAfter(before, entryBytes, []) == before
  {
  }

  lemma HeardNext(before: Store, entryBytes: nat, pid: int, streams: seq<seq<Byte>>, talks: seq<Talk>, talk: Talk)
    requires entryBytes > 0 && |talks| < |streams| && HeardAll(before, entryBytes, pid, streams, talks)
    requires Heard(CacheAfter(before, entryBytes, talks), entryBytes, pid, streams[|talks|], talk)
    ensures HeardAll(before, entryBytes, pid, streams, talks + [talk])
    ensures CacheAfter(before, entryBytes, talks + [talk]) ==
            TakeAll(CacheAfter(before, entryBytes, talks), entryBytes, talk.handled).0
  {
    hide Heard, TakeAll, CacheAfter;
    var all := talks + [talk];
    assert all[..|talks|] == talks;
    forall i | 0 <= i < |all|
      ensures Heard(CacheAfter(before, entryBytes, all[..i]), entryBytes, pid, streams[i], all[i])
    {
      if i < |talks| { assert all[..i] == talks[..i]; }
    }
    CacheNext(before, entryBytes, talks, talk);
  }

  lemma CacheNext(before: Store, entryBytes: nat, talks: seq<Talk>, talk: Talk)
    requires entryBytes > 0
    ensures CacheAfter(before, entryBytes, talks + [talk]) ==
            TakeAll(CacheAfter(before, entryBytes, talks), entryBytes, talk.handled).0
  {
    hide TakeAll;
    assert (talks + [talk])[..|talks|] == talks;
  }

  lemma TakeSnoc(c: Store, entryBytes: nat, ms: seq<Message>, m: Message)
    requires entryBytes > 0
    ensures var (d, sizes) := TakeAll(c, entryBytes, ms);
            var (e, report) := Take(d, entryBytes, m);
            TakeAll(c, entryBytes, ms + [m]) == (e, if report.Some? then sizes + [report.value] else sizes)
  {
    hide Take;
    assert (ms + [m])[..|ms|] == ms;
  }

  // ----- bytes

  // The part of a lost report, behind whatever was on the connection before.
  lemma LostReport(c: Store, entryBytes: nat, pid: int, handled: seq<Message>, earlier: seq<Byte>, sent: seq<Byte>)
    requires entryBytes > 0 && |handled| > 0
    requires var (d, sizes) := TakeAll(c, entryBytes, handled[..|handled| - 1]);
             var report := Take(d, entryBytes, handled[|handled| - 1]).1;
             report.Some? && SentPart(earlier + Frames(Reports(pid, sizes)), sent, ReportMessage(pid, report.value))
    ensures |earlier| <= |sent| && sent == earlier + sent[|earlier|..]
    ensures ReportLost(c, entryBytes, pid, handled, sent[|earlier|..])
  {
    hide Take, TakeAll, FrameBytes, Frames;
    var (d, sizes) := TakeAll(c, entryBytes, handled[..|handled| - 1]);
    var lost := ReportMessage(pid, Take(d, entryBytes, handled[|handled| - 1]).1.value);
    var whole := Frames(Reports(pid, sizes));
    var k: nat :| k < |FrameBytes(lost)| && sent == earlier + whole + FrameBytes(lost)[..k];
    assert sent[|earlier|..] == whole + FrameBytes(lost)[..k];
  }

  lemma {:induction false} FramesSnoc(ms: seq<Message>, m: Message)
    ensures Frames(ms + [m]) == Frames(ms) + FrameBytes(m)
  {
    hide FrameBytes;
    if |ms| == 0 {
      assert ms + [m] == [m] && [m][1..] == [];
      assert FrameBytes(m) + Frames([]) == FrameBytes(m) && [] + FrameBytes(m) == FrameBytes(m);
    } else {
      assert (ms + [m])[1..] == ms[1..] + [m];
      FramesSnoc(ms[1..], m);
      assert FrameBytes(ms[0]) + (Frames(ms[1..]) + FrameBytes(m)) == FrameBytes(ms[0]) + Frames(ms[1..]) + FrameBytes(m);
    }
  }

  lemma ReportsSnoc(pid: int, sizes: seq<nat>, size: nat)
    ensures Frames(Reports(pid, sizes + [size])) == Frames(Reports(pid, sizes)) + FrameBytes(ReportMessage(pid, size))
  {
    hide FrameBytes, Frames;
    assert Reports(pid, sizes + [size]) == Reports(pid, sizes) + [ReportMessage(pid, size)];
    FramesSnoc(Reports(pid, sizes), ReportMessage(pid, size));
  }

  // A proper prefix of a frame holds no message.
  lemma PartSaysNothing(m: Message, k: nat)
    requires Representable(m) && k < |FrameBytes(m)|
    ensures ServerDecode(FrameBytes(m)[..k]).0 == []
  {
    hide Payload, Representable;
    var input := FrameBytes(m);
    FrameFirst(m, []);
    assert input + [] == input;
    FrameLength(m);
    if k >= HEADER { assert input[..k][..HEADER] == input[..HEADER]; }
  }

  lemma FrameLength(m: Message)
    ensures |FrameBytes(m)| == HEADER + |Payload(m)|
  {
    hide Payload;
  }

  // Every report fits the C++ field types.
  ghost predicate Sendable(pid: int, sizes: seq<nat>) {
    forall i :: 0 <= i < |sizes| ==> Representable(ReportMessage(pid, sizes[i]))
  }

  lemma ReportsSendable(pid: int, sizes: seq<nat>)
    requires Sendable(pid, sizes)
    ensures forall m :: m in Reports(pid, sizes) ==> Representable(m)
  {
    hide Representable;
    forall m | m in Reports(pid, sizes) ensures Representable(m) {
      var i :| 0 <= i < |sizes| && Reports(pid, sizes)[i] == m;
      assert m == ReportMessage(pid, sizes[i]);
    }
  }

  // What the daemon decodes from one connection: the reports written whole, and nothing else -- in
  // particular no REGISTER.
  lemma DaemonHears(before: Store, entryBytes: nat, pid: int, stream: seq<Byte>, talk: Talk)
    requires entryBytes > 0 && Heard(before, entryBytes, pid, stream, talk)
    requires Sendable(pid, TakeAll(before, entryBytes, talk.handled).1)
    ensures var sizes := TakeAll(before, entryBytes, talk.handled).1;
            (talk.ending.None? ==> |sizes| > 0)
            && ServerDecode(talk.sent).0 == Reports(pid, if talk.ending.Some? then sizes else sizes[..|sizes| - 1])
    ensures forall m :: m in ServerDecode(talk.sent).0 ==> m.kind == REPORT_SIZE
  {
    hide ServerDecode, ClientDecode, FrameBytes, Frames, Take, Representable;
    var sizes := TakeAll(before, entryBytes, talk.handled).1;
    if talk.ending.Some? {
      ReportsSendable(pid, sizes);
      CommandsArrive(Reports(pid, sizes));
    } else {
      var n := |sizes| - 1;
      var whole := Reports(pid, sizes[..n]);
      var lost := ReportMessage(pid, sizes[n]);
      var k: nat :| k < |FrameBytes(lost)| && talk.sent == Frames(whole) + FrameBytes(lost)[..k];
      ReportsSendable(pid, sizes[..n]);
      assert Representable(ReportMessage(pid, sizes[n]));
      StreamRoundTrip(whole, FrameBytes(lost)[..k]);
      PartSaysNothing(lost, k);
    }
  }
}
