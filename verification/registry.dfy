// ClientRegistry: the daemon's table of connected clients, and the byte targets it broadcasts.
module Registry {
  import opened Wrappers
  import opened Decimal
  import opened Protocol
  import opened Framing
  import opened RealLaws
  import opened Transport

  type Fd = int

  datatype ClientInfo = ClientInfo(pid: int, currentSizeBytes: nat)

  type Table = map<Fd, ClientInfo>

  datatype Event = Accept(fd: Fd) | Deliver(fd: Fd, msg: Message) | Remove(fd: Fd)

  function Apply(t: Table, e: Event): Table {
    match e
    case Accept(fd) => t[fd := ClientInfo(0, 0)]
    case Remove(fd) => t - {fd}
    case Deliver(fd, msg) =>
      if fd !in t then t
      else if msg.kind == REGISTER then t[fd := ClientInfo(msg.pid, msg.currentSizeBytes)]
      else if msg.kind == REPORT_SIZE then t[fd := t[fd].(currentSizeBytes := msg.currentSizeBytes)]
      else t
  }

  function Run(es: seq<Event>): Table {
    if |es| == 0 then map[] else Apply(Run(es[..|es| - 1]), es[|es| - 1])
  }

  function DeliverAll(t: Table, fd: Fd, ms: seq<Message>): Table {
    if |ms| == 0 then t else DeliverAll(Apply(t, Deliver(fd, ms[0])), fd, ms[1..])
  }

  // ----- the table agrees with the history

  // Some accept of fd has not been followed by its removal.
  ghost predicate Connected(es: seq<Event>, fd: Fd) {
    exists i :: 0 <= i < |es| && es[i] == Accept(fd) && Remove(fd) !in es[i..]
  }

  // What an event says fd's size is, if it says anything.
  ghost function SizeSaid(e: Event, fd: Fd): Option<nat> {
    if e.fd != fd then None
    else match e
      case Accept(_) => Some(0)
      case Remove(_) => None
      case Deliver(_, msg) => if msg.kind == REGISTER || msg.kind == REPORT_SIZE then Some(msg.currentSizeBytes) else None
  }

  ghost function PidSaid(e: Event, fd: Fd): Option<int> {
    if e.fd != fd then None
    else match e
      case Accept(_) => Some(0)
      case Remove(_) => None
      case Deliver(_, msg) => if msg.kind == REGISTER then Some(msg.pid) else None
  }

  // size and pid are what the last event that says anything said.
  ghost predicate LastSize(es: seq<Event>, fd: Fd, size: nat) {
    exists i :: 0 <= i < |es| && SizeSaid(es[i], fd) == Some(size)
             && forall j :: i < j < |es| ==> SizeSaid(es[j], fd) == None
  }

  ghost predicate LastPid(es: seq<Event>, fd: Fd, pid: int) {
    exists i :: 0 <= i < |es| && PidSaid(es[i], fd) == Some(pid)
             && forall j :: i < j < |es| ==> PidSaid(es[j], fd) == None
  }

  lemma ConnectedSnoc(es: seq<Event>, e: Event, fd: Fd)
    ensures Connected(es + [e], fd) <==> e == Accept(fd) || (e != Remove(fd) && Connected(es, fd))
  {
    var all := es + [e];
    if e == Accept(fd) {
      assert all[|es|] == e && all[|es|..] == [e];
    }
    if e != Remove(fd) && Connected(es, fd) {
      var i :| 0 <= i < |es| && es[i] == Accept(fd) && Remove(fd) !in es[i..];
      assert all[i] == Accept(fd) && all[i..] == es[i..] + [e];
    }
    if Connected(all, fd) && e != Accept(fd) {
      var i :| 0 <= i < |all| && all[i] == Accept(fd) && Remove(fd) !in all[i..];
      assert all[i..] == es[i..] + [e];
      assert e in all[i..];
      assert es[i] == Accept(fd);
    }
  }

  lemma LastSizeSnoc(es: seq<Event>, e: Event, fd: Fd, size: nat)
    requires SizeSaid(e, fd) == Some(size) || (SizeSaid(e, fd) == None && LastSize(es, fd, size))
    ensures LastSize(es + [e], fd, size)
  {
    var all := es + [e];
    if SizeSaid(e, fd) == Some(size) {
      assert all[|es|] == e;
    } else {
      var i :| 0 <= i < |es| && SizeSaid(es[i], fd) == Some(size) && forall j :: i < j < |es| ==> SizeSaid(es[j], fd) == None;
      assert all[i] == es[i] && forall j :: i < j < |all| ==> SizeSaid(all[j], fd) == None;
    }
  }

  lemma LastPidSnoc(es: seq<Event>, e: Event, fd: Fd, pid: int)
    requires PidSaid(e, fd) == Some(pid) || (PidSaid(e, fd) == None && LastPid(es, fd, pid))
    ensures LastPid(es + [e], fd, pid)
  {
    var all := es + [e];
    if PidSaid(e, fd) == Some(pid) {
      assert all[|es|] == e;
    } else {
      var i :| 0 <= i < |es| && PidSaid(es[i], fd) == Some(pid) && forall j :: i < j < |es| ==> PidSaid(es[j], fd) == None;
      assert all[i] == es[i] && forall j :: i < j < |all| ==> PidSaid(all[j], fd) == None;
    }
  }

  // Over any run of accepts, messages and removals: the table holds exactly the connected clients,
  // each with the last size and pid it reported since it was accepted (0 if none).
  lemma {:induction false} TableIsHistory(es: seq<Event>, fd: Fd)
    ensures fd in Run(es) <==> Connected(es, fd)
    ensures fd in Run(es) ==> LastSize(es, fd, Run(es)[fd].currentSizeBytes) && LastPid(es, fd, Run(es)[fd].pid)
  {
    if |es| > 0 {
      var n := |es| - 1;
      assert es == es[..n] + [es[n]];
      TableIsHistory(es[..n], fd);
      ConnectedSnoc(es[..n], es[n], fd);
      if fd in Run(es) {
        LastSizeSnoc(es[..n], es[n], fd, Run(es)[fd].currentSizeBytes);
        LastPidSnoc(es[..n], es[n], fd, Run(es)[fd].pid);
      }
    }
  }

  lemma LastSizeUnique(es: seq<Event>, fd: Fd, a: nat, b: nat)
    requires LastSize(es, fd, a) && LastSize(es, fd, b)
    ensures a == b
  {
    var i :| 0 <= i < |es| && SizeSaid(es[i], fd) == Some(a) && forall j :: i < j < |es| ==> SizeSaid(es[j], fd) == None;
    var k :| 0 <= k < |es| && SizeSaid(es[k], fd) == Some(b) && forall j :: k < j < |es| ==> SizeSaid(es[j], fd) == None;
    assert i == k;
  }

  // ----- totals

  lemma HasElement(s: set<Fd>)
    requires |s| > 0
    ensures exists x :: x in s
  {
    assert (forall x: Fd :: x !in s) ==> s == {};
  }

  lemma DropSize<T>(m: map<Fd, T>, fd: Fd)
    requires fd in m
    ensures |m - {fd}| == |m| - 1
  {
    assert m.Keys == (m - {fd}).Keys + {fd};
  }

  // The client the definition of Sum happens to add first.
  ghost function FirstPicked(m: map<Fd, nat>): (k: Fd)
    requires |m| > 0
    ensures k in m
  {
    HasElement(m.Keys);
    var fd :| fd in m.Keys;
    fd
  }

  ghost function Sum(m: map<Fd, nat>): (n: nat)
    decreases |m|
  {
    if |m| == 0 then 0
    else
      var fd := FirstPicked(m);
      DropSize(m, fd);
      m[fd] + Sum(m - {fd})
  }

  // The order of the terms does not matter.
  lemma {:induction false} SumPick(m: map<Fd, nat>, fd: Fd)
    requires fd in m
    ensures Sum(m) == m[fd] + Sum(m - {fd})
    decreases |m|
  {
    hide FirstPicked;
    DropSize(m, fd);
    var k := FirstPicked(m);
    if k != fd {
      DropSize(m, k);
      SumPick(m - {k}, fd);
      SumPick(m - {fd}, k);
      assert m - {k} - {fd} == m - {fd} - {k};
    }
  }

  ghost function Sizes(t: Table): map<Fd, nat> {
    map fd | fd in t :: t[fd].currentSizeBytes
  }

  ghost function Total(t: Table): nat {
    Sum(Sizes(t))
  }

  // Any client may be added first.
  lemma TotalPick(t: Table, fd: Fd)
    requires fd in t
    ensures Total(t) == t[fd].currentSizeBytes + Total(t - {fd})
  {
    SumPick(Sizes(t), fd);
    assert Sizes(t - {fd}) == Sizes(t) - {fd};
  }

  // The client count is the number of connected clients.
  lemma CountIsConnected(es: seq<Event>, connected: set<Fd>)
    requires forall fd :: fd in connected <==> Connected(es, fd)
    ensures Run(es).Keys == connected && |Run(es)| == |connected|
  {
    forall fd: Fd ensures fd in Run(es) <==> fd in connected { TableIsHistory(es, fd); }
  }

  // The total is the sum, over the connected clients, of the last size each of them said.
  lemma TotalIsReported(es: seq<Event>, said: map<Fd, nat>)
    requires forall fd :: fd in said <==> Connected(es, fd)
    requires forall fd :: fd in said ==> LastSize(es, fd, said[fd])
    ensures Total(Run(es)) == Sum(said)
  {
    hide Connected, LastSize, Run, Sum, Total;
    CountIsConnected(es, said.Keys);
    forall fd | fd in said ensures Run(es)[fd].currentSizeBytes == said[fd] {
      TableIsHistory(es, fd);
      LastSizeUnique(es, fd, said[fd], Run(es)[fd].currentSizeBytes);
    }
    assert Sizes(Run(es)) == said;
    TotalIs(Run(es));
  }

  lemma TotalIs(t: Table)
    ensures Total(t) == Sum(Sizes(t))
  {
  }

  // ----- broadcasts, in exact reals with the conversion to uint64 as floor

  datatype Direction = Shrinking | Growing

  function Factor(dir: Direction, fraction: real): real {
    if dir == Growing then 1.0 + fraction else 1.0 - fraction
  }

  // The scaled size before rounding.
  function Exact(dir: Direction, size: nat, fraction: real): real {
    Times(size as real, Factor(dir, fraction))
  }

  function Target(dir: Direction, size: nat, fraction: real): (target: nat)
    requires 0.0 <= fraction <= 1.0
    ensures target as real <= Exact(dir, size, fraction) < target as real + 1.0
  {
    Units(Factor(dir, fraction));
    Monotone(0.0, size as real, Factor(dir, fraction));
    Exact(dir, size, fraction).Floor
  }

  function TargetMessage(dir: Direction, size: nat, fraction: real): Message
    requires 0.0 <= fraction <= 1.0
  {
    Message(if dir == Growing then GROW else SHRINK, 0, Target(dir, size, fraction), 0, 0)
  }

  // One message to each client of t, in some order.
  ghost predicate IsBroadcast(t: Table, dir: Direction, fraction: real, sent: seq<(Fd, Message)>)
    requires 0.0 <= fraction <= 1.0
  {
    && |sent| == |t|
    && (forall i, j :: 0 <= i < j < |sent| ==> sent[i].0 != sent[j].0)
    && (forall i :: 0 <= i < |sent| ==>
          sent[i].0 in t && sent[i].1 == TargetMessage(dir, t[sent[i].0].currentSizeBytes, fraction))
  }

  ghost function TargetSum(sent: seq<(Fd, Message)>): nat {
    if |sent| == 0 then 0 else TargetSum(sent[..|sent| - 1]) + sent[|sent| - 1].1.targetBytes
  }

  // However the clients are ordered, the targets add up to the scaled total, short of it by less
  // than one byte per client.
  lemma {:induction false} BroadcastSum(t: Table, dir: Direction, fraction: real, sent: seq<(Fd, Message)>)
    requires 0.0 <= fraction <= 1.0 && IsBroadcast(t, dir, fraction, sent)
    ensures var exact := Exact(dir, Total(t), fraction);
            && TargetSum(sent) as real <= exact
            && (if |t| == 0 then exact == 0.0 else exact - |t| as real < TargetSum(sent) as real)
    decreases |sent|
  {
    hide IsBroadcast, Exact, Target, TargetMessage, Total;
    BroadcastSize(t, dir, fraction, sent);
    ExactZero(dir, fraction);
    if |sent| == 0 {
      EmptyTotal(t);
    } else {
      var n := |sent| - 1;
      LastSent(t, dir, fraction, sent);
      var fd := sent[n].0;
      TotalPick(t, fd);
      BroadcastRest(t, dir, fraction, sent);
      BroadcastSum(t - {fd}, dir, fraction, sent[..n]);
      SumStep(dir, fraction, t[fd].currentSizeBytes, Total(t - {fd}), TargetSum(sent[..n]), n);
    }
  }

  lemma ExactZero(dir: Direction, fraction: real)
    ensures Exact(dir, 0, fraction) == 0.0
  {
  }

  lemma BroadcastSize(t: Table, dir: Direction, fraction: real, sent: seq<(Fd, Message)>)
    requires 0.0 <= fraction <= 1.0 && IsBroadcast(t, dir, fraction, sent)
    ensures |sent| == |t|
  {
  }

  lemma LastSent(t: Table, dir: Direction, fraction: real, sent: seq<(Fd, Message)>)
    requires 0.0 <= fraction <= 1.0 && IsBroadcast(t, dir, fraction, sent) && |sent| > 0
    ensures var (fd, msg) := sent[|sent| - 1];
            fd in t && msg.targetBytes == Target(dir, t[fd].currentSizeBytes, fraction)
  {
  }

  lemma BroadcastRest(t: Table, dir: Direction, fraction: real, sent: seq<(Fd, Message)>)
    requires 0.0 <= fraction <= 1.0 && IsBroadcast(t, dir, fraction, sent) && |sent| > 0
    ensures var n := |sent| - 1;
            |t - {sent[n].0}| == n && IsBroadcast(t - {sent[n].0}, dir, fraction, sent[..n])
  {
    hide Target, TargetMessage;
    var fd := sent[|sent| - 1].0;
    assert t.Keys == (t - {fd}).Keys + {fd};
  }

  lemma SumStep(dir: Direction, fraction: real, size: nat, total: nat, sum: nat, n: nat)
    requires 0.0 <= fraction <= 1.0
    requires var exact := Exact(dir, total, fraction);
             sum as real <= exact && (if n == 0 then exact == 0.0 else exact - n as real < sum as real)
    ensures var exact := Exact(dir, size + total, fraction);
            var more := sum + Target(dir, size, fraction);
            more as real <= exact && exact - (n + 1) as real < more as real
  {
    hide Factor, Target, Exact;
    ExactAdds(dir, size, total, fraction);
  }

  lemma ExactAdds(dir: Direction, a: nat, b: nat, fraction: real)
    ensures Exact(dir, a + b, fraction) == Exact(dir, a, fraction) + Exact(dir, b, fraction)
  {
    hide Factor, Times;
    Distributes(a as real, b as real, Factor(dir, fraction));
  }

  // uint64_t arithmetic
  lemma WrappedIs(n: nat)
    ensures Wrapped(n) == n % 18446744073709551616
  {
  }

  function Wrapped(n: nat): nat {
    n % TWO64
  }

  // ----- the class

  class ClientRegistry {
    var clients: Table
    var outbox: seq<(Fd, Message)>  // the messages handed to send_to_client, oldest first

    constructor ()
      ensures clients == map[] && outbox == []
    {
      clients, outbox := map[], [];
    }

    // handle_new_connection, for one accepted descriptor
    method HandleNewConnection(fd: Fd)
      modifies this`clients
      ensures clients == Apply(old(clients), Accept(fd))
    {
      clients := clients[fd := ClientInfo(0, 0)];
    }

    method RemoveClient(fd: Fd)
      modifies this`clients
      ensures clients == Apply(old(clients), Remove(fd))
    {
      if fd in clients { clients := clients - {fd}; }
    }

    // What handle_client_message does with one decoded message.
    method Record(fd: Fd, msg: Message)
      modifies this`clients
      ensures clients == Apply(old(clients), Deliver(fd, msg))
    {
      if fd in clients {
        if msg.kind == REGISTER {
          clients := clients[fd := clients[fd].(pid := msg.pid, currentSizeBytes := msg.currentSizeBytes)];
        } else if msg.kind == REPORT_SIZE {
          clients := clients[fd := clients[fd].(currentSizeBytes := msg.currentSizeBytes)];
        }
      }
    }

    // handle_client_message: read frames until nothing is left. closed says whether the peer has
    // closed its end. If it has not, and has written only part of a payload, the source's inner loop
    // repeats its read for ever; the method then stops inside that loop and says so.
    method HandleClientMessage(fd: Fd, sock: Socket, closed: bool) returns (spinning: bool)
      modifies this`clients, sock`incoming
      ensures var t := DeliverAll(old(clients), fd, ServerDecode(old(sock.incoming)).0);
              clients == if closed then Apply(t, Remove(fd)) else t
      ensures spinning <==> !closed && ServerDecode(old(sock.incoming)).1 == Truncated
    {
      hide Decode, FromBigEndian, Apply, DeliverAll;
      ghost var input := sock.incoming;
      ghost var handled := [];
      DeliverNone(clients, fd, ServerDecode(input).0);
      while true
        invariant clients == DeliverAll(old(clients), fd, handled)
        invariant ServerDecode(input) == (handled + ServerDecode(sock.incoming).0, ServerDecode(sock.incoming).1)
        decreases |sock.incoming|
      {
        ghost var now := sock.incoming;
        assert handled + [] == handled;
        var header := sock.ReadHeader();
        if |header| < HEADER {
          if closed { RemoveClient(fd); }
          return false;
        }
        assert now[..HEADER] == header;
        var len := FromBigEndian(header);
        var payload := ReadPayload(sock, len);
        if |payload| < len {
          if closed { RemoveClient(fd); }
          return !closed;
        }
        assert now[HEADER..HEADER + len] == payload && now[HEADER + len..] == sock.incoming;
        var msg := Deserialize(ToText(payload));
        if msg.Success? {
          Record(fd, msg.value);
          DeliverSnoc(old(clients), fd, handled, msg.value);
          SnocAssoc(handled, msg.value, ServerDecode(sock.incoming).0);
          handled := handled + [msg.value];
        }
      }
    }

    // get_client_count, for a table that has come about through the events es
    method GetClientCount(ghost es: seq<Event>, ghost connected: set<Fd>) returns (n: nat)
      requires clients == Run(es) && forall fd :: fd in connected <==> Connected(es, fd)
      ensures n == |connected|
    {
      CountIsConnected(es, connected);
      n := |clients|;
    }

    // get_total_cache_size: the sum over the clients, in whatever order, modulo 2^64
    method GetTotalCacheSize() returns (total: nat)
      ensures total == Total(clients) % 18446744073709551616
    {
      WrappedIs(Total(clients));
      hide Total, Wrapped;
      total := 0;
      var left := clients;
      WrapSmall(0);
      while |left.Keys| > 0
        invariant Wrapped(total + Total(left)) == Wrapped(Total(clients))
        invariant Wrapped(total) == total
        decreases |left|
      {
        HasElement(left.Keys);
        var fd :| fd in left.Keys;
        TotalPick(left, fd);
        DropSize(left, fd);
        WrapAdd(total, left[fd].currentSizeBytes, Total(left - {fd}));
        total := Wrapped(total + left[fd].currentSizeBytes);
        left := left - {fd};
      }
      EmptyTotal(left);
    }

    // one client's turn: the whole frame, or a prefix of it if the write failed
    method Send(fd: Fd, sock: Socket, msg: Message)
      modifies this`outbox, sock
      ensures outbox == old(outbox) + [(fd, msg)] && Wrote(old(sock.sent), sock.sent, msg)
    {
      hide FrameBytes, Wrote;
      outbox := outbox + [(fd, msg)];
      var complete := SendToClient(sock, msg);
      WroteEither(old(sock.sent), sock.sent, msg, complete);
    }

    // broadcast_shrink and broadcast_grow: to each client, over its own socket, its own message --
    // the whole frame, or a prefix of it if the write failed.
    method Broadcast(dir: Direction, fraction: real, socks: map<Fd, Socket>) returns (ghost sent: seq<(Fd, Message)>)
      requires 0.0 <= fraction <= 1.0 && clients.Keys <= socks.Keys
      requires forall f, g :: f in socks && g in socks && f != g ==> socks[f] != socks[g]
      modifies this`outbox, set f | f in socks :: socks[f]
      ensures IsBroadcast(clients, dir, fraction, sent) && outbox == old(outbox) + sent
      ensures forall f :: f in clients ==>
                Wrote(old(socks[f].sent), socks[f].sent, TargetMessage(dir, clients[f].currentSizeBytes, fraction))
      ensures forall f :: f in socks && f !in clients ==> socks[f].sent == old(socks[f].sent)
    {
      hide FrameBytes, TargetMessage, Wrote, IsBroadcast;
      sent := [];
      var left := clients.Keys;
      NothingSent(clients, dir, fraction);
      while |left| > 0
        invariant left <= clients.Keys && IsBroadcast(clients - left, dir, fraction, sent)
        invariant outbox == old(outbox) + sent
        invariant clients == old(clients)
        invariant forall f :: f in socks && (f in left || f !in clients) ==> socks[f].sent == old(socks[f].sent)
        invariant forall f :: f in clients && f !in left ==>
                    Wrote(old(socks[f].sent), socks[f].sent, TargetMessage(dir, clients[f].currentSizeBytes, fraction))
        decreases left
      {
        HasElement(left);
        var fd :| fd in left;
        var msg := TargetMessage(dir, clients[fd].currentSizeBytes, fraction);
        Send(fd, socks[fd], msg);
        OneMoreSent(clients, left, fd, dir, fraction, sent);
        sent := sent + [(fd, msg)];
        left := left - {fd};
      }
      assert clients - left == clients;
    }
  }

  lemma NothingSent(t: Table, dir: Direction, fraction: real)
    requires 0.0 <= fraction <= 1.0
    ensures IsBroadcast(t - t.Keys, dir, fraction, [])
  {
    assert (t - t.Keys).Keys == {};
  }

  lemma OneMoreSent(t: Table, left: set<Fd>, fd: Fd, dir: Direction, fraction: real, sent: seq<(Fd, Message)>)
    requires 0.0 <= fraction <= 1.0 && left <= t.Keys && fd in left && IsBroadcast(t - left, dir, fraction, sent)
    ensures IsBroadcast(t - (left - {fd}), dir, fraction, sent + [(fd, TargetMessage(dir, t[fd].currentSizeBytes, fraction))])
  {
    hide TargetMessage;
    var more := t - (left - {fd});
    assert more - {fd} == t - left;
    DropSize(more, fd);
  }

  // The frame of msg, or a prefix of it, has been written.
  ghost predicate Wrote(before: seq<Byte>, after: seq<Byte>, msg: Message) {
    exists k: nat :: k <= |FrameBytes(msg)| && after == before + FrameBytes(msg)[..k]
  }

  lemma WroteEither(before: seq<Byte>, after: seq<Byte>, msg: Message, complete: bool)
    requires complete ==> after == before + FrameBytes(msg)
    requires !complete ==> SentPart(before, after, msg)
    ensures Wrote(before, after, msg)
  {
    hide FrameBytes;
    if complete {
      assert FrameBytes(msg)[..|FrameBytes(msg)|] == FrameBytes(msg);
    }
  }

  lemma EmptyTotal(t: Table)
    requires |t.Keys| == 0
    ensures Total(t) == 0
  {
  }

  lemma WrapSmall(n: nat)
    requires n < TWO64
    ensures Wrapped(n) == n
  {
  }

  lemma WrapAdd(a: nat, b: nat, c: nat)
    ensures Wrapped(Wrapped(a + b) + c) == Wrapped(a + (b + c))
    ensures Wrapped(Wrapped(a + b)) == Wrapped(a + b)
  {
  }

  lemma DeliverNone(t: Table, fd: Fd, ms: seq<Message>)
    ensures DeliverAll(t, fd, []) == t && [] + ms == ms
  {
  }

  lemma {:induction false} DeliverSnoc(t: Table, fd: Fd, ms: seq<Message>, m: Message)
    ensures DeliverAll(t, fd, ms + [m]) == Apply(DeliverAll(t, fd, ms), Deliver(fd, m))
  {
    if |ms| == 0 {
      assert ms + [m] == [m];
      assert DeliverAll(Apply(t, Deliver(fd, m)), fd, [m][1..]) == Apply(t, Deliver(fd, m));
    } else {
      assert (ms + [m])[1..] == ms[1..] + [m];
      DeliverSnoc(Apply(t, Deliver(fd, ms[0])), fd, ms[1..], m);
    }
  }
}
