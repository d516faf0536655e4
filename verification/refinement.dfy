// The classes refine the closed loop: what the daemon, the registry and a client do over sockets is
// what the moves do to the abstracted world.
module Refinement {
  import opened Wrappers
  import opened Policy
  import opened Daemon
  import opened Transport
  import opened Framing
  import opened GovernedModel
  import opened Listener
  import opened Registry
  import opened ClosedLoop
  import GovernedCache
  import Protocol

  function Repeat(m: Move, n: nat): (ms: seq<Move>)
    ensures |ms| == n && forall i :: 0 <= i < n ==> ms[i] == m
  {
    seq(n, i => m)
  }

  lemma RepeatStep(cfg: seq<TierConfig>, w: World, m: Move, n: nat)
    requires FractionsOk(cfg) && w.engine.tier < |cfg| && n > 0
    ensures After(cfg, w, Repeat(m, n)) == Next(cfg, After(cfg, w, Repeat(m, n - 1)), m)
  {
    hide Next;
    assert Repeat(m, n)[..n - 1] == Repeat(m, n - 1);
  }

  // Delivering k commands is taking them one after another.
  ghost function Taken(l: Link, k: nat): Link
    requires k <= |l.down|
  {
    var (cache, sizes) := TakeAll(l.cache, l.entryBytes, l.down[..k]);
    l.(cache := cache, down := l.down[k..], up := l.up + Reports(l.pid, sizes))
  }

  lemma TakenNext(l: Link, k: nat)
    requires k < |l.down|
    ensures Handled(Taken(l, k)) == Taken(l, k + 1)
  {
    hide Take;
    var (cache, sizes) := TakeAll(l.cache, l.entryBytes, l.down[..k]);
    assert l.down[..k + 1] == l.down[..k] + [l.down[k]];
    TakeSnoc(l.cache, l.entryBytes, l.down[..k], l.down[k]);
    var report := Take(cache, l.entryBytes, l.down[k]).1;
    if report.Some? {
      assert Reports(l.pid, sizes + [report.value]) == Reports(l.pid, sizes) + [ReportMessage(l.pid, report.value)];
    }
  }

  lemma {:induction false} DeliversDown(cfg: seq<TierConfig>, w: World, fd: Fd, k: nat)
    requires FractionsOk(cfg) && w.engine.tier < |cfg| && fd in w.links && k <= |w.links[fd].down|
    ensures After(cfg, w, Repeat(DeliverDown(fd), k)) == w.(links := w.links[fd := Taken(w.links[fd], k)])
  {
    hide Taken, Handled;
    if k == 0 {
      TakenNone(w.links[fd]);
      assert w.links[fd := w.links[fd]] == w.links;
    } else {
      DeliversDown(cfg, w, fd, k - 1);
      RepeatStep(cfg, w, DeliverDown(fd), k);
      TakenLeaves(w.links[fd], k - 1);
      TakenNext(w.links[fd], k - 1);
      assert w.links[fd := Taken(w.links[fd], k - 1)][fd := Taken(w.links[fd], k)] == w.links[fd := Taken(w.links[fd], k)];
    }
  }

  lemma TakenNone(l: Link)
    ensures Taken(l, 0) == l
  {
    assert l.down[0..] == l.down && l.up + Reports(l.pid, []) == l.up;
  }

  lemma TakenLeaves(l: Link, k: nat)
    requires k <= |l.down|
    ensures Taken(l, k).down == l.down[k..]
  {
  }

  lemma {:induction false} DeliverSnocTable(t: Table, fd: Fd, ms: seq<Message>, k: nat)
    requires k < |ms|
    ensures DeliverAll(t, fd, ms[..k + 1]) == Apply(DeliverAll(t, fd, ms[..k]), Deliver(fd, ms[k]))
    decreases k
  {
    hide Apply;
    if k == 0 {
      assert ms[..1][1..] == [] && ms[..0] == [];
    } else {
      assert ms[..k + 1][1..] == ms[1..][..k] && ms[..k][1..] == ms[1..][..k - 1];
      DeliverSnocTable(Apply(t, Deliver(fd, ms[0])), fd, ms[1..], k - 1);
    }
  }

  lemma {:induction false} DeliversUp(cfg: seq<TierConfig>, w: World, fd: Fd, k: nat)
    requires FractionsOk(cfg) && w.engine.tier < |cfg| && fd in w.links && k <= |w.links[fd].up|
    ensures var l := w.links[fd];
            After(cfg, w, Repeat(DeliverUp(fd), k)) ==
            w.(table := DeliverAll(w.table, fd, l.up[..k]), links := w.links[fd := l.(up := l.up[k..])])
  {
    hide Apply;
    var l := w.links[fd];
    if k == 0 {
      assert l.up[0..] == l.up && w.links[fd := l] == w.links;
    } else {
      DeliversUp(cfg, w, fd, k - 1);
      RepeatStep(cfg, w, DeliverUp(fd), k);
      DeliverSnocTable(w.table, fd, l.up, k - 1);
      assert l.up[k - 1..][1..] == l.up[k..];
      assert w.links[fd := l.(up := l.up[k - 1..])][fd := l.(up := l.up[k..])] == w.links[fd := l.(up := l.up[k..])];
    }
  }

  // ----- the classes

  // The poll of the daemon is the move Poll: its engine and table are those of the next world, and
  // what it writes to each client is what the move adds to the messages on their way, as a whole frame
  // or, where the write fails, a part of it.
  method PollIsNext(daemon: GovernorDaemon, socks: map<Fd, Socket>, ghost w: World, x: PsiData)
    returns (ghost action: Action, ghost sent: seq<(Fd, Protocol.Message)>)
    requires daemon.engine.Valid() && FractionsOk(daemon.engine.configs)
    requires daemon.engine.Model() == w.engine && daemon.registry.clients == w.table && w.table.Keys == w.links.Keys
    requires w.table.Keys <= socks.Keys
    requires forall f, g :: f in socks && g in socks && f != g ==> socks[f] != socks[g]
    modifies daemon.engine, daemon.registry`outbox, set f | f in socks :: socks[f]
    ensures daemon.engine.Valid() && daemon.engine.configs == old(daemon.engine.configs)
    ensures var r := Next(daemon.engine.configs, w, Poll(x));
            && daemon.engine.Model() == r.engine && daemon.registry.clients == r.table && r.links.Keys == w.links.Keys
            && forall f :: f in w.links ==>
                 if action.kind == NONE then r.links[f].down == w.links[f].down && socks[f].sent == old(socks[f].sent)
                 else
                   |r.links[f].down| == |w.links[f].down| + 1 && w.links[f].down <= r.links[f].down
                   && Wrote(old(socks[f].sent), socks[f].sent, r.links[f].down[|w.links[f].down|])
  {
    hide Wrote, TargetMessage, IsBroadcast, Step;
    action, sent := daemon.OnPsiUpdate(x, socks);
  }

  // Accepting a client that starts is the move Join.
  method JoinIsNext(registry: ClientRegistry, governed: GovernedCache.GovernedCache, ghost cfg: seq<TierConfig>, ghost w: World, fd: Fd)
    returns (registered: bool)
    requires FractionsOk(cfg) && w.engine.tier < |cfg| && fd !in w.links && registry.clients == w.table
    requires governed.Valid() && !governed.client.connected
    modifies registry`clients, governed.client`connected, governed.client.sock`sent
    ensures governed.Valid() && governed.client.sock == old(governed.client.sock)
    ensures var r := Next(cfg, w, Join(fd, governed.cache.Model(), governed.estimatedEntryBytes, governed.client.pid, true));
            && registry.clients == r.table && fd in r.links
            && (registered ==> governed.client.sock.sent == old(governed.client.sock.sent) + Frames(r.links[fd].up))
  {
    hide FrameBytes, GovernedCache.GovernedCache.Valid, Apply;
    registry.HandleNewConnection(fd);
    registered := governed.Start(true);
    ghost var hello := RegisterMessage(governed.client.pid, |governed.cache.Model().items| * governed.estimatedEntryBytes);
    assert FrameBytes(hello) + Frames([]) == FrameBytes(hello) && Frames([hello]) == FrameBytes(hello) + Frames([hello][1..]);
  }

  // The listener, hearing a client's pending commands to the end, is that many deliveries down.
  method ListenIsDelivered(governed: GovernedCache.GovernedCache, ghost cfg: seq<TierConfig>, ghost w: World, ghost fd: Fd)
    returns (ending: Option<Ending>, ghost talk: Talk)
    requires FractionsOk(cfg) && w.engine.tier < |cfg| && fd in w.links
    requires governed.Valid() && governed.client.connected
    requires var l := w.links[fd];
             && governed.cache.Model() == l.cache && governed.estimatedEntryBytes == l.entryBytes && governed.client.pid == l.pid
             && governed.client.sock.incoming == Frames(l.down) && forall m :: m in l.down ==> Protocol.Representable(m)
    modifies governed.cache, governed.cache.list, governed.client`connected
    modifies governed.client.sock`sent, governed.client.sock`incoming
    ensures governed.Valid() && governed.client.sock == old(governed.client.sock) && |talk.handled| <= |w.links[fd].down|
    ensures var r := After(cfg, w, Repeat(DeliverDown(fd), |talk.handled|));
            && fd in r.links && governed.cache.Model() == r.links[fd].cache && w.links[fd].up <= r.links[fd].up
            && (ending.Some? ==>
                  && r.links[fd].down == []
                  && governed.client.sock.sent == old(governed.client.sock.sent) + Frames(r.links[fd].up[|w.links[fd].up|..]))
  {
    hide ClientDecode, Frames, Take, TakeAll, GovernedCache.GovernedCache.Valid;
    ending, talk := governed.Listen();
    ghost var l := w.links[fd];
    CommandsArrive(l.down);
    assert talk.handled == l.down[..|talk.handled|];
    DeliversDown(cfg, w, fd, |talk.handled|);
  }

  // The registry, reading what a connected client has written, is that many deliveries up.
  method CollectIsDelivered(registry: ClientRegistry, sock: Socket, ghost cfg: seq<TierConfig>, ghost w: World, fd: Fd)
    returns (spinning: bool)
    requires FractionsOk(cfg) && w.engine.tier < |cfg| && fd in w.links && registry.clients == w.table
    requires sock.incoming == Frames(w.links[fd].up) && forall m :: m in w.links[fd].up ==> Protocol.Representable(m)
    modifies registry`clients, sock`incoming
    ensures !spinning
    ensures var r := After(cfg, w, Repeat(DeliverUp(fd), |w.links[fd].up|));
            registry.clients == r.table && fd in r.links && r.links[fd].up == []
  {
    hide ServerDecode, Frames, DeliverAll;
    spinning := registry.HandleClientMessage(fd, sock, false);
    ghost var up := w.links[fd].up;
    CommandsArrive(up);
    DeliversUp(cfg, w, fd, |up|);
    assert up[..|up|] == up;
  }
}
