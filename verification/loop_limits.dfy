// What the closed loop does outside the envelope: a client of which nothing is on record, and a GROW
// computed from a stale report.
module LoopLimits {
  import opened Wrappers
  import opened RealLaws
  import opened Policy
  import opened Daemon
  import opened Transport
  import opened GovernedModel
  import opened Registry
  import opened ClosedLoop
  import Protocol
  import Lru = LruModel

  // ----- zero is absorbing

  // Everything said about the client so far is size 0, and everything it has been told is target 0.
  ghost predicate SilentZero(w: World, fd: Fd) {
    && fd in w.links && fd in w.table && w.table[fd].currentSizeBytes == 0
    && (forall i :: 0 <= i < |w.links[fd].down| ==> w.links[fd].down[i].targetBytes == 0)
    && (forall i :: 0 <= i < |w.links[fd].up| ==> w.links[fd].up[i].currentSizeBytes == 0)
  }

  lemma ZeroTarget(dir: Direction, fraction: real)
    requires 0.0 <= fraction <= 1.0
    ensures Target(dir, 0, fraction) == 0
  {
    Units(Factor(dir, fraction));
  }

  // The daemon keeps computing 0 from 0; a SHRINK to 0 empties the cache and reports 0; after that
  // neither command applies. No hypothesis on the order of the moves is needed.
  lemma SilentZeroKeeps(cfg: seq<TierConfig>, w: World, m: Move, fd: Fd)
    requires FractionsOk(cfg) && w.engine.tier < |cfg| && SilentZero(w, fd)
    ensures var r := Next(cfg, w, m);
            && SilentZero(r, fd)
            && (w.links[fd].cache.capacity == 0 ==> r.links[fd].cache.capacity == 0)
            && (w.links[fd].cache.capacity == 0 && !(m.Use? && m.fd == fd && !m.op.Resize?) ==>
                  r.links[fd].cache == w.links[fd].cache)
            && (m.Use? && m.fd == fd && !m.op.Resize? ==>
                  r.links[fd].cache == Lru.Apply(w.links[fd].cache, m.op))
  {
    hide Target, Factor;
    match m
    case Poll(x) =>
      ActionFraction(cfg, w.engine, x);
      var a := Step(cfg, w.engine, x).1;
      ZeroTarget(DirectionOf(a.kind), a.fraction);
    case Join(_, _, _, _, _) =>
    case DeliverDown(other) =>
    case DeliverUp(other) =>
    case Use(other, op) =>
  }

  // What fd's application asks of its cache in a run of moves.
  ghost function Requests(ms: seq<Move>, fd: Fd): seq<Lru.Op<string, string>> {
    if |ms| == 0 then []
    else
      var m := ms[|ms| - 1];
      Requests(ms[..|ms| - 1], fd) + if m.Use? && m.fd == fd && !m.op.Resize? then [m.op] else []
  }

  lemma {:induction false} RequestsAreNoResizes(ms: seq<Move>, fd: Fd)
    ensures forall i :: 0 <= i < |Requests(ms, fd)| ==> !Requests(ms, fd)[i].Resize?
  {
    if |ms| > 0 { RequestsAreNoResizes(ms[..|ms| - 1], fd); }
  }

  lemma {:induction false} SilentZeroRun(cfg: seq<TierConfig>, w: World, ms: seq<Move>, fd: Fd)
    requires FractionsOk(cfg) && w.engine.tier < |cfg| && SilentZero(w, fd)
    ensures var r := After(cfg, w, ms);
            && SilentZero(r, fd)
            && (w.links[fd].cache.capacity == 0 ==>
                  r.links[fd].cache == Lru.Run(w.links[fd].cache, Requests(ms, fd)) && r.links[fd].cache.capacity == 0)
  {
    if |ms| > 0 {
      hide SilentZero, Next, Lru.Apply;
      var n := |ms| - 1;
      var b := After(cfg, w, ms[..n]);
      SilentZeroRun(cfg, w, ms[..n], fd);
      SilentZeroLinked(b, fd);
      SilentZeroLinked(w, fd);
      SilentZeroKeeps(cfg, b, ms[n], fd);
      SilentZeroLinked(Next(cfg, b, ms[n]), fd);
      if ms[n].Use? && ms[n].fd == fd && !ms[n].op.Resize? {
        RunSnoc(w.links[fd].cache, Requests(ms[..n], fd), ms[n].op);
      } else {
        assert Requests(ms, fd) == Requests(ms[..n], fd);
      }
    }
  }

  lemma SilentZeroLinked(w: World, fd: Fd)
    requires SilentZero(w, fd)
    ensures fd in w.links
  {
  }

  lemma RunSnoc(c: Store, ops: seq<Lru.Op<string, string>>, op: Lru.Op<string, string>)
    ensures Lru.Run(c, ops + [op]) == Lru.Apply(Lru.Run(c, ops), op)
  {
    assert (ops + [op])[..|ops|] == ops;
  }

  // A client that registers with an empty cache, or reconnects without registering whatever its cache
  // holds, in any run at all: the first SHRINK that reaches it empties it, its capacity is 0 ever
  // after, and from then on it evicts nothing -- its size is the number of distinct keys put since.
  lemma SilentJoin(cfg: seq<TierConfig>, w: World, fd: Fd, cache: Store, entryBytes: Positive, pid: int, registers: bool,
                   before: seq<Move>, after: seq<Move>)
    requires FractionsOk(cfg) && w.engine.tier < |cfg| && fd !in w.links && (registers ==> |cache.items| == 0)
    requires var b := After(cfg, Next(cfg, w, Join(fd, cache, entryBytes, pid, registers)), before);
             && fd in b.links && b.links[fd].cache.capacity > 0
             && |b.links[fd].down| > 0 && b.links[fd].down[0].kind == Protocol.SHRINK
    ensures var b := After(cfg, Next(cfg, w, Join(fd, cache, entryBytes, pid, registers)), before);
            var emptied := Next(cfg, b, DeliverDown(fd));
            var last := After(cfg, emptied, after);
            && fd in emptied.links && |emptied.links[fd].cache.items| == 0
            && fd in last.links && last.links[fd].cache.capacity == 0
            && |last.links[fd].cache.items| == |Lru.StoredKeys(Requests(after, fd))|
            && fd in last.table && last.table[fd].currentSizeBytes == 0
  {
    var j := Next(cfg, w, Join(fd, cache, entryBytes, pid, registers));
    assert SilentZero(j, fd);
    SilentZeroRun(cfg, j, before, fd);
    var b := After(cfg, j, before);
    FirstShrink(cfg, b, fd);
    var emptied := Next(cfg, b, DeliverDown(fd));
    SilentZeroRun(cfg, emptied, after, fd);
    RequestsAreNoResizes(after, fd);
    Lru.ZeroCapacityIsUnbounded(emptied.links[fd].cache, Requests(after, fd));
  }

  lemma FirstShrink(cfg: seq<TierConfig>, b: World, fd: Fd)
    requires FractionsOk(cfg) && b.engine.tier < |cfg| && SilentZero(b, fd)
    requires b.links[fd].cache.capacity > 0
    requires |b.links[fd].down| > 0 && b.links[fd].down[0].kind == Protocol.SHRINK
    ensures var r := Next(cfg, b, DeliverDown(fd));
            SilentZero(r, fd) && r.links[fd].cache.capacity == 0 && |r.links[fd].cache.items| == 0
  {
    SilentZeroKeeps(cfg, b, DeliverDown(fd), fd);
    assert 0 / b.links[fd].entryBytes == 0;
  }

  // ----- a stale report

  function Pressure(avg10: real): PsiData {
    PsiData(avg10, 0.0, 0.0, 0, 0.0, 0.0, 0.0, 0)
  }

  // Three polls push the default policy from NORMAL to ELEVATED, three more bring it back.
  lemma UpAndDown()
    ensures var cfg := DefaultConfigs();
            && Step(cfg, State(0, 0, 0), Pressure(6.0)) == (State(0, 1, 0), Action(NONE, 0.0, 0))
            && Step(cfg, State(0, 1, 0), Pressure(6.0)) == (State(0, 2, 0), Action(NONE, 0.0, 0))
            && Step(cfg, State(0, 2, 0), Pressure(6.0)) == (State(1, 0, 0), Action(SHRINK, 0.1, 1))
            && Step(cfg, State(1, 0, 0), Pressure(1.0)) == (State(1, 0, 1), Action(NONE, 0.0, 1))
            && Step(cfg, State(1, 0, 1), Pressure(1.0)) == (State(1, 0, 2), Action(NONE, 0.0, 1))
            && Step(cfg, State(1, 0, 2), Pressure(1.0)) == (State(0, 0, 0), Action(GROW, 0.1, 0))
  {
  }

  lemma AfterThen(cfg: seq<TierConfig>, w: World, ms: seq<Move>, m: Move)
    requires FractionsOk(cfg) && w.engine.tier < |cfg|
    ensures After(cfg, w, ms + [m]) == Next(cfg, After(cfg, w, ms), m)
  {
    assert (ms + [m])[..|ms|] == ms;
  }

  // The world with one client, 7, whose cache joined with capacity 10 and entries of one byte.
  ghost function OneClient(engine: State, onRecord: ClientInfo, cache: Store, down: seq<Message>, up: seq<Message>): World {
    World(engine, map[7 := onRecord], map[7 := Link(cache, 1, 42, down, up, 10, 0, 0)])
  }

  lemma QuietPoll(s: State, s': State, x: PsiData, onRecord: ClientInfo, cache: Store, down: seq<Message>, up: seq<Message>)
    requires FractionsOk(DefaultConfigs()) && s.tier < 4
    requires Step(DefaultConfigs(), s, x).0 == s' && Step(DefaultConfigs(), s, x).1.kind == NONE
    ensures Next(DefaultConfigs(), OneClient(s, onRecord, cache, down, up), Poll(x)) == OneClient(s', onRecord, cache, down, up)
  {
    hide Step;
  }

  lemma LoudPoll(s: State, s': State, x: PsiData, a: Action, onRecord: ClientInfo, cache: Store, up: seq<Message>)
    requires FractionsOk(DefaultConfigs()) && s.tier < 4 && 0.0 <= a.fraction <= 1.0
    requires Step(DefaultConfigs(), s, x) == (s', a) && a.kind != NONE
    ensures Next(DefaultConfigs(), OneClient(s, onRecord, cache, [], up), Poll(x)) ==
            OneClient(s', onRecord, cache, [TargetMessage(DirectionOf(a.kind), onRecord.currentSizeBytes, a.fraction)], up)
  {
    hide Step, TargetMessage;
    var r := Next(DefaultConfigs(), OneClient(s, onRecord, cache, [], up), Poll(x));
    var msg := TargetMessage(DirectionOf(a.kind), onRecord.currentSizeBytes, a.fraction);
    assert [] + [msg] == [msg];
    assert r.links == map[7 := Link(cache, 1, 42, [msg], up, 10, 0, 0)];
  }

  lemma TenPerCentOfTen()
    ensures TargetMessage(Shrinking, 10, 0.1) == Protocol.Message(Protocol.SHRINK, 0, 9, 0, 0)
    ensures TargetMessage(Growing, 10, 0.1) == Protocol.Message(Protocol.GROW, 0, 11, 0, 0)
  {
    assert Exact(Shrinking, 10, 0.1) == 9.0 && Exact(Growing, 10, 0.1) == 11.0;
  }

  // The hypothesis of SilentJoin is met three polls after such a client joins.
  lemma SilentJoinIsToldZero(items: seq<Lru.Entry<string, string>>, registers: bool)
    requires registers ==> |items| == 0
    ensures FractionsOk(DefaultConfigs())
    ensures var moves := [Join(7, Lru.Cache(10, items, 0, 0), 1, 42, registers)]
                         + [Poll(Pressure(6.0))] + [Poll(Pressure(6.0))] + [Poll(Pressure(6.0))];
            var w := After(DefaultConfigs(), Start, moves);
            7 in w.links && w.links[7].cache.capacity == 10 && w.links[7].down == [TargetMessage(Shrinking, 0, 0.1)]
  {
    hide Step, TargetMessage, Next;
    var cfg := DefaultConfigs();
    var up := Pressure(6.0);
    var cache := Lru.Cache(10, items, 0, 0);
    var who, said := ClientInfo(0, 0), if registers then [RegisterMessage(42, 0)] else [];
    UpAndDown();
    DefaultFractions();
    var m1 := [Join(7, cache, 1, 42, registers)];
    var m2 := m1 + [Poll(up)];
    var m3 := m2 + [Poll(up)];
    AfterThen(cfg, Start, [], Join(7, cache, 1, 42, registers));
    JoinsSilently(items, registers);
    assert After(cfg, Start, m1) == OneClient(State(0, 0, 0), who, cache, [], said);
    AfterThen(cfg, Start, m1, Poll(up));
    AfterThen(cfg, Start, m2, Poll(up));
    AfterThen(cfg, Start, m3, Poll(up));
    QuietPoll(State(0, 0, 0), State(0, 1, 0), up, who, cache, [], said);
    QuietPoll(State(0, 1, 0), State(0, 2, 0), up, who, cache, [], said);
    LoudPoll(State(0, 2, 0), State(1, 0, 0), up, Action(SHRINK, 0.1, 1), who, cache, said);
  }

  lemma JoinsSilently(items: seq<Lru.Entry<string, string>>, registers: bool)
    requires FractionsOk(DefaultConfigs()) && (registers ==> |items| == 0)
    ensures Next(DefaultConfigs(), Start, Join(7, Lru.Cache(10, items, 0, 0), 1, 42, registers)) ==
            OneClient(State(0, 0, 0), ClientInfo(0, 0), Lru.Cache(10, items, 0, 0), [],
                      if registers then [RegisterMessage(42, 0)] else [])
  {
  }

  function StaleTrace(items: seq<Lru.Entry<string, string>>): seq<Move> {
    [Join(7, Lru.Cache(10, items, 0, 0), 1, 42, true)] + [DeliverUp(7)]
    + [Poll(Pressure(6.0))] + [Poll(Pressure(6.0))] + [Poll(Pressure(6.0))] + [DeliverDown(7)]
    + [Poll(Pressure(1.0))] + [Poll(Pressure(1.0))] + [Poll(Pressure(1.0))] + [DeliverDown(7)]
  }

  // The synchrony hypothesis of the envelope is needed: a full cache of ten entries that has applied
  // a SHRINK, but whose report is still in flight when the GROW is computed, is sent a target above
  // its initial capacity, and takes it.
  lemma StaleGrowOvershoots(items: seq<Lru.Entry<string, string>>)
    requires |items| == 10
    ensures FractionsOk(DefaultConfigs())
    ensures var w := After(DefaultConfigs(), Start, StaleTrace(items));
            && 7 in w.links && w.engine.tier == NORMAL
            && w.links[7].initial == 10 && w.links[7].joined == NORMAL
            && w.links[7].cache.capacity == 11
  {
    hide Step, TargetMessage, Next;
    var cfg := DefaultConfigs();
    var up, calm := Pressure(6.0), Pressure(1.0);
    var full, cut := Lru.Cache(10, items, 0, 0), Lru.Cache(9, items[..9], 0, 0);
    var shrink, report := TargetMessage(Shrinking, 10, 0.1), ReportMessage(42, 9);
    UpAndDown();
    DefaultFractions();
    var m1 := [Join(7, full, 1, 42, true)];
    var m2 := m1 + [DeliverUp(7)];
    Registers(items);
    AfterThen(cfg, Start, [], Join(7, full, 1, 42, true));
    AfterThen(cfg, Start, m1, DeliverUp(7));
    var who := ClientInfo(42, 10);
    assert After(cfg, Start, m2) == OneClient(State(0, 0, 0), who, full, [], []);
    var m3 := m2 + [Poll(up)];
    var m4 := m3 + [Poll(up)];
    var m5 := m4 + [Poll(up)];
    AfterThen(cfg, Start, m2, Poll(up));
    AfterThen(cfg, Start, m3, Poll(up));
    AfterThen(cfg, Start, m4, Poll(up));
    QuietPoll(State(0, 0, 0), State(0, 1, 0), up, who, full, [], []);
    QuietPoll(State(0, 1, 0), State(0, 2, 0), up, who, full, [], []);
    LoudPoll(State(0, 2, 0), State(1, 0, 0), up, Action(SHRINK, 0.1, 1), who, full, []);
    assert After(cfg, Start, m5) == OneClient(State(1, 0, 0), who, full, [shrink], []);
    var m6 := m5 + [DeliverDown(7)];
    AfterThen(cfg, Start, m5, DeliverDown(7));
    AppliesShrink(items);
    assert After(cfg, Start, m6) == OneClient(State(1, 0, 0), who, cut, [], [report]);
    var m7 := m6 + [Poll(calm)];
    var m8 := m7 + [Poll(calm)];
    var m9 := m8 + [Poll(calm)];
    AfterThen(cfg, Start, m6, Poll(calm));
    AfterThen(cfg, Start, m7, Poll(calm));
    AfterThen(cfg, Start, m8, Poll(calm));
    QuietPoll(State(1, 0, 0), State(1, 0, 1), calm, who, cut, [], [report]);
    QuietPoll(State(1, 0, 1), State(1, 0, 2), calm, who, cut, [], [report]);
    LoudPoll(State(1, 0, 2), State(0, 0, 0), calm, Action(GROW, 0.1, 0), who, cut, [report]);
    AfterThen(cfg, Start, m9, DeliverDown(7));
    AppliesGrow(items);
  }

  lemma DefaultFractions()
    ensures FractionsOk(DefaultConfigs())
  {
  }

  lemma Registers(items: seq<Lru.Entry<string, string>>)
    requires |items| == 10 && FractionsOk(DefaultConfigs())
    ensures var full := Lru.Cache(10, items, 0, 0);
            var joined := Next(DefaultConfigs(), Start, Join(7, full, 1, 42, true));
            Next(DefaultConfigs(), joined, DeliverUp(7)) == OneClient(State(0, 0, 0), ClientInfo(42, 10), full, [], [])
  {
    var full := Lru.Cache(10, items, 0, 0);
    var joined := Next(DefaultConfigs(), Start, Join(7, full, 1, 42, true));
    var r := Next(DefaultConfigs(), joined, DeliverUp(7));
    assert joined.links[7].up[1..] == [];
    assert r.links == map[7 := Link(full, 1, 42, [], [], 10, 0, 0)];
    assert r.table == map[7 := ClientInfo(42, 10)];
  }

  lemma AppliesShrink(items: seq<Lru.Entry<string, string>>)
    requires |items| == 10 && FractionsOk(DefaultConfigs())
    ensures var full, cut := Lru.Cache(10, items, 0, 0), Lru.Cache(9, items[..9], 0, 0);
            Next(DefaultConfigs(),
                 OneClient(State(1, 0, 0), ClientInfo(42, 10), full, [TargetMessage(Shrinking, 10, 0.1)], []),
                 DeliverDown(7))
            == OneClient(State(1, 0, 0), ClientInfo(42, 10), cut, [], [ReportMessage(42, 9)])
  {
    TenPerCentOfTen();
    hide TargetMessage;
    var w := OneClient(State(1, 0, 0), ClientInfo(42, 10), Lru.Cache(10, items, 0, 0), [TargetMessage(Shrinking, 10, 0.1)], []);
    var l := w.links[7];
    assert l.down[1..] == [] && [] + [ReportMessage(42, 9)] == [ReportMessage(42, 9)];
    assert 9 / l.entryBytes == 9;
    var r := Next(DefaultConfigs(), w, DeliverDown(7));
    assert r.links == map[7 := Handled(l)];
  }

  lemma AppliesGrow(items: seq<Lru.Entry<string, string>>)
    requires |items| == 10 && FractionsOk(DefaultConfigs())
    ensures var cut := Lru.Cache(9, items[..9], 0, 0);
            var r := Next(DefaultConfigs(),
                          OneClient(State(0, 0, 0), ClientInfo(42, 10), cut, [TargetMessage(Growing, 10, 0.1)], [ReportMessage(42, 9)]),
                          DeliverDown(7));
            && r.engine.tier == NORMAL && 7 in r.links
            && r.links[7].initial == 10 && r.links[7].joined == NORMAL && r.links[7].cache.capacity == 11
  {
    TenPerCentOfTen();
    hide TargetMessage;
    assert 11 / 1 == 11;
  }
}
