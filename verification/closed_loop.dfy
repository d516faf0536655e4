// The closed loop: policy, registry, messages in flight, caches, and reports back, as a transition
// system whose moves may interleave in any order.
module ClosedLoop {
  import opened Wrappers
  import opened Policy
  import opened Daemon
  import opened Transport
  import opened GovernedModel
  import opened Registry
  import Protocol
  import Lru = LruModel

  type Message = Protocol.Message

  type Positive = n: nat | n > 0 witness 1

  // One connected client: its cache, the messages on their way to it and from it, and three history
  // variables: its capacity when it joined, the tier then, and the lowest tier since.
  datatype Link = Link(
    cache: Store, entryBytes: Positive, pid: int,
    down: seq<Message>, up: seq<Message>,
    initial: nat, joined: nat, lowest: nat)

  datatype World = World(engine: State, table: Table, links: map<Fd, Link>)

  // A client joins through start, which registers, or through the listener's reconnect, which does not.
  datatype Move =
    | Poll(data: PsiData)
    | Join(fd: Fd, cache: Store, entryBytes: Positive, pid: int, registers: bool)
    | DeliverDown(fd: Fd)
    | DeliverUp(fd: Fd)
    | Use(fd: Fd, op: Lru.Op<string, string>)

  const Start := World(State(NORMAL, 0, 0), map[], map[])

  // What a dispatched action adds to one link.
  ghost function Told(l: Link, table: Table, fd: Fd, a: Action): Link
    requires 0.0 <= a.fraction <= 1.0
  {
    var msgs := if fd in table then [TargetMessage(DirectionOf(a.kind), table[fd].currentSizeBytes, a.fraction)] else [];
    l.(down := l.down + msgs, lowest := Min(l.lowest, a.newTier))
  }

  lemma ActionFraction(cfg: seq<TierConfig>, s: State, x: PsiData)
    requires FractionsOk(cfg) && s.tier < |cfg|
    ensures 0.0 <= Step(cfg, s, x).1.fraction <= 1.0
  {
  }

  // The client takes the next message, as the listener thread does.
  ghost function Handled(l: Link): Link
    requires |l.down| > 0
  {
    var (cache, report) := Take(l.cache, l.entryBytes, l.down[0]);
    var msgs := if report.Some? then [ReportMessage(l.pid, report.value)] else [];
    l.(cache := cache, down := l.down[1..], up := l.up + msgs)
  }

  ghost function Next(cfg: seq<TierConfig>, w: World, m: Move): (r: World)
    requires FractionsOk(cfg) && w.engine.tier < |cfg|
    ensures r.engine.tier < |cfg|
  {
    match m
    case Poll(data) =>
      ActionFraction(cfg, w.engine, data);
      var (s, a) := Step(cfg, w.engine, data);
      if a.kind == NONE then w.(engine := s)
      else w.(engine := s, links := map fd | fd in w.links :: Told(w.links[fd], w.table, fd, a))
    case Join(fd, cache, entryBytes, pid, registers) =>
      if fd in w.links then w
      else w.(table := Apply(w.table, Accept(fd)),
              links := w.links[fd := Link(cache, entryBytes, pid, [],
                                          if registers then [RegisterMessage(pid, |cache.items| * entryBytes)] else [],
                                          cache.capacity, w.engine.tier, w.engine.tier)])
    case DeliverDown(fd) =>
      if fd !in w.links || |w.links[fd].down| == 0 then w
      else w.(links := w.links[fd := Handled(w.links[fd])])
    case DeliverUp(fd) =>
      if fd !in w.links || |w.links[fd].up| == 0 then w
      else
        var l := w.links[fd];
        w.(table := Apply(w.table, Deliver(fd, l.up[0])), links := w.links[fd := l.(up := l.up[1..])])
    case Use(fd, op) =>
      if fd !in w.links || op.Resize? then w
      else w.(links := w.links[fd := w.links[fd].(cache := Lru.Apply(w.links[fd].cache, op))])
  }

  // The history variables of a link.
  lemma InitialStays(cfg: seq<TierConfig>, w: World, m: Move, fd: Fd)
    requires FractionsOk(cfg) && w.engine.tier < |cfg| && fd in w.links
    ensures var r := Next(cfg, w, m);
            && fd in r.links && r.links[fd].initial == w.links[fd].initial
            && r.links[fd].joined == w.links[fd].joined && r.links[fd].lowest <= w.links[fd].lowest
  {
    hide Step, TargetMessage, Take, Lru.Apply;
  }

  ghost function After(cfg: seq<TierConfig>, w: World, ms: seq<Move>): (r: World)
    requires FractionsOk(cfg) && w.engine.tier < |cfg|
    ensures r.engine.tier < |cfg|
  {
    if |ms| == 0 then w else Next(cfg, After(cfg, w, ms[..|ms| - 1]), ms[|ms| - 1])
  }

  // A cache joins with at most its capacity: every cache of capacity at least 1, and an empty one.
  ghost predicate JoinsWithin(m: Move, fd: Fd) {
    m.Join? && m.fd == fd ==> |m.cache.items| <= m.cache.capacity && Lru.Unique(m.cache.items)
  }

  // The hypothesis of the envelope: when the daemon dispatches, nothing is in flight for fd.
  ghost predicate Synchronous(cfg: seq<TierConfig>, w: World, m: Move, fd: Fd)
    requires w.engine.tier < |cfg|
  {
    (m.Poll? && fd in w.links && Step(cfg, w.engine, m.data).1.kind != NONE)
    ==> (|w.links[fd].down| == 0 && |w.links[fd].up| == 0)
  }

  ghost predicate SynchronousRun(cfg: seq<TierConfig>, w: World, ms: seq<Move>, fd: Fd)
    requires FractionsOk(cfg) && w.engine.tier < |cfg|
  {
    |ms| == 0
    || (SynchronousRun(cfg, w, ms[..|ms| - 1], fd)
        && JoinsWithin(ms[|ms| - 1], fd)
        && Synchronous(cfg, After(cfg, w, ms[..|ms| - 1]), ms[|ms| - 1], fd))
  }
}
