// When a client is left without capacity, in any run at all: exactly when it joined so, or a SHRINK to
// less than one entry was dispatched to it, and since then no GROW to at least one.
module Starvation {
  import opened Wrappers
  import opened RealLaws
  import opened Policy
  import opened Daemon
  import opened Transport
  import opened GovernedModel
  import opened Registry
  import opened ClosedLoop
  import opened Envelope
  import Protocol
  import Lru = LruModel

  // What the move dispatches to fd, scaled from the size on record.
  ghost predicate Dispatches(cfg: seq<TierConfig>, w: World, m: Move, fd: Fd, kind: ActionType)
    requires w.engine.tier < |cfg|
  {
    m.Poll? && fd in w.links && fd in w.table && Step(cfg, w.engine, m.data).1.kind == kind
  }

  // A SHRINK to less than one entry.
  ghost predicate Starves(cfg: seq<TierConfig>, w: World, m: Move, fd: Fd)
    requires FractionsOk(cfg) && w.engine.tier < |cfg|
  {
    && Dispatches(cfg, w, m, fd, SHRINK)
    && Exact(Shrinking, w.table[fd].currentSizeBytes, Step(cfg, w.engine, m.data).1.fraction) < w.links[fd].entryBytes as real
  }

  // A GROW to at least one entry.
  ghost predicate Revives(cfg: seq<TierConfig>, w: World, m: Move, fd: Fd)
    requires FractionsOk(cfg) && w.engine.tier < |cfg|
  {
    && Dispatches(cfg, w, m, fd, GROW)
    && Exact(Growing, w.table[fd].currentSizeBytes, Step(cfg, w.engine, m.data).1.fraction) >= w.links[fd].entryBytes as real
  }

  // fd joins with a cache of capacity 0.
  ghost predicate JoinsWithout(w: World, m: Move, fd: Fd) {
    m.Join? && m.fd == fd && fd !in w.links && m.cache.capacity == 0
  }

  // fd joined without capacity or some move of the run starves it, and no later one revives it.
  ghost predicate Dry(cfg: seq<TierConfig>, ms: seq<Move>, fd: Fd)
    requires |cfg| > 0 && FractionsOk(cfg)
  {
    && |ms| > 0
    && var w := After(cfg, Start, ms[..|ms| - 1]);
       Starves(cfg, w, ms[|ms| - 1], fd) || JoinsWithout(w, ms[|ms| - 1], fd)
       || (Dry(cfg, ms[..|ms| - 1], fd) && !Revives(cfg, w, ms[|ms| - 1], fd))
  }

  // ----- the commands on their way

  // Without capacity after taking one message.
  ghost predicate EmptyAfter(empty: bool, m: Message, entryBytes: nat) {
    if m.kind == Protocol.SHRINK then empty || m.targetBytes < entryBytes
    else if m.kind == Protocol.GROW then empty && m.targetBytes < entryBytes
    else empty
  }

  // After taking all of them, the first one first.
  ghost predicate EmptyAfterAll(empty: bool, down: seq<Message>, entryBytes: nat) {
    if |down| == 0 then empty
    else EmptyAfter(EmptyAfterAll(empty, down[..|down| - 1], entryBytes), down[|down| - 1], entryBytes)
  }

  lemma {:induction false} TakeFirst(empty: bool, down: seq<Message>, entryBytes: nat)
    requires |down| > 0
    ensures EmptyAfterAll(empty, down, entryBytes)
       <==> EmptyAfterAll(EmptyAfter(empty, down[0], entryBytes), down[1..], entryBytes)
  {
    var n := |down| - 1;
    if n > 0 {
      TakeFirst(empty, down[..n], entryBytes);
      assert down[..n][1..] == down[1..][..n - 1];
    } else {
      assert down[..0] == [];
    }
  }

  lemma HandledEmpty(l: Link)
    requires |l.down| > 0
    ensures Handled(l).cache.capacity == 0 <==> EmptyAfter(l.cache.capacity == 0, l.down[0], l.entryBytes)
  {
    ZeroQuotient(l.down[0].targetBytes, l.entryBytes);
  }

  // ----- every move

  ghost predicate WillBeEmpty(l: Link) {
    EmptyAfterAll(l.cache.capacity == 0, l.down, l.entryBytes)
  }

  ghost predicate Decided(w: World, fd: Fd, dry: bool) {
    if fd in w.links then WillBeEmpty(w.links[fd]) <==> dry else !dry
  }

  lemma DispatchDecides(cfg: seq<TierConfig>, w: World, x: PsiData, fd: Fd)
    requires FractionsOk(cfg) && w.engine.tier < |cfg| && fd in w.links
    ensures WillBeEmpty(Next(cfg, w, Poll(x)).links[fd])
       <==> Starves(cfg, w, Poll(x), fd) || (WillBeEmpty(w.links[fd]) && !Revives(cfg, w, Poll(x), fd))
  {
    ActionFraction(cfg, w.engine, x);
    var a, l := Step(cfg, w.engine, x).1, w.links[fd];
    if a.kind != NONE && fd in w.table {
      var dir, size := DirectionOf(a.kind), w.table[fd].currentSizeBytes;
      var msg := TargetMessage(dir, size, a.fraction);
      BelowWhole(Target(dir, size, a.fraction), Exact(dir, size, a.fraction), l.entryBytes);
      assert (l.down + [msg])[..|l.down|] == l.down;
    } else {
      assert l.down + [] == l.down;
    }
    hide Target, Exact, Step;
  }

  lemma NextDecides(cfg: seq<TierConfig>, w: World, m: Move, fd: Fd, dry: bool)
    requires FractionsOk(cfg) && w.engine.tier < |cfg| && Decided(w, fd, dry)
    ensures Decided(Next(cfg, w, m), fd, Starves(cfg, w, m, fd) || JoinsWithout(w, m, fd) || (dry && !Revives(cfg, w, m, fd)))
  {
    hide Step, Exact, TargetMessage, EmptyAfter;
    match m
    case Poll(x) =>
      if fd in w.links { DispatchDecides(cfg, w, x, fd); }
    case Join(_, _, _, _, _) =>
    case DeliverDown(other) =>
      if other == fd && fd in w.links && |w.links[fd].down| > 0 {
        var l := w.links[fd];
        HandledEmpty(l);
        TakeFirst(l.cache.capacity == 0, l.down, l.entryBytes);
      }
    case DeliverUp(other) =>
    case Use(other, op) =>
  }

  lemma {:induction false} RunDecides(cfg: seq<TierConfig>, ms: seq<Move>, fd: Fd)
    requires |cfg| > 0 && FractionsOk(cfg)
    ensures Decided(After(cfg, Start, ms), fd, Dry(cfg, ms, fd))
  {
    if |ms| > 0 {
      hide Decided, Next, Starves, JoinsWithout, Revives;
      var n := |ms| - 1;
      RunDecides(cfg, ms[..n], fd);
      NextDecides(cfg, After(cfg, Start, ms[..n]), ms[n], fd, Dry(cfg, ms[..n], fd));
    } else {
      assert After(cfg, Start, ms) == Start;
    }
  }

  // Main result, with no hypothesis on what is in flight at a dispatch: once no command is on its way,
  // a client has no capacity if and only if it joined without or was starved, and was not revived
  // since.
  lemma {:induction false} ZeroIffDry(cfg: seq<TierConfig>, ms: seq<Move>, fd: Fd)
    requires |cfg| > 0 && FractionsOk(cfg) && fd in After(cfg, Start, ms).links && |After(cfg, Start, ms).links[fd].down| == 0
    ensures After(cfg, Start, ms).links[fd].cache.capacity == 0 <==> Dry(cfg, ms, fd)
  {
    hide After, Dry;
    RunDecides(cfg, ms, fd);
  }

  // ----- runs in which nothing is in flight at a dispatch

  // Some move of the run starves fd.
  ghost predicate Starved(cfg: seq<TierConfig>, ms: seq<Move>, fd: Fd)
    requires |cfg| > 0 && FractionsOk(cfg)
  {
    && |ms| > 0
    && (Starved(cfg, ms[..|ms| - 1], fd)
        || Starves(cfg, After(cfg, Start, ms[..|ms| - 1]), ms[|ms| - 1], fd))
  }

  // A GROW computed from a record within capacity 0 asks for nothing.
  lemma NothingFromNothing(fraction: real, entryBytes: Positive)
    ensures Exact(Growing, 0, fraction) < entryBytes as real
  {
    Units(Factor(Growing, fraction));
  }

  lemma NoRevival(cfg: seq<TierConfig>, w: World, m: Move, fd: Fd)
    requires FractionsOk(cfg) && w.engine.tier < |cfg| && WorldOk(cfg, w, fd) && Synchronous(cfg, w, m, fd)
    requires fd in w.links && WillBeEmpty(w.links[fd])
    ensures !Revives(cfg, w, m, fd)
  {
    hide Ceiling, Peak, Step, Exact;
    if Dispatches(cfg, w, m, fd, GROW) {
      NothingFromNothing(Step(cfg, w.engine, m.data).1.fraction, w.links[fd].entryBytes);
      assert w.table[fd].currentSizeBytes == 0;
    }
  }

  lemma {:induction false} DryIsStarved(cfg: seq<TierConfig>, ms: seq<Move>, fd: Fd)
    requires |cfg| > 0 && FractionsOk(cfg) && SynchronousRun(cfg, Start, ms, fd)
    requires var w := After(cfg, Start, ms); fd in w.links ==> w.links[fd].initial >= 1
    ensures Dry(cfg, ms, fd) <==> Starved(cfg, ms, fd)
  {
    if |ms| > 0 {
      hide Next, WorldOk, Starves, JoinsWithout, Revives, Synchronous, WillBeEmpty;
      var n := |ms| - 1;
      var w := After(cfg, Start, ms[..n]);
      if fd in w.links { InitialStays(cfg, w, ms[n], fd); }
      if JoinsWithout(w, ms[n], fd) { JoinsWithoutInitial(cfg, w, ms[n], fd); }
      DryIsStarved(cfg, ms[..n], fd);
      RunDecides(cfg, ms[..n], fd);
      RunKeeps(cfg, ms[..n], fd);
      if Dry(cfg, ms[..n], fd) { NoRevival(cfg, w, ms[n], fd); }
    }
  }

  lemma JoinsWithoutInitial(cfg: seq<TierConfig>, w: World, m: Move, fd: Fd)
    requires FractionsOk(cfg) && w.engine.tier < |cfg| && JoinsWithout(w, m, fd)
    ensures fd in Next(cfg, w, m).links && Next(cfg, w, m).links[fd].initial == 0
  {
  }

  // There one such SHRINK decides for ever: nothing revives the client.
  lemma {:induction false} ZeroIffStarved(cfg: seq<TierConfig>, ms: seq<Move>, fd: Fd)
    requires |cfg| > 0 && FractionsOk(cfg) && SynchronousRun(cfg, Start, ms, fd)
    requires fd in After(cfg, Start, ms).links
    requires var l := After(cfg, Start, ms).links[fd]; l.initial >= 1 && |l.down| == 0
    ensures After(cfg, Start, ms).links[fd].cache.capacity == 0 <==> Starved(cfg, ms, fd)
  {
    hide After, SynchronousRun, Starved, Dry;
    ZeroIffDry(cfg, ms, fd);
    DryIsStarved(cfg, ms, fd);
  }
}
