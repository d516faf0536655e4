// When a client's capacity exceeds a bound, in any run at all: exactly when a GROW beyond the bound is
// dispatched to it.
module Overshoot {
  import opened Wrappers
  import opened RealLaws
  import opened Policy
  import opened Daemon
  import opened Transport
  import opened GovernedModel
  import opened Registry
  import opened ClosedLoop
  import opened Envelope
  import Protocol
  import Lru = LruModel

  // The move dispatches to fd a GROW that, from the size on record, asks for more than bound entries.
  ghost predicate Exceeds(cfg: seq<TierConfig>, w: World, m: Move, fd: Fd, bound: nat)
    requires FractionsOk(cfg) && w.engine.tier < |cfg|
  {
    && m.Poll? && fd in w.links && fd in w.table
    && var a := Step(cfg, w.engine, m.data).1;
       a.kind == GROW
       && Exact(Growing, w.table[fd].currentSizeBytes, a.fraction) >= ((bound + 1) * w.links[fd].entryBytes) as real
  }

  // No move of the run does.
  ghost predicate GrowsWithin(cfg: seq<TierConfig>, ms: seq<Move>, fd: Fd, bound: nat)
    requires |cfg| > 0 && FractionsOk(cfg)
  {
    |ms| == 0
    || (GrowsWithin(cfg, ms[..|ms| - 1], fd, bound)
        && !Exceeds(cfg, After(cfg, Start, ms[..|ms| - 1]), ms[|ms| - 1], fd, bound))
  }

  ghost predicate CapacityWithin(w: World, fd: Fd, bound: nat) {
    fd in w.links ==> w.links[fd].cache.capacity <= bound
  }

  // At every moment of the run.
  ghost predicate AlwaysWithin(cfg: seq<TierConfig>, ms: seq<Move>, fd: Fd, bound: nat)
    requires |cfg| > 0 && FractionsOk(cfg)
  {
    forall n :: 0 <= n <= |ms| ==> CapacityWithin(After(cfg, Start, ms[..n]), fd, bound)
  }

  // No GROW on its way to fd asks for more.
  ghost predicate PendingWithin(w: World, fd: Fd, bound: nat) {
    fd in w.links ==> forall m :: m in w.links[fd].down && m.kind == Protocol.GROW ==>
                        m.targetBytes / w.links[fd].entryBytes <= bound
  }

  lemma QuotientWithin(t: nat, b: Positive, bound: nat)
    ensures t / b <= bound <==> t < (bound + 1) * b
  {
    var q := t / b;
    assert t == q * b + t % b;
    if q <= bound { MultiplesAscend(q + 1, bound + 1, b); } else { MultiplesAscend(bound + 1, q, b); }
  }

  lemma DispatchWithin(cfg: seq<TierConfig>, w: World, x: PsiData, fd: Fd, bound: nat)
    requires FractionsOk(cfg) && w.engine.tier < |cfg| && fd in w.links
    ensures PendingWithin(Next(cfg, w, Poll(x)), fd, bound)
       <==> PendingWithin(w, fd, bound) && !Exceeds(cfg, w, Poll(x), fd, bound)
  {
    ActionFraction(cfg, w.engine, x);
    var a := Step(cfg, w.engine, x).1;
    if a.kind != NONE && fd in w.table {
      var dir, size := DirectionOf(a.kind), w.table[fd].currentSizeBytes;
      var b := w.links[fd].entryBytes;
      var target := Target(dir, size, a.fraction);
      BelowWhole(target, Exact(dir, size, a.fraction), (bound + 1) * b);
      QuotientWithin(target, b, bound);
      var told := Next(cfg, w, Poll(x)).links[fd].down;
      assert told == w.links[fd].down + [TargetMessage(dir, size, a.fraction)];
      assert TargetMessage(dir, size, a.fraction) in told;
    }
    hide Target, Exact, Step;
  }

  // Taking a command: the new capacity is within the bound exactly if the old one and the target are.
  lemma HandledWithin(l: Link, bound: nat)
    requires |l.down| > 0 && l.cache.capacity <= bound
    ensures Handled(l).cache.capacity <= bound
       <==> (l.down[0].kind == Protocol.GROW ==> l.down[0].targetBytes / l.entryBytes <= bound)
  {
  }

  lemma NextWithin(cfg: seq<TierConfig>, w: World, m: Move, fd: Fd, bound: nat)
    requires FractionsOk(cfg) && w.engine.tier < |cfg| && CapacityWithin(w, fd, bound)
    requires fd in Next(cfg, w, m).links ==> Next(cfg, w, m).links[fd].initial <= bound
    ensures CapacityWithin(Next(cfg, w, m), fd, bound) && PendingWithin(Next(cfg, w, m), fd, bound)
       <==> PendingWithin(w, fd, bound) && !Exceeds(cfg, w, m, fd, bound)
  {
    hide Step, TargetMessage, Exact;
    match m
    case Poll(x) =>
      if fd in w.links { DispatchWithin(cfg, w, x, fd, bound); }
    case Join(_, _, _, _, _) =>
    case DeliverDown(other) =>
      if other == fd && fd in w.links && |w.links[fd].down| > 0 {
        var l := w.links[fd];
        HandledWithin(l, bound);
        assert l.down == [l.down[0]] + l.down[1..];
      }
    case DeliverUp(other) =>
    case Use(other, op) =>
  }

  lemma AlwaysStep(cfg: seq<TierConfig>, ms: seq<Move>, fd: Fd, bound: nat)
    requires |cfg| > 0 && FractionsOk(cfg) && |ms| > 0
    ensures AlwaysWithin(cfg, ms, fd, bound)
       <==> AlwaysWithin(cfg, ms[..|ms| - 1], fd, bound) && CapacityWithin(After(cfg, Start, ms), fd, bound)
  {
    hide CapacityWithin, After;
    var front := ms[..|ms| - 1];
    assert ms[..|ms|] == ms;
    assert forall n :: 0 <= n < |ms| ==> front[..n] == ms[..n];
    if AlwaysWithin(cfg, ms, fd, bound) {
      forall n | 0 <= n <= |front| ensures CapacityWithin(After(cfg, Start, front[..n]), fd, bound) {
        assert front[..n] == ms[..n];
      }
    }
  }

  lemma {:induction false} RunWithinIff(cfg: seq<TierConfig>, ms: seq<Move>, fd: Fd, bound: nat)
    requires |cfg| > 0 && FractionsOk(cfg)
    requires var w := After(cfg, Start, ms); fd in w.links ==> w.links[fd].initial <= bound
    ensures AlwaysWithin(cfg, ms, fd, bound) && PendingWithin(After(cfg, Start, ms), fd, bound)
       <==> GrowsWithin(cfg, ms, fd, bound)
  {
    if |ms| > 0 {
      hide CapacityWithin, PendingWithin, AlwaysWithin, Exceeds, Next;
      var n := |ms| - 1;
      var b := After(cfg, Start, ms[..n]);
      if fd in b.links { InitialStays(cfg, b, ms[n], fd); }
      RunWithinIff(cfg, ms[..n], fd, bound);
      AlwaysStep(cfg, ms, fd, bound);
      if AlwaysWithin(cfg, ms[..n], fd, bound) { AlwaysEnds(cfg, ms[..n], fd, bound); }
      if CapacityWithin(b, fd, bound) { NextWithin(cfg, b, ms[n], fd, bound); }
    } else {
      assert forall n :: 0 <= n <= |ms| ==> ms[..n] == [];
      assert After(cfg, Start, ms) == Start;
    }
  }

  lemma AlwaysEnds(cfg: seq<TierConfig>, ms: seq<Move>, fd: Fd, bound: nat)
    requires |cfg| > 0 && FractionsOk(cfg) && AlwaysWithin(cfg, ms, fd, bound)
    ensures CapacityWithin(After(cfg, Start, ms), fd, bound)
  {
    assert ms[..|ms|] == ms;
  }

  // Main result, with no hypothesis on what is in flight at a dispatch: once no command is on its way,
  // the capacity has stayed within a bound from the initial capacity upwards, at every moment of the
  // run, if and only if every GROW dispatched was computed from a record R with
  // R * (1 + f) < (bound + 1) * entryBytes.
  lemma NeverExceedsIff(cfg: seq<TierConfig>, ms: seq<Move>, fd: Fd, bound: nat)
    requires |cfg| > 0 && FractionsOk(cfg) && fd in After(cfg, Start, ms).links
    requires var l := After(cfg, Start, ms).links[fd]; l.initial <= bound && |l.down| == 0
    ensures AlwaysWithin(cfg, ms, fd, bound) <==> GrowsWithin(cfg, ms, fd, bound)
  {
    hide After, AlwaysWithin, GrowsWithin;
    RunWithinIff(cfg, ms, fd, bound);
  }

  // ----- runs in which nothing is in flight at a dispatch

  lemma PeakAscends(cfg: seq<TierConfig>, w: World, m: Move, fd: Fd)
    requires FractionsOk(cfg) && w.engine.tier < |cfg| && WorldOk(cfg, w, fd) && fd in w.links
    ensures var l, r := w.links[fd], Next(cfg, w, m).links[fd];
            && r.lowest <= l.lowest && r.joined == l.joined && r.initial == l.initial
            && Peak(cfg, l) <= Peak(cfg, r)
  {
    InitialStays(cfg, w, m, fd);
    var l, r := w.links[fd], Next(cfg, w, m).links[fd];
    RegrownAscends(cfg, r.lowest, l.lowest, l.joined);
    hide Next, LinkOk, Times;
    var i := l.initial as real;
    Monotone(Regrown(cfg, l.lowest, l.joined), Regrown(cfg, r.lowest, l.joined), i);
    Commutes(i, Regrown(cfg, l.lowest, l.joined));
    Commutes(i, Regrown(cfg, r.lowest, l.joined));
  }

  lemma {:induction false} RegrownAscends(cfg: seq<TierConfig>, lower: nat, lo: nat, hi: nat)
    requires FractionsOk(cfg) && lower <= lo <= hi < |cfg|
    ensures Regrown(cfg, lo, hi) <= Regrown(cfg, lower, hi)
    decreases lo
  {
    if lower < lo {
      hide Times;
      RegrownAscends(cfg, lower, lo - 1, hi);
      RegrownFirst(cfg, lo - 1, hi);
      ProductGrows(Regrown(cfg, lo, hi), 1.0 + cfg[lo].shrink);
    }
  }

  // A synchronous dispatch asks for no more than the peak.
  lemma SynchronousPoll(cfg: seq<TierConfig>, w: World, x: PsiData, fd: Fd, bound: nat)
    requires FractionsOk(cfg) && w.engine.tier < |cfg| && WorldOk(cfg, w, fd) && fd in w.links
    requires Synchronous(cfg, w, Poll(x), fd)
    requires var r := Next(cfg, w, Poll(x)).links[fd]; r.lowest <= r.joined < |cfg| && Peak(cfg, r) < bound as real + 1.0
    ensures !Exceeds(cfg, w, Poll(x), fd, bound)
  {
    PollKeeps(cfg, w, x, fd);
    DispatchWithin(cfg, w, x, fd, bound);
    hide Next, Peak, Ceiling, Times, Step, Exact;
    if Step(cfg, w.engine, x).1.kind != NONE {
      var r := Next(cfg, w, Poll(x));
      var l := r.links[fd];
      CeilingUnderPeak(cfg, l, r.engine.tier);
      forall m | m in l.down && m.kind == Protocol.GROW ensures m.targetBytes / l.entryBytes <= bound {
        assert m == l.down[0];
        QuotientBound(m.targetBytes, l.entryBytes, Ceiling(cfg, l, r.engine.tier));
      }
    }
  }

  lemma {:induction false} SynchronousRunWithin(cfg: seq<TierConfig>, ms: seq<Move>, fd: Fd, bound: nat)
    requires |cfg| > 0 && FractionsOk(cfg) && SynchronousRun(cfg, Start, ms, fd)
    requires var w := After(cfg, Start, ms);
             fd in w.links ==> w.links[fd].lowest <= w.links[fd].joined < |cfg| && Peak(cfg, w.links[fd]) < bound as real + 1.0
    ensures GrowsWithin(cfg, ms, fd, bound)
  {
    if |ms| > 0 {
      hide WorldOk, Next, Exceeds, Synchronous, Peak;
      var n := |ms| - 1;
      var b := After(cfg, Start, ms[..n]);
      RunKeeps(cfg, ms[..n], fd);
      SynchronousStep(cfg, b, ms[n], fd, bound);
      SynchronousRunWithin(cfg, ms[..n], fd, bound);
    }
  }

  lemma SynchronousStep(cfg: seq<TierConfig>, w: World, m: Move, fd: Fd, bound: nat)
    requires FractionsOk(cfg) && w.engine.tier < |cfg| && WorldOk(cfg, w, fd) && Synchronous(cfg, w, m, fd)
    requires var r := Next(cfg, w, m);
             fd in r.links ==> r.links[fd].lowest <= r.links[fd].joined < |cfg| && Peak(cfg, r.links[fd]) < bound as real + 1.0
    ensures !Exceeds(cfg, w, m, fd, bound)
    ensures fd in w.links ==> w.links[fd].lowest <= w.links[fd].joined < |cfg| && Peak(cfg, w.links[fd]) < bound as real + 1.0
  {
    if fd in w.links {
      InitialStays(cfg, w, m, fd);
      PeakAscends(cfg, w, m, fd);
      if m.Poll? { SynchronousPoll(cfg, w, m.data, fd, bound); }
    }
    hide Peak, Next, Synchronous;
  }

  // For a client that joined at NORMAL the bound is its initial capacity.
  lemma SynchronousGrowsWithin(cfg: seq<TierConfig>, ms: seq<Move>, fd: Fd)
    requires |cfg| > 0 && FractionsOk(cfg) && SynchronousRun(cfg, Start, ms, fd)
    requires fd in After(cfg, Start, ms).links && After(cfg, Start, ms).links[fd].joined == NORMAL
    ensures GrowsWithin(cfg, ms, fd, After(cfg, Start, ms).links[fd].initial)
  {
    hide After, SynchronousRun, GrowsWithin;
    EnvelopeHolds(cfg, ms, fd);
    var l := After(cfg, Start, ms).links[fd];
    Units(l.initial as real);
    SynchronousRunWithin(cfg, ms, fd, l.initial);
  }
}
