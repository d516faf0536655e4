// What every SHRINK costs for ever: in synchronous runs the cache a client can grow back to loses at
// least one entry, and a factor 1 - f * f, with each one.
module Ratchet {
  import opened Wrappers
  import opened RealLaws
  import opened Policy
  import opened Daemon
  import opened Transport
  import opened GovernedModel
  import opened Registry
  import opened ClosedLoop
  import opened Envelope
  import Protocol
  import Lru = LruModel

  // n entries at tier t, after a GROW out of each tier down to NORMAL.
  ghost function GrownTo(cfg: seq<TierConfig>, t: nat, n: nat): (r: nat)
    requires FractionsOk(cfg) && t < |cfg|
    ensures r >= n
    decreases t
  {
    if t == 0 then n
    else
      AtLeast(n, 1.0 + cfg[t].shrink);
      GrownTo(cfg, t - 1, Entries(n, 1.0 + cfg[t].shrink))
  }

  // Growing keeps differences.
  lemma {:induction false} GrownApart(cfg: seq<TierConfig>, t: nat, m: nat, n: nat)
    requires FractionsOk(cfg) && t < |cfg| && m <= n
    ensures GrownTo(cfg, t, m) + (n - m) <= GrownTo(cfg, t, n)
    decreases t
  {
    if t > 0 {
      hide Entries;
      var g := 1.0 + cfg[t].shrink;
      EntriesApart(m, n, g);
      GrownApart(cfg, t - 1, Entries(m, g), Entries(n, g));
    }
  }

  lemma EntriesApart(m: nat, n: nat, g: real)
    requires m <= n && g >= 1.0
    ensures Entries(m, g) + (n - m) <= Entries(n, g)
  {
    hide Entries, Times;
    var d := (n - m) as real;
    Distributes(n as real, m as real, g);
    Monotone(1.0, g, d);
    Commutes(d, g);
    Units(d);
  }

  // The product of 1 - f * f.
  ghost function Loss(fs: seq<real>): real {
    if |fs| == 0 then 1.0
    else if 0.0 <= fs[|fs| - 1] <= 1.0 then Times(Loss(fs[..|fs| - 1]), Regained(fs[|fs| - 1]))
    else 0.0
  }

  // The fractions of the SHRINKs dispatched to fd in a run.
  ghost function Shrinks(cfg: seq<TierConfig>, ms: seq<Move>, fd: Fd): seq<real>
    requires |cfg| > 0 && FractionsOk(cfg)
  {
    if |ms| == 0 then []
    else Shrinks(cfg, ms[..|ms| - 1], fd) + Shrunken(cfg, After(cfg, Start, ms[..|ms| - 1]), ms[|ms| - 1], fd)
  }

  ghost function Shrunken(cfg: seq<TierConfig>, w: World, m: Move, fd: Fd): seq<real>
    requires FractionsOk(cfg) && w.engine.tier < |cfg|
  {
    if m.Poll? && fd in w.links && Step(cfg, w.engine, m.data).1.kind == SHRINK then [Step(cfg, w.engine, m.data).1.fraction]
    else []
  }

  ghost predicate AllPositive(cfg: seq<TierConfig>) {
    forall i :: 0 < i < |cfg| ==> cfg[i].shrink > 0.0
  }

  // A capacity of n at tier t is what the SHRINKs fs have left of the capacity at joining.
  ghost predicate Left(cfg: seq<TierConfig>, n: nat, t: nat, fs: seq<real>, initial: nat, joined: nat)
    requires FractionsOk(cfg) && t < |cfg| && joined < |cfg|
  {
    && (AllPositive(cfg) && n >= 1 ==> GrownTo(cfg, t, n) + |fs| <= GrownTo(cfg, joined, initial))
    && Times(n as real, Regrown(cfg, 0, t)) <= Times(Times(initial as real, Regrown(cfg, 0, joined)), Loss(fs))
  }

  lemma LeftLess(cfg: seq<TierConfig>, m: nat, n: nat, t: nat, fs: seq<real>, initial: nat, joined: nat)
    requires FractionsOk(cfg) && t < |cfg| && joined < |cfg| && m <= n && Left(cfg, n, t, fs, initial, joined)
    ensures Left(cfg, m, t, fs, initial, joined)
  {
    hide Times;
    GrownApart(cfg, t, m, n);
    Monotone(m as real, n as real, Regrown(cfg, 0, t));
  }

  lemma LeftAfterShrink(cfg: seq<TierConfig>, n: nat, q: nat, t: nat, fs: seq<real>, initial: nat, joined: nat)
    requires FractionsOk(cfg) && t + 1 < |cfg| && joined < |cfg| && Left(cfg, n, t, fs, initial, joined)
    requires q as real <= Times(n as real, 1.0 - cfg[t + 1].shrink)
    ensures Left(cfg, q, t + 1, fs + [cfg[t + 1].shrink], initial, joined)
  {
    hide Times, Entries, Regained;
    var f := cfg[t + 1].shrink;
    var all, w := Times(initial as real, Regrown(cfg, 0, joined)), Regrown(cfg, 0, t);
    var back := Times(q as real, 1.0 + f);
    Lost(n, q, f);
    if AllPositive(cfg) && q >= 1 { ShrinkCosts(cfg, n, q, t); }
    // q * Regrown(t + 1) = (q * (1 + f)) * w <= (n * regained) * w = (n * w) * regained
    Commutes(w, 1.0 + f);
    Associates(q as real, 1.0 + f, w);
    Monotone(back, Times(n as real, Regained(f)), w);
    Associates(n as real, Regained(f), w);
    Commutes(Regained(f), w);
    Associates(n as real, w, Regained(f));
    Monotone(Times(n as real, w), Times(all, Loss(fs)), Regained(f));
    Associates(all, Loss(fs), Regained(f));
    assert (fs + [f])[..|fs|] == fs;
  }

  // Shrunk and grown back by the same fraction.
  lemma Lost(n: nat, q: nat, f: real)
    requires 0.0 <= f <= 1.0 && q as real <= Times(n as real, 1.0 - f)
    ensures Times(q as real, 1.0 + f) <= Times(n as real, Regained(f))
  {
    hide Times, Regained;
    Monotone(q as real, Times(n as real, 1.0 - f), 1.0 + f);
    Associates(n as real, 1.0 - f, 1.0 + f);
    RegainedIs(f);
  }

  lemma ShrinkCosts(cfg: seq<TierConfig>, n: nat, q: nat, t: nat)
    requires FractionsOk(cfg) && t + 1 < |cfg| && AllPositive(cfg) && q >= 1
    requires q as real <= Times(n as real, 1.0 - cfg[t + 1].shrink)
    ensures n >= 1 && GrownTo(cfg, t + 1, q) + 1 <= GrownTo(cfg, t, n)
  {
    hide Times, Entries, Regained;
    var f := cfg[t + 1].shrink;
    if n == 0 { Units(1.0 - f); }
    Lost(n, q, f);
    EntriesLost(n, f);
    assert Entries(q, 1.0 + f) <= n - 1;
    GrownApart(cfg, t, Entries(q, 1.0 + f), n);
  }

  lemma LeftAfterGrow(cfg: seq<TierConfig>, n: nat, q: nat, t: nat, fs: seq<real>, initial: nat, joined: nat)
    requires FractionsOk(cfg) && 0 < t < |cfg| && joined < |cfg| && Left(cfg, n, t, fs, initial, joined)
    requires q as real <= Times(n as real, 1.0 + cfg[t].shrink)
    ensures Left(cfg, q, t - 1, fs, initial, joined)
  {
    hide Times, Entries;
    var g, w := 1.0 + cfg[t].shrink, Regrown(cfg, 0, t - 1);
    Units(g);
    GrownApart(cfg, t - 1, q, Entries(n, g));
    Monotone(q as real, Times(n as real, g), w);
    Associates(n as real, g, w);
    Commutes(g, w);
  }

  // ----- over runs

  // What the capacity is, and what it will be once the command in flight is taken.
  ghost predicate Spent(cfg: seq<TierConfig>, t: nat, l: Link, fs: seq<real>)
    requires FractionsOk(cfg) && t < |cfg| && l.joined < |cfg|
  {
    && (|l.down| == 0 || l.down[0].kind == Protocol.GROW ==> Left(cfg, l.cache.capacity, t, fs, l.initial, l.joined))
    && (|l.down| > 0 ==> Left(cfg, l.down[0].targetBytes / l.entryBytes, t, fs, l.initial, l.joined))
  }

  ghost predicate WorldSpent(cfg: seq<TierConfig>, w: World, fd: Fd, fs: seq<real>)
    requires FractionsOk(cfg) && w.engine.tier < |cfg|
  {
    if fd in w.links then w.links[fd].joined < |cfg| && Spent(cfg, w.engine.tier, w.links[fd], fs) else fs == []
  }

  // The entries a target asks for are at most the scaled capacity.
  lemma TargetShare(dir: Direction, fraction: real, size: nat, n: nat, entryBytes: Positive)
    requires 0.0 <= fraction <= 1.0 && size <= n * entryBytes
    ensures (Target(dir, size, fraction) / entryBytes) as real <= Times(n as real, Factor(dir, fraction))
  {
    hide Times, Target, Factor;
    TargetBound(dir, fraction, size, n, entryBytes, n as real);
    QuotientBound(Target(dir, size, fraction), entryBytes, Times(n as real, Factor(dir, fraction)));
  }

  lemma DispatchSpends(cfg: seq<TierConfig>, s: State, x: PsiData, table: Table, fd: Fd, l: Link, fs: seq<real>)
    requires FractionsOk(cfg) && s.tier < |cfg| && l.joined < |cfg| && fd in table && |l.down| == 0
    requires Spent(cfg, s.tier, l, fs) && table[fd].currentSizeBytes <= l.cache.capacity * l.entryBytes
    requires Step(cfg, s, x).1.kind != NONE
    ensures var (s', a) := Step(cfg, s, x);
            && 0.0 <= a.fraction <= 1.0
            && Spent(cfg, s'.tier, Told(l, table, fd, a), if a.kind == SHRINK then fs + [a.fraction] else fs)
  {
    var a := Step(cfg, s, x).1;
    StepFacts(cfg, s, x);
    ActionFraction(cfg, s, x);
    var dir, size, n := DirectionOf(a.kind), table[fd].currentSizeBytes, l.cache.capacity;
    var q := Target(dir, size, a.fraction) / l.entryBytes;
    TargetShare(dir, a.fraction, size, n, l.entryBytes);
    hide Left, Step, Target, Times;
    if a.kind == SHRINK {
      LeftAfterShrink(cfg, n, q, s.tier, fs, l.initial, l.joined);
    } else {
      LeftAfterGrow(cfg, n, q, s.tier, fs, l.initial, l.joined);
      Monotone(1.0, 1.0 + a.fraction, n as real);
      Commutes(n as real, 1.0 + a.fraction);
      Units(n as real);
      LeftAfterGrow(cfg, n, n, s.tier, fs, l.initial, l.joined);
    }
  }

  lemma HandledSpends(cfg: seq<TierConfig>, t: nat, l: Link, fs: seq<real>)
    requires FractionsOk(cfg) && t < |cfg| && l.joined < |cfg| && Spent(cfg, t, l, fs)
    requires |l.down| == 1 && (l.down[0].kind == Protocol.SHRINK || l.down[0].kind == Protocol.GROW)
    ensures Spent(cfg, t, Handled(l), fs)
  {
    hide Left;
    var q := l.down[0].targetBytes / l.entryBytes;
    if l.cache.capacity <= q { LeftLess(cfg, l.cache.capacity, q, t, fs, l.initial, l.joined); }
  }

  lemma PollSpends(cfg: seq<TierConfig>, w: World, x: PsiData, fd: Fd, fs: seq<real>)
    requires FractionsOk(cfg) && w.engine.tier < |cfg| && WorldOk(cfg, w, fd) && Synchronous(cfg, w, Poll(x), fd)
    requires WorldSpent(cfg, w, fd, fs)
    ensures WorldSpent(cfg, Next(cfg, w, Poll(x)), fd, fs + Shrunken(cfg, w, Poll(x), fd))
  {
    hide Ceiling, Peak, Step, Spent, TargetOk, ReportOk;
    var a := Step(cfg, w.engine, x).1;
    StepFacts(cfg, w.engine, x);
    assert fs + [] == fs;
    if fd in w.links && a.kind != NONE { DispatchSpends(cfg, w.engine, x, w.table, fd, w.links[fd], fs); }
  }

  lemma NextSpends(cfg: seq<TierConfig>, w: World, m: Move, fd: Fd, fs: seq<real>)
    requires FractionsOk(cfg) && w.engine.tier < |cfg| && WorldOk(cfg, w, fd) && Synchronous(cfg, w, m, fd)
    requires WorldSpent(cfg, w, fd, fs)
    ensures WorldSpent(cfg, Next(cfg, w, m), fd, fs + Shrunken(cfg, w, m, fd))
  {
    hide Ceiling, Peak, Left, Step, Handled;
    assert fs + [] == fs;
    match m
    case Poll(x) => PollSpends(cfg, w, x, fd, fs);
    case Join(_, _, _, _, _) => JoinSpends(cfg, w, m, fd, fs);
    case DeliverDown(other) =>
      if other == fd && fd in w.links && |w.links[fd].down| > 0 {
        HandledSpends(cfg, w.engine.tier, w.links[fd], fs);
        HandledHistory(w.links[fd]);
      }
    case DeliverUp(other) =>
    case Use(other, op) =>
  }

  lemma HandledHistory(l: Link)
    requires |l.down| > 0
    ensures Handled(l).joined == l.joined && Handled(l).initial == l.initial
  {
  }

  lemma JoinSpends(cfg: seq<TierConfig>, w: World, m: Move, fd: Fd, fs: seq<real>)
    requires FractionsOk(cfg) && w.engine.tier < |cfg| && m.Join? && WorldSpent(cfg, w, fd, fs)
    ensures WorldSpent(cfg, Next(cfg, w, m), fd, fs)
  {
    hide Times, GrownTo, Regrown;
    if m.fd == fd && fd !in w.links { Units(Times(m.cache.capacity as real, Regrown(cfg, 0, w.engine.tier))); }
  }

  lemma {:induction false} RunSpends(cfg: seq<TierConfig>, ms: seq<Move>, fd: Fd)
    requires |cfg| > 0 && FractionsOk(cfg) && SynchronousRun(cfg, Start, ms, fd)
    ensures WorldSpent(cfg, After(cfg, Start, ms), fd, Shrinks(cfg, ms, fd))
  {
    if |ms| > 0 {
      hide WorldSpent, WorldOk, Next, Synchronous, Shrunken;
      var n := |ms| - 1;
      RunSpends(cfg, ms[..n], fd);
      RunKeeps(cfg, ms[..n], fd);
      NextSpends(cfg, After(cfg, Start, ms[..n]), ms[n], fd, Shrinks(cfg, ms[..n], fd));
    } else {
      assert After(cfg, Start, ms) == Start;
    }
  }

  // Main result. In every run where nothing is in flight for fd when the daemon dispatches, once no
  // command is on its way:
  // - its capacity, weighed by the growth still due, is at most what it joined with times the product
  //   of 1 - f * f over the SHRINKs dispatched to it;
  // - if every tier shrinks at all, a capacity of at least 1 has lost one entry for each of them.
  lemma EveryShrinkCosts(cfg: seq<TierConfig>, ms: seq<Move>, fd: Fd)
    requires |cfg| > 0 && FractionsOk(cfg) && SynchronousRun(cfg, Start, ms, fd)
    requires fd in After(cfg, Start, ms).links && |After(cfg, Start, ms).links[fd].down| == 0
    ensures var w, fs := After(cfg, Start, ms), Shrinks(cfg, ms, fd);
            var l, t := w.links[fd], w.engine.tier;
            && l.joined < |cfg|
            && Times(l.cache.capacity as real, Regrown(cfg, 0, t))
               <= Times(Times(l.initial as real, Regrown(cfg, 0, l.joined)), Loss(fs))
            && (AllPositive(cfg) && l.cache.capacity >= 1 ==>
                  GrownTo(cfg, t, l.cache.capacity) + |fs| <= GrownTo(cfg, l.joined, l.initial))
  {
    hide After, SynchronousRun, Times, GrownTo, Regrown, Loss;
    RunSpends(cfg, ms, fd);
  }

  // A client that joined at NORMAL keeps at most its initial capacity less one entry for each SHRINK;
  // so after as many SHRINKs as it had entries it has no capacity, whatever it is told or does.
  lemma {:induction false} RatchetsToZero(cfg: seq<TierConfig>, ms: seq<Move>, fd: Fd)
    requires |cfg| > 0 && FractionsOk(cfg) && AllPositive(cfg) && SynchronousRun(cfg, Start, ms, fd)
    requires fd in After(cfg, Start, ms).links
    requires var l := After(cfg, Start, ms).links[fd]; l.joined == NORMAL && |l.down| == 0
    ensures var l, k := After(cfg, Start, ms).links[fd], |Shrinks(cfg, ms, fd)|;
            && (k < l.initial ==> l.cache.capacity + k <= l.initial)
            && (k >= l.initial ==> l.cache.capacity == 0)
  {
    hide After, SynchronousRun, Shrinks, AllPositive;
    EveryShrinkCosts(cfg, ms, fd);
  }
}
