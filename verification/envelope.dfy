// The end-to-end bound: how much capacity a client can have, tier by tier.
module Envelope {
  import opened Wrappers
  import opened RealLaws
  import opened Policy
  import opened Daemon
  import opened Transport
  import opened GovernedModel
  import opened Registry
  import opened ClosedLoop
  import Decimal
  import Framing
  import Protocol
  import Lru = LruModel

  // The product of (1 - fraction) over the tiers above lo up to hi.
  ghost function Shrunk(cfg: seq<TierConfig>, lo: nat, hi: nat): (x: real)
    requires FractionsOk(cfg) && lo <= hi < |cfg|
    ensures 0.0 <= x <= 1.0
    decreases hi
  {
    if lo == hi then 1.0
    else
      ProductRange(Shrunk(cfg, lo, hi - 1), 1.0 - cfg[hi].shrink);
      Times(Shrunk(cfg, lo, hi - 1), 1.0 - cfg[hi].shrink)
  }

  // The product of (1 + fraction) over the tiers above lo up to hi.
  ghost function Regrown(cfg: seq<TierConfig>, lo: nat, hi: nat): (x: real)
    requires FractionsOk(cfg) && lo <= hi < |cfg|
    ensures x >= 1.0
    decreases hi
  {
    if lo == hi then 1.0
    else
      ProductGrows(Regrown(cfg, lo, hi - 1), 1.0 + cfg[hi].shrink);
      Times(Regrown(cfg, lo, hi - 1), 1.0 + cfg[hi].shrink)
  }

  lemma ProductRange(x: real, y: real)
    requires 0.0 <= x <= 1.0 && 0.0 <= y <= 1.0
    ensures 0.0 <= Times(x, y) <= x && Times(x, y) <= y
  {
    hide Times;
    Monotone(x, 1.0, y);
    Monotone(y, 1.0, x);
    Monotone(0.0, x, y);
    Commutes(x, y);
    Units(x);
    Units(y);
  }

  lemma ProductGrows(x: real, y: real)
    requires x >= 1.0 && y >= 1.0
    ensures Times(x, y) >= x && Times(x, y) >= y
  {
    hide Times;
    Monotone(1.0, x, y);
    Monotone(1.0, y, x);
    Commutes(x, y);
    Units(x);
    Units(y);
  }

  lemma {:induction false} RegrownFirst(cfg: seq<TierConfig>, lo: nat, hi: nat)
    requires FractionsOk(cfg) && lo < hi < |cfg|
    ensures Regrown(cfg, lo, hi) == Times(Regrown(cfg, lo + 1, hi), 1.0 + cfg[lo + 1].shrink)
    decreases hi
  {
    hide Times;
    if lo + 1 < hi {
      RegrownFirst(cfg, lo, hi - 1);
      var a, b, c := Regrown(cfg, lo + 1, hi - 1), 1.0 + cfg[lo + 1].shrink, 1.0 + cfg[hi].shrink;
      Associates(a, b, c);
      Commutes(b, c);
      Associates(a, c, b);
    }
  }

  // What a link may ever have, and what it may have at tier t.
  ghost function Peak(cfg: seq<TierConfig>, l: Link): real
    requires FractionsOk(cfg) && l.lowest <= l.joined < |cfg|
  {
    Times(l.initial as real, Regrown(cfg, l.lowest, l.joined))
  }

  ghost function Ceiling(cfg: seq<TierConfig>, l: Link, t: nat): real
    requires FractionsOk(cfg) && l.lowest <= l.joined < |cfg| && l.lowest <= t < |cfg|
  {
    Times(Peak(cfg, l), Shrunk(cfg, l.lowest, t))
  }

  lemma PeakNonNegative(cfg: seq<TierConfig>, l: Link)
    requires FractionsOk(cfg) && l.lowest <= l.joined < |cfg|
    ensures Peak(cfg, l) >= 0.0
  {
    hide Times;
    var r := Regrown(cfg, l.lowest, l.joined);
    Monotone(0.0, l.initial as real, r);
    Units(r);
  }

  lemma CeilingUnderPeak(cfg: seq<TierConfig>, l: Link, t: nat)
    requires FractionsOk(cfg) && l.lowest <= l.joined < |cfg| && l.lowest <= t < |cfg|
    ensures 0.0 <= Ceiling(cfg, l, t) <= Peak(cfg, l)
  {
    PeakNonNegative(cfg, l);
    hide Times, Peak, Shrunk;
    var p, x := Peak(cfg, l), Shrunk(cfg, l.lowest, t);
    Monotone(x, 1.0, p);
    Monotone(0.0, x, p);
    Commutes(p, x);
    Units(p);
  }

  // ----- what a transition does to the ceiling

  lemma CeilingShrinks(cfg: seq<TierConfig>, l: Link, t: nat)
    requires FractionsOk(cfg) && l.lowest <= l.joined < |cfg| && l.lowest <= t && t + 1 < |cfg|
    ensures Ceiling(cfg, l, t + 1) == Times(Ceiling(cfg, l, t), 1.0 - cfg[t + 1].shrink)
  {
    hide Times, Peak;
    Associates(Peak(cfg, l), Shrunk(cfg, l.lowest, t), 1.0 - cfg[t + 1].shrink);
  }

  lemma GrowWithin(cfg: seq<TierConfig>, l: Link, t: nat)
    requires FractionsOk(cfg) && l.lowest <= l.joined < |cfg| && l.lowest < t < |cfg|
    ensures Times(Ceiling(cfg, l, t), 1.0 + cfg[t].shrink) <= Ceiling(cfg, l, t - 1)
    ensures Ceiling(cfg, l, t) <= Ceiling(cfg, l, t - 1)
  {
    var f := cfg[t].shrink;
    CeilingShrinks(cfg, l, t - 1);
    CeilingUnderPeak(cfg, l, t - 1);
    DifferenceOfSquares(f);
    hide Times, Ceiling;
    var c := Ceiling(cfg, l, t - 1);
    Associates(c, 1.0 - f, 1.0 + f);
    Monotone(Times(1.0 - f, 1.0 + f), 1.0, c);
    Commutes(c, Times(1.0 - f, 1.0 + f));
    Monotone(1.0 - f, 1.0, c);
    Commutes(c, 1.0 - f);
    Units(c);
  }

  lemma DifferenceOfSquares(f: real)
    ensures Times(1.0 - f, 1.0 + f) <= 1.0
  {
    assert (1.0 - f) * (1.0 + f) == 1.0 - f * f;
    assert f * f >= 0.0;
  }

  // Growing out of the lowest tier so far moves the reference point down with it.
  lemma GrowBelow(cfg: seq<TierConfig>, l: Link)
    requires FractionsOk(cfg) && 0 < l.lowest <= l.joined < |cfg|
    ensures var l' := l.(lowest := l.lowest - 1);
            && Times(Ceiling(cfg, l, l.lowest), 1.0 + cfg[l.lowest].shrink) == Ceiling(cfg, l', l.lowest - 1)
            && Peak(cfg, l) <= Peak(cfg, l')
  {
    hide Times;
    var l' := l.(lowest := l.lowest - 1);
    var i, r, g := l.initial as real, Regrown(cfg, l.lowest, l.joined), 1.0 + cfg[l.lowest].shrink;
    RegrownFirst(cfg, l.lowest - 1, l.joined);
    Units(Peak(cfg, l));
    Units(Peak(cfg, l'));
    Associates(i, r, g);
    PeakNonNegative(cfg, l);
    Monotone(1.0, g, Peak(cfg, l));
    Commutes(g, Peak(cfg, l));
  }

  // Both cases of a demotion from t: the new ceiling dominates the old one, and the old one scaled.
  lemma CeilingGrows(cfg: seq<TierConfig>, l: Link, t: nat)
    requires FractionsOk(cfg) && l.lowest <= l.joined < |cfg| && l.lowest <= t < |cfg| && t > 0
    ensures var l' := l.(lowest := Min(l.lowest, t - 1));
            && Times(Ceiling(cfg, l, t), 1.0 + cfg[t].shrink) <= Ceiling(cfg, l', t - 1)
            && Ceiling(cfg, l, t) <= Ceiling(cfg, l', t - 1)
            && Peak(cfg, l) <= Peak(cfg, l')
  {
    if l.lowest < t {
      assert l.(lowest := Min(l.lowest, t - 1)) == l;
      GrowWithin(cfg, l, t);
    } else {
      GrowBelow(cfg, l);
      CeilingUnderPeak(cfg, l, t);
      hide Times, Ceiling, Peak;
      var c := Ceiling(cfg, l, t);
      Monotone(1.0, 1.0 + cfg[t].shrink, c);
      Commutes(c, 1.0 + cfg[t].shrink);
      Units(c);
    }
  }

  // ----- the invariant of one link

  // m is the command in flight; c the ceiling it must respect.
  ghost predicate TargetOk(m: Message, l: Link, c: real) {
    && (m.kind == Protocol.SHRINK || (m.kind == Protocol.GROW && l.cache.capacity as real <= c))
    && m == Protocol.Message(m.kind, 0, m.targetBytes, 0, 0)
    && m.targetBytes as real <= Times(c, l.entryBytes as real)
  }

  ghost predicate ReportOk(m: Message, l: Link) {
    && (m == RegisterMessage(l.pid, m.currentSizeBytes) || m == ReportMessage(l.pid, m.currentSizeBytes))
    && m.currentSizeBytes <= l.cache.capacity * l.entryBytes
  }

  ghost predicate LinkOk(cfg: seq<TierConfig>, t: nat, onRecord: nat, l: Link)
    requires FractionsOk(cfg) && t < |cfg|
  {
    && l.lowest <= l.joined < |cfg| && l.lowest <= t
    && Lru.Unique(l.cache.items) && Lru.Bounded(l.cache)
    && l.cache.capacity as real <= Peak(cfg, l)
    && |l.down| + |l.up| <= 1
    && (|l.down| == 0 ==> l.cache.capacity as real <= Ceiling(cfg, l, t))
    && (|l.up| == 0 ==> onRecord <= l.cache.capacity * l.entryBytes)
    && (|l.up| > 0 ==> ReportOk(l.up[0], l))
    && (|l.down| > 0 ==> TargetOk(l.down[0], l, Ceiling(cfg, l, t)))
  }

  // Dispatch: a target computed from a record within the capacity stays within the scaled ceiling.
  lemma TargetBound(dir: Direction, fraction: real, onRecord: nat, capacity: nat, entryBytes: nat, c: real)
    requires 0.0 <= fraction <= 1.0 && onRecord <= capacity * entryBytes && capacity as real <= c
    ensures Target(dir, onRecord, fraction) as real <= Times(Times(c, Factor(dir, fraction)), entryBytes as real)
  {
    var x, b := Factor(dir, fraction), entryBytes as real;
    FactorRange(dir, fraction);
    assert Exact(dir, onRecord, fraction) == Times(onRecord as real, x);
    hide Times, Factor, Target, Exact;
    var bytes: nat := capacity * entryBytes;
    Naturals(capacity, entryBytes);
    Monotone(onRecord as real, bytes as real, x);
    Monotone(capacity as real, c, b);
    Monotone(Times(capacity as real, b), Times(c, b), x);
    Associates(c, b, x);
    Commutes(b, x);
    Associates(c, x, b);
  }

  lemma ToldKeeps(cfg: seq<TierConfig>, s: State, x: PsiData, table: Table, fd: Fd, l: Link)
    requires FractionsOk(cfg) && s.tier < |cfg| && fd in table
    requires LinkOk(cfg, s.tier, table[fd].currentSizeBytes, l) && |l.down| == 0 && |l.up| == 0
    requires Step(cfg, s, x).1.kind != NONE
    ensures var (s', a) := Step(cfg, s, x);
            && 0.0 <= a.fraction <= 1.0
            && LinkOk(cfg, s'.tier, table[fd].currentSizeBytes, Told(l, table, fd, a))
  {
    var (s', a) := Step(cfg, s, x);
    ActionFraction(cfg, s, x);
    var dir := DirectionOf(a.kind);
    var c := Ceiling(cfg, l, s.tier);
    StepFacts(cfg, s, x);
    TargetBound(dir, a.fraction, table[fd].currentSizeBytes, l.cache.capacity, l.entryBytes, c);
    var l' := Told(l, table, fd, a);
    SameCeiling(cfg, l, l');
    if a.kind == SHRINK {
      assert l'.lowest == l.lowest;
      CeilingShrinks(cfg, l, s.tier);
      ToldOk(cfg, l, l', s'.tier, table[fd].currentSizeBytes, Times(c, Factor(dir, a.fraction)));
    } else {
      CeilingGrows(cfg, l, s.tier);
      ToldOk(cfg, l, l', s'.tier, table[fd].currentSizeBytes, Times(c, Factor(dir, a.fraction)));
    }
  }

  // What an action says, and which tier it leads to.
  lemma StepFacts(cfg: seq<TierConfig>, s: State, x: PsiData)
    requires s.tier < |cfg|
    ensures var (s', a) := Step(cfg, s, x);
            && a.newTier == s'.tier
            && (a.kind == SHRINK ==> s'.tier == s.tier + 1 < |cfg| && a.fraction == cfg[s.tier + 1].shrink)
            && (a.kind == GROW ==> s'.tier + 1 == s.tier && a.fraction == cfg[s.tier].shrink)
            && (a.kind == NONE ==> s'.tier == s.tier)
  {
  }

  // The ceiling depends only on the history variables.
  lemma SameCeiling(cfg: seq<TierConfig>, l: Link, l': Link)
    requires FractionsOk(cfg) && l.lowest <= l.joined < |cfg|
    requires l'.initial == l.initial && l'.joined == l.joined && l'.lowest <= l.lowest
    ensures Peak(cfg, l') == Peak(cfg, l.(lowest := l'.lowest))
    ensures forall t: nat :: l'.lowest <= t < |cfg| ==> Ceiling(cfg, l', t) == Ceiling(cfg, l.(lowest := l'.lowest), t)
  {
    hide Times;
  }

  lemma ToldOk(cfg: seq<TierConfig>, l: Link, l': Link, t: nat, onRecord: nat, scaled: real)
    requires FractionsOk(cfg) && t < |cfg|
    requires l.lowest <= l.joined < |cfg| && |l.down| == 0 && |l.up| == 0
    requires l' == l.(down := l'.down, lowest := l'.lowest) && |l'.down| == 1
    requires var m := l'.down[0]; m == Protocol.Message(m.kind, 0, m.targetBytes, 0, 0)
    requires l'.lowest <= l.lowest && l'.lowest <= t
    requires Lru.Unique(l.cache.items) && Lru.Bounded(l.cache) && onRecord <= l.cache.capacity * l.entryBytes
    requires l.cache.capacity as real <= Peak(cfg, l) <= Peak(cfg, l')
    requires scaled <= Ceiling(cfg, l', t) && l'.down[0].targetBytes as real <= Times(scaled, l.entryBytes as real)
    requires l'.down[0].kind == Protocol.SHRINK
          || (l'.down[0].kind == Protocol.GROW && l.cache.capacity as real <= Ceiling(cfg, l', t))
    ensures LinkOk(cfg, t, onRecord, l')
  {
    hide Times, Ceiling, Peak;
    Monotone(scaled, Ceiling(cfg, l', t), l.entryBytes as real);
  }

  // Delivery: a byte target within the ceiling is a capacity within the ceiling.
  lemma QuotientBound(target: nat, entryBytes: Positive, c: real)
    requires target as real <= Times(c, entryBytes as real)
    ensures (target / entryBytes) as real <= c
  {
    hide Times;
    var q := target / entryBytes;
    assert q * entryBytes <= target;
    Naturals(q, entryBytes);
    if (q as real) > c { StrictlyLess(c, q as real, entryBytes as real); }
  }

  lemma StrictlyLess(x: real, y: real, z: real)
    requires x < y && z > 0.0
    ensures Times(x, z) < Times(y, z)
  {
    assert (y - x) * z > 0.0;
  }

  lemma HandledKeeps(cfg: seq<TierConfig>, t: nat, onRecord: nat, l: Link)
    requires FractionsOk(cfg) && t < |cfg| && LinkOk(cfg, t, onRecord, l) && |l.down| > 0
    ensures LinkOk(cfg, t, onRecord, Handled(l))
  {
    var l' := Handled(l);
    var c := Ceiling(cfg, l, t);
    SameCeiling(cfg, l, l');
    CeilingUnderPeak(cfg, l, t);
    assert l.(lowest := l'.lowest) == l;
    QuotientBound(l.down[0].targetBytes, l.entryBytes, c);
    HandledShape(l, c);
    HandledReport(l);
    hide Times, Ceiling, Peak, Handled;
  }

  // Where the capacity can end up after a command, and that the cache stays well formed.
  lemma HandledShape(l: Link, c: real)
    requires |l.down| == 1 && Lru.Unique(l.cache.items) && Lru.Bounded(l.cache)
    requires TargetOk(l.down[0], l, c) && (l.down[0].targetBytes / l.entryBytes) as real <= c
    ensures var l' := Handled(l);
            && l' == l.(cache := l'.cache, down := [], up := l'.up)
            && Lru.Unique(l'.cache.items) && Lru.Bounded(l'.cache)
            && l'.cache.capacity as real <= c
  {
    hide Times;
    var target := l.down[0].targetBytes / l.entryBytes;
    Lru.ApplyKeeps(l.cache, Lru.Resize(target));
  }

  lemma HandledReport(l: Link)
    requires |l.down| == 1 && |l.up| == 0
    ensures var l' := Handled(l);
            && |l'.up| <= 1
            && (|l'.up| == 0 ==> l'.cache == l.cache)
            && (|l'.up| > 0 ==> ReportOk(l'.up[0], l'))
  {
    var l' := Handled(l);
    if l'.cache != l.cache {
      assert |l'.cache.items| <= l'.cache.capacity;
      Multiples(|l'.cache.items|, l'.cache.capacity, l.entryBytes);
    }
  }

  lemma Multiples(m: nat, n: nat, b: nat)
    requires m <= n
    ensures m * b <= n * b
  {
  }

  // ----- every move

  ghost predicate WorldOk(cfg: seq<TierConfig>, w: World, fd: Fd)
    requires FractionsOk(cfg) && w.engine.tier < |cfg|
  {
    fd in w.links ==> fd in w.table && LinkOk(cfg, w.engine.tier, w.table[fd].currentSizeBytes, w.links[fd])
  }

  lemma PollKeeps(cfg: seq<TierConfig>, w: World, x: PsiData, fd: Fd)
    requires FractionsOk(cfg) && w.engine.tier < |cfg| && WorldOk(cfg, w, fd) && Synchronous(cfg, w, Poll(x), fd)
    ensures WorldOk(cfg, Next(cfg, w, Poll(x)), fd)
  {
    hide LinkOk;
    var a := Step(cfg, w.engine, x).1;
    StepFacts(cfg, w.engine, x);
    if fd in w.links && a.kind != NONE {
      ToldKeeps(cfg, w.engine, x, w.table, fd, w.links[fd]);
    }
  }

  lemma JoinKeeps(cfg: seq<TierConfig>, w: World, m: Move, fd: Fd)
    requires FractionsOk(cfg) && w.engine.tier < |cfg| && WorldOk(cfg, w, fd) && m.Join? && JoinsWithin(m, fd)
    ensures WorldOk(cfg, Next(cfg, w, m), fd)
  {
    if m.fd == fd && fd !in w.links {
      var l := Next(cfg, w, m).links[fd];
      Multiples(|m.cache.items|, m.cache.capacity, m.entryBytes);
      Units(l.initial as real);
      assert Peak(cfg, l) == Ceiling(cfg, l, w.engine.tier) == l.initial as real by { Units(Peak(cfg, l)); }
    }
  }

  lemma DeliverUpKeeps(cfg: seq<TierConfig>, w: World, fd: Fd)
    requires FractionsOk(cfg) && w.engine.tier < |cfg| && WorldOk(cfg, w, fd)
    ensures WorldOk(cfg, Next(cfg, w, DeliverUp(fd)), fd)
  {
    hide Times;
    if fd in w.links && |w.links[fd].up| > 0 {
      SameCeiling(cfg, w.links[fd], w.links[fd].(up := w.links[fd].up[1..]));
    }
  }

  lemma UseKeeps(cfg: seq<TierConfig>, t: nat, onRecord: nat, l: Link, op: Lru.Op<string, string>)
    requires FractionsOk(cfg) && t < |cfg| && LinkOk(cfg, t, onRecord, l) && !op.Resize?
    ensures LinkOk(cfg, t, onRecord, l.(cache := Lru.Apply(l.cache, op)))
  {
    var l' := l.(cache := Lru.Apply(l.cache, op));
    assert l'.cache.capacity == l.cache.capacity;
    Lru.ApplyKeeps(l.cache, op);
    SameCeiling(cfg, l, l');
    assert l.(lowest := l'.lowest) == l;
    hide Times, Ceiling, Peak, Lru.Apply, Lru.Unique;
  }

  lemma NextKeeps(cfg: seq<TierConfig>, w: World, m: Move, fd: Fd)
    requires FractionsOk(cfg) && w.engine.tier < |cfg| && WorldOk(cfg, w, fd)
    requires JoinsWithin(m, fd) && Synchronous(cfg, w, m, fd)
    ensures WorldOk(cfg, Next(cfg, w, m), fd)
  {
    hide LinkOk, Handled, Lru.Apply;
    match m
    case Poll(x) => PollKeeps(cfg, w, x, fd);
    case Join(_, _, _, _, _) => JoinKeeps(cfg, w, m, fd);
    case DeliverDown(other) =>
      if other == fd && fd in w.links && |w.links[fd].down| > 0 {
        HandledKeeps(cfg, w.engine.tier, w.table[fd].currentSizeBytes, w.links[fd]);
      }
    case DeliverUp(other) => if other == fd { DeliverUpKeeps(cfg, w, fd); }
    case Use(other, op) =>
      if other == fd && fd in w.links && !op.Resize? {
        UseKeeps(cfg, w.engine.tier, w.table[fd].currentSizeBytes, w.links[fd], op);
      }
  }

  lemma {:induction false} RunKeeps(cfg: seq<TierConfig>, ms: seq<Move>, fd: Fd)
    requires |cfg| > 0 && FractionsOk(cfg) && SynchronousRun(cfg, Start, ms, fd)
    ensures WorldOk(cfg, After(cfg, Start, ms), fd)
  {
    if |ms| > 0 {
      var n := |ms| - 1;
      RunKeeps(cfg, ms[..n], fd);
      NextKeeps(cfg, After(cfg, Start, ms[..n]), ms[n], fd);
    }
  }

  // Main result. In every run where nothing is in flight for fd when the daemon dispatches, with l
  // its link and t the current tier:
  // - its capacity never exceeds its peak, and respects the ceiling of t unless a command is in flight;
  // - the size on record, or else the one in the report in flight, is within the capacity;
  // - the cache holds no more than its capacity, if that is at least 1.
  lemma {:induction false} EnvelopeHolds(cfg: seq<TierConfig>, ms: seq<Move>, fd: Fd)
    requires |cfg| > 0 && FractionsOk(cfg) && SynchronousRun(cfg, Start, ms, fd)
    requires fd in After(cfg, Start, ms).links
    ensures var w := After(cfg, Start, ms);
            var l, t := w.links[fd], w.engine.tier;
            && l.lowest <= l.joined < |cfg| && l.lowest <= t
            && var peak := Times(l.initial as real, Regrown(cfg, l.lowest, l.joined));
            && l.cache.capacity as real <= peak
            && (|l.down| == 0 ==> l.cache.capacity as real <= Times(peak, Shrunk(cfg, l.lowest, t)))
            && (|l.down| == 0 && |l.up| == 0 ==>
                  fd in w.table && w.table[fd].currentSizeBytes <= l.cache.capacity * l.entryBytes)
            && (|l.up| > 0 ==> l.up[0].currentSizeBytes <= l.cache.capacity * l.entryBytes)
            && (l.cache.capacity >= 1 ==> |l.cache.items| <= l.cache.capacity)
  {
    RunKeeps(cfg, ms, fd);
  }

  // A client that joined at NORMAL: never more than its initial capacity, and with the default
  // fractions at most 90, 67.5 and 33.75 per cent of it at ELEVATED, HIGH and CRITICAL.
  lemma {:induction false} JoinedAtNormal(cfg: seq<TierConfig>, ms: seq<Move>, fd: Fd)
    requires |cfg| > 0 && FractionsOk(cfg) && SynchronousRun(cfg, Start, ms, fd)
    requires fd in After(cfg, Start, ms).links && After(cfg, Start, ms).links[fd].joined == NORMAL
    ensures var w := After(cfg, Start, ms);
            var l := w.links[fd];
            && l.cache.capacity <= l.initial
            && (|l.down| == 0 ==> l.cache.capacity as real <= Times(l.initial as real, Shrunk(cfg, NORMAL, w.engine.tier)))
            && (|l.down| == 0 && cfg == DefaultConfigs() ==>
                  && (w.engine.tier == ELEVATED ==> 10 * l.cache.capacity <= 9 * l.initial)
                  && (w.engine.tier == HIGH ==> 1000 * l.cache.capacity <= 675 * l.initial)
                  && (w.engine.tier == CRITICAL ==> 10000 * l.cache.capacity <= 3375 * l.initial))
  {
    hide After, SynchronousRun;
    EnvelopeHolds(cfg, ms, fd);
    Units(After(cfg, Start, ms).links[fd].initial as real);
    if cfg == DefaultConfigs() { DefaultProducts(); }
  }

  lemma DefaultProducts()
    ensures FractionsOk(DefaultConfigs())
    ensures var cfg := DefaultConfigs();
            && Shrunk(cfg, NORMAL, ELEVATED) == 0.9
            && Shrunk(cfg, NORMAL, HIGH) == 0.675
            && Shrunk(cfg, NORMAL, CRITICAL) == 0.3375
  {
    var cfg := DefaultConfigs();
    assert Shrunk(cfg, NORMAL, NORMAL) == 1.0;
    assert Shrunk(cfg, NORMAL, ELEVATED) == 0.9;
    assert Shrunk(cfg, NORMAL, HIGH) == 0.675;
  }

  // ----- the same messages as bytes

  lemma BytesFit(capacity: nat, entryBytes: nat, peak: real)
    requires capacity as real <= peak && Times(peak, entryBytes as real) < Decimal.TWO64 as real
    ensures capacity * entryBytes < Decimal.TWO64
  {
    hide Times;
    Naturals(capacity, entryBytes);
    Monotone(capacity as real, peak, entryBytes as real);
  }

  lemma InFlightFits(cfg: seq<TierConfig>, t: nat, onRecord: nat, l: Link)
    requires FractionsOk(cfg) && t < |cfg| && LinkOk(cfg, t, onRecord, l)
    requires -Decimal.TWO31 <= l.pid < Decimal.TWO31
    requires Times(Peak(cfg, l), l.entryBytes as real) < Decimal.TWO64 as real
    ensures forall m :: m in l.down ==> Protocol.Representable(m)
    ensures forall m :: m in l.up ==> Protocol.Representable(m)
  {
    CeilingUnderPeak(cfg, l, t);
    hide Times, Ceiling, Peak;
    BytesFit(l.cache.capacity, l.entryBytes, Peak(cfg, l));
    Monotone(Ceiling(cfg, l, t), Peak(cfg, l), l.entryBytes as real);
    assert forall m :: m in l.down ==> m == l.down[0];
    assert forall m :: m in l.up ==> m == l.up[0];
  }

  // If the peak in bytes fits 64 bits, everything in flight fits the C++ field types: framed onto a
  // stream that may be split anywhere, it is decoded to exactly the same messages at the other end.
  lemma MessagesSurviveTheWire(cfg: seq<TierConfig>, ms: seq<Move>, fd: Fd)
    requires |cfg| > 0 && FractionsOk(cfg) && SynchronousRun(cfg, Start, ms, fd)
    requires fd in After(cfg, Start, ms).links
    requires var l := After(cfg, Start, ms).links[fd];
             -Decimal.TWO31 <= l.pid < Decimal.TWO31 && l.lowest <= l.joined < |cfg|
             && Times(Peak(cfg, l), l.entryBytes as real) < Decimal.TWO64 as real
    ensures var l := After(cfg, Start, ms).links[fd];
            && Framing.ClientDecode(Framing.Frames(l.down)) == (l.down, Framing.EndOfStream)
            && Framing.ServerDecode(Framing.Frames(l.up)) == (l.up, Framing.EndOfStream)
  {
    hide After, LinkOk, Framing.ClientDecode, Framing.ServerDecode, Framing.Frames, Protocol.Representable, Times;
    RunKeeps(cfg, ms, fd);
    var w := After(cfg, Start, ms);
    InFlightFits(cfg, w.engine.tier, w.table[fd].currentSizeBytes, w.links[fd]);
    CommandsArrive(w.links[fd].down);
    CommandsArrive(w.links[fd].up);
  }
}
