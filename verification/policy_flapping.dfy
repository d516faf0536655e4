// Where the avg60 trigger defeats the debounce: signals on which the tier flaps or is pinned, and
// the exact signals on which the default configuration settles.
module PolicyFlapping {
  import opened Wrappers
  import opened Policy
  import opened PolicyHistory
  import opened PolicySettling

  // HIGH is pushed up and CRITICAL down, and a push down at HIGH comes too late: CRITICAL's debounce
  // is already complete.
  ghost predicate Bounces(cfg: seq<TierConfig>, x: PsiData) {
    && |cfg| > CRITICAL
    && Up(cfg, HIGH, x) && (!Down(cfg, HIGH, x) || cfg[CRITICAL].debounce <= 1)
    && Down(cfg, CRITICAL, x) && !Up(cfg, CRITICAL, x)
  }

  lemma Bounce(cfg: seq<TierConfig>, x: PsiData)
    requires Bounces(cfg, x)
    ensures var d: nat := Debounce(cfg, CRITICAL);
            && Iter(cfg, State(HIGH, 0, 0), x, d) == State(CRITICAL, 0, 0)
            && Iter(cfg, State(CRITICAL, 0, 0), x, d) == State(HIGH, 0, 0)
  {
    var d: nat := Debounce(cfg, CRITICAL);
    Falling(cfg, State(CRITICAL, 0, 0), x, d);
    if Down(cfg, HIGH, x) {
      assert d == 1;
      assert Iter(cfg, State(HIGH, 0, 0), x, 0) == State(HIGH, 0, 0);
    } else {
      Rising(cfg, State(HIGH, 0, 0), x, d);
    }
  }

  // A constant signal on which the tier alternates between HIGH and CRITICAL for ever, each for
  // exactly one debounce of CRITICAL.
  lemma {:induction false} Cycles(cfg: seq<TierConfig>, x: PsiData, k: nat)
    requires Bounces(cfg, x)
    ensures var d: nat := Debounce(cfg, CRITICAL);
            && Iter(cfg, State(HIGH, 0, 0), x, k * (2 * d)) == State(HIGH, 0, 0)
            && Iter(cfg, State(HIGH, 0, 0), x, k * (2 * d) + d) == State(CRITICAL, 0, 0)
  {
    hide Step, Up, Down;
    var d: nat := Debounce(cfg, CRITICAL);
    var s := State(HIGH, 0, 0);
    Bounce(cfg, x);
    if k > 0 {
      var m: nat := (k - 1) * (2 * d);
      Cycles(cfg, x, k - 1);
      IterAdd(cfg, s, x, m + d, d);
      assert k * (2 * d) == m + d + d;
    }
    IterAdd(cfg, s, x, k * (2 * d), d);
  }

  // A constant signal that asks HIGH both to rise and to fall clears one counter with the other at
  // every poll.
  lemma {:induction false} Pinned(cfg: seq<TierConfig>, s: State, x: PsiData, n: nat)
    requires |cfg| > CRITICAL && Up(cfg, HIGH, x) && Down(cfg, HIGH, x)
    requires CountersOk(cfg, s) && s.tier == HIGH
    requires s.up + 1 < cfg[CRITICAL].debounce && cfg[HIGH].debounce >= 2
    ensures Iter(cfg, s, x, n) == if n == 0 then s else State(HIGH, 0, 1)
  {
    if n > 0 { Pinned(cfg, s, x, n - 1); }
  }

  // ----- when a constant signal settles

  ghost predicate FixedFrom(cfg: seq<TierConfig>, s: State, x: PsiData, from: nat, tier: nat)
    requires s.tier < |cfg|
  {
    forall n: nat :: n >= from ==> Iter(cfg, s, x, n).tier == tier
  }

  ghost predicate SettlesAt(cfg: seq<TierConfig>, s: State, x: PsiData, tier: nat)
    requires s.tier < |cfg|
  {
    exists from: nat :: FixedFrom(cfg, s, x, from, tier)
  }

  ghost predicate EventuallyFixed(cfg: seq<TierConfig>, s: State, x: PsiData)
    requires s.tier < |cfg|
  {
    exists tier: nat :: SettlesAt(cfg, s, x, tier)
  }

  // A signal that asks HIGH both ways keeps it there for ever if and only if the first such poll does
  // not complete CRITICAL's debounce and a single one does not complete HIGH's.
  lemma {:induction false} PinnedIff(cfg: seq<TierConfig>, s: State, x: PsiData)
    requires CountersOk(cfg, s) && s.tier == HIGH && |cfg| > CRITICAL && Up(cfg, HIGH, x) && Down(cfg, HIGH, x)
    ensures FixedFrom(cfg, s, x, 0, HIGH) <==> s.up + 1 < cfg[CRITICAL].debounce && cfg[HIGH].debounce >= 2
  {
    if s.up + 1 < cfg[CRITICAL].debounce && cfg[HIGH].debounce >= 2 {
      forall n: nat ensures Iter(cfg, s, x, n).tier == HIGH { Pinned(cfg, s, x, n); }
    } else {
      assert Iter(cfg, s, x, 0) == s;
      assert Iter(cfg, s, x, 1).tier != HIGH;
    }
  }

  // From s the signal leads to HIGH or CRITICAL.
  predicate ReachesTop(cfg: seq<TierConfig>, s: State, x: PsiData)
    requires |cfg| > CRITICAL
  {
    if s.tier < HIGH then x.someAvg10 >= cfg[HIGH].promote
    else forall i :: CRITICAL < i <= s.tier ==> Down(cfg, i, x)
  }

  // avg60 holds CRITICAL's trigger, avg10 asks CRITICAL to fall, and HIGH cannot escape downwards.
  predicate Flaps(cfg: seq<TierConfig>, s: State, x: PsiData) {
    && |cfg| > CRITICAL
    && x.someAvg60 >= cfg[HIGH].promote && x.someAvg10 < cfg[CRITICAL].demote
    && (x.someAvg10 >= cfg[HIGH].demote || cfg[CRITICAL].debounce <= 1)
    && ReachesTop(cfg, s, x)
  }

  // Avg60 holds CRITICAL's trigger, and avg10 asks HIGH or CRITICAL to fall.
  predicate Torn(cfg: seq<TierConfig>, x: PsiData) {
    && |cfg| > CRITICAL && x.someAvg60 >= cfg[HIGH].promote
    && (x.someAvg10 < cfg[HIGH].demote || x.someAvg10 < cfg[CRITICAL].demote)
  }

  // Where a torn signal leaves HIGH with no promotion held: there, unless a single poll down suffices.
  ghost function HighRest(cfg: seq<TierConfig>, x: PsiData): nat
    requires |cfg| > CRITICAL
  {
    if cfg[HIGH].debounce >= 2 then HIGH else RestingTier(cfg, ELEVATED, x)
  }

  // Where a constant signal that does not flap settles.
  ghost function Rest(cfg: seq<TierConfig>, s: State, x: PsiData): nat
    requires s.tier < |cfg|
  {
    if !Torn(cfg, x) || s.tier < HIGH then RestingTier(cfg, s.tier, x)
    else if s.tier == HIGH then
      if s.up + 1 < cfg[CRITICAL].debounce then HighRest(cfg, x)
      else if Down(cfg, CRITICAL, x) then HighRest(cfg, x)
      else CRITICAL
    else
      var u := Lowest(cfg, s.tier, x);
      if u < CRITICAL then HighRest(cfg, x) else u
  }

  lemma FixedAfter(cfg: seq<TierConfig>, s: State, x: PsiData, m: nat, r: State, tier: nat)
    requires s.tier < |cfg| && r == Iter(cfg, s, x, m) && SettlesAt(cfg, r, x, tier)
    ensures SettlesAt(cfg, s, x, tier)
  {
    var from: nat :| FixedFrom(cfg, r, x, from, tier);
    forall n: nat | n >= m + from ensures Iter(cfg, s, x, n).tier == tier {
      IterAdd(cfg, s, x, m, n - m);
    }
    assert FixedFrom(cfg, s, x, m + from, tier);
  }

  lemma ClimbFixes(cfg: seq<TierConfig>, s: State, x: PsiData, u: nat)
    requires CountersOk(cfg, s) && s.tier <= u < |cfg| && Stable(cfg, u, x)
    requires forall t :: s.tier <= t < u ==> Up(cfg, t, x) && !Down(cfg, t, x)
    ensures SettlesAt(cfg, s, x, u)
  {
    var from: nat := Climb(cfg, s.tier, u);
    forall n: nat | n >= from ensures Iter(cfg, s, x, n).tier == u { ClimbsTo(cfg, s, x, u, n); }
    assert FixedFrom(cfg, s, x, from, u);
  }

  lemma SinkFixes(cfg: seq<TierConfig>, s: State, x: PsiData, u: nat)
    requires CountersOk(cfg, s) && u <= s.tier && Stable(cfg, u, x)
    requires forall t :: u < t <= s.tier ==> Down(cfg, t, x) && !Up(cfg, t, x)
    ensures SettlesAt(cfg, s, x, u)
  {
    var from: nat := Climb(cfg, u, s.tier);
    forall n: nat | n >= from ensures Iter(cfg, s, x, n).tier == u { SinksTo(cfg, s, x, u, n); }
    assert FixedFrom(cfg, s, x, from, u);
  }

  lemma ConsistentFixes(cfg: seq<TierConfig>, s: State, x: PsiData)
    requires CountersOk(cfg, s) && Consistent(cfg, x)
    ensures SettlesAt(cfg, s, x, RestingTier(cfg, s.tier, x))
  {
    var r := RestingTier(cfg, s.tier, x);
    RestFacts(cfg, s.tier, x);
    if s.tier <= r { ClimbFixes(cfg, s, x, r); } else { SinkFixes(cfg, s, x, r); }
  }

  // ----- reaching a tier with both counters at zero

  lemma {:induction false} ClimbArrives(cfg: seq<TierConfig>, s: State, x: PsiData, u: nat) returns (m: nat)
    requires CountersOk(cfg, s) && s.tier < u < |cfg|
    requires forall t :: s.tier <= t < u ==> Up(cfg, t, x) && !Down(cfg, t, x)
    ensures Iter(cfg, s, x, m) == State(u, 0, 0)
    decreases u - s.tier
  {
    hide Step, Up, Down;
    m := Debounce(cfg, s.tier + 1) - s.up;
    Rising(cfg, s, x, m);
    if s.tier + 1 < u {
      var k := ClimbArrives(cfg, State(s.tier + 1, 0, 0), x, u);
      IterAdd(cfg, s, x, m, k);
      m := m + k;
    }
  }

  lemma {:induction false} SinkArrives(cfg: seq<TierConfig>, s: State, x: PsiData, u: nat) returns (m: nat)
    requires CountersOk(cfg, s) && u < s.tier
    requires forall t :: u < t <= s.tier ==> Down(cfg, t, x) && !Up(cfg, t, x)
    ensures Iter(cfg, s, x, m) == State(u, 0, 0)
    decreases s.tier
  {
    hide Step, Up, Down;
    m := Debounce(cfg, s.tier) - s.down;
    Falling(cfg, s, x, m);
    if u + 1 < s.tier {
      var k := SinkArrives(cfg, State(s.tier - 1, 0, 0), x, u);
      IterAdd(cfg, s, x, m, k);
      m := m + k;
    }
  }

  // ----- below HIGH, and from CRITICAL upwards

  // Below HIGH the trigger does not reach; avg10 below HIGH's promote threshold stays below HIGH.
  lemma LowFixes(cfg: seq<TierConfig>, s: State, x: PsiData)
    requires CountersOk(cfg, s) && Ordered(cfg) && |cfg| > CRITICAL
    requires s.tier < HIGH && x.someAvg10 < cfg[HIGH].promote
    ensures SettlesAt(cfg, s, x, RestingTier(cfg, s.tier, x))
  {
    assert cfg[ELEVATED].demote <= cfg[ELEVATED].promote;
    LowRest(cfg, s.tier, x);
    var u := RestingTier(cfg, s.tier, x);
    if s.tier <= u { ClimbFixes(cfg, s, x, u); } else { SinkFixes(cfg, s, x, u); }
  }

  lemma LowRest(cfg: seq<TierConfig>, t: nat, x: PsiData)
    requires Ordered(cfg) && |cfg| > CRITICAL && t < HIGH && x.someAvg10 < cfg[HIGH].promote
    ensures var u := RestingTier(cfg, t, x);
            && u < HIGH && Stable(cfg, u, x)
            && (u > t ==> Up(cfg, t, x) && !Down(cfg, t, x))
            && (u < t ==> Down(cfg, t, x) && !Up(cfg, t, x))
  {
    assert cfg[ELEVATED].demote <= cfg[ELEVATED].promote;
    assert !Up(cfg, ELEVATED, x);
  }

  // Promote thresholds never decrease.
  lemma {:induction false} PromoteAscends(cfg: seq<TierConfig>, i: nat, j: nat)
    requires Ordered(cfg) && 1 <= i <= j < |cfg|
    ensures cfg[i].promote <= cfg[j].promote
  {
    if i < j { PromoteAscends(cfg, i, j - 1); }
  }

  // Below CRITICAL's promote threshold nothing from CRITICAL upwards rises.
  lemma NothingRises(cfg: seq<TierConfig>, x: PsiData)
    requires Ordered(cfg) && |cfg| > CRITICAL && x.someAvg10 < cfg[CRITICAL].promote
    ensures forall t: nat :: t >= CRITICAL ==> !Up(cfg, t, x)
  {
    forall t: nat | t >= CRITICAL ensures !Up(cfg, t, x) {
      if t + 1 < |cfg| { PromoteAscends(cfg, CRITICAL, t + 1); }
    }
  }

  // ----- settling at HIGH

  // HIGH asked both ways: it goes up once if its counter was one short, or down at once if its
  // debounce is at most 1, and otherwise never moves again.
  lemma HighFixes(cfg: seq<TierConfig>, s: State, x: PsiData)
    requires CountersOk(cfg, s) && Ordered(cfg) && |cfg| > CRITICAL && s.tier == HIGH
    requires x.someAvg60 >= cfg[HIGH].promote && x.someAvg10 < cfg[HIGH].demote
    requires x.someAvg10 < cfg[CRITICAL].demote ==> cfg[CRITICAL].debounce >= 2
    ensures SettlesAt(cfg, s, x, Rest(cfg, s, x))
    decreases if s.up == 0 then 0 else 2
  {
    assert cfg[HIGH].demote <= cfg[HIGH].promote <= cfg[CRITICAL].promote;
    assert Iter(cfg, s, x, 0) == s;
    var r := Step(cfg, s, x).0;
    assert Iter(cfg, s, x, 1) == r;
    if s.up + 1 >= cfg[CRITICAL].debounce {
      NothingRises(cfg, x);
      if Down(cfg, CRITICAL, x) {
        CriticalFixes(cfg, r, x);
      } else {
        SinkFixes(cfg, r, x, CRITICAL);
      }
    } else if cfg[HIGH].debounce <= 1 {
      LowFixes(cfg, r, x);
    } else {
      forall n: nat ensures Iter(cfg, r, x, n).tier == HIGH { Pinned(cfg, r, x, n); }
      assert FixedFrom(cfg, r, x, 0, HIGH);
    }
    FixedAfter(cfg, s, x, 1, r, Rest(cfg, s, x));
  }

  // CRITICAL stays, or falls to HIGH and settles from there.
  lemma CriticalFixes(cfg: seq<TierConfig>, s: State, x: PsiData)
    requires CountersOk(cfg, s) && Ordered(cfg) && |cfg| > CRITICAL && s.tier == CRITICAL
    requires x.someAvg60 >= cfg[HIGH].promote && x.someAvg10 < cfg[CRITICAL].promote
    requires x.someAvg10 < cfg[CRITICAL].demote ==> x.someAvg10 < cfg[HIGH].demote && cfg[CRITICAL].debounce >= 2
    ensures SettlesAt(cfg, s, x, if Down(cfg, CRITICAL, x) then HighRest(cfg, x) else CRITICAL)
    decreases 1
  {
    NothingRises(cfg, x);
    if Down(cfg, CRITICAL, x) {
      var m := SinkArrives(cfg, s, x, HIGH);
      HighFixes(cfg, State(HIGH, 0, 0), x);
      FixedAfter(cfg, s, x, m, State(HIGH, 0, 0), HighRest(cfg, x));
    } else {
      SinkFixes(cfg, s, x, CRITICAL);
    }
  }

  lemma TopFixes(cfg: seq<TierConfig>, s: State, x: PsiData)
    requires CountersOk(cfg, s) && Ordered(cfg) && s.tier >= CRITICAL && x.someAvg10 < cfg[CRITICAL].promote
    requires Torn(cfg, x) && !Flaps(cfg, s, x)
    ensures SettlesAt(cfg, s, x, Rest(cfg, s, x))
  {
    var u := Lowest(cfg, s.tier, x);
    NothingRises(cfg, x);
    if u > CRITICAL {
      SinkFixes(cfg, s, x, u);
    } else {
      assert ReachesTop(cfg, s, x);
      if s.tier == CRITICAL {
        CriticalFixes(cfg, s, x);
      } else {
        var m := SinkArrives(cfg, s, x, CRITICAL);
        CriticalFixes(cfg, State(CRITICAL, 0, 0), x);
        FixedAfter(cfg, s, x, m, State(CRITICAL, 0, 0), Rest(cfg, s, x));
      }
    }
  }

  // ----- never settling

  lemma FlapsBounces(cfg: seq<TierConfig>, s: State, x: PsiData)
    requires Ordered(cfg) && s.tier < |cfg| && Flaps(cfg, s, x)
    ensures Bounces(cfg, x) && x.someAvg10 < cfg[CRITICAL].promote
  {
    assert cfg[CRITICAL].demote <= cfg[CRITICAL].promote;
    NothingRises(cfg, x);
  }

  // A flapping run reaches HIGH or CRITICAL with both counters at zero.
  lemma FlapsArrive(cfg: seq<TierConfig>, s: State, x: PsiData) returns (m: nat)
    requires CountersOk(cfg, s) && Ordered(cfg) && Flaps(cfg, s, x)
    ensures Iter(cfg, s, x, m) == State(HIGH, 0, 0) || Iter(cfg, s, x, m) == State(CRITICAL, 0, 0)
  {
    FlapsBounces(cfg, s, x);
    NothingRises(cfg, x);
    if s.tier < HIGH {
      assert cfg[ELEVATED].demote <= cfg[ELEVATED].promote <= cfg[HIGH].promote;
      m := ClimbArrives(cfg, s, x, HIGH);
    } else if s.tier == HIGH {
      if Down(cfg, HIGH, x) {
        m := 1;
        assert Iter(cfg, s, x, 0) == s;
      } else {
        m := ClimbArrives(cfg, s, x, CRITICAL);
      }
    } else {
      m := SinkArrives(cfg, s, x, HIGH);
    }
  }

  lemma CyclesNeverFixed(cfg: seq<TierConfig>, s: State, x: PsiData, m: nat)
    requires s.tier < |cfg| && Bounces(cfg, x) && Iter(cfg, s, x, m) == State(HIGH, 0, 0)
    ensures !EventuallyFixed(cfg, s, x)
  {
    hide Step, Up, Down;
    var d: nat := Debounce(cfg, CRITICAL);
    forall tier: nat, from: nat ensures !FixedFrom(cfg, s, x, from, tier) {
      Cycles(cfg, x, from);
      IterAdd(cfg, s, x, m, from * (2 * d));
      IterAdd(cfg, s, x, m, from * (2 * d) + d);
      AtLeastFactor(from, 2 * d);
      assert Iter(cfg, s, x, m + from * (2 * d)).tier == HIGH;
      assert Iter(cfg, s, x, m + (from * (2 * d) + d)).tier == CRITICAL;
    }
  }

  lemma AtLeastFactor(n: nat, d: nat)
    requires d >= 1
    ensures n * d >= n
  {
  }

  lemma FlapsNeverFixed(cfg: seq<TierConfig>, s: State, x: PsiData)
    requires CountersOk(cfg, s) && Ordered(cfg) && Flaps(cfg, s, x)
    ensures !EventuallyFixed(cfg, s, x)
  {
    FlapsBounces(cfg, s, x);
    var m := FlapsArrive(cfg, s, x);
    if Iter(cfg, s, x, m) == State(CRITICAL, 0, 0) {
      var d: nat := Debounce(cfg, CRITICAL);
      Falling(cfg, State(CRITICAL, 0, 0), x, d);
      IterAdd(cfg, s, x, m, d);
      m := m + d;
    }
    CyclesNeverFixed(cfg, s, x, m);
  }

  // For every ordered configuration: a constant signal settles from a reachable state if and only if
  // it is not a flapping one, and then at the tier given.
  lemma SettlesIff(cfg: seq<TierConfig>, s: State, x: PsiData)
    requires CountersOk(cfg, s) && Ordered(cfg)
    ensures EventuallyFixed(cfg, s, x) <==> !Flaps(cfg, s, x)
    ensures !Flaps(cfg, s, x) ==> SettlesAt(cfg, s, x, Rest(cfg, s, x))
  {
    hide SettlesAt, Step, RestingTier, Lowest;
    if Flaps(cfg, s, x) {
      FlapsNeverFixed(cfg, s, x);
    } else if |cfg| <= CRITICAL || x.someAvg60 < cfg[HIGH].promote {
      OrderedIsConsistent(cfg, x);
      ConsistentFixes(cfg, s, x);
    } else if x.someAvg10 >= cfg[HIGH].demote && x.someAvg10 >= cfg[CRITICAL].demote {
      StrongIsConsistent(cfg, x);
      ConsistentFixes(cfg, s, x);
    } else {
      assert cfg[HIGH].demote <= cfg[HIGH].promote <= cfg[CRITICAL].promote;
      assert cfg[CRITICAL].demote <= cfg[CRITICAL].promote;
      if s.tier < HIGH {
        LowFixes(cfg, s, x);
      } else if s.tier == HIGH {
        HighFixes(cfg, s, x);
      } else {
        TopFixes(cfg, s, x);
      }
    }
  }

  // With the trigger on, a signal that asks neither HIGH nor CRITICAL to fall conflicts nowhere.
  lemma StrongIsConsistent(cfg: seq<TierConfig>, x: PsiData)
    requires Ordered(cfg) && |cfg| > CRITICAL
    requires x.someAvg10 >= cfg[HIGH].demote && x.someAvg10 >= cfg[CRITICAL].demote
    ensures Consistent(cfg, x)
  {
    forall t: nat ensures !(Up(cfg, t, x) && Down(cfg, t, x)) {
      assert 1 <= t < |cfg| - 1 ==> cfg[t].demote <= cfg[t].promote <= cfg[t + 1].promote;
    }
    forall t: nat | t + 1 < |cfg| && Up(cfg, t, x) ensures !Down(cfg, t + 1, x) {
      assert cfg[t + 1].demote <= cfg[t + 1].promote;
    }
  }

  // With the default configuration: it never settles exactly when avg60 is at least 15 and avg10 at
  // least 8 and below 15, from HIGH or CRITICAL.
  lemma DefaultSettlesIff(s: State, x: PsiData)
    requires CountersOk(DefaultConfigs(), s)
    ensures EventuallyFixed(DefaultConfigs(), s, x)
       <==> !(s.tier >= HIGH && x.someAvg60 >= 15.0 && 8.0 <= x.someAvg10 < 15.0)
  {
    hide EventuallyFixed, Step;
    SettlesIff(DefaultConfigs(), s, x);
  }

  // ----- the trigger against its comment

  // The comment at the trigger speaks of half of CRITICAL's promote threshold.
  predicate UpByComment(cfg: seq<TierConfig>, x: PsiData)
    requires |cfg| > CRITICAL
  {
    x.someAvg10 >= cfg[CRITICAL].promote || x.someAvg60 >= cfg[CRITICAL].promote / 2.0
  }

  // Code and comment agree on every poll exactly for configurations in which HIGH's promote threshold
  // is half of CRITICAL's.
  lemma CommentAgreesIff(cfg: seq<TierConfig>)
    requires |cfg| > CRITICAL
    ensures (forall x :: Up(cfg, HIGH, x) <==> UpByComment(cfg, x))
       <==> cfg[HIGH].promote == cfg[CRITICAL].promote / 2.0
  {
    var low := if cfg[HIGH].promote <= cfg[CRITICAL].promote / 2.0 then cfg[HIGH].promote else cfg[CRITICAL].promote / 2.0;
    var x := PsiData(cfg[CRITICAL].promote - 1.0, low, 0.0, 0, 0.0, 0.0, 0.0, 0);
    assert cfg[HIGH].promote != cfg[CRITICAL].promote / 2.0 ==> Up(cfg, HIGH, x) != UpByComment(cfg, x);
  }

  // With HIGH at 10 and CRITICAL at 30, avg60 = 12 alone is a trigger in the code, not by the comment.
  lemma CommentDiffers()
    ensures var cfg := DefaultConfigs()[HIGH := TierConfig(10.0, 8.0, 3, 0.25)];
            var x := PsiData(0.0, 12.0, 0.0, 0, 0.0, 0.0, 0.0, 0);
            Up(cfg, HIGH, x) && !UpByComment(cfg, x)
  {
  }
}
