// Constant signals: when the tier settles, where and after exactly how many polls; and the signals
// of the default configuration that never settle.
module PolicySettling {
  import opened Wrappers
  import opened Policy
  import opened PolicyHistory

  // n polls of the same signal.
  ghost function Iter(cfg: seq<TierConfig>, s: State, x: PsiData, n: nat): (r: State)
    requires s.tier < |cfg|
    ensures r.tier < |cfg|
  {
    if n == 0 then s else Step(cfg, Iter(cfg, s, x, n - 1), x).0
  }

  lemma {:induction false} IterAdd(cfg: seq<TierConfig>, s: State, x: PsiData, m: nat, n: nat)
    requires s.tier < |cfg|
    ensures Iter(cfg, s, x, m + n) == Iter(cfg, Iter(cfg, s, x, m), x, n)
  {
    if n > 0 { IterAdd(cfg, s, x, m, n - 1); }
  }

  ghost predicate Stable(cfg: seq<TierConfig>, t: nat, x: PsiData) {
    !Up(cfg, t, x) && !Down(cfg, t, x)
  }

  lemma {:induction false} StaysPut(cfg: seq<TierConfig>, s: State, x: PsiData, n: nat)
    requires s.tier < |cfg| && Stable(cfg, s.tier, x)
    ensures Iter(cfg, s, x, n).tier == s.tier
  {
    if n > 0 { StaysPut(cfg, s, x, n - 1); }
  }

  // ----- one level

  lemma {:induction false} Rising(cfg: seq<TierConfig>, s: State, x: PsiData, n: nat)
    requires CountersOk(cfg, s) && Up(cfg, s.tier, x) && !Down(cfg, s.tier, x)
    requires 1 <= n <= Debounce(cfg, s.tier + 1) - s.up
    ensures Iter(cfg, s, x, n) ==
            if n < Debounce(cfg, s.tier + 1) - s.up then State(s.tier, s.up + n, 0) else State(s.tier + 1, 0, 0)
  {
    if n > 1 { Rising(cfg, s, x, n - 1); }
  }

  lemma {:induction false} Falling(cfg: seq<TierConfig>, s: State, x: PsiData, n: nat)
    requires CountersOk(cfg, s) && Down(cfg, s.tier, x) && !Up(cfg, s.tier, x)
    requires 1 <= n <= Debounce(cfg, s.tier) - s.down
    ensures Iter(cfg, s, x, n) ==
            if n < Debounce(cfg, s.tier) - s.down then State(s.tier, 0, s.down + n) else State(s.tier - 1, 0, 0)
  {
    if n > 1 { Falling(cfg, s, x, n - 1); }
  }

  // ----- several levels

  // At poll n of a climb from s to tier u: within the tiers on the way, u itself exactly from the
  // poll that completes the price, less the polls s was already holding.
  ghost predicate OnTheWayUp(cfg: seq<TierConfig>, s: State, x: PsiData, u: nat, n: nat)
    requires s.tier <= u < |cfg|
  {
    var t := Iter(cfg, s, x, n).tier;
    s.tier <= t <= u && (t == u <==> s.tier == u || n >= Climb(cfg, s.tier, u) - s.up)
  }

  lemma {:induction false} ClimbFirst(cfg: seq<TierConfig>, a: nat, b: nat)
    requires a < b < |cfg|
    ensures Climb(cfg, a, b) == Debounce(cfg, a + 1) + Climb(cfg, a + 1, b)
    decreases b
  {
    if a + 1 < b { ClimbFirst(cfg, a, b - 1); }
  }

  lemma {:induction false} ClimbsTo(cfg: seq<TierConfig>, s: State, x: PsiData, u: nat, n: nat)
    requires CountersOk(cfg, s) && s.tier <= u < |cfg|
    requires forall t :: s.tier <= t < u ==> Up(cfg, t, x) && !Down(cfg, t, x)
    requires Stable(cfg, u, x)
    ensures OnTheWayUp(cfg, s, x, u, n)
    decreases u - s.tier
  {
    hide Step, Up, Down;
    if s.tier == u {
      StaysPut(cfg, s, x, n);
    } else {
      var first := Debounce(cfg, s.tier + 1) - s.up;
      ClimbFirst(cfg, s.tier, u);
      if n < first {
        if n > 0 { Rising(cfg, s, x, n); }
      } else {
        Rising(cfg, s, x, first);
        IterAdd(cfg, s, x, first, n - first);
        ClimbsTo(cfg, State(s.tier + 1, 0, 0), x, u, n - first);
      }
    }
  }

  ghost predicate OnTheWayDown(cfg: seq<TierConfig>, s: State, x: PsiData, u: nat, n: nat)
    requires u <= s.tier < |cfg|
  {
    var t := Iter(cfg, s, x, n).tier;
    u <= t <= s.tier && (t == u <==> s.tier == u || n >= Climb(cfg, u, s.tier) - s.down)
  }

  lemma {:induction false} SinksTo(cfg: seq<TierConfig>, s: State, x: PsiData, u: nat, n: nat)
    requires CountersOk(cfg, s) && u <= s.tier
    requires forall t :: u < t <= s.tier ==> Down(cfg, t, x) && !Up(cfg, t, x)
    requires Stable(cfg, u, x)
    ensures OnTheWayDown(cfg, s, x, u, n)
    decreases s.tier
  {
    hide Step, Up, Down;
    if s.tier == u {
      StaysPut(cfg, s, x, n);
    } else {
      var first := Debounce(cfg, s.tier) - s.down;
      if n < first {
        if n > 0 { Falling(cfg, s, x, n); }
      } else {
        Falling(cfg, s, x, first);
        IterAdd(cfg, s, x, first, n - first);
        SinksTo(cfg, State(s.tier - 1, 0, 0), x, u, n - first);
      }
    }
  }

  // ----- any configuration, avg60 trigger off

  // The hysteresis band: promote thresholds never decrease, and no demote exceeds its promote.
  ghost predicate Ordered(cfg: seq<TierConfig>) {
    && (forall i :: 1 <= i < |cfg| - 1 ==> cfg[i].promote <= cfg[i + 1].promote)
    && (forall i :: 1 <= i < |cfg| ==> cfg[i].demote <= cfg[i].promote)
  }

  ghost predicate TriggerOff(cfg: seq<TierConfig>, x: PsiData) {
    |cfg| > CRITICAL ==> x.someAvg60 < cfg[HIGH].promote
  }

  // The nearest tier, in the direction the signal pushes, that it does not push out of.
  ghost function Highest(cfg: seq<TierConfig>, t: nat, x: PsiData): (u: nat)
    requires t < |cfg|
    ensures t <= u < |cfg| && !Up(cfg, u, x) && forall i :: t <= i < u ==> Up(cfg, i, x)
    decreases |cfg| - t
  {
    if Up(cfg, t, x) then Highest(cfg, t + 1, x) else t
  }

  ghost function Lowest(cfg: seq<TierConfig>, t: nat, x: PsiData): (u: nat)
    requires t < |cfg|
    ensures u <= t && !Down(cfg, u, x) && forall i :: u < i <= t ==> Down(cfg, i, x)
  {
    if Down(cfg, t, x) then Lowest(cfg, t - 1, x) else t
  }

  ghost function RestingTier(cfg: seq<TierConfig>, t: nat, x: PsiData): nat
    requires t < |cfg|
  {
    if Up(cfg, t, x) then Highest(cfg, t, x) else Lowest(cfg, t, x)
  }

  lemma Exclusive(cfg: seq<TierConfig>, t: nat, x: PsiData)
    requires Ordered(cfg) && TriggerOff(cfg, x)
    ensures !(Up(cfg, t, x) && Down(cfg, t, x))
  {
    assert 1 <= t < |cfg| - 1 ==> cfg[t].demote <= cfg[t].promote <= cfg[t + 1].promote;
  }

  lemma Band(cfg: seq<TierConfig>, t: nat, x: PsiData)
    requires Ordered(cfg) && TriggerOff(cfg, x) && t + 1 < |cfg|
    ensures !(Up(cfg, t, x) && Down(cfg, t + 1, x))
  {
    assert cfg[t + 1].demote <= cfg[t + 1].promote;
  }

  // No tier is pushed both ways, and no two neighbours push towards each other.
  ghost predicate Consistent(cfg: seq<TierConfig>, x: PsiData) {
    && (forall t: nat :: !(Up(cfg, t, x) && Down(cfg, t, x)))
    && (forall t: nat :: t + 1 < |cfg| && Up(cfg, t, x) ==> !Down(cfg, t + 1, x))
  }

  lemma OrderedIsConsistent(cfg: seq<TierConfig>, x: PsiData)
    requires Ordered(cfg) && TriggerOff(cfg, x)
    ensures Consistent(cfg, x)
  {
    forall t: nat ensures !(Up(cfg, t, x) && Down(cfg, t, x)) { Exclusive(cfg, t, x); }
    forall t: nat | t + 1 < |cfg| && Up(cfg, t, x) ensures !Down(cfg, t + 1, x) { Band(cfg, t, x); }
  }

  // The signal pushes towards the resting tier all the way, and leaves it alone.
  lemma RestFacts(cfg: seq<TierConfig>, t: nat, x: PsiData)
    requires t < |cfg| && Consistent(cfg, x)
    ensures var r := RestingTier(cfg, t, x);
            && r < |cfg| && Stable(cfg, r, x)
            && (forall i :: t <= i < r ==> Up(cfg, i, x) && !Down(cfg, i, x))
            && (forall i :: r < i <= t ==> Down(cfg, i, x) && !Up(cfg, i, x))
  {
    var r := RestingTier(cfg, t, x);
    if Up(cfg, t, x) {
      assert Up(cfg, r - 1, x);
    } else if r < t {
      assert Down(cfg, r + 1, x);
    }
  }

  // From any reachable state a constant signal moves the tier in one direction only, and the tier
  // equals the resting tier from exactly the poll that completes the debounces crossed.
  lemma Settles(cfg: seq<TierConfig>, s: State, x: PsiData, n: nat)
    requires CountersOk(cfg, s) && Ordered(cfg) && TriggerOff(cfg, x)
    ensures var r := RestingTier(cfg, s.tier, x);
            && r < |cfg| && Stable(cfg, r, x)
            && (s.tier <= r ==> OnTheWayUp(cfg, s, x, r, n))
            && (r <= s.tier ==> OnTheWayDown(cfg, s, x, r, n))
  {
    var r := RestingTier(cfg, s.tier, x);
    OrderedIsConsistent(cfg, x);
    RestFacts(cfg, s.tier, x);
    if s.tier <= r { ClimbsTo(cfg, s, x, r, n); }
    if r <= s.tier { SinksTo(cfg, s, x, r, n); }
  }

  // The tier moves in one direction: later polls never undo earlier ones.
  lemma {:induction false} Monotone(cfg: seq<TierConfig>, s: State, x: PsiData, m: nat, n: nat)
    requires CountersOk(cfg, s) && Ordered(cfg) && TriggerOff(cfg, x) && m <= n
    ensures var r := RestingTier(cfg, s.tier, x);
            && (s.tier <= r ==> Iter(cfg, s, x, m).tier <= Iter(cfg, s, x, n).tier)
            && (r <= s.tier ==> Iter(cfg, s, x, n).tier <= Iter(cfg, s, x, m).tier)
  {
    hide Up, Down, Iter, Step, RestingTier, Ordered, Climb;
    var b := Iter(cfg, s, x, m);
    IterKeepsCounters(cfg, s, x, m);
    IterAdd(cfg, s, x, m, n - m);
    Settles(cfg, s, x, m);
    Settles(cfg, b, x, n - m);
    SameRest(cfg, s.tier, b.tier, x);
  }

  lemma {:induction false} IterKeepsCounters(cfg: seq<TierConfig>, s: State, x: PsiData, n: nat)
    requires CountersOk(cfg, s)
    ensures CountersOk(cfg, Iter(cfg, s, x, n))
  {
    if n > 0 {
      IterKeepsCounters(cfg, s, x, n - 1);
      StepKeepsCounters(cfg, Iter(cfg, s, x, n - 1), x);
    }
  }

  // Tiers on the way share the resting tier.
  lemma SameRest(cfg: seq<TierConfig>, t: nat, b: nat, x: PsiData)
    requires t < |cfg| && b < |cfg| && Ordered(cfg) && TriggerOff(cfg, x)
    requires var r := RestingTier(cfg, t, x); t <= b <= r || r <= b <= t
    ensures RestingTier(cfg, b, x) == RestingTier(cfg, t, x)
  {
    OrderedIsConsistent(cfg, x);
    RestFacts(cfg, t, x);
    RestFacts(cfg, b, x);
  }
}
