// The default configuration in numbers: where each constant signal settles, and after how many polls.
module PolicyDefaults {
  import opened Wrappers
  import opened Policy
  import opened PolicyHistory
  import opened PolicySettling
  import opened PolicyFlapping

  // The tier at which a constant signal settles, by the tier it starts from; avg60 below 15.
  function CalmBand(tier: nat, avg10: real): nat {
    if tier == 0 then if avg10 < 5.0 then 0 else if avg10 < 15.0 then 1 else if avg10 < 30.0 then 2 else 3
    else if tier == 1 then if avg10 < 2.0 then 0 else if avg10 < 15.0 then 1 else if avg10 < 30.0 then 2 else 3
    else if tier == 2 then if avg10 < 2.0 then 0 else if avg10 < 8.0 then 1 else if avg10 < 30.0 then 2 else 3
    else if avg10 < 2.0 then 0 else if avg10 < 8.0 then 1 else if avg10 < 15.0 then 2 else 3
  }

  // The same for avg60 from 15 on: HIGH and CRITICAL are not left downwards.
  function SustainedBand(tier: nat, avg10: real): nat {
    if tier == 0 then if avg10 < 5.0 then 0 else if avg10 < 15.0 then 1 else 3
    else if tier == 1 then if avg10 < 2.0 then 0 else if avg10 < 15.0 then 1 else 3
    else if avg10 < 8.0 then 2 else 3
  }

  // Where a constant signal that settles does so under the defaults.
  lemma DefaultBands(s: State, x: PsiData)
    requires CountersOk(DefaultConfigs(), s)
    ensures x.someAvg60 < 15.0 ==> SettlesAt(DefaultConfigs(), s, x, CalmBand(s.tier, x.someAvg10))
    ensures x.someAvg60 >= 15.0 && !(s.tier >= 2 && 8.0 <= x.someAvg10 < 15.0) ==>
              SettlesAt(DefaultConfigs(), s, x, SustainedBand(s.tier, x.someAvg10))
  {
    hide SettlesAt, Step;
    SettlesIff(DefaultConfigs(), s, x);
    if x.someAvg60 < 15.0 {
      CalmRest(s, x);
    } else if !(s.tier >= 2 && 8.0 <= x.someAvg10 < 15.0) {
      SustainedRest(s, x);
    }
  }

  lemma CalmRest(s: State, x: PsiData)
    requires CountersOk(DefaultConfigs(), s) && x.someAvg60 < 15.0
    ensures Rest(DefaultConfigs(), s, x) == CalmBand(s.tier, x.someAvg10)
  {
    var cfg, a := DefaultConfigs(), x.someAvg10;
    assert Highest(cfg, 3, x) == 3;
    assert Highest(cfg, 2, x) == if a >= 30.0 then 3 else 2;
    assert Highest(cfg, 1, x) == if a >= 30.0 then 3 else if a >= 15.0 then 2 else 1;
    assert Lowest(cfg, 1, x) == if a < 2.0 then 0 else 1;
    assert Lowest(cfg, 2, x) == if a < 2.0 then 0 else if a < 8.0 then 1 else 2;
  }

  lemma SustainedRest(s: State, x: PsiData)
    requires CountersOk(DefaultConfigs(), s) && x.someAvg60 >= 15.0 && !(s.tier >= 2 && 8.0 <= x.someAvg10 < 15.0)
    ensures Rest(DefaultConfigs(), s, x) == SustainedBand(s.tier, x.someAvg10)
  {
  }

  // One tier of a climb, and of a descent, with counters at zero.
  lemma ClimbsOne(t: nat, d: nat, x: PsiData, n: nat)
    requires t < 3 && x.someAvg10 >= 30.0 && d == (if t < 2 then 3 else 2)
    ensures n < d ==> Iter(DefaultConfigs(), State(t, 0, 0), x, n).tier == t
    ensures n >= d ==> Iter(DefaultConfigs(), State(t, 0, 0), x, n) == Iter(DefaultConfigs(), State(t + 1, 0, 0), x, n - d)
  {
    var cfg := DefaultConfigs();
    if n >= d {
      IterAdd(cfg, State(t, 0, 0), x, d, n - d);
      Rising(cfg, State(t, 0, 0), x, d);
    } else if n > 0 {
      Rising(cfg, State(t, 0, 0), x, n);
    }
  }

  lemma SinksOne(t: nat, d: nat, x: PsiData, n: nat)
    requires 0 < t <= 3 && x.someAvg10 < 2.0 && x.someAvg60 < 15.0 && d == (if t < 3 then 3 else 2)
    ensures n < d ==> Iter(DefaultConfigs(), State(t, 0, 0), x, n).tier == t
    ensures n >= d ==> Iter(DefaultConfigs(), State(t, 0, 0), x, n) == Iter(DefaultConfigs(), State(t - 1, 0, 0), x, n - d)
  {
    var cfg := DefaultConfigs();
    if n >= d {
      IterAdd(cfg, State(t, 0, 0), x, d, n - d);
      Falling(cfg, State(t, 0, 0), x, d);
    } else if n > 0 {
      Falling(cfg, State(t, 0, 0), x, n);
    }
  }

  // The debounces in polls: a fresh engine under avg10 of 30 or more is at ELEVATED from poll 3, at
  // HIGH from poll 6, and at CRITICAL from poll 8.
  lemma DefaultClimb(x: PsiData, n: nat)
    requires x.someAvg10 >= 30.0
    ensures Iter(DefaultConfigs(), State(0, 0, 0), x, n).tier == if n < 3 then 0 else if n < 6 then 1 else if n < 8 then 2 else 3
  {
    ClimbsOne(0, 3, x, n);
    if n >= 3 { ClimbsOne(1, 3, x, n - 3); }
    if n >= 6 { ClimbsOne(2, 2, x, n - 6); }
    if n >= 8 { StaysPut(DefaultConfigs(), State(3, 0, 0), x, n - 8); }
    hide Iter;
  }

  // From CRITICAL under avg10 below 2, with avg60 below 15: HIGH from poll 2, ELEVATED from poll 5,
  // NORMAL from poll 8.
  lemma DefaultDescent(x: PsiData, n: nat)
    requires x.someAvg10 < 2.0 && x.someAvg60 < 15.0
    ensures Iter(DefaultConfigs(), State(3, 0, 0), x, n).tier == if n < 2 then 3 else if n < 5 then 2 else if n < 8 then 1 else 0
  {
    SinksOne(3, 2, x, n);
    if n >= 2 { SinksOne(2, 3, x, n - 2); }
    if n >= 5 { SinksOne(1, 3, x, n - 5); }
    if n >= 8 { StaysPut(DefaultConfigs(), State(0, 0, 0), x, n - 8); }
    hide Iter;
  }

  // What those polls dispatch: the fractions on the way up, and the same ones on the way down.
  lemma DefaultFractions(x: PsiData)
    ensures x.someAvg10 >= 30.0 ==>
              && Step(DefaultConfigs(), State(0, 2, 0), x) == (State(1, 0, 0), Action(SHRINK, 0.1, 1))
              && Step(DefaultConfigs(), State(1, 2, 0), x) == (State(2, 0, 0), Action(SHRINK, 0.25, 2))
              && Step(DefaultConfigs(), State(2, 1, 0), x) == (State(3, 0, 0), Action(SHRINK, 0.5, 3))
    ensures x.someAvg10 < 2.0 && x.someAvg60 < 15.0 ==>
              && Step(DefaultConfigs(), State(3, 0, 1), x) == (State(2, 0, 0), Action(GROW, 0.5, 2))
              && Step(DefaultConfigs(), State(2, 0, 2), x) == (State(1, 0, 0), Action(GROW, 0.25, 1))
              && Step(DefaultConfigs(), State(1, 0, 2), x) == (State(0, 0, 0), Action(GROW, 0.1, 0))
  {
  }
}
