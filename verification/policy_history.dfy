// The counters, the debounce and the actions read off the sequence of polls.
module PolicyHistory {
  import opened Wrappers
  import opened Policy

  // The polls since the tier last changed.
  ghost function Since(cfg: seq<TierConfig>, polls: seq<PsiData>): seq<PsiData>
    requires |cfg| > 0
  {
    if |polls| == 0 then []
    else
      var n := |polls| - 1;
      if Run(cfg, polls).tier != Run(cfg, polls[..n]).tier then []
      else Since(cfg, polls[..n]) + [polls[n]]
  }

  // The last m polls of h all ask to go up and none to go down.
  ghost predicate RisingTail(cfg: seq<TierConfig>, t: nat, h: seq<PsiData>, m: int) {
    0 <= m <= |h| && forall i :: |h| - m <= i < |h| ==> Up(cfg, t, h[i]) && !Down(cfg, t, h[i])
  }

  // The last m polls of h all ask to go down, and only the first of them may ask to go up too.
  ghost predicate FallingTail(cfg: seq<TierConfig>, t: nat, h: seq<PsiData>, m: int) {
    && 0 <= m <= |h|
    && (forall i :: |h| - m <= i < |h| ==> Down(cfg, t, h[i]))
    && (forall i :: |h| - m < i < |h| ==> !Up(cfg, t, h[i]))
  }

  lemma RisingSnoc(cfg: seq<TierConfig>, t: nat, h: seq<PsiData>, x: PsiData, m: int)
    requires m >= 0
    ensures RisingTail(cfg, t, h + [x], m)
       <==> m == 0 || (Up(cfg, t, x) && !Down(cfg, t, x) && RisingTail(cfg, t, h, m - 1))
  {
    var g := h + [x];
    assert g[|h|] == x && forall i :: 0 <= i < |h| ==> g[i] == h[i];
  }

  lemma FallingSnoc(cfg: seq<TierConfig>, t: nat, h: seq<PsiData>, x: PsiData, m: int)
    requires m >= 0
    ensures FallingTail(cfg, t, h + [x], m)
       <==> m == 0 || (Down(cfg, t, x) && (m == 1 || (!Up(cfg, t, x) && FallingTail(cfg, t, h, m - 1))))
  {
    var g := h + [x];
    assert g[|h|] == x && forall i :: 0 <= i < |h| ==> g[i] == h[i];
  }

  // The counters are the lengths of the longest such tails: m polls qualify exactly when m <= counter.
  ghost predicate Counts(cfg: seq<TierConfig>, s: State, h: seq<PsiData>) {
    && (forall m :: m >= 0 ==> (RisingTail(cfg, s.tier, h, m) <==> m <= s.up))
    && (forall m :: m >= 0 ==> (FallingTail(cfg, s.tier, h, m) <==> m <= s.down))
  }

  lemma CountsStep(cfg: seq<TierConfig>, s: State, h: seq<PsiData>, x: PsiData)
    requires CountersOk(cfg, s) && Counts(cfg, s, h)
    ensures var s' := Step(cfg, s, x).0;
            Counts(cfg, s', if s'.tier == s.tier then h + [x] else [])
  {
    var s' := Step(cfg, s, x).0;
    forall m: int | m >= 0 && s'.tier == s.tier
      ensures RisingTail(cfg, s.tier, h + [x], m) <==> m <= s'.up
      ensures FallingTail(cfg, s.tier, h + [x], m) <==> m <= s'.down
    {
      RisingSnoc(cfg, s.tier, h, x, m);
      FallingSnoc(cfg, s.tier, h, x, m);
    }
  }

  // Over every run the two counters mean exactly what the polls since the last change say.
  lemma {:induction false} CountersAreHistory(cfg: seq<TierConfig>, polls: seq<PsiData>)
    requires |cfg| > 0
    ensures CountersOk(cfg, Run(cfg, polls)) && Counts(cfg, Run(cfg, polls), Since(cfg, polls))
  {
    RunKeepsCounters(cfg, polls);
    if |polls| > 0 {
      var n := |polls| - 1;
      CountersAreHistory(cfg, polls[..n]);
      CountsStep(cfg, Run(cfg, polls[..n]), Since(cfg, polls[..n]), polls[n]);
    }
  }

  // When one poll fires, in terms of the counters.
  lemma StepFires(cfg: seq<TierConfig>, s: State, x: PsiData)
    requires CountersOk(cfg, s)
    ensures var (s', a) := Step(cfg, s, x);
            var waits := Debounce(cfg, s.tier);
            && (a.kind == SHRINK <==> Up(cfg, s.tier, x) && Debounce(cfg, s.tier + 1) - 1 <= s.up)
            && (a.kind == GROW <==>
                  a.kind != SHRINK && Down(cfg, s.tier, x) && (waits == 1 || (!Up(cfg, s.tier, x) && waits - 1 <= s.down)))
            && (a.kind == SHRINK ==> s' == State(s.tier + 1, 0, 0) && a.fraction == cfg[s.tier + 1].shrink)
            && (a.kind == GROW ==> s.tier > 0 && s' == State(s.tier - 1, 0, 0) && a.fraction == cfg[s.tier].shrink)
            && (a.kind == NONE ==> s'.tier == s.tier) && a.newTier == s'.tier
  {
  }

  // When the next poll x fires, in terms of the polls alone. A promotion needs only its last poll
  // to ask upwards; the polls before it must not also ask downwards.
  lemma FiresExactlyWhen(cfg: seq<TierConfig>, polls: seq<PsiData>, x: PsiData)
    requires |cfg| > 0
    ensures var s, h := Run(cfg, polls), Since(cfg, polls);
            var (s', a) := Step(cfg, s, x);
            && (a.kind == SHRINK <==> Up(cfg, s.tier, x) && RisingTail(cfg, s.tier, h, Debounce(cfg, s.tier + 1) - 1))
            && (a.kind == GROW <==> a.kind != SHRINK && FallingTail(cfg, s.tier, h + [x], Debounce(cfg, s.tier)))
            && (a.kind == SHRINK ==> s' == State(s.tier + 1, 0, 0) && a.fraction == cfg[s.tier + 1].shrink)
            && (a.kind == GROW ==> s.tier > 0 && s' == State(s.tier - 1, 0, 0) && a.fraction == cfg[s.tier].shrink)
            && (a.kind == NONE <==> s'.tier == s.tier)
            && a.newTier == s'.tier
  {
    hide Step, Run, Since, RisingTail, FallingTail, Up, Down;
    var s, h := Run(cfg, polls), Since(cfg, polls);
    CountersAreHistory(cfg, polls);
    StepFires(cfg, s, x);
    FallingSnoc(cfg, s.tier, h, x, Debounce(cfg, s.tier));
  }

  // ----- the action stream is well bracketed

  // Reading SHRINK as an opening bracket labelled with its fraction and GROW as a closing one: the
  // labels still open, or None as soon as a GROW closes nothing or a bracket with another label.
  ghost function Open(actions: seq<Action>): Option<seq<real>> {
    if |actions| == 0 then Some([])
    else
      var n := |actions| - 1;
      match Open(actions[..n])
      case None => None
      case Some(open) =>
        match actions[n].kind
        case NONE => Some(open)
        case SHRINK => Some(open + [actions[n].fraction])
        case GROW =>
          if |open| > 0 && open[|open| - 1] == actions[n].fraction then Some(open[..|open| - 1]) else None
  }

  ghost function ShrinkFractions(cfg: seq<TierConfig>, tier: nat): seq<real>
    requires tier < |cfg|
  {
    seq(tier, i requires 0 <= i < tier => cfg[i + 1].shrink)
  }

  // Without a reset, what is open is exactly the fractions of tiers 1 to the current one; at NORMAL
  // every SHRINK has been matched by a GROW of the same fraction.
  lemma {:induction false} WellBracketed(cfg: seq<TierConfig>, polls: seq<PsiData>)
    requires |cfg| > 0
    ensures Open(Actions(cfg, polls)) == Some(ShrinkFractions(cfg, Run(cfg, polls).tier))
  {
    if |polls| == 0 {
      assert ShrinkFractions(cfg, NORMAL) == [];
    } else {
      var n := |polls| - 1;
      WellBracketed(cfg, polls[..n]);
      BracketStep(cfg, Run(cfg, polls[..n]), polls[n], Actions(cfg, polls[..n]));
    }
  }

  lemma BracketStep(cfg: seq<TierConfig>, s: State, x: PsiData, before: seq<Action>)
    requires s.tier < |cfg| && Open(before) == Some(ShrinkFractions(cfg, s.tier))
    ensures var (s', a) := Step(cfg, s, x);
            Open(before + if a.kind == NONE then [] else [a]) == Some(ShrinkFractions(cfg, s'.tier))
  {
    var (s', a) := Step(cfg, s, x);
    var open := ShrinkFractions(cfg, s.tier);
    if a.kind == NONE {
      assert before + [] == before;
    } else {
      OpenSnoc(before, a, open);
      if a.kind == SHRINK { FractionsSnoc(cfg, s.tier); } else { FractionsSnoc(cfg, s'.tier); }
    }
  }

  lemma OpenSnoc(before: seq<Action>, a: Action, open: seq<real>)
    requires Open(before) == Some(open) && a.kind != NONE
    ensures a.kind == SHRINK ==> Open(before + [a]) == Some(open + [a.fraction])
    ensures a.kind == GROW && |open| > 0 && open[|open| - 1] == a.fraction ==> Open(before + [a]) == Some(open[..|open| - 1])
  {
    var all := before + [a];
    assert all[..|all| - 1] == before && all[|all| - 1] == a;
  }

  lemma FractionsSnoc(cfg: seq<TierConfig>, t: nat)
    requires t + 1 < |cfg|
    ensures var more := ShrinkFractions(cfg, t + 1);
            more == ShrinkFractions(cfg, t) + [cfg[t + 1].shrink] && more[..t] == ShrinkFractions(cfg, t)
  {
  }

  // ----- how fast tiers can change

  // The debounce an action had to wait for: that of the higher of the two tiers.
  ghost function Price(cfg: seq<TierConfig>, a: Action): int
    requires a.newTier < |cfg| && (a.kind == GROW ==> a.newTier + 1 < |cfg|)
  {
    match a.kind
    case NONE => 0
    case SHRINK => Debounce(cfg, a.newTier)
    case GROW => Debounce(cfg, a.newTier + 1)
  }

  ghost function Spent(cfg: seq<TierConfig>, polls: seq<PsiData>): int
    requires |cfg| > 0
  {
    if |polls| == 0 then 0
    else
      var n := |polls| - 1;
      Spent(cfg, polls[..n]) + Price(cfg, Step(cfg, Run(cfg, polls[..n]), polls[n]).1)
  }

  // The price of climbing from tier a to tier b.
  ghost function Climb(cfg: seq<TierConfig>, a: nat, b: nat): (c: int)
    requires a <= b < |cfg|
    ensures c >= b - a
    decreases b
  {
    if a == b then 0 else Climb(cfg, a, b - 1) + Debounce(cfg, b)
  }

  // Every transition is paid for by its own polls: the prices of all transitions, plus the polls a
  // counter is holding, never exceed the number of polls.
  lemma {:induction false} TransitionsArePaid(cfg: seq<TierConfig>, polls: seq<PsiData>)
    requires |cfg| > 0
    ensures var s := Run(cfg, polls);
            && Spent(cfg, polls) + s.up + s.down <= |polls|
            && Climb(cfg, 0, s.tier) <= Spent(cfg, polls)
            && |Actions(cfg, polls)| <= Spent(cfg, polls)
  {
    if |polls| > 0 {
      var n := |polls| - 1;
      TransitionsArePaid(cfg, polls[..n]);
      RunKeepsCounters(cfg, polls[..n]);
      PaidStep(cfg, Run(cfg, polls[..n]), polls[n]);
    }
  }

  lemma PaidStep(cfg: seq<TierConfig>, s: State, x: PsiData)
    requires CountersOk(cfg, s)
    ensures var (s', a) := Step(cfg, s, x);
            && Price(cfg, a) + s'.up + s'.down <= s.up + s.down + 1
            && Climb(cfg, 0, s'.tier) <= Climb(cfg, 0, s.tier) + Price(cfg, a)
            && (a.kind == NONE || Price(cfg, a) >= 1)
  {
  }

  lemma {:induction false} ActionsCost(cfg: seq<TierConfig>, polls: seq<PsiData>, d: nat)
    requires |cfg| > 0 && forall i :: 1 <= i < |cfg| ==> d <= Debounce(cfg, i)
    ensures d * |Actions(cfg, polls)| <= Spent(cfg, polls)
  {
    if |polls| > 0 {
      var n := |polls| - 1;
      ActionsCost(cfg, polls[..n], d);
      var a := Step(cfg, Run(cfg, polls[..n]), polls[n]).1;
      PriceAtLeast(cfg, Run(cfg, polls[..n]), polls[n], d);
      OneMore(d, |Actions(cfg, polls[..n])|);
      hide Step, Price, Run;
    }
  }

  lemma PriceAtLeast(cfg: seq<TierConfig>, s: State, x: PsiData, d: nat)
    requires s.tier < |cfg| && forall i :: 1 <= i < |cfg| ==> d <= Debounce(cfg, i)
    ensures var a := Step(cfg, s, x).1;
            if a.kind == NONE then Price(cfg, a) == 0 else Price(cfg, a) >= d
  {
  }

  lemma OneMore(d: nat, k: nat)
    ensures d * (k + 1) == d * k + d
  {
  }

  // With the default configuration: at most one action every two polls, and no CRITICAL before
  // the eighth poll.
  lemma DefaultRate(polls: seq<PsiData>)
    ensures 2 * |Actions(DefaultConfigs(), polls)| <= |polls|
    ensures Run(DefaultConfigs(), polls).tier == CRITICAL ==> |polls| >= 8
  {
    var cfg := DefaultConfigs();
    TransitionsArePaid(cfg, polls);
    ActionsCost(cfg, polls, 2);
    RunKeepsCounters(cfg, polls);
    assert Climb(cfg, 0, 1) == 3 && Climb(cfg, 0, 2) == 6 && Climb(cfg, 0, 3) == 8;
  }
}
