// PolicyEngine: pressure tiers with two debounce counters, hysteresis and an avg60 trigger.
module Policy {
  import opened Wrappers

  datatype TierConfig = TierConfig(promote: real, demote: real, debounce: int, shrink: real)

  datatype PsiData = PsiData(
    someAvg10: real, someAvg60: real, someAvg300: real, someTotal: nat,
    fullAvg10: real, fullAvg60: real, fullAvg300: real, fullTotal: nat)

  datatype ActionType = NONE | SHRINK | GROW

  datatype Action = Action(kind: ActionType, fraction: real, newTier: nat)

  // current_tier_ and the two consecutive-poll counters.
  datatype State = State(tier: nat, up: int, down: int)

  const NORMAL: nat := 0
  const ELEVATED: nat := 1
  const HIGH: nat := 2
  const CRITICAL: nat := 3

  function DefaultConfigs(): seq<TierConfig> {
    [TierConfig(5.0, 0.0, 3, 0.0),
     TierConfig(5.0, 2.0, 3, 0.1),
     TierConfig(15.0, 8.0, 3, 0.25),
     TierConfig(30.0, 15.0, 2, 0.5)]
  }

  // The poll x asks to leave tier t upwards.
  predicate Up(cfg: seq<TierConfig>, t: nat, x: PsiData) {
    && t + 1 < |cfg|
    && (x.someAvg10 >= cfg[t + 1].promote || (t + 1 == CRITICAL && x.someAvg60 >= cfg[t].promote))
  }

  // The poll x asks to leave tier t downwards. One poll can ask for both.
  predicate Down(cfg: seq<TierConfig>, t: nat, x: PsiData) {
    0 < t < |cfg| && x.someAvg10 < cfg[t].demote
  }

  // A debounce below 1 acts as 1: the counter is compared after its increment.
  function Debounce(cfg: seq<TierConfig>, t: nat): (d: int)
    requires t < |cfg|
    ensures d >= 1
  {
    Max(1, cfg[t].debounce)
  }

  // One poll, by what it asks for.
  function Step(cfg: seq<TierConfig>, s: State, x: PsiData): (State, Action)
    requires s.tier < |cfg|
  {
    var t := s.tier;
    var falling := if Up(cfg, t, x) then 1 else s.down + 1;
    if Up(cfg, t, x) && s.up + 1 >= cfg[t + 1].debounce then
      (State(t + 1, 0, 0), Action(SHRINK, cfg[t + 1].shrink, t + 1))
    else if Down(cfg, t, x) && falling >= cfg[t].debounce then
      (State(t - 1, 0, 0), Action(GROW, cfg[t].shrink, t - 1))
    else if Down(cfg, t, x) then
      (State(t, 0, falling), Action(NONE, 0.0, t))
    else if Up(cfg, t, x) then
      (State(t, s.up + 1, 0), Action(NONE, 0.0, t))
    else
      (State(t, if t + 1 < |cfg| then 0 else s.up, if t > 0 then 0 else s.down), Action(NONE, 0.0, t))
  }

  class PolicyEngine {
    var configs: seq<TierConfig>
    var currentTier: nat
    var consecutivePromotePolls: int
    var consecutiveDemotePolls: int

    ghost predicate Valid()
      reads this
    {
      currentTier < |configs|
    }

    ghost function Model(): State
      reads this
    {
      State(currentTier, consecutivePromotePolls, consecutiveDemotePolls)
    }

    constructor (tierConfigs: seq<TierConfig>)
      ensures Valid() && Model() == State(NORMAL, 0, 0)
      ensures configs == if |tierConfigs| == 0 then DefaultConfigs() else tierConfigs
    {
      configs := if |tierConfigs| == 0 then DefaultConfigs() else tierConfigs;
      currentTier, consecutivePromotePolls, consecutiveDemotePolls := NORMAL, 0, 0;
    }

    method Reset()
      requires Valid()
      modifies this
      ensures Valid() && Model() == State(NORMAL, 0, 0) && configs == old(configs)
    {
      currentTier, consecutivePromotePolls, consecutiveDemotePolls := NORMAL, 0, 0;
    }

    method Evaluate(data: PsiData) returns (action: Action)
      requires Valid()
      modifies this`currentTier, this`consecutivePromotePolls, this`consecutiveDemotePolls
      ensures Valid() && (Model(), action) == Step(configs, old(Model()), data)
    {
      action := Action(NONE, 0.0, currentTier);
      var currentIdx := currentTier;
      var promoted := false;
      if currentIdx < |configs| - 1 {
        var nextIdx := currentIdx + 1;
        var promoteCondition := data.someAvg10 >= configs[nextIdx].promote;
        if nextIdx == CRITICAL {
          var avg60Elevated := data.someAvg60 >= configs[currentIdx].promote;
          promoteCondition := promoteCondition || avg60Elevated;
        }
        if promoteCondition {
          consecutivePromotePolls := consecutivePromotePolls + 1;
          consecutiveDemotePolls := 0;
          if consecutivePromotePolls >= configs[nextIdx].debounce {
            currentTier := nextIdx;
            action := Action(SHRINK, configs[nextIdx].shrink, currentTier);
            consecutivePromotePolls := 0;
            promoted := true;
          }
        } else {
          consecutivePromotePolls := 0;
        }
      }
      if !promoted && currentIdx > 0 {
        if data.someAvg10 < configs[currentIdx].demote {
          consecutiveDemotePolls := consecutiveDemotePolls + 1;
          consecutivePromotePolls := 0;
          if consecutiveDemotePolls >= configs[currentIdx].debounce {
            currentTier := currentIdx - 1;
            action := Action(GROW, configs[currentIdx].shrink, currentTier);
            consecutiveDemotePolls := 0;
          }
        } else {
          consecutiveDemotePolls := 0;
        }
      }
    }
  }

  // ----- runs

  function Run(cfg: seq<TierConfig>, polls: seq<PsiData>): (s: State)
    requires |cfg| > 0
    ensures s.tier < |cfg|
  {
    if |polls| == 0 then State(NORMAL, 0, 0)
    else Step(cfg, Run(cfg, polls[..|polls| - 1]), polls[|polls| - 1]).0
  }

  // The SHRINK and GROW actions a run dispatches, oldest first.
  function Actions(cfg: seq<TierConfig>, polls: seq<PsiData>): seq<Action>
    requires |cfg| > 0
  {
    if |polls| == 0 then []
    else
      var n := |polls| - 1;
      var a := Step(cfg, Run(cfg, polls[..n]), polls[n]).1;
      Actions(cfg, polls[..n]) + if a.kind == NONE then [] else [a]
  }

  // What every poll keeps.
  ghost predicate CountersOk(cfg: seq<TierConfig>, s: State) {
    && s.tier < |cfg|
    && s.up >= 0 && s.down >= 0 && (s.up == 0 || s.down == 0)
    && (s.up > 0 ==> s.tier + 1 < |cfg| && s.up < cfg[s.tier + 1].debounce)
    && (s.down > 0 ==> s.tier > 0 && s.down < cfg[s.tier].debounce)
  }

  lemma StepKeepsCounters(cfg: seq<TierConfig>, s: State, x: PsiData)
    requires CountersOk(cfg, s)
    ensures CountersOk(cfg, Step(cfg, s, x).0)
  {
  }

  lemma {:induction false} RunKeepsCounters(cfg: seq<TierConfig>, polls: seq<PsiData>)
    requires |cfg| > 0
    ensures CountersOk(cfg, Run(cfg, polls))
  {
    if |polls| > 0 {
      RunKeepsCounters(cfg, polls[..|polls| - 1]);
      StepKeepsCounters(cfg, Run(cfg, polls[..|polls| - 1]), polls[|polls| - 1]);
    }
  }
}
