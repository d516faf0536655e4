// GovernorDaemon: one poll steps the policy and broadcasts what it decides.
module Daemon {
  import opened Wrappers
  import opened Policy
  import Protocol
  import Transport
  import opened Registry

  // broadcast_shrink and broadcast_grow compute targets with a fraction of at most one.
  ghost predicate FractionsOk(cfg: seq<TierConfig>) {
    forall i :: 0 <= i < |cfg| ==> 0.0 <= cfg[i].shrink <= 1.0
  }

  function DirectionOf(kind: ActionType): Direction {
    if kind == GROW then Growing else Shrinking
  }

  class GovernorDaemon {
    const engine: PolicyEngine
    const registry: ClientRegistry

    constructor (tierConfigs: seq<TierConfig>)
      ensures fresh(engine) && fresh(registry)
      ensures engine.Valid() && engine.Model() == State(NORMAL, 0, 0)
      ensures engine.configs == if |tierConfigs| == 0 then DefaultConfigs() else tierConfigs
      ensures registry.clients == map[] && registry.outbox == []
    {
      engine := new PolicyEngine(tierConfigs);
      registry := new ClientRegistry();
    }

    // on_psi_update, with dispatch_action: the engine steps; an action, if there is one, becomes one
    // message to each client, computed from the sizes on record.
    method OnPsiUpdate(data: PsiData, socks: map<Fd, Transport.Socket>)
      returns (ghost action: Action, ghost sent: seq<(Fd, Protocol.Message)>)
      requires engine.Valid() && FractionsOk(engine.configs)
      requires registry.clients.Keys <= socks.Keys
      requires forall f, g :: f in socks && g in socks && f != g ==> socks[f] != socks[g]
      modifies engine, registry`outbox, set f | f in socks :: socks[f]
      ensures engine.Valid() && engine.configs == old(engine.configs)
      ensures (engine.Model(), action) == Step(engine.configs, old(engine.Model()), data)
      ensures registry.outbox == old(registry.outbox) + sent
      ensures action.kind == NONE ==> sent == []
      ensures action.kind != NONE ==>
                0.0 <= action.fraction <= 1.0
                && IsBroadcast(registry.clients, DirectionOf(action.kind), action.fraction, sent)
                && forall f :: f in registry.clients ==>
                     Wrote(old(socks[f].sent), socks[f].sent,
                           TargetMessage(DirectionOf(action.kind), registry.clients[f].currentSizeBytes, action.fraction))
      ensures action.kind == NONE ==> forall f :: f in socks ==> socks[f].sent == old(socks[f].sent)
    {
      hide IsBroadcast, Wrote, TargetMessage;
      var a := engine.Evaluate(data);
      action, sent := a, [];
      if a.kind == SHRINK {
        sent := registry.Broadcast(Shrinking, a.fraction, socks);
      } else if a.kind == GROW {
        sent := registry.Broadcast(Growing, a.fraction, socks);
      }
    }
  }
}
