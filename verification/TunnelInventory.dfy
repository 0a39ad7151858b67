/** The pool over the chains that a host inventory gives it. */
module TunnelInventory {
  import opened TunnelPool
  import opened TunnelRuns
  import JumpGraph
  import HostRepo

  // An inventory grown from an empty one by create, update and delete.
  ghost function Inventory(history: seq<JumpGraph.Event>): JumpGraph.Hosts {
    JumpGraph.Exec(JumpGraph.World(map[], 0), history).hosts
  }

  // `sig` is the chain of some host of such an inventory, in the order its hops are opened.
  ghost predicate Resolved(sig: Sig) {
    exists history: seq<JumpGraph.Event>, h: nat, ids: seq<nat> ::
      && h in Inventory(history)
      && JumpGraph.IsChain(Inventory(history), Inventory(history)[h].jump, ids)
      && sig == HostRepo.Reversed(ids)
  }

  lemma ResolvedIsShort(sig: Sig)
    requires Resolved(sig)
    ensures |sig| <= 1
  {
    var history: seq<JumpGraph.Event>, h: nat, ids: seq<nat> :|
      && h in Inventory(history)
      && JumpGraph.IsChain(Inventory(history), Inventory(history)[h].jump, ids)
      && sig == HostRepo.Reversed(ids);
    JumpGraph.OneHopFromEmpty(history, h, ids);
  }

  /** With inventories grown from an empty one, whatever edits lie between the requests,
      no connection is ever outside the pool. */
  lemma NoStraysFromEmpty(es: seq<Event>, c: nat)
    requires forall i :: 0 <= i < |es| && es[i].Acquire? ==> Resolved(es[i].key.sig)
    ensures !Stray(Exec(START, es).state, c)
  {
    forall i | 0 <= i < |es| && es[i].Acquire? ensures |es[i].key.sig| <= 1 {
      ResolvedIsShort(es[i].key.sig);
    }
    NoStrays(es, c);
  }
}
