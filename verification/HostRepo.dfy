/** The host table and its operations as the program runs them. */
module HostRepo {
  import opened Prelude
  import opened JumpGraph

  class Inventory {
    var hosts: Hosts
    var next: nat

    constructor ()
      ensures hosts == map[] && next == 0
    {
      hosts, next := map[], 0;
    }

    /** `_validate_jump`: the walk stops at the first fault, in the order depth,
        cycle, existence and tenant, jump-box flag. */
    method ValidateJump(hostId: Option<nat>, jump: Option<nat>, tid: nat) returns (bad: Option<JumpError>)
      ensures bad == Validate(hosts, hostId, jump, tid)
    {
      if jump.None? { return None; }
      if hostId.Some? && jump == hostId { return Some(OwnJumpHost); }
      var seen: set<nat> := if hostId.Some? then {hostId.value} else {};
      var cur, depth := jump, 0;
      while cur.Some?
        invariant depth <= JUMP_CHAIN_MAX_DEPTH + 1
        invariant Validate(hosts, hostId, jump, tid) == Check(hosts, seen, cur, depth, tid)
        decreases JUMP_CHAIN_MAX_DEPTH + 1 - depth
      {
        if depth > JUMP_CHAIN_MAX_DEPTH { return Some(TooDeep); }
        if cur.value in seen { return Some(Cycle); }
        seen := seen + {cur.value};
        if cur.value !in hosts || hosts[cur.value].tenant != tid { return Some(NotFound(cur.value)); }
        if !hosts[cur.value].isJumpbox { return Some(NotJumpbox(cur.value)); }
        cur, depth := hosts[cur.value].jump, depth + 1;
      }
      return None;
    }

    method CreateHost(tenant: nat, form: Form) returns (r: Result<nat, JumpError>)
      modifies this
      ensures World(hosts, next) == Step(old(World(hosts, next)), JumpGraph.CreateHost(tenant, form))
      ensures r == match Create(old(hosts), old(next), tenant, form)
                   { case Ok(_) => Ok(old(next)) case Err(e) => Err(e) }
    {
      var jump := if form.isJumpbox then None else form.jump;
      var bad := ValidateJump(None, jump, tenant);
      if bad.Some? { return Err(bad.value); }
      hosts := hosts[next := Host(tenant, form.isJumpbox, jump)];
      next := next + 1;
      return Ok(next - 1);
    }

    method UpdateHost(id: nat, form: Form) returns (r: Result<nat, JumpError>)
      requires id in hosts
      modifies this
      ensures World(hosts, next) == Step(old(World(hosts, next)), JumpGraph.UpdateHost(id, form))
      ensures r.Ok? == Update(old(hosts), id, form).Ok?
      ensures r.Err? ==> hosts == old(hosts) && r.error == Update(old(hosts), id, form).error
    {
      var host := hosts[id];
      if host.isJumpbox && !form.isJumpbox {
        var inUse := exists other | other in hosts :: hosts[other].jump == Some(id);
        if inUse { return Err(StillInUse); }
      }
      var jump := if form.isJumpbox then None else form.jump;
      var bad := ValidateJump(Some(id), jump, host.tenant);
      if bad.Some? { return Err(bad.value); }
      hosts := hosts[id := host.(jump := jump, isJumpbox := form.isJumpbox)];
      return Ok(id);
    }

    method DeleteHost(id: nat)
      modifies this
      ensures World(hosts, next) == Step(old(World(hosts, next)), JumpGraph.DeleteHost(id))
    {
      hosts := map h | h in hosts && h != id ::
        if hosts[h].jump == Some(id) then hosts[h].(jump := None) else hosts[h];
    }

    /** `resolve_jump_chain`: ends on every acyclic inventory, and lists the hops in
        the order they are opened: the outermost connects directly, each next one
        through the one before, and the last is the host's direct jump. */
    method ResolveJumpChain(id: nat) returns (chain: seq<nat>)
      requires id in hosts && Acyclic(hosts)
      ensures forall i :: 0 <= i < |chain| ==> OpensThroughPrevious(hosts, chain, i)
      ensures hosts[id].jump == if chain == [] then None else Some(chain[|chain| - 1])
      ensures id !in chain && forall i, j :: 0 <= i < j < |chain| ==> chain[i] != chain[j]
    {
      ghost var ids :| IsChain(hosts, hosts[id].jump, ids);
      var walk: seq<nat> := [];
      var cur := hosts[id].jump;
      while cur.Some?
        invariant |walk| <= |ids| && walk == ids[..|walk|] && IsChain(hosts, cur, ids[|walk|..])
        decreases |ids| - |walk|
      {
        assert ids[|walk|..][0] == ids[|walk|] && ids[|walk|..][1..] == ids[|walk| + 1..];
        walk := walk + [cur.value];
        cur := hosts[cur.value].jump;
      }
      assert walk == ids;
      chain := Reversed(walk);
      ReversedChain(hosts, hosts[id].jump, ids);
      NotOnOwnChain(hosts, id, ids);
      assert forall i :: 0 <= i < |chain| ==> chain[i] in ids;
    }
  }

  // Hop `i` is reached directly if it is the first, and through hop `i - 1` otherwise.
  predicate OpensThroughPrevious(hosts: Hosts, chain: seq<nat>, i: int)
    requires 0 <= i < |chain|
  {
    chain[i] in hosts && hosts[chain[i]].jump == if i == 0 then None else Some(chain[i - 1])
  }

  lemma ReversedChain(hosts: Hosts, start: Option<nat>, ids: seq<nat>)
    requires IsChain(hosts, start, ids)
    ensures var chain := Reversed(ids);
            && (forall i :: 0 <= i < |chain| ==> OpensThroughPrevious(hosts, chain, i))
            && start == (if chain == [] then None else Some(chain[|chain| - 1]))
            && (forall i, j :: 0 <= i < j < |chain| ==> chain[i] != chain[j])
  {
    var chain := Reversed(ids);
    forall i | 0 <= i < |chain| ensures OpensThroughPrevious(hosts, chain, i) {
      ChainTail(hosts, start, ids, |ids| - i);
    }
    forall i, j | 0 <= i < j < |chain| ensures chain[i] != chain[j] {
      ChainDistinct(hosts, start, ids, |ids| - 1 - j, |ids| - 1 - i);
    }
  }

  function Reversed(s: seq<nat>): (r: seq<nat>)
    ensures |r| == |s| && forall i :: 0 <= i < |s| ==> r[i] == s[|s| - 1 - i]
  {
    if s == [] then [] else Reversed(s[1..]) + [s[0]]
  }
}
