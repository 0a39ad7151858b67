/**
 What each inventory operation changes, host by host and chain by chain, and which
 fault the validation of a jump link reports.
 */
module JumpChanges {
  import opened Prelude
  import opened JumpGraph

  // ---- faults ------------------------------------------------------------------------

  // Following the links from `start` over the hosts of `hops` leads to `next`.
  predicate Walks(hosts: Hosts, start: Option<nat>, hops: seq<nat>, next: nat)
    decreases |hops|
  {
    if hops == [] then start == Some(next)
    else start == Some(hops[0]) && hops[0] in hosts && Walks(hosts, hosts[hops[0]].jump, hops[1..], next)
  }

  // What is wrong with the first host that cannot be taken as a hop, after `hops` that can.
  predicate Faulty(hosts: Hosts, seen: set<nat>, hops: seq<nat>, next: nat, depth: nat, tid: nat, bad: JumpError) {
    if depth + |hops| > JUMP_CHAIN_MAX_DEPTH then bad == TooDeep
    else if next in seen || next in hops then bad == Cycle
    else if next !in hosts || hosts[next].tenant != tid then bad == NotFound(next)
    else !hosts[next].isJumpbox && bad == NotJumpbox(next)
  }

  predicate Fault(hosts: Hosts, seen: set<nat>, start: Option<nat>, hops: seq<nat>, next: nat, depth: nat, tid: nat,
                  bad: JumpError) {
    && Walks(hosts, start, hops, next) && Usable(hosts, hops, tid)
    && (forall i :: 0 <= i < |hops| ==> hops[i] !in seen)
    && (forall i, j :: 0 <= i < j < |hops| ==> hops[i] != hops[j])
    && depth + |hops| <= JUMP_CHAIN_MAX_DEPTH + 1
    && Faulty(hosts, seen, hops, next, depth, tid, bad)
  }

  lemma {:induction false} CheckFault(hosts: Hosts, seen: set<nat>, cur: Option<nat>, depth: nat, tid: nat)
      returns (hops: seq<nat>, next: nat)
    requires depth <= JUMP_CHAIN_MAX_DEPTH + 1 && Check(hosts, seen, cur, depth, tid).Some?
    ensures Fault(hosts, seen, cur, hops, next, depth, tid, Check(hosts, seen, cur, depth, tid).value)
    decreases JUMP_CHAIN_MAX_DEPTH + 1 - depth
  {
    hops, next := [], cur.value;
    if depth <= JUMP_CHAIN_MAX_DEPTH && cur.value !in seen && cur.value in hosts && hosts[cur.value].tenant == tid
       && hosts[cur.value].isJumpbox
    {
      var rest;
      rest, next := CheckFault(hosts, seen + {cur.value}, hosts[cur.value].jump, depth + 1, tid);
      hops := [cur.value] + rest;
      assert forall i :: 0 < i < |hops| ==> hops[i] == rest[i - 1];
      assert hops[1..] == rest;
    }
  }

  /** A rejected link names the first host along it that is not the end of an acceptable
      chain, and why: the host itself, too far along, met before, not there for the tenant,
      or no jump box, in this order. */
  lemma FirstFault(hosts: Hosts, hostId: Option<nat>, jump: Option<nat>, tid: nat) returns (hops: seq<nat>, next: nat)
    requires Validate(hosts, hostId, jump, tid).Some?
    ensures var bad := Validate(hosts, hostId, jump, tid).value;
            var own := if hostId.Some? then {hostId.value} else {};
            if jump == hostId then bad == OwnJumpHost else Fault(hosts, own, jump, hops, next, 0, tid, bad)
  {
    hops, next := [], 0;
    if jump != hostId {
      hops, next := CheckFault(hosts, if hostId.Some? then {hostId.value} else {}, jump, 0, tid);
    }
  }

  // ---- hosts -------------------------------------------------------------------------

  // Following the link leads to the end of an acceptable chain that avoids `own`.
  ghost predicate Acceptable(hosts: Hosts, own: Option<nat>, jump: Option<nat>, tid: nat) {
    exists ids: seq<nat> ::
      && IsChain(hosts, jump, ids) && |ids| <= JUMP_CHAIN_MAX_DEPTH + 1 && Usable(hosts, ids, tid)
      && (own.Some? ==> own.value !in ids)
  }

  /** A host is created exactly if it is a jump box or its link is acceptable. It gets a new
      id; a jump box gets no link, any other host the one asked for; no other host changes. */
  lemma CreateExactly(w: World, tenant: nat, form: Form)
    requires Numbered(w)
    ensures var w' := Step(w, CreateHost(tenant, form));
            if form.isJumpbox || Acceptable(w.hosts, None, form.jump, tenant) then
              && w.next !in w.hosts && w'.next == w.next + 1
              && w'.hosts == w.hosts[w.next := Host(tenant, form.isJumpbox, if form.isJumpbox then None else form.jump)]
            else w' == w
  {
    ValidateExactly(w.hosts, None, WantedJump(form), tenant);
  }

  /** An update goes through exactly if it does not make an ordinary host of a jump box that
      others still use, and the new link, if any, is acceptable and avoids the host. It
      changes that host's flag and link and nothing else. */
  lemma UpdateExactly(w: World, id: nat, form: Form)
    requires id in w.hosts
    ensures var w' := Step(w, UpdateHost(id, form)); var host := w.hosts[id];
            var used := exists other :: other in w.hosts && w.hosts[other].jump == Some(id);
            if (form.isJumpbox || (!(host.isJumpbox && used) && Acceptable(w.hosts, Some(id), form.jump, host.tenant)))
            then
              && w'.next == w.next
              && w'.hosts ==
                 w.hosts[id := Host(host.tenant, form.isJumpbox, if form.isJumpbox then None else form.jump)]
            else w' == w
  {
    ValidateExactly(w.hosts, Some(id), WantedJump(form), w.hosts[id].tenant);
  }

  // The hops before `id`, or all of them.
  function Before(ids: seq<nat>, id: nat): seq<nat> {
    if ids == [] || ids[0] == id then [] else [ids[0]] + Before(ids[1..], id)
  }

  lemma {:induction false} DeletedChain(hosts: Hosts, id: nat, start: Option<nat>, ids: seq<nat>)
    requires IsChain(hosts, start, ids)
    ensures IsChain(Delete(hosts, id), if start == Some(id) then None else start, Before(ids, id))
    decreases |ids|
  {
    if ids != [] && ids[0] != id {
      DeletedChain(hosts, id, hosts[ids[0]].jump, ids[1..]);
      assert ([ids[0]] + Before(ids[1..], id))[1..] == Before(ids[1..], id);
    }
  }

  /** A delete takes that host and clears the links to it, and every other host keeps the
      rest. The chain of each is the one it had, cut off just before the deleted host. */
  lemma DeleteExactly(w: World, id: nat, h: nat, ids: seq<nat>)
    requires h in w.hosts && h != id && IsChain(w.hosts, w.hosts[h].jump, ids)
    ensures var w' := Step(w, DeleteHost(id));
            && w'.next == w.next && w'.hosts.Keys == w.hosts.Keys - {id}
            && w'.hosts[h] == Host(w.hosts[h].tenant, w.hosts[h].isJumpbox,
                                   if w.hosts[h].jump == Some(id) then None else w.hosts[h].jump)
            && IsChain(w'.hosts, w'.hosts[h].jump, Before(ids, id))
  {
    DeletedChain(w.hosts, id, w.hosts[h].jump, ids);
  }
}
