/**
 The jump-host links of the host inventory: validation of a proposed link,
 create, update and delete with the foreign key's SET NULL, and the resolution of
 a host's jump chain.  A chain is the list of hops from the direct jump outwards.
 */
module JumpGraph {
  import opened Prelude

  const JUMP_CHAIN_MAX_DEPTH := 5

  datatype Host = Host(tenant: nat, isJumpbox: bool, jump: Option<nat>)

  type Hosts = map<nat, Host>

  datatype JumpError = OwnJumpHost | TooDeep | Cycle | NotFound(id: nat) | NotJumpbox(id: nat) | StillInUse

  // ---- chains -------------------------------------------------------------------

  // `ids` are the hops reached from `start` by following jump links to the end.
  predicate IsChain(hosts: Hosts, start: Option<nat>, ids: seq<nat>)
    decreases |ids|
  {
    if ids == [] then start.None?
    else start == Some(ids[0]) && ids[0] in hosts && IsChain(hosts, hosts[ids[0]].jump, ids[1..])
  }

  // The hosts on a proposed chain are all usable for tenant `tid`.
  predicate Usable(hosts: Hosts, ids: seq<nat>, tid: nat) {
    forall i :: 0 <= i < |ids| ==> ids[i] in hosts && hosts[ids[i]].isJumpbox && hosts[ids[i]].tenant == tid
  }

  // Links lead to jump boxes of the same tenant.
  ghost predicate Linked(hosts: Hosts) {
    forall id :: id in hosts && hosts[id].jump.Some? ==>
      var j := hosts[id].jump.value;
      j in hosts && hosts[j].isJumpbox && hosts[j].tenant == hosts[id].tenant
  }

  // Every chain ends, after at most `n` hops.
  ghost predicate Within(hosts: Hosts, n: nat) {
    forall id :: id in hosts ==> exists ids :: |ids| <= n && IsChain(hosts, hosts[id].jump, ids)
  }

  // Every chain ends: there is no cycle.
  ghost predicate Acyclic(hosts: Hosts) {
    forall id :: id in hosts ==> exists ids :: IsChain(hosts, hosts[id].jump, ids)
  }

  // Jump boxes connect directly.
  ghost predicate Flat(hosts: Hosts) {
    forall id :: id in hosts && hosts[id].isJumpbox ==> hosts[id].jump.None?
  }

  lemma {:induction false} ChainUnique(hosts: Hosts, start: Option<nat>, a: seq<nat>, b: seq<nat>)
    requires IsChain(hosts, start, a) && IsChain(hosts, start, b)
    ensures a == b
    decreases |a|
  {
    if a != [] && b != [] {
      ChainUnique(hosts, hosts[a[0]].jump, a[1..], b[1..]);
      assert a == [a[0]] + a[1..] && b == [b[0]] + b[1..];
    }
  }

  lemma {:induction false} ChainTail(hosts: Hosts, start: Option<nat>, ids: seq<nat>, i: nat)
    requires IsChain(hosts, start, ids) && i <= |ids|
    ensures var from := if i == 0 then start else if ids[i - 1] in hosts then hosts[ids[i - 1]].jump else None;
            IsChain(hosts, from, ids[i..])
    ensures i > 0 ==> ids[i - 1] in hosts
    ensures i < |ids| ==> (if i == 0 then start else hosts[ids[i - 1]].jump) == Some(ids[i])
    decreases |ids|
  {
    if i == 0 {
      assert ids[0..] == ids;
    } else {
      ChainTail(hosts, hosts[ids[0]].jump, ids[1..], i - 1);
      assert ids[1..][i - 1..] == ids[i..];
    }
  }

  /** A chain that ends visits no host twice, and a host is not on its own chain. */
  lemma ChainDistinct(hosts: Hosts, start: Option<nat>, ids: seq<nat>, i: nat, j: nat)
    requires IsChain(hosts, start, ids) && i < j < |ids|
    ensures ids[i] != ids[j]
  {
    ChainTail(hosts, start, ids, i + 1);
    ChainTail(hosts, start, ids, j + 1);
    if ids[i] == ids[j] {
      ChainUnique(hosts, hosts[ids[i]].jump, ids[i + 1..], ids[j + 1..]);
    }
  }

  lemma NotOnOwnChain(hosts: Hosts, id: nat, ids: seq<nat>)
    requires id in hosts && IsChain(hosts, hosts[id].jump, ids)
    ensures id !in ids
  {
    if id in ids {
      var i :| 0 <= i < |ids| && ids[i] == id;
      ChainTail(hosts, hosts[id].jump, ids, i + 1);
      ChainUnique(hosts, hosts[id].jump, ids, ids[i + 1..]);
    }
  }

  // ---- validation -----------------------------------------------------------------

  // The loop of `_validate_jump`.
  function Check(hosts: Hosts, seen: set<nat>, cur: Option<nat>, depth: nat, tid: nat): Option<JumpError>
    requires depth <= JUMP_CHAIN_MAX_DEPTH + 1
    decreases JUMP_CHAIN_MAX_DEPTH + 1 - depth
  {
    if cur.None? then None
    else if depth > JUMP_CHAIN_MAX_DEPTH then Some(TooDeep)
    else if cur.value in seen then Some(Cycle)
    else if cur.value !in hosts || hosts[cur.value].tenant != tid then Some(NotFound(cur.value))
    else if !hosts[cur.value].isJumpbox then Some(NotJumpbox(cur.value))
    else Check(hosts, seen + {cur.value}, hosts[cur.value].jump, depth + 1, tid)
  }

  /** `_validate_jump`: None when the link is accepted. */
  function Validate(hosts: Hosts, hostId: Option<nat>, jump: Option<nat>, tid: nat): Option<JumpError> {
    if jump.None? then None
    else if jump == hostId then Some(OwnJumpHost)
    else Check(hosts, if hostId.Some? then {hostId.value} else {}, jump, 0, tid)
  }

  lemma {:induction false} CheckAccepts(hosts: Hosts, seen: set<nat>, cur: Option<nat>, depth: nat, tid: nat)
      returns (ids: seq<nat>)
    requires depth <= JUMP_CHAIN_MAX_DEPTH + 1 && Check(hosts, seen, cur, depth, tid).None?
    ensures IsChain(hosts, cur, ids) && depth + |ids| <= JUMP_CHAIN_MAX_DEPTH + 1 && Usable(hosts, ids, tid)
    ensures forall i :: 0 <= i < |ids| ==> ids[i] !in seen
    decreases JUMP_CHAIN_MAX_DEPTH + 1 - depth
  {
    if cur.None? {
      ids := [];
    } else {
      var rest := CheckAccepts(hosts, seen + {cur.value}, hosts[cur.value].jump, depth + 1, tid);
      ids := [cur.value] + rest;
    }
  }

  lemma {:induction false} CheckComplete(hosts: Hosts, seen: set<nat>, cur: Option<nat>, depth: nat, tid: nat,
                                         ids: seq<nat>)
    requires depth + |ids| <= JUMP_CHAIN_MAX_DEPTH + 1
    requires IsChain(hosts, cur, ids) && Usable(hosts, ids, tid) && forall i :: 0 <= i < |ids| ==> ids[i] !in seen
    ensures Check(hosts, seen, cur, depth, tid).None?
    decreases |ids|
  {
    if ids != [] {
      assert ids[0] == cur.value;
      assert forall i :: 0 < i < |ids| ==> ids[i] != ids[0] by {
        forall i: nat | 0 < i < |ids| ensures ids[i] != ids[0] { ChainDistinct(hosts, cur, ids, 0, i); }
      }
      CheckComplete(hosts, seen + {cur.value}, hosts[cur.value].jump, depth + 1, tid, ids[1..]);
    }
  }

  /** A link is accepted exactly when following it leads, over at most six hosts
      (one more than the constant says), all jump boxes of the tenant and none of
      them the host itself, to the end of a chain. */
  lemma ValidateExactly(hosts: Hosts, hostId: Option<nat>, jump: Option<nat>, tid: nat)
    ensures Validate(hosts, hostId, jump, tid).None? <==>
            exists ids: seq<nat> ::
              && IsChain(hosts, jump, ids) && |ids| <= JUMP_CHAIN_MAX_DEPTH + 1 && Usable(hosts, ids, tid)
              && (hostId.Some? ==> hostId.value !in ids)
  {
    var seen := if hostId.Some? then {hostId.value} else {};
    if Validate(hosts, hostId, jump, tid).None? {
      if jump.None? {
        assert IsChain(hosts, jump, []);
      } else {
        var ids := CheckAccepts(hosts, seen, jump, 0, tid);
        assert hostId.Some? ==> hostId.value !in ids;
      }
    }
    forall ids: seq<nat> | IsChain(hosts, jump, ids) && |ids| <= JUMP_CHAIN_MAX_DEPTH + 1 && Usable(hosts, ids, tid)
                           && (hostId.Some? ==> hostId.value !in ids)
      ensures Validate(hosts, hostId, jump, tid).None?
    {
      CheckComplete(hosts, seen, jump, 0, tid, ids);
      assert jump.Some? ==> jump.value in ids;
    }
  }

  // ---- operations -----------------------------------------------------------------

  // What a form submits.
  datatype Form = Form(isJumpbox: bool, jump: Option<nat>)

  // Jump boxes connect directly, whatever the form says.
  function WantedJump(form: Form): Option<nat> {
    if form.isJumpbox then None else form.jump
  }

  predicate InUse(hosts: Hosts, id: nat) {
    exists other :: other in hosts && hosts[other].jump == Some(id)
  }

  /** `create_host` under a new id. */
  function Create(hosts: Hosts, id: nat, tenant: nat, form: Form): Result<Hosts, JumpError> {
    var bad := Validate(hosts, None, WantedJump(form), tenant);
    if bad.Some? then Err(bad.value)
    else Ok(hosts[id := Host(tenant, form.isJumpbox, WantedJump(form))])
  }

  /** `update_host`. */
  function Update(hosts: Hosts, id: nat, form: Form): Result<Hosts, JumpError>
    requires id in hosts
  {
    if hosts[id].isJumpbox && !form.isJumpbox && InUse(hosts, id) then Err(StillInUse)
    else
      var bad := Validate(hosts, Some(id), WantedJump(form), hosts[id].tenant);
      if bad.Some? then Err(bad.value)
      else Ok(hosts[id := hosts[id].(isJumpbox := form.isJumpbox, jump := WantedJump(form))])
  }

  /** `delete_host`, with the foreign key's SET NULL on the hosts behind it. */
  function Delete(hosts: Hosts, id: nat): Hosts {
    map h | h in hosts && h != id ::
      if hosts[h].jump == Some(id) then hosts[h].(jump := None) else hosts[h]
  }

  // ---- what an operation does to chains ------------------------------------------------

  // The two inventories have the same links away from `id`.
  ghost predicate SameLinksBut(hosts: Hosts, hosts': Hosts, id: nat) {
    forall h :: h in hosts && h != id ==> h in hosts' && hosts'[h].jump == hosts[h].jump
  }

  lemma {:induction false} ChainAvoids(hosts: Hosts, hosts': Hosts, id: nat, start: Option<nat>, ids: seq<nat>)
    requires SameLinksBut(hosts, hosts', id) && IsChain(hosts, start, ids) && id !in ids
    ensures IsChain(hosts', start, ids)
    decreases |ids|
  {
    if ids != [] {
      assert id !in ids[1..];
      ChainAvoids(hosts, hosts', id, hosts[ids[0]].jump, ids[1..]);
    }
  }

  // A chain through a host whose own link has gone ends there.
  lemma {:induction false} ChainEndsAt(hosts: Hosts, hosts': Hosts, id: nat, start: Option<nat>, ids: seq<nat>)
      returns (cut: seq<nat>)
    requires SameLinksBut(hosts, hosts', id) && IsChain(hosts, start, ids) && id in ids
    requires id in hosts' && hosts'[id].jump.None?
    ensures |cut| <= |ids| && IsChain(hosts', start, cut)
    decreases |ids|
  {
    if ids[0] == id {
      cut := [id];
      assert IsChain(hosts', hosts'[id].jump, []);
    } else {
      var rest := ChainEndsAt(hosts, hosts', id, hosts[ids[0]].jump, ids[1..]);
      cut := [ids[0]] + rest;
    }
  }

  // A chain through a deleted host ends before it.
  lemma {:induction false} ChainLoses(hosts: Hosts, id: nat, start: Option<nat>, ids: seq<nat>) returns (cut: seq<nat>)
    requires IsChain(hosts, start, ids)
    ensures |cut| <= |ids| && IsChain(Delete(hosts, id), if start == Some(id) then None else start, cut)
    decreases |ids|
  {
    if ids == [] || ids[0] == id {
      cut := [];
    } else {
      var rest := ChainLoses(hosts, id, hosts[ids[0]].jump, ids[1..]);
      cut := [ids[0]] + rest;
      assert Delete(hosts, id)[ids[0]].jump == if hosts[ids[0]].jump == Some(id) then None else hosts[ids[0]].jump;
    }
  }

  // A host on some chain has a host pointing at it.
  lemma OnChainInUse(hosts: Hosts, h: nat, ids: seq<nat>, id: nat)
    requires h in hosts && IsChain(hosts, hosts[h].jump, ids) && id in ids
    ensures InUse(hosts, id)
  {
    var i :| 0 <= i < |ids| && ids[i] == id;
    ChainTail(hosts, hosts[h].jump, ids, i);
  }

  // Chains of hosts other than the created one stay as they are.
  lemma CreateChain(hosts: Hosts, id: nat, tenant: nat, form: Form, h: nat, ids: seq<nat>)
    requires id !in hosts && Linked(hosts) && Create(hosts, id, tenant, form).Ok?
    requires h in hosts && IsChain(hosts, hosts[h].jump, ids)
    ensures var hosts' := Create(hosts, id, tenant, form).value; IsChain(hosts', hosts'[h].jump, ids)
  {
    if id in ids {
      var i :| 0 <= i < |ids| && ids[i] == id;
      ChainTail(hosts, hosts[h].jump, ids, i + 1);
    }
    ChainAvoids(hosts, Create(hosts, id, tenant, form).value, id, hosts[h].jump, ids);
  }

  // The chain of the host whose link was validated.
  lemma NewChain(hosts: Hosts, hosts': Hosts, id: nat, jump: Option<nat>, tid: nat, hostId: Option<nat>)
      returns (ids: seq<nat>)
    requires Validate(hosts, hostId, jump, tid).None? && SameLinksBut(hosts, hosts', id)
    requires hostId == Some(id) || id !in hosts
    ensures |ids| <= JUMP_CHAIN_MAX_DEPTH + 1 && IsChain(hosts', jump, ids)
    ensures jump.Some? ==> jump.value in hosts && hosts[jump.value].isJumpbox && hosts[jump.value].tenant == tid
    ensures jump != Some(id)
  {
    ValidateExactly(hosts, hostId, jump, tid);
    ids :| IsChain(hosts, jump, ids) && |ids| <= JUMP_CHAIN_MAX_DEPTH + 1 && Usable(hosts, ids, tid)
           && (hostId.Some? ==> hostId.value !in ids);
    assert id !in ids;
    ChainAvoids(hosts, hosts', id, jump, ids);
  }

  // After an update, a host's chain is at most as long as before.
  lemma UpdateChain(hosts: Hosts, id: nat, form: Form, h: nat, ids: seq<nat>) returns (ids': seq<nat>)
    requires id in hosts && Linked(hosts) && Update(hosts, id, form).Ok? && h in hosts && h != id
    requires IsChain(hosts, hosts[h].jump, ids)
    ensures var hosts' := Update(hosts, id, form).value;
            IsChain(hosts', hosts'[h].jump, ids') && |ids'| <= |ids|
  {
    var hosts' := Update(hosts, id, form).value;
    if id in ids {
      OnChainInUse(hosts, h, ids, id);
      var other :| other in hosts && hosts[other].jump == Some(id);
      assert hosts[id].isJumpbox;
      ids' := ChainEndsAt(hosts, hosts', id, hosts[h].jump, ids);
    } else {
      ChainAvoids(hosts, hosts', id, hosts[h].jump, ids);
      ids' := ids;
    }
  }

  // ---- every reachable inventory ------------------------------------------------------

  datatype Event =
    | CreateHost(tenant: nat, form: Form)
    | UpdateHost(id: nat, form: Form)
    | DeleteHost(id: nat)

  datatype World = World(hosts: Hosts, next: nat)

  function Step(w: World, e: Event): World {
    match e
    case CreateHost(tenant, form) =>
      var r := Create(w.hosts, w.next, tenant, form);
      if r.Ok? then World(r.value, w.next + 1) else w
    case UpdateHost(id, form) =>
      if id !in w.hosts then w
      else
        var r := Update(w.hosts, id, form);
        if r.Ok? then w.(hosts := r.value) else w
    case DeleteHost(id) => w.(hosts := Delete(w.hosts, id))
  }

  function Exec(w: World, es: seq<Event>): World {
    if es == [] then w else Step(Exec(w, es[..|es| - 1]), es[|es| - 1])
  }

  ghost predicate Numbered(w: World) {
    forall id :: id in w.hosts ==> id < w.next
  }

  lemma StepKeepsLinked(w: World, e: Event)
    requires Linked(w.hosts) && Numbered(w)
    ensures Linked(Step(w, e).hosts) && Numbered(Step(w, e))
  {
    match e
    case CreateHost(tenant, form) =>
      if Create(w.hosts, w.next, tenant, form).Ok? {
        var _ := NewChain(w.hosts, w.hosts, w.next, WantedJump(form), tenant, None);
      }
    case UpdateHost(id, form) =>
      if id in w.hosts && Update(w.hosts, id, form).Ok? {
        var hosts' := Update(w.hosts, id, form).value;
        var _ := NewChain(w.hosts, hosts', id, WantedJump(form), w.hosts[id].tenant, Some(id));
        forall h | h in hosts' && hosts'[h].jump.Some?
          ensures hosts'[h].jump.value in hosts' && hosts'[hosts'[h].jump.value].isJumpbox
          ensures hosts'[hosts'[h].jump.value].tenant == hosts'[h].tenant
        {
          if h != id && hosts'[h].jump == Some(id) {
            assert InUse(w.hosts, id);
          }
        }
      }
    case DeleteHost(id) =>
  }

  // Each host of the new inventory has a chain, at most `n` long if all had before.
  lemma CreateStepChain(w: World, tenant: nat, form: Form, n: nat, h: nat) returns (ids: seq<nat>)
    requires Linked(w.hosts) && Numbered(w) && Within(w.hosts, n) && Create(w.hosts, w.next, tenant, form).Ok?
    requires h in Create(w.hosts, w.next, tenant, form).value
    ensures |ids| <= n || |ids| <= JUMP_CHAIN_MAX_DEPTH + 1
    ensures var hosts' := Create(w.hosts, w.next, tenant, form).value; IsChain(hosts', hosts'[h].jump, ids)
  {
    var hosts' := Create(w.hosts, w.next, tenant, form).value;
    if h == w.next {
      ids := NewChain(w.hosts, hosts', h, WantedJump(form), tenant, None);
    } else {
      ids :| |ids| <= n && IsChain(w.hosts, w.hosts[h].jump, ids);
      CreateChain(w.hosts, w.next, tenant, form, h, ids);
    }
  }

  lemma UpdateStepChain(w: World, id: nat, form: Form, n: nat, h: nat) returns (ids: seq<nat>)
    requires Linked(w.hosts) && Within(w.hosts, n) && id in w.hosts && h in w.hosts && Update(w.hosts, id, form).Ok?
    ensures |ids| <= n || |ids| <= JUMP_CHAIN_MAX_DEPTH + 1
    ensures var hosts' := Update(w.hosts, id, form).value; IsChain(hosts', hosts'[h].jump, ids)
  {
    if h == id {
      ids := NewChain(w.hosts, Update(w.hosts, id, form).value, id, WantedJump(form), w.hosts[id].tenant, Some(id));
    } else {
      var was :| |was| <= n && IsChain(w.hosts, w.hosts[h].jump, was);
      ids := UpdateChain(w.hosts, id, form, h, was);
    }
  }

  lemma StepChain(w: World, e: Event, n: nat, h: nat) returns (ids: seq<nat>)
    requires Linked(w.hosts) && Numbered(w) && Within(w.hosts, n) && h in Step(w, e).hosts
    ensures |ids| <= n || |ids| <= JUMP_CHAIN_MAX_DEPTH + 1
    ensures IsChain(Step(w, e).hosts, Step(w, e).hosts[h].jump, ids)
  {
    if e.CreateHost? && Create(w.hosts, w.next, e.tenant, e.form).Ok? {
      ids := CreateStepChain(w, e.tenant, e.form, n, h);
    } else if e.UpdateHost? && e.id in w.hosts && Update(w.hosts, e.id, e.form).Ok? {
      ids := UpdateStepChain(w, e.id, e.form, n, h);
    } else {
      var was :| |was| <= n && IsChain(w.hosts, w.hosts[h].jump, was);
      ids := was;
      if e.DeleteHost? { ids := ChainLoses(w.hosts, e.id, w.hosts[h].jump, was); }
    }
  }

  // A start the operations can take: links sound, ids below the counter.
  ghost predicate Legacy(w: World) {
    Linked(w.hosts) && Numbered(w)
  }

  /** From any sound inventory, however long its chains, every reachable one keeps
      its links on jump boxes of the same tenant, free of cycles, and no chain
      longer than the longest at the start or six hops. */
  lemma {:induction false} ReachableInventory(w: World, es: seq<Event>, n: nat)
    requires Legacy(w) && Within(w.hosts, n) && n >= JUMP_CHAIN_MAX_DEPTH + 1
    ensures var hosts := Exec(w, es).hosts;
            Linked(hosts) && Numbered(Exec(w, es)) && Within(hosts, n) && Acyclic(hosts)
  {
    if es != [] {
      var init, e := Exec(w, es[..|es| - 1]), es[|es| - 1];
      ReachableInventory(w, es[..|es| - 1], n);
      StepKeepsLinked(init, e);
      var hosts := Exec(w, es).hosts;
      forall h | h in hosts ensures exists ids :: |ids| <= n && IsChain(hosts, hosts[h].jump, ids) {
        var ids := StepChain(init, e, n, h);
      }
    }
  }

  lemma {:induction false} ReachableIsFlat(es: seq<Event>)
    ensures Flat(Exec(World(map[], 0), es).hosts)
  {
    if es != [] {
      ReachableIsFlat(es[..|es| - 1]);
    }
  }

  /** From an empty inventory every chain has at most one hop. */
  lemma OneHopFromEmpty(es: seq<Event>, h: nat, ids: seq<nat>)
    requires var hosts := Exec(World(map[], 0), es).hosts; h in hosts && IsChain(hosts, hosts[h].jump, ids)
    ensures |ids| <= 1
  {
    var hosts := Exec(World(map[], 0), es).hosts;
    ReachableIsFlat(es);
    assert Within(map[], JUMP_CHAIN_MAX_DEPTH + 1);
    ReachableInventory(World(map[], 0), es, JUMP_CHAIN_MAX_DEPTH + 1);
    if ids != [] {
      assert hosts[ids[0]].isJumpbox;
    }
  }

  // Six jump boxes in a row, the last one direct.
  const SIX: Hosts := map[
    1 := Host(0, true, Some(2)), 2 := Host(0, true, Some(3)), 3 := Host(0, true, Some(4)),
    4 := Host(0, true, Some(5)), 5 := Host(0, true, Some(6)), 6 := Host(0, true, None)]

  /** The limit lets six hops through, one more than the constant says. */
  lemma SixHopsPass()
    ensures Validate(SIX, None, Some(1), 0).None?
  {
    var seen: set<nat> := {};
    assert Check(SIX, {1, 2, 3, 4, 5, 6}, None, 6, 0).None?;
    assert Check(SIX, {1, 2, 3, 4, 5}, Some(6), 5, 0).None? by { assert {1, 2, 3, 4, 5} + {6} == {1, 2, 3, 4, 5, 6}; }
    assert Check(SIX, {1, 2, 3, 4}, Some(5), 4, 0).None? by { assert {1, 2, 3, 4} + {5} == {1, 2, 3, 4, 5}; }
    assert Check(SIX, {1, 2, 3}, Some(4), 3, 0).None? by { assert {1, 2, 3} + {4} == {1, 2, 3, 4}; }
    assert Check(SIX, {1, 2}, Some(3), 2, 0).None? by { assert {1, 2} + {3} == {1, 2, 3}; }
    assert Check(SIX, {1}, Some(2), 1, 0).None? by { assert {1} + {2} == {1, 2}; }
    assert Check(SIX, seen, Some(1), 0, 0).None? by { assert seen + {1} == {1}; }
  }
}
