/**
 The pool as the object the program has: `JumpTunnelManager` with its mutable
 tables, and the lease objects it hands out.  Each method is one locked section
 (or one lock-free flag update) and is proved against `TunnelPool`.
 */
module TunnelManager {
  import opened Prelude
  import opened TunnelPool

  datatype HopOutcome = Connected | PermissionDenied | OtherFailure

  datatype ChainError = JumpAuthError(hop: int) | JumpUnreachableError(hop: int)

  // One opened hop and the hop whose connection it was tunnelled through.
  datatype OpenedHop = OpenedHop(hop: int, via: Option<int>)

  predicate AllConnected(outcomes: seq<HopOutcome>) {
    forall i :: 0 <= i < |outcomes| ==> outcomes[i].Connected?
  }

  // How many hops connect before the first that does not.
  function Reached(outcomes: seq<HopOutcome>): (n: nat)
    ensures n <= |outcomes| && (forall i :: 0 <= i < n ==> outcomes[i].Connected?)
    ensures n < |outcomes| ==> !outcomes[n].Connected?
  {
    if outcomes == [] || !outcomes[0].Connected? then 0 else 1 + Reached(outcomes[1..])
  }

  /** Opens the hops outermost first, each through the one before, and stops at
      the first that fails; a rejected login and any other failure are told apart. */
  method OpenChain(hops: Sig, outcomes: seq<HopOutcome>) returns (links: seq<OpenedHop>, error: Option<ChainError>)
    requires |outcomes| == |hops|
    ensures error.None? <==> AllConnected(outcomes)
    ensures |links| == Reached(outcomes) && (error.None? <==> |links| == |hops|)
    ensures forall i :: 0 <= i < |links| ==>
              && outcomes[i].Connected?
              && links[i] == OpenedHop(hops[i], if i == 0 then None else Some(hops[i - 1]))
    ensures error.Some? ==>
              && !outcomes[|links|].Connected?
              && error.value == (if outcomes[|links|].PermissionDenied? then JumpAuthError(hops[|links|])
                                 else JumpUnreachableError(hops[|links|]))
  {
    links, error := [], None;
    var prev: Option<int> := None;
    for i := 0 to |hops|
      invariant |links| == i
      invariant prev == if i == 0 then None else Some(hops[i - 1])
      invariant forall j :: 0 <= j < i ==>
                  && outcomes[j].Connected?
                  && links[j] == OpenedHop(hops[j], if j == 0 then None else Some(hops[j - 1]))
    {
      match outcomes[i]
      case Connected =>
        links := links + [OpenedHop(hops[i], prev)];
        prev := Some(hops[i]);
      case PermissionDenied =>
        error := Some(JumpAuthError(hops[i]));
        return;
      case OtherFailure =>
        error := Some(JumpUnreachableError(hops[i]));
        return;
    }
  }

  /** A `TunnelLease` (forward key) or a `SocksLease` (SOCKS key). */
  class Lease {
    const bound: Endpoint
    const key: Key
    var released: bool

    constructor (key: Key, bound: Endpoint)
      ensures this.key == key && this.bound == bound && !released
    {
      this.key, this.bound, released := key, bound, false;
    }

    /** `release`: the first call lowers the count, every later one does nothing. */
    method Release(m: JumpTunnelManager, now: real)
      modifies this, m
      ensures released && m.sessions == old(m.sessions) && m.timers == old(m.timers)
      ensures m.Now() == if old(released) then old(m.Now()) else TunnelPool.Release(old(m.Now()), key, now)
    {
      if released { return; }
      released := true;
      m.DropLease(key, now);
    }
  }

  datatype Grant = Direct | Leased(lease: Lease) | Failed

  class JumpTunnelManager {
    var jumps: Pool
    var net: Net
    var sessions: map<string, Lease>
    // When the backstop task of each session id wakes up.
    var timers: map<string, real>

    ghost function Now(): State
      reads this
    {
      State(jumps, net)
    }

    constructor ()
      ensures Now() == EMPTY && sessions == map[] && timers == map[]
    {
      jumps, net, sessions, timers := map[], Net(map[], map[], 0), map[], map[];
    }

    // Finds the chain's entry, opening its hops when there is none; what was opened before
    // a hop refused stays open.
    method EnsureEntry(hops: Sig, outcomes: seq<HopOutcome>, now: real) returns (ok: bool)
      requires |outcomes| == |hops| && hops != []
      modifies this
      ensures ok == (hops in old(jumps) || Reached(outcomes) == |hops|)
      ensures sessions == old(sessions) && timers == old(timers)
      ensures Now() == TunnelPool.Connected(old(Now()), hops, Foreign(Reached(outcomes), true, 0), now)
    {
      if hops in jumps { return true; }
      var links, error := OpenChain(hops, outcomes);
      net := Open(net, hops, |links|);
      if error.Some? { return false; }
      jumps := jumps[hops := Jump(net.next - 1, map[], now, None, Endpoint("", 0), 0)];
      return true;
    }

    /** `acquire`: nothing for a direct host; otherwise the lease carries the
        address of the forward as the pool holds it, the first caller's. */
    method AcquireForward(hops: Sig, target: Target, bindHost: string,
                          outcomes: seq<HopOutcome>, listenOk: bool, port: int, now: real) returns (r: Grant)
      requires |outcomes| == |hops|
      modifies this
      ensures sessions == old(sessions)
      ensures hops == [] ==> r.Direct? && Now() == old(Now())
      ensures hops != [] ==>
        var (s', got) := TunnelPool.AcquireForward(old(Now()), hops, target, bindHost,
                                                   Foreign(Reached(outcomes), listenOk, port), now);
        && Now() == s'
        && r.Leased? == got.Some? && r.Failed? == got.None?
        && (r.Leased? ==> fresh(r.lease) && r.lease.key == ForwardKey(hops, target)
                          && r.lease.bound == got.value.bound && !r.lease.released)
    {
      if hops == [] { return Direct; }
      var ok := EnsureEntry(hops, outcomes, now);
      if !ok { return Failed; }
      var entry := jumps[hops];
      var forward;
      if target in entry.forwards {
        forward := entry.forwards[target];
      } else {
        if !listenOk { return Failed; }
        forward := Forward(net.next, Endpoint(bindHost, port), 0);
        net := net.(listeners := net.listeners[net.next := ForwardKey(hops, target)], next := net.next + 1);
      }
      forward := forward.(leaseCount := forward.leaseCount + 1);
      entry := entry.(forwards := entry.forwards[target := forward], lastActive := now);
      jumps := jumps[hops := entry];
      var lease := new Lease(ForwardKey(hops, target), forward.bound);
      r := Leased(lease);
    }

    /** `acquire_socks`: one shared listener per chain. */
    method AcquireSocks(hops: Sig, bindHost: string,
                        outcomes: seq<HopOutcome>, listenOk: bool, port: int, now: real) returns (r: Grant)
      requires |outcomes| == |hops|
      modifies this
      ensures sessions == old(sessions)
      ensures hops == [] ==> r.Direct? && Now() == old(Now())
      ensures hops != [] ==>
        var (s', got) := TunnelPool.AcquireSocks(old(Now()), hops, bindHost,
                                                 Foreign(Reached(outcomes), listenOk, port), now);
        && Now() == s'
        && r.Leased? == got.Some? && r.Failed? == got.None?
        && (r.Leased? ==> fresh(r.lease) && r.lease.key == SocksKey(hops)
                          && r.lease.bound == got.value.bound && !r.lease.released)
    {
      if hops == [] { return Direct; }
      var ok := EnsureEntry(hops, outcomes, now);
      if !ok { return Failed; }
      var entry := jumps[hops];
      if entry.socksListener.None? {
        if !listenOk { return Failed; }
        entry := entry.(socksListener := Some(net.next), socksBound := Endpoint(bindHost, port));
        net := net.(listeners := net.listeners[net.next := SocksKey(hops)], next := net.next + 1);
      }
      entry := entry.(socksLeaseCount := entry.socksLeaseCount + 1, lastActive := now);
      jumps := jumps[hops := entry];
      var lease := new Lease(SocksKey(hops), entry.socksBound);
      r := Leased(lease);
    }

    /** `_release` and `_release_socks`. */
    method DropLease(key: Key, now: real)
      modifies this
      ensures Now() == TunnelPool.Release(old(Now()), key, now) && sessions == old(sessions) && timers == old(timers)
    {
      if key.sig !in jumps { return; }
      var entry := jumps[key.sig];
      match key
      case ForwardKey(sig, target) =>
        if target !in entry.forwards { return; }
        var forward := entry.forwards[target];
        forward := forward.(leaseCount := forward.leaseCount - 1);
        if forward.leaseCount <= 0 {
          net := net.(listeners := net.listeners - {forward.listener});
          entry := entry.(forwards := entry.forwards - {target});
        } else {
          entry := entry.(forwards := entry.forwards[target := forward]);
        }
        jumps := jumps[sig := entry.(lastActive := now)];
      case SocksKey(sig) =>
        entry := entry.(socksLeaseCount := entry.socksLeaseCount - 1);
        if entry.socksLeaseCount <= 0 {
          entry := entry.(socksLeaseCount := 0);
          if entry.socksListener.Some? {
            net := net.(listeners := net.listeners - {entry.socksListener.value});
            entry := entry.(socksListener := None, socksBound := entry.socksBound.(bindPort := 0));
          }
        }
        jumps := jumps[sig := entry.(lastActive := now)];
    }

    /** `register_session`, for a freshly drawn session id: the lease is filed under it
        and its backstop scheduled. */
    method RegisterSession(lease: Lease, sid: string, ttl: real, now: real)
      requires sid !in timers
      modifies this`sessions, this`timers
      ensures sessions == old(sessions)[sid := lease] && timers == old(timers)[sid := now + ttl]
    {
      sessions := sessions[sid := lease];
      timers := timers[sid := now + ttl];
    }

    /** `release_session`: true exactly for a registered id, which is forgotten and its
        lease released; a second call finds nothing, and a lease that was released
        before is not released again. */
    method ReleaseSession(sid: string, now: real) returns (found: bool)
      modifies this, if sid in sessions then {sessions[sid]} else {}
      ensures found == (sid in old(sessions)) && timers == old(timers)
      ensures sessions == old(sessions) - {sid}
      ensures found ==> old(sessions)[sid].released
      ensures Now() == if found && !old(sid in sessions && sessions[sid].released)
                       then TunnelPool.Release(old(Now()), old(sessions)[sid].key, now) else old(Now())
    {
      if sid !in sessions { return false; }
      var lease := sessions[sid];
      sessions := sessions - {sid};
      lease.Release(this, now);
      return true;
    }

    /** `_auto_release`, when its sleep is over. */
    method AutoRelease(sid: string, now: real)
      requires sid in timers && timers[sid] <= now
      modifies this, if sid in sessions then {sessions[sid]} else {}
      ensures sessions == old(sessions) - {sid} && timers == old(timers)
      ensures Now() == if sid in old(sessions) && !old(sid in sessions && sessions[sid].released)
                       then TunnelPool.Release(old(Now()), old(sessions)[sid].key, now) else old(Now())
    {
      var _ := ReleaseSession(sid, now);
    }

    /** `gc`: closes exactly the idle unleased connections and returns how many
        the pool lost. */
    method CollectIdle(now: real) returns (reaped: nat)
      modifies this`jumps, this`net
      ensures Now() == Gc(old(Now()), now)
      ensures reaped == |old(jumps)| - |jumps|
    {
      var keys := Enumerate(jumps.Keys);
      reaped := 0;
      ghost var before := Now();
      for i := 0 to |keys|
        invariant Now() == Swept(before, keys[..i], now) && reaped == |before.pool| - |jumps|
      {
        SweepOne(before, keys, i, now);
        var sig := keys[i];
        var e := jumps[sig];
        if !(e.forwards != map[] || e.socksListener.Some?) && !(now - e.lastActive < IDLE_CLOSE_AFTER_SECONDS) {
          jumps := jumps - {sig};
          net := net.(conns := net.conns - {e.conn});
          reaped := reaped + 1;
        }
      }
      assert keys[..|keys|] == keys;
      SweptAll(before, keys, now);
    }
  }

  // The state after the reaper has looked at the listed chains, in turn.
  ghost function Swept(s: State, list: seq<Sig>, now: real): State {
    if list == [] then s
    else
      var s' := Swept(s, list[..|list| - 1], now);
      var sig := list[|list| - 1];
      if sig in s'.pool && Reapable(s'.pool[sig], now) then
        State(s'.pool - {sig}, s'.net.(conns := s'.net.conns - {s'.pool[sig].conn}))
      else s'
  }

  // One turn of the loop of the reaper.
  lemma SweepOne(s: State, keys: seq<Sig>, i: nat, now: real)
    requires i < |keys| && keys[i] in s.pool && forall j, l :: 0 <= j < l < |keys| ==> keys[j] != keys[l]
    ensures var s', sig := Swept(s, keys[..i], now), keys[i];
            && sig in s'.pool && |s'.pool - {sig}| == |s'.pool| - 1
            && Swept(s, keys[..i + 1], now) ==
               if Reapable(s'.pool[sig], now)
               then State(s'.pool - {sig}, s'.net.(conns := s'.net.conns - {s'.pool[sig].conn})) else s'
  {
    assert keys[..i + 1][..i] == keys[..i];
    SweptKeeps(s, keys[..i], keys[i], now);
    DropOne(Swept(s, keys[..i], now).pool, keys[i]);
  }

  lemma {:induction false} SweptKeeps(s: State, list: seq<Sig>, sig: Sig, now: real)
    requires sig in s.pool && sig !in list
    ensures sig in Swept(s, list, now).pool && Swept(s, list, now).pool[sig] == s.pool[sig]
  {
    if list != [] {
      SweptKeeps(s, list[..|list| - 1], sig, now);
    }
  }

  lemma SweptAll(s: State, list: seq<Sig>, now: real)
    requires forall i, j :: 0 <= i < j < |list| ==> list[i] != list[j]
    requires forall sig :: sig in list <==> sig in s.pool
    ensures Swept(s, list, now) == Gc(s, now)
  {
    SweptIs(s, list, now);
    assert (set sig | sig in list) == s.pool.Keys;
  }

  lemma {:induction false} SweptIs(s: State, list: seq<Sig>, now: real)
    requires forall i, j :: 0 <= i < j < |list| ==> list[i] != list[j]
    requires forall sig :: sig in list ==> sig in s.pool
    ensures Swept(s, list, now) == GcAmong(s, (set sig | sig in list), now)
  {
    if list == [] {
      assert GcAmong(s, {}, now).pool == s.pool;
      assert GcAmong(s, {}, now).net.conns == s.net.conns;
    } else {
      var rest, sig := list[..|list| - 1], list[|list| - 1];
      assert list == rest + [sig];
      SweptIs(s, rest, now);
      SweptKeeps(s, rest, sig, now);
      ReapOne(s, (set x | x in rest), sig, now);
      assert (set x | x in list) == (set x | x in rest) + {sig};
    }
  }

  lemma DropOne(pool: Pool, sig: Sig)
    requires sig in pool
    ensures |pool - {sig}| == |pool| - 1
  {
    assert (pool - {sig}).Keys == pool.Keys - {sig};
  }

  // One turn of the reaper's loop.
  lemma ReapOne(s: State, done: set<Sig>, sig: Sig, now: real)
    requires sig in s.pool && sig !in done
    ensures var s' := GcAmong(s, done, now);
            GcAmong(s, done + {sig}, now) ==
              if Reapable(s.pool[sig], now) then
                State(s'.pool - {sig}, s'.net.(conns := s'.net.conns - {s.pool[sig].conn}))
              else s'
  {
    var s', s'' := GcAmong(s, done, now), GcAmong(s, done + {sig}, now);
    if Reapable(s.pool[sig], now) {
      assert s''.pool == s'.pool - {sig};
      assert s''.net.conns == s'.net.conns - {s.pool[sig].conn};
    } else {
      assert s''.pool == s'.pool;
      assert s''.net.conns == s'.net.conns;
    }
  }
}
