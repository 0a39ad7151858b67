/**
 Every run of the tunnel pool.  A run is a sequence of events, each one atomic
 section of some task; the tasks interleave freely, foreign calls turn out as
 the event says, and an event that is not enabled does nothing.  A lease goes
 from held to releasing when `release` sets its flag, which happens before the
 lock is taken, and to done when the locked decrement has run.
 */
module TunnelRuns {
  import opened Prelude
  import opened TunnelPool

  datatype Phase = Held | Releasing | Done

  datatype Lease = Lease(key: Key, bound: Endpoint, listener: nat, phase: Phase)

  // Who took a session out of the registry.
  datatype Popper = Beacon | Backstop

  datatype Ticket = Ticket(lease: nat, deadline: real)

  datatype World = World(
    state: State,
    leases: seq<Lease>,
    sessions: map<string, nat>,
    issued: map<string, Ticket>,     // every session id ever handed out
    pops: map<string, Popper>,       // the ids whose lease has been taken for release
    fired: set<string>,              // the ids whose backstop task has run
    clock: real)

  datatype Event =
    | Acquire(key: Key, bindHost: string, foreign: Foreign)
    | BeginRelease(lease: nat)
    | RunRelease(lease: nat)
    | Register(lease: nat, sid: string, ttl: real)
    | Pop(sid: string, popper: Popper)
    | Collect(now: real)
    | Tick(elapsed: real)

  const START := World(EMPTY, [], map[], map[], map[], {}, 0.0)

  function SetPhase(leases: seq<Lease>, l: nat, p: Phase): seq<Lease>
    requires l < |leases|
  {
    leases[l := leases[l].(phase := p)]
  }

  // `release` sets the flag of a lease that is held, and finds it set otherwise.
  function SetFlag(leases: seq<Lease>, l: nat): seq<Lease> {
    if l < |leases| && leases[l].phase.Held? then SetPhase(leases, l, Releasing) else leases
  }

  // What an event does to the pool.
  function PoolStep(w: World, e: Event): State {
    match e
    case Acquire(k, bindHost, f) => TunnelPool.Acquire(w.state, k, bindHost, f, w.clock).0
    case RunRelease(l) =>
      if l < |w.leases| && w.leases[l].phase.Releasing? then Release(w.state, w.leases[l].key, w.clock) else w.state
    case Collect(now) =>
      // The reaper reads the clock before it takes the lock.
      if now <= w.clock then Gc(w.state, now) else w.state
    case _ => w.state
  }

  // The lease that an acquire hands out.
  function Got(w: World, e: Event): Option<Lease> {
    if !e.Acquire? then None
    else match TunnelPool.Acquire(w.state, e.key, e.bindHost, e.foreign, w.clock).1
      case None => None
      case Some(slot) => Some(Lease(e.key, slot.bound, slot.listener, Held))
  }

  // What it does to leases, sessions and time, given the lease that is handed out.
  function FrontStep(w: World, e: Event, got: Option<Lease>): World {
    match e
    case Acquire(_, _, _) => w.(leases := if got.Some? then w.leases + [got.value] else w.leases)
    case BeginRelease(l) => w.(leases := SetFlag(w.leases, l))
    case RunRelease(l) =>
      if l < |w.leases| && w.leases[l].phase.Releasing? then w.(leases := SetPhase(w.leases, l, Done)) else w
    case Register(l, sid, ttl) =>
      if l < |w.leases| && sid !in w.issued
      then w.(sessions := w.sessions[sid := l], issued := w.issued[sid := Ticket(l, w.clock + ttl)]) else w
    case Pop(sid, who) =>
      // The backstop task of an id sleeps for its ttl and runs once. Whoever takes the
      // lease sets its flag before any other task runs, and its decrement is then due.
      if who.Backstop? && (sid !in w.issued || w.clock < w.issued[sid].deadline || sid in w.fired) then w
      else
        var w1 := if who.Backstop? then w.(fired := w.fired + {sid}) else w;
        if sid !in w.sessions then w1
        else w1.(sessions := w.sessions - {sid}, pops := w.pops[sid := who],
                 leases := SetFlag(w.leases, w.sessions[sid]))
    case Collect(_) => w
    case Tick(d) => if d >= 0.0 then w.(clock := w.clock + d) else w
  }

  function Step(w: World, e: Event): World {
    FrontStep(w, e, Got(w, e)).(state := PoolStep(w, e))
  }

  function Exec(w: World, es: seq<Event>): World {
    if es == [] then w else Step(Exec(w, es[..|es| - 1]), es[|es| - 1])
  }

  lemma ExecSnoc(w: World, es: seq<Event>, e: Event)
    ensures Exec(w, es + [e]) == Step(Exec(w, es), e)
  {
    assert (es + [e])[..|es|] == es;
  }

  // ---- the invariant -------------------------------------------------------

  // The leases on `k` whose decrement has not run yet.
  function Outstanding(leases: seq<Lease>, k: Key): set<nat> {
    set l: nat | l < |leases| && leases[l].key == k && !leases[l].phase.Done?
  }

  ghost predicate Lawful(pool: Pool, leases: seq<Lease>) {
    forall k: Key ::
      match SlotAt(pool, k)
      case None => Outstanding(leases, k) == {}
      case Some(slot) => slot.count == |Outstanding(leases, k)|
  }

  ghost predicate Backed(pool: Pool, leases: seq<Lease>) {
    forall l :: 0 <= l < |leases| && !leases[l].phase.Done? ==>
      match SlotAt(pool, leases[l].key)
      case None => false
      case Some(slot) => slot.listener == leases[l].listener && slot.bound == leases[l].bound
  }

  ghost predicate Registered(w: World) {
    && w.issued.Keys == w.sessions.Keys + w.pops.Keys
    && w.sessions.Keys !! w.pops.Keys
    && w.fired <= w.pops.Keys
    && (forall sid :: sid in w.sessions ==> w.sessions[sid] == w.issued[sid].lease)
    && (forall sid :: sid in w.issued ==> w.issued[sid].lease < |w.leases|)
    && (forall sid :: sid in w.pops && w.pops[sid].Backstop? ==> sid in w.fired)
    && (forall sid :: sid in w.fired ==> w.issued[sid].deadline <= w.clock)
  }

  // A session that has been taken is being released, or is.
  ghost predicate TakenFlagged(w: World) {
    forall sid :: sid in w.pops && sid in w.issued && w.issued[sid].lease < |w.leases| ==>
      !w.leases[w.issued[sid].lease].phase.Held?
  }

  ghost predicate Inv(w: World) {
    && Sound(w.state)
    && Lawful(w.state.pool, w.leases)
    && Backed(w.state.pool, w.leases)
    && Registered(w)
    && TakenFlagged(w)
  }

  lemma OutstandingAppend(leases: seq<Lease>, lease: Lease, k: Key)
    requires lease.phase.Held?
    ensures Outstanding(leases + [lease], k) ==
            Outstanding(leases, k) + (if lease.key == k then {|leases|} else {})
    ensures |Outstanding(leases + [lease], k)| == |Outstanding(leases, k)| + if lease.key == k then 1 else 0
  {
    assert Outstanding(leases + [lease], k) ==
           Outstanding(leases, k) + (if lease.key == k then {|leases|} else {});
  }

  lemma OutstandingPhase(leases: seq<Lease>, l: nat, p: Phase, k: Key)
    requires l < |leases| && !leases[l].phase.Done?
    ensures Outstanding(SetPhase(leases, l, p), k) ==
            Outstanding(leases, k) - (if p.Done? then {l} else {})
    ensures |Outstanding(SetPhase(leases, l, p), k)| ==
            |Outstanding(leases, k)| - if p.Done? && leases[l].key == k then 1 else 0
  {
    var before, after := Outstanding(leases, k), Outstanding(SetPhase(leases, l, p), k);
    assert after == before - (if p.Done? then {l} else {});
    assert l in before <==> leases[l].key == k;
  }

  lemma AcquireKeepsLaw(s: State, s': State, k: Key, bindHost: string, f: Foreign, slot: Slot, leases: seq<Lease>)
    requires Lawful(s.pool, leases) && Backed(s.pool, leases)
    requires Acquired(s, s', k, bindHost, f, Some(slot))
    ensures var leases' := leases + [Lease(k, slot.bound, slot.listener, Held)];
            Lawful(s'.pool, leases') && Backed(s'.pool, leases')
  {
    var leases' := leases + [Lease(k, slot.bound, slot.listener, Held)];
    forall k': Key
      ensures match SlotAt(s'.pool, k')
              case None => Outstanding(leases', k') == {}
              case Some(slot) => slot.count == |Outstanding(leases', k')|
    {
      OutstandingAppend(leases, Lease(k, slot.bound, slot.listener, Held), k');
      assert SlotAt(s.pool, k').None? ==> Outstanding(leases, k') == {};
    }
  }

  lemma ReleaseKeepsLaw(s: State, s': State, leases: seq<Lease>, l: nat)
    requires l < |leases| && !leases[l].phase.Done?
    requires Lawful(s.pool, leases) && Backed(s.pool, leases)
    requires Released(s, s', leases[l].key)
    ensures Lawful(s'.pool, SetPhase(leases, l, Done)) && Backed(s'.pool, SetPhase(leases, l, Done))
  {
    var leases' := SetPhase(leases, l, Done);
    forall k': Key
      ensures match SlotAt(s'.pool, k')
              case None => Outstanding(leases', k') == {}
              case Some(slot) => slot.count == |Outstanding(leases', k')|
    {
      OutstandingPhase(leases, l, Done, k');
      assert SlotAt(s.pool, k').None? ==> Outstanding(leases, k') == {};
    }
    forall m | 0 <= m < |leases'| && !leases'[m].phase.Done?
      ensures SlotAt(s'.pool, leases'[m].key).Some?
    {
      assert m in Outstanding(leases', leases'[m].key);
    }
  }

  lemma FlagKeepsLaw(pool: Pool, leases: seq<Lease>, l: nat)
    requires Lawful(pool, leases) && Backed(pool, leases)
    ensures Lawful(pool, SetFlag(leases, l)) && Backed(pool, SetFlag(leases, l))
  {
    if l < |leases| && leases[l].phase.Held? {
      forall k: Key {
        OutstandingPhase(leases, l, Releasing, k);
      }
    }
  }

  lemma SameSlotsKeepLaw(pool: Pool, pool': Pool, leases: seq<Lease>)
    requires Lawful(pool, leases) && Backed(pool, leases)
    requires forall k: Key :: SlotAt(pool', k) == SlotAt(pool, k)
    ensures Lawful(pool', leases) && Backed(pool', leases)
  {
  }

  ghost predicate PoolInv(w: World) {
    Sound(w.state) && Lawful(w.state.pool, w.leases) && Backed(w.state.pool, w.leases)
  }

  lemma AcquireKeepsPool(w: World, k: Key, bindHost: string, f: Foreign)
    requires PoolInv(w)
    ensures PoolInv(Step(w, Acquire(k, bindHost, f)))
  {
    var (s', got) := TunnelPool.Acquire(w.state, k, bindHost, f, w.clock);
    AcquireSound(w.state, k, bindHost, f, w.clock);
    AcquireSlots(w.state, k, bindHost, f, w.clock);
    if got.Some? {
      AcquireKeepsLaw(w.state, s', k, bindHost, f, got.value, w.leases);
    } else {
      SameSlotsKeepLaw(w.state.pool, s'.pool, w.leases);
    }
  }

  lemma ReleaseKeepsPool(w: World, l: nat)
    requires PoolInv(w)
    ensures PoolInv(Step(w, RunRelease(l)))
  {
    if l < |w.leases| && w.leases[l].phase.Releasing? {
      ReleaseSound(w.state, w.leases[l].key, w.clock);
      ReleaseSlots(w.state, w.leases[l].key, w.clock);
      ReleaseKeepsLaw(w.state, Release(w.state, w.leases[l].key, w.clock), w.leases, l);
    }
  }

  lemma CollectKeepsPool(w: World, now: real)
    requires PoolInv(w)
    ensures PoolInv(Step(w, Collect(now)))
  {
    GcSound(w.state, now);
    GcSlots(w.state, now);
    SameSlotsKeepLaw(w.state.pool, Gc(w.state, now).pool, w.leases);
  }

  lemma StepKeepsPool(w: World, e: Event)
    requires PoolInv(w)
    ensures PoolInv(Step(w, e))
  {
    match e
    case Acquire(k, bindHost, f) => AcquireKeepsPool(w, k, bindHost, f);
    case BeginRelease(l) => FlagKeepsLaw(w.state.pool, w.leases, l);
    case RunRelease(l) => ReleaseKeepsPool(w, l);
    case Collect(now) => CollectKeepsPool(w, now);
    case Register(_, _, _) =>
    case Pop(sid, _) =>
      if sid in w.sessions { FlagKeepsLaw(w.state.pool, w.leases, w.sessions[sid]); }
    case Tick(_) =>
  }

  // Leases and time only grow, and the rest is as it was.
  lemma RegistryKept(w: World, w': World)
    requires Registered(w) && |w.leases| <= |w'.leases| && w.clock <= w'.clock
    requires w'.sessions == w.sessions && w'.issued == w.issued && w'.pops == w.pops && w'.fired == w.fired
    ensures Registered(w')
  {
  }

  lemma PopKeepsRegistry(w: World, sid: string, who: Popper)
    requires Registered(w)
    ensures Registered(FrontStep(w, Pop(sid, who), None))
  {
  }

  lemma RegisterKeepsRegistry(w: World, l: nat, sid: string, ttl: real)
    requires Registered(w)
    ensures Registered(FrontStep(w, Register(l, sid, ttl), None))
  {
  }

  lemma FrontKeepsRegistry(w: World, e: Event, got: Option<Lease>)
    requires Registered(w)
    ensures Registered(FrontStep(w, e, got))
  {
    match e
    case Pop(sid, who) => PopKeepsRegistry(w, sid, who);
    case Register(l, sid, ttl) => RegisterKeepsRegistry(w, l, sid, ttl);
    case _ =>
      OtherFront(w, e, got);
      RegistryKept(w, FrontStep(w, e, got));
  }

  // Events other than those of the registry leave it alone, leases move on, time too.
  ghost predicate MovesOn(w: World, w': World) {
    && |w.leases| <= |w'.leases| && w.clock <= w'.clock
    && w'.sessions == w.sessions && w'.issued == w.issued && w'.pops == w.pops && w'.fired == w.fired
    && forall l :: 0 <= l < |w.leases| && !w.leases[l].phase.Held? ==> !w'.leases[l].phase.Held?
  }

  lemma OtherFront(w: World, e: Event, got: Option<Lease>)
    requires !e.Pop? && !e.Register?
    ensures MovesOn(w, FrontStep(w, e, got))
  {
  }

  lemma StepKeepsRegistry(w: World, e: Event)
    requires Registered(w)
    ensures Registered(Step(w, e))
  {
    FrontKeepsRegistry(w, e, Got(w, e));
  }

  lemma FlaggedKept(w: World, w': World)
    requires Registered(w) && TakenFlagged(w) && MovesOn(w, w')
    ensures TakenFlagged(w')
  {
  }

  lemma FrontKeepsFlagged(w: World, e: Event, got: Option<Lease>)
    requires Registered(w) && TakenFlagged(w)
    ensures TakenFlagged(FrontStep(w, e, got))
  {
    match e
    case Pop(sid, who) => PopKeepsFlagged(w, sid, who);
    case Register(l, sid, ttl) => RegisterKeepsFlagged(w, l, sid, ttl);
    case _ =>
      OtherFront(w, e, got);
      FlaggedKept(w, FrontStep(w, e, got));
  }

  lemma PopKeepsFlagged(w: World, sid: string, who: Popper)
    requires Registered(w) && TakenFlagged(w)
    ensures TakenFlagged(FrontStep(w, Pop(sid, who), None))
  {
  }

  lemma RegisterKeepsFlagged(w: World, l: nat, sid: string, ttl: real)
    requires Registered(w) && TakenFlagged(w)
    ensures TakenFlagged(FrontStep(w, Register(l, sid, ttl), None))
  {
  }

  lemma StepKeepsFlagged(w: World, e: Event)
    requires Registered(w) && TakenFlagged(w)
    ensures TakenFlagged(Step(w, e))
  {
    FrontKeepsFlagged(w, e, Got(w, e));
  }

  lemma {:induction false} RunInvariant(es: seq<Event>)
    ensures Inv(Exec(START, es))
  {
    if es != [] {
      var w := Exec(START, es[..|es| - 1]);
      RunInvariant(es[..|es| - 1]);
      StepKeepsPool(w, es[|es| - 1]);
      StepKeepsRegistry(w, es[|es| - 1]);
      StepKeepsFlagged(w, es[|es| - 1]);
    }
  }

  // ---- what holds after every run -------------------------------------------

  /** The count of a forward or SOCKS listener is the number of leases on it
      whose decrement has not run, and it exists exactly while there is one. */
  lemma LeaseLaw(es: seq<Event>, k: Key)
    ensures var w := Exec(START, es);
            && (SlotAt(w.state.pool, k).Some? <==> Outstanding(w.leases, k) != {})
            && (SlotAt(w.state.pool, k).Some? ==> SlotAt(w.state.pool, k).value.count == |Outstanding(w.leases, k)|)
  {
    RunInvariant(es);
  }

  /** Until its decrement runs, a lease's listener and the connection under it
      are the ones it was given, open, and reachable at the address it holds. */
  lemma LeaseStaysOpen(es: seq<Event>, l: nat)
    requires l < |Exec(START, es).leases| && !Exec(START, es).leases[l].phase.Done?
    ensures var w := Exec(START, es); var lease := w.leases[l];
            && lease.listener in w.state.net.listeners
            && w.state.net.listeners[lease.listener] == lease.key
            && SlotAt(w.state.pool, lease.key).Some?
            && SlotAt(w.state.pool, lease.key).value.bound == lease.bound
            && w.state.pool[lease.key.sig].conn in w.state.net.conns
            && Standing(w.state.pool[lease.key.sig], lease.key.sig, w.state.net.conns)
  {
    RunInvariant(es);
    var w := Exec(START, es);
    var sig := w.leases[l].key.sig;
    assert SlotAt(w.state.pool, w.leases[l].key).Some?;
    assert Standing(w.state.pool[sig], sig, w.state.net.conns)
        && Carries(w.state.pool[sig], sig, w.state.pool[sig].conn);
  }

  /** All unreleased leases on one key share one address, the first caller's,
      whatever bind host the later callers asked for. */
  lemma LeasesShareEndpoint(es: seq<Event>, l: nat, m: nat)
    requires var ls := Exec(START, es).leases;
             l < |ls| && m < |ls| && ls[l].key == ls[m].key && !ls[l].phase.Done? && !ls[m].phase.Done?
    ensures var ls := Exec(START, es).leases; ls[l].bound == ls[m].bound && ls[l].listener == ls[m].listener
  {
    LeaseStaysOpen(es, l);
    LeaseStaysOpen(es, m);
    RunInvariant(es);
  }

  /** At most one live connection to the last hop of a chain, and it is the pooled one. */
  lemma OneConnectionPerChain(es: seq<Event>, c: nat, d: nat)
    requires var conns := Exec(START, es).state.net.conns;
             c in conns && d in conns && conns[c].sig == conns[d].sig && LastHop(conns[c]) && LastHop(conns[d])
    ensures c == d
    ensures var s := Exec(START, es).state; var sig := s.net.conns[c].sig; sig in s.pool && s.pool[sig].conn == c
  {
    RunInvariant(es);
  }

  /** Which live connections are outside the pool: after any run and one more event,
      those that were before, the hops that a failed acquire had opened, and the earlier
      hops of a chain that the reaper took. They are never closed. */
  lemma StraysExactly(es: seq<Event>, e: Event, c: nat)
    ensures var w := Exec(START, es);
            Stray(Step(w, e).state, c) <==>
              || Stray(w.state, c)
              || (e.Acquire? && Dropped(w.state, e.key.sig, e.foreign, c))
              || (e.Collect? && e.now <= w.clock && LeftByReaper(w.state, e.now, c))
  {
    RunInvariant(es);
    var w := Exec(START, es);
    match e
    case Acquire(k, bindHost, f) => AcquireStrays(w.state, k, bindHost, f, w.clock, c);
    case RunRelease(l) =>
      if l < |w.leases| && w.leases[l].phase.Releasing? { ReleaseStrays(w.state, w.leases[l].key, w.clock, c); }
    case Collect(now) => GcStrays(w.state, now, c);
    case _ =>
  }

  // Every chain that is asked for has at most one hop.
  ghost predicate ShortChains(es: seq<Event>) {
    forall i :: 0 <= i < |es| && es[i].Acquire? ==> |es[i].key.sig| <= 1
  }

  // Every live connection is of a chain of at most one hop.
  lemma {:induction false} ShortConns(es: seq<Event>, c: nat)
    requires ShortChains(es)
    ensures c in Exec(START, es).state.net.conns ==> |Exec(START, es).state.net.conns[c].sig| <= 1
  {
    if es != [] {
      var init, e := es[..|es| - 1], es[|es| - 1];
      assert forall i :: 0 <= i < |init| ==> init[i] == es[i];
      ShortConns(init, c);
      if c in Exec(START, es).state.net.conns { StepConns(Exec(START, init), e, c); }
    }
  }

  // A connection is there already, or of the chain that is asked for.
  lemma StepConns(w: World, e: Event, c: nat)
    requires c in Step(w, e).state.net.conns
    ensures || (c in w.state.net.conns && Step(w, e).state.net.conns[c] == w.state.net.conns[c])
            || (e.Acquire? && Step(w, e).state.net.conns[c].sig == e.key.sig)
  {
    match e
    case Acquire(k, bindHost, f) => AcquireConns(w.state, k, bindHost, f, w.clock);
    case RunRelease(l) =>
      if l < |w.leases| && w.leases[l].phase.Releasing? { ReleaseConns(w.state, w.leases[l].key, w.clock); }
    case _ =>
  }

  /** Where no chain has more than one hop, no connection is ever outside the pool. */
  lemma {:induction false} NoStrays(es: seq<Event>, c: nat)
    requires ShortChains(es)
    ensures !Stray(Exec(START, es).state, c)
  {
    if es != [] {
      var init, e := es[..|es| - 1], es[|es| - 1];
      assert forall i :: 0 <= i < |init| ==> init[i] == es[i];
      NoStrays(init, c);
      StraysExactly(init, e, c);
      ShortConns(init, c);
      RunInvariant(init);
      ExecSnoc(START, init, e);
      assert es == init + [e];
    }
  }

  /** Every live listener is leased: none outlives its last lease. */
  lemma NoOrphanListener(es: seq<Event>, n: nat)
    requires n in Exec(START, es).state.net.listeners
    ensures var w := Exec(START, es); Outstanding(w.leases, w.state.net.listeners[n]) != {}
  {
    RunInvariant(es);
    LeaseLaw(es, Exec(START, es).state.net.listeners[n]);
  }

  /** An acquire that raises changes no slot, no listener and no lease. */
  lemma FailedAcquireChangesNoCount(es: seq<Event>, k: Key, bindHost: string, f: Foreign)
    requires var w := Exec(START, es);
             !(k.sig != [] && (k.sig in w.state.pool || f.hopsUp >= |k.sig|)
               && (SlotAt(w.state.pool, k).Some? || f.listenOk))
    ensures var w := Exec(START, es); var w' := Step(w, Acquire(k, bindHost, f));
            && w'.leases == w.leases && w'.state.net.listeners == w.state.net.listeners
            && forall k': Key :: SlotAt(w'.state.pool, k') == SlotAt(w.state.pool, k')
  {
    RunInvariant(es);
    var w := Exec(START, es);
    AcquireSucceedsIff(w.state, k, bindHost, f, w.clock);
    AcquireSlots(w.state, k, bindHost, f, w.clock);
  }

  // Whether an event touches a chain: its connection opens, an acquire on it succeeds, or
  // a lease on it is decremented.
  predicate Touches(w: World, e: Event, sig: Sig) {
    match e
    case Acquire(k, _, f) =>
      && k.sig == sig && sig != []
      && if sig in w.state.pool then f.listenOk || Outstanding(w.leases, k) != {} else f.hopsUp >= |sig|
    case RunRelease(l) => l < |w.leases| && w.leases[l].phase.Releasing? && w.leases[l].key.sig == sig
    case _ => false
  }

  // When a run last touched a chain.
  ghost function LastTouch(es: seq<Event>, sig: Sig): Option<real> {
    if es == [] then None
    else
      var init, e := es[..|es| - 1], es[|es| - 1];
      if Touches(Exec(START, init), e, sig) then Some(Exec(START, init).clock) else LastTouch(init, sig)
  }

  /** The time a pooled chain records is that of the last event that touched it. */
  lemma {:induction false} LastActiveIsLastTouch(es: seq<Event>, sig: Sig)
    requires sig in Exec(START, es).state.pool
    ensures LastTouch(es, sig) == Some(Exec(START, es).state.pool[sig].lastActive)
  {
    var init, e := es[..|es| - 1], es[|es| - 1];
    var w := Exec(START, init);
    RunInvariant(init);
    TouchedNow(w, e, sig);
    if !Touches(w, e, sig) { LastActiveIsLastTouch(init, sig); }
  }

  // An event sets the time of the chain it touches, leaves every other time alone, and
  // pools no chain without touching it.
  lemma TouchedNow(w: World, e: Event, sig: Sig)
    requires PoolInv(w) && sig in PoolStep(w, e).pool
    ensures Touches(w, e, sig) || sig in w.state.pool
    ensures PoolStep(w, e).pool[sig].lastActive ==
            if Touches(w, e, sig) then w.clock else w.state.pool[sig].lastActive
  {
    assert sig != [] by { PooledNotEmpty(w, e, sig); }
    match e
    case Acquire(k, bindHost, f) =>
      AcquireActive(w.state, k, bindHost, f, w.clock, sig);
      assert SlotAt(w.state.pool, k).Some? <==> Outstanding(w.leases, k) != {} by { SlotLeased(w, k); }
    case RunRelease(l) =>
      if l < |w.leases| && w.leases[l].phase.Releasing? {
        assert SlotAt(w.state.pool, w.leases[l].key).Some?;
        ReleaseActive(w.state, w.leases[l].key, w.clock, sig);
      }
    case _ =>
  }

  lemma PooledNotEmpty(w: World, e: Event, sig: Sig)
    requires PoolInv(w) && sig in PoolStep(w, e).pool
    ensures sig != []
  {
    StepKeepsPool(w, e);
    assert Standing(Step(w, e).state.pool[sig], sig, Step(w, e).state.net.conns);
  }

  /** A chain enters the pool only by an acquire on it all of whose hops connect, and no
      event but the reaper's takes one out. */
  lemma PooledExactly(es: seq<Event>, e: Event, sig: Sig)
    requires sig != []
    ensures var w := Exec(START, es); var w' := Step(w, e);
            if e.Collect? then sig in w'.state.pool ==> sig in w.state.pool
            else sig in w'.state.pool <==>
                 sig in w.state.pool || (e.Acquire? && e.key.sig == sig && e.foreign.hopsUp >= |sig|)
  {
    var w := Exec(START, es);
    RunInvariant(es);
    match e
    case Acquire(k, bindHost, f) => AcquireActive(w.state, k, bindHost, f, w.clock, sig);
    case RunRelease(l) =>
      if l < |w.leases| && w.leases[l].phase.Releasing? {
        assert SlotAt(w.state.pool, w.leases[l].key).Some?;
        ReleaseActive(w.state, w.leases[l].key, w.clock, sig);
      }
    case _ =>
  }

  lemma SlotLeased(w: World, k: Key)
    requires PoolInv(w)
    ensures SlotAt(w.state.pool, k).Some? <==> Outstanding(w.leases, k) != {}
  {
    assert Counted(w.state.pool);
  }

  /** The reaper takes a chain exactly when no lease on it is outstanding and the last
      event that touched it lies 300 s before the time it read, which is no later than
      now; it closes that chain's connection and no other. */
  lemma CollectTakesIdleUnleased(es: seq<Event>, now: real, sig: Sig)
    requires var w := Exec(START, es); now <= w.clock && sig in w.state.pool
    ensures LastTouch(es, sig).Some?
    ensures var w := Exec(START, es); var w' := Step(w, Collect(now));
            && (sig !in w'.state.pool <==>
                  && (forall k: Key :: k.sig == sig ==> Outstanding(w.leases, k) == {})
                  && now - LastTouch(es, sig).value >= IDLE_CLOSE_AFTER_SECONDS)
            && (sig !in w'.state.pool ==> w.clock - LastTouch(es, sig).value >= IDLE_CLOSE_AFTER_SECONDS)
            && (w.state.pool[sig].conn in w'.state.net.conns <==> sig in w'.state.pool)
  {
    RunInvariant(es);
    LastActiveIsLastTouch(es, sig);
    var w := Exec(START, es);
    forall k: Key | k.sig == sig
      ensures Outstanding(w.leases, k) == {} <==> SlotAt(w.state.pool, k).None?
    {
      LeaseLaw(es, k);
    }
    BareChain(w.state.pool, sig);
    CollectTakes(w, now, sig);
  }

  // A chain has no slot exactly when it has neither forward nor SOCKS listener.
  lemma BareChain(pool: Pool, sig: Sig)
    requires sig in pool
    ensures (forall k: Key :: k.sig == sig ==> SlotAt(pool, k).None?) <==>
            pool[sig].forwards == map[] && pool[sig].socksListener.None?
  {
    if forall k: Key :: k.sig == sig ==> SlotAt(pool, k).None? {
      assert SlotAt(pool, SocksKey(sig)).None?;
      assert forall t :: t in pool[sig].forwards ==> SlotAt(pool, ForwardKey(sig, t)).Some?;
      assert pool[sig].forwards == map[];
    }
  }

  lemma CollectTakes(w: World, now: real, sig: Sig)
    requires ConnsTracked(w.state.pool, w.state.net.conns, w.state.net.next) && now <= w.clock && sig in w.state.pool
    ensures var w' := Step(w, Collect(now));
            && (sig !in w'.state.pool <==> Reapable(w.state.pool[sig], now))
            && (w.state.pool[sig].conn in w'.state.net.conns <==> sig in w'.state.pool)
  {
    GcTakes(w.state, now, sig);
  }

  // How often a locked decrement on behalf of lease `l` has run.
  function Decrements(w: World, es: seq<Event>, l: nat): nat {
    if es == [] then 0
    else
      var w' := Exec(w, es[..|es| - 1]);
      Decrements(w, es[..|es| - 1], l) +
      if es[|es| - 1] == RunRelease(l) && l < |w'.leases| && w'.leases[l].phase.Releasing? then 1 else 0
  }

  /** However often `release` is called, a lease is decremented at most once,
      and exactly once when it is done. */
  lemma {:induction false} DecrementedOnce(es: seq<Event>, l: nat)
    ensures var w := Exec(START, es);
            Decrements(START, es, l) == if l < |w.leases| && w.leases[l].phase.Done? then 1 else 0
  {
    if es != [] {
      var w, e := Exec(START, es[..|es| - 1]), es[|es| - 1];
      DecrementedOnce(es[..|es| - 1], l);
      DoneOnce(w, e, Got(w, e), l);
    }
  }

  // A lease becomes done exactly by its own decrement.
  lemma DoneOnce(w: World, e: Event, got: Option<Lease>, l: nat)
    requires got.Some? ==> got.value.phase.Held?
    ensures var w' := FrontStep(w, e, got);
            (l < |w'.leases| && w'.leases[l].phase.Done?) <==>
              || (l < |w.leases| && w.leases[l].phase.Done?)
              || (e == RunRelease(l) && l < |w.leases| && w.leases[l].phase.Releasing?)
  {
  }

  /** A decrement always finds its forward or listener: the early returns and
      the clamp at zero are never needed. */
  lemma DecrementFindsItsSlot(es: seq<Event>, l: nat)
    requires var w := Exec(START, es); l < |w.leases| && w.leases[l].phase.Releasing?
    ensures var w := Exec(START, es); var w' := Step(w, RunRelease(l)); var k := w.leases[l].key;
            && SlotAt(w.state.pool, k).Some?
            && SlotAt(w.state.pool, k).value.count ==
               1 + (if SlotAt(w'.state.pool, k).Some? then SlotAt(w'.state.pool, k).value.count else 0)
  {
    RunInvariant(es);
    var w := Exec(START, es);
    ReleaseSlots(w.state, w.leases[l].key, w.clock);
  }

  // ---- refinement: the pool is a bag of leases -------------------------------

  ghost function Bag(leases: seq<Lease>): map<nat, Key> {
    map l: nat | l < |leases| && !leases[l].phase.Done? :: leases[l].key
  }

  // What a plain bag of leases may do at an event.
  ghost predicate BagStep(b: map<nat, Key>, e: Event, b': map<nat, Key>) {
    match e
    case Acquire(k, _, _) => b' == b || exists l: nat :: l !in b && b' == b[l := k]
    case RunRelease(l) => b' == b || b' == b - {l}
    case _ => b' == b
  }

  // The pool shows exactly the keys in the bag, with their multiplicity.
  ghost predicate Shows(pool: Pool, b: map<nat, Key>) {
    forall k: Key ::
      (if SlotAt(pool, k).Some? then SlotAt(pool, k).value.count else 0) == |set l | l in b && b[l] == k|
  }

  /** Every step of the pool is a step of the bag, and before and after it the
      pool shows exactly the bag. */
  lemma PoolRefinesBag(es: seq<Event>, e: Event)
    ensures var w := Exec(START, es); var w' := Step(w, e);
            && BagStep(Bag(w.leases), e, Bag(w'.leases))
            && Shows(w.state.pool, Bag(w.leases)) && Shows(w'.state.pool, Bag(w'.leases))
  {
    BagShown(es);
    BagShown(es + [e]);
    ExecSnoc(START, es, e);
    BagSteps(Exec(START, es), e);
  }

  lemma BagAppend(leases: seq<Lease>, lease: Lease)
    requires lease.phase.Held?
    ensures |leases| !in Bag(leases) && Bag(leases + [lease]) == Bag(leases)[|leases| := lease.key]
  {
  }

  lemma BagPhase(leases: seq<Lease>, l: nat, p: Phase)
    requires l < |leases| && !leases[l].phase.Done?
    ensures Bag(SetPhase(leases, l, p)) == if p.Done? then Bag(leases) - {l} else Bag(leases)
  {
    assert Bag(SetPhase(leases, l, p)) == if p.Done? then Bag(leases) - {l} else Bag(leases);
  }

  lemma BagFlag(leases: seq<Lease>, l: nat)
    ensures Bag(SetFlag(leases, l)) == Bag(leases)
  {
    if l < |leases| && leases[l].phase.Held? { BagPhase(leases, l, Releasing); }
  }

  lemma BagSteps(w: World, e: Event)
    ensures BagStep(Bag(w.leases), e, Bag(Step(w, e).leases))
  {
    match e
    case Acquire(k, bindHost, f) =>
      var got := TunnelPool.Acquire(w.state, k, bindHost, f, w.clock).1;
      if got.Some? {
        BagAppend(w.leases, Lease(k, got.value.bound, got.value.listener, Held));
      }
    case BeginRelease(l) => BagFlag(w.leases, l);
    case RunRelease(l) =>
      if l < |w.leases| && w.leases[l].phase.Releasing? { BagPhase(w.leases, l, Done); }
    case Pop(sid, _) =>
      if sid in w.sessions { BagFlag(w.leases, w.sessions[sid]); }
    case _ =>
  }

  lemma BagShown(es: seq<Event>)
    ensures Shows(Exec(START, es).state.pool, Bag(Exec(START, es).leases))
  {
    var w := Exec(START, es);
    forall k: Key
      ensures (if SlotAt(w.state.pool, k).Some? then SlotAt(w.state.pool, k).value.count else 0)
              == |set l | l in Bag(w.leases) && Bag(w.leases)[l] == k|
    {
      LeaseLaw(es, k);
      assert (set l | l in Bag(w.leases) && Bag(w.leases)[l] == k) == Outstanding(w.leases, k);
    }
  }

  // ---- sessions -------------------------------------------------------------

  /** A session's lease is taken for release at most once, by the beacon or by
      the backstop, never by the backstop before its deadline, and by the time
      the backstop has run it has been taken. Once taken it is being released, and
      it is decremented exactly once by the time that is done. */
  lemma SessionTakenOnce(es: seq<Event>, sid: string)
    requires sid in Exec(START, es).issued
    ensures var w := Exec(START, es);
            && (sid in w.sessions <==> sid !in w.pops)
            && (sid in w.sessions ==> w.sessions[sid] == w.issued[sid].lease)
            && (sid in w.fired ==> sid in w.pops)
            && (sid in w.pops && w.pops[sid].Backstop? ==> w.issued[sid].deadline <= w.clock)
            && var l := w.issued[sid].lease;
            && l < |w.leases|
            && (sid in w.pops ==> !w.leases[l].phase.Held?)
            && Decrements(START, es, l) == if w.leases[l].phase.Done? then 1 else 0
  {
    RunInvariant(es);
    DecrementedOnce(es, Exec(START, es).issued[sid].lease);
  }

  lemma FrontKeepsTicket(w: World, e: Event, got: Option<Lease>, sid: string)
    requires Registered(w) && sid in w.issued
    ensures var w' := FrontStep(w, e, got);
            && sid in w'.issued && w'.issued[sid] == w.issued[sid]
            && (sid in w.pops ==> sid in w'.pops && w'.pops[sid] == w.pops[sid])
  {
  }

  lemma StepKeepsTicket(w: World, e: Event, sid: string)
    requires Registered(w) && sid in w.issued
    ensures var w' := Step(w, e);
            && sid in w'.issued && w'.issued[sid] == w.issued[sid]
            && (sid in w.pops ==> sid in w'.pops && w'.pops[sid] == w.pops[sid])
  {
    FrontKeepsTicket(w, e, Got(w, e), sid);
  }

  /** Who took a session never changes afterwards, and its id is never reissued. */
  lemma {:induction false} SessionTakenForGood(es: seq<Event>, more: seq<Event>, sid: string)
    requires sid in Exec(START, es).issued
    ensures var w, w' := Exec(START, es), Exec(START, es + more);
            && sid in w'.issued && w'.issued[sid] == w.issued[sid]
            && (sid in w.pops ==> sid in w'.pops && w'.pops[sid] == w.pops[sid])
  {
    if more == [] {
      assert es + more == es;
    } else {
      var init, e := more[..|more| - 1], more[|more| - 1];
      SessionTakenForGood(es, init, sid);
      assert Registered(Exec(START, es + init)) by { RunInvariant(es + init); }
      assert es + more == es + init + [e];
      ExecSnoc(START, es + init, e);
      StepKeepsTicket(Exec(START, es + init), e, sid);
    }
  }

  // The session id was issued by event `i` of a run.
  ghost predicate IssuedAt(es: seq<Event>, i: nat, sid: string) {
    && i < |es| && es[i].Register? && es[i].sid == sid
    && sid !in Exec(START, es[..i]).issued && es[i].lease < |Exec(START, es[..i]).leases|
  }

  // A session id names the lease it was issued for, and its backstop is due once its time
  // to live has passed since.
  ghost predicate Dated(es: seq<Event>, i: nat, t: Ticket)
    requires i < |es| && es[i].Register?
  {
    t.lease == es[i].lease && t.deadline == Exec(START, es[..i]).clock + es[i].ttl
  }

  lemma {:induction false} TicketDated(es: seq<Event>, sid: string) returns (i: nat)
    requires sid in Exec(START, es).issued
    ensures IssuedAt(es, i, sid) && Dated(es, i, Exec(START, es).issued[sid])
  {
    var init, e := es[..|es| - 1], es[|es| - 1];
    var w := Exec(START, init);
    if sid in w.issued {
      i := TicketDated(init, sid);
      RunInvariant(init);
      StepKeepsTicket(w, e, sid);
      assert es[..i] == init[..i];
    } else {
      i := |init|;
      TicketIssued(w, e, Got(w, e), sid);
    }
  }

  lemma TicketIssued(w: World, e: Event, got: Option<Lease>, sid: string)
    requires sid !in w.issued && sid in FrontStep(w, e, got).issued
    ensures e.Register? && e.sid == sid && e.lease < |w.leases|
    ensures FrontStep(w, e, got).issued[sid] == Ticket(e.lease, w.clock + e.ttl)
  {
  }

  /** Whether the backstop finds it is time: it takes a session that is still registered
      exactly if the time to live given at registration has passed since. */
  lemma BackstopWaits(es: seq<Event>, sid: string) returns (i: nat)
    requires sid in Exec(START, es).sessions
    ensures IssuedAt(es, i, sid) && Exec(START, es).sessions[sid] == es[i].lease
    ensures var w := Exec(START, es);
            sid in Step(w, Pop(sid, Backstop)).pops <==> Exec(START, es[..i]).clock + es[i].ttl <= w.clock
  {
    RunInvariant(es);
    i := TicketDated(es, sid);
  }
}
