/**
 The data of the jump tunnel pool and its four locked sections as functions on
 values: acquiring and releasing a forward, acquiring and releasing the shared
 SOCKS listener, and the idle reaper.  `Net` is the foreign side: the SSH
 connections and local listeners that have been opened and not closed.
 */
module TunnelPool {
  import opened Prelude

  const IDLE_CLOSE_AFTER_SECONDS: real := 300.0

  // Host ids of a jump chain, outermost hop first.
  type Sig = seq<int>
  type Target = (string, int)

  datatype Endpoint = Endpoint(bindHost: string, bindPort: int)

  // What a lease is a lease of: one forward, or the SOCKS listener of a chain.
  datatype Key = ForwardKey(sig: Sig, target: Target) | SocksKey(sig: Sig)

  datatype Forward = Forward(listener: nat, bound: Endpoint, leaseCount: int)

  datatype Jump = Jump(
    conn: nat,
    forwards: map<Target, Forward>,
    lastActive: real,
    socksListener: Option<nat>,
    socksBound: Endpoint,
    socksLeaseCount: int)

  type Pool = map<Sig, Jump>

  // A connection is one hop of a chain, opened through the hops before it.
  datatype Hop = Hop(sig: Sig, index: nat)

  // Live connections and listeners by identity, with what each was opened for.
  datatype Net = Net(conns: map<nat, Hop>, listeners: map<nat, Key>, next: nat)

  datatype State = State(pool: Pool, net: Net)

  // How the foreign calls of one acquire turn out: how many hops connect before one does
  // not, and whether the listener opens.
  datatype Foreign = Foreign(hopsUp: nat, listenOk: bool, port: int)

  // The listener a lease relies on, as the pool records it.
  datatype Slot = Slot(listener: nat, bound: Endpoint, count: int)

  const EMPTY := State(map[], Net(map[], map[], 0))

  function SlotAt(pool: Pool, k: Key): Option<Slot> {
    if k.sig !in pool then None
    else
      var j := pool[k.sig];
      match k
      case ForwardKey(_, t) =>
        if t in j.forwards then
          Some(Slot(j.forwards[t].listener, j.forwards[t].bound, j.forwards[t].leaseCount))
        else None
      case SocksKey(_) =>
        if j.socksListener.Some? then
          Some(Slot(j.socksListener.value, j.socksBound, j.socksLeaseCount))
        else None
  }

  // ---- the locked sections -------------------------------------------------

  // The first `n` hops of a chain, opened one after the other.
  function OpenHops(conns: map<nat, Hop>, next: nat, sig: Sig, n: nat): (r: map<nat, Hop>)
    ensures forall c :: c in r <==> c in conns || next <= c < next + n
    ensures forall c :: c in r ==> r[c] == if next <= c < next + n then Hop(sig, c - next) else conns[c]
  {
    if n == 0 then conns else OpenHops(conns, next, sig, n - 1)[next + n - 1 := Hop(sig, n - 1)]
  }

  function Open(net: Net, sig: Sig, n: nat): Net {
    net.(conns := OpenHops(net.conns, net.next, sig, n), next := net.next + n)
  }

  // All hops are up: the pool keeps the last one.
  function Connect(s: State, sig: Sig, now: real): State
    requires sig != []
  {
    State(s.pool[sig := Jump(s.net.next + |sig| - 1, map[], now, None, Endpoint("", 0), 0)], Open(s.net, sig, |sig|))
  }

  function Listen(net: Net, k: Key): Net {
    net.(listeners := net.listeners[net.next := k], next := net.next + 1)
  }

  /** The locked body of `acquire`: None for a direct host, and when a hop or the forward
      raised; hops that are up by then are left open. */
  function AcquireForward(s: State, sig: Sig, t: Target, bindHost: string, f: Foreign, now: real)
    : (State, Option<Slot>)
  {
    if sig == [] then (s, None)
    else if sig !in s.pool && f.hopsUp < |sig| then (s.(net := Open(s.net, sig, f.hopsUp)), None)
    else
      var s1 := if sig in s.pool then s else Connect(s, sig, now);
      var j := s1.pool[sig];
      if t !in j.forwards && !f.listenOk then (s1, None)
      else
        var prior := if t in j.forwards then j.forwards[t] else Forward(s1.net.next, Endpoint(bindHost, f.port), 0);
        var net := if t in j.forwards then s1.net else Listen(s1.net, ForwardKey(sig, t));
        var fwd := prior.(leaseCount := prior.leaseCount + 1);
        (State(s1.pool[sig := j.(forwards := j.forwards[t := fwd], lastActive := now)], net),
         Some(Slot(fwd.listener, fwd.bound, fwd.leaseCount)))
  }

  /** The locked body of `acquire_socks`. */
  function AcquireSocks(s: State, sig: Sig, bindHost: string, f: Foreign, now: real)
    : (State, Option<Slot>)
  {
    if sig == [] then (s, None)
    else if sig !in s.pool && f.hopsUp < |sig| then (s.(net := Open(s.net, sig, f.hopsUp)), None)
    else
      var s1 := if sig in s.pool then s else Connect(s, sig, now);
      var j := s1.pool[sig];
      if j.socksListener.None? && !f.listenOk then (s1, None)
      else
        var j1 := if j.socksListener.Some? then j
                  else j.(socksListener := Some(s1.net.next), socksBound := Endpoint(bindHost, f.port));
        var net := if j.socksListener.Some? then s1.net else Listen(s1.net, SocksKey(sig));
        var j2 := j1.(socksLeaseCount := j1.socksLeaseCount + 1, lastActive := now);
        (State(s1.pool[sig := j2], net),
         Some(Slot(j2.socksListener.value, j2.socksBound, j2.socksLeaseCount)))
  }

  function Close(net: Net, listener: nat): Net {
    net.(listeners := net.listeners - {listener})
  }

  /** The locked body of `_release`. */
  function ReleaseForward(s: State, sig: Sig, t: Target, now: real): State {
    if sig !in s.pool || t !in s.pool[sig].forwards then s
    else
      var j := s.pool[sig];
      var fwd := j.forwards[t].(leaseCount := j.forwards[t].leaseCount - 1);
      if fwd.leaseCount <= 0 then
        State(s.pool[sig := j.(forwards := j.forwards - {t}, lastActive := now)], Close(s.net, fwd.listener))
      else
        s.(pool := s.pool[sig := j.(forwards := j.forwards[t := fwd], lastActive := now)])
  }

  /** The locked body of `_release_socks`; the count is clamped at zero. */
  function ReleaseSocks(s: State, sig: Sig, now: real): State {
    if sig !in s.pool then s
    else
      var j := s.pool[sig].(socksLeaseCount := s.pool[sig].socksLeaseCount - 1, lastActive := now);
      if j.socksLeaseCount <= 0 then
        if j.socksListener.Some? then
          State(s.pool[sig := j.(socksLeaseCount := 0, socksListener := None,
                                 socksBound := j.socksBound.(bindPort := 0))],
                Close(s.net, j.socksListener.value))
        else s.(pool := s.pool[sig := j.(socksLeaseCount := 0)])
      else s.(pool := s.pool[sig := j])
  }

  function Acquire(s: State, k: Key, bindHost: string, f: Foreign, now: real): (State, Option<Slot>) {
    match k
    case ForwardKey(sig, t) => AcquireForward(s, sig, t, bindHost, f, now)
    case SocksKey(sig) => AcquireSocks(s, sig, bindHost, f, now)
  }

  function Release(s: State, k: Key, now: real): State {
    match k
    case ForwardKey(sig, t) => ReleaseForward(s, sig, t, now)
    case SocksKey(sig) => ReleaseSocks(s, sig, now)
  }

  predicate Reapable(j: Jump, now: real) {
    && j.forwards == map[]
    && j.socksListener.None?
    && now - j.lastActive >= IDLE_CLOSE_AFTER_SECONDS
  }

  // The idle chains among `among` are gone, with their connections.
  function GcAmong(s: State, among: set<Sig>, now: real): State {
    var dead := set sig | sig in among && sig in s.pool && Reapable(s.pool[sig], now);
    var closed := set sig | sig in dead :: s.pool[sig].conn;
    State(s.pool - dead, s.net.(conns := s.net.conns - closed))
  }

  /** The locked body of `gc`. */
  function Gc(s: State, now: real): State {
    GcAmong(s, s.pool.Keys, now)
  }

  // ---- the invariant of the pool itself ------------------------------------

  // A pool whose chains without a SOCKS listener count no SOCKS lease.
  ghost predicate SocksZero(pool: Pool) {
    forall sig :: sig in pool && pool[sig].socksListener.None? ==> pool[sig].socksLeaseCount == 0
  }

  // A forward exists only while leased; the SOCKS count is zero exactly when
  // there is no SOCKS listener.
  ghost predicate Counted(pool: Pool) {
    && (forall k: Key :: SlotAt(pool, k).Some? ==> SlotAt(pool, k).value.count >= 1)
    && SocksZero(pool)
  }

  // Connection `c` is one of the hops under the pooled connection of `sig`, or that itself.
  predicate Carries(j: Jump, sig: Sig, c: nat) {
    j.conn + 1 - |sig| <= c <= j.conn
  }

  // A pooled chain stands on the live connections of all its hops.
  ghost predicate Standing(j: Jump, sig: Sig, conns: map<nat, Hop>) {
    && sig != [] && |sig| <= j.conn + 1
    && forall c: nat :: Carries(j, sig, c) ==> c in conns && conns[c] == Hop(sig, c - (j.conn + 1 - |sig|))
  }

  // Connection `c` is the last hop of its chain.
  predicate LastHop(h: Hop) {
    h.index + 1 == |h.sig|
  }

  // Pooled chains stand, and a live last hop is the pooled connection of its chain.
  ghost predicate ConnsTracked(pool: Pool, conns: map<nat, Hop>, next: nat) {
    && (forall c :: c in conns ==> c < next && conns[c].index < |conns[c].sig|)
    && (forall c :: c in conns && LastHop(conns[c]) ==> conns[c].sig in pool && pool[conns[c].sig].conn == c)
    && (forall sig :: sig in pool ==> Standing(pool[sig], sig, conns))
  }

  // A live connection that no pooled chain stands on.
  predicate Stray(s: State, c: nat) {
    && c in s.net.conns
    && !(s.net.conns[c].sig in s.pool && Carries(s.pool[s.net.conns[c].sig], s.net.conns[c].sig, c))
  }

  // Every live listener is the recorded one of its key, and the other way round.
  ghost predicate ListenersTracked(pool: Pool, listeners: map<nat, Key>, next: nat) {
    && (forall n :: n in listeners ==>
          && n < next
          && SlotAt(pool, listeners[n]).Some?
          && SlotAt(pool, listeners[n]).value.listener == n)
    && (forall k: Key :: SlotAt(pool, k).Some? ==>
          && SlotAt(pool, k).value.listener in listeners
          && listeners[SlotAt(pool, k).value.listener] == k)
  }

  ghost predicate Sound(s: State) {
    && Counted(s.pool)
    && ConnsTracked(s.pool, s.net.conns, s.net.next)
    && ListenersTracked(s.pool, s.net.listeners, s.net.next)
  }

  // ---- what each locked section does to the slots ---------------------------

  // The slots of the two pools agree everywhere except possibly at `k`.
  ghost predicate SameElsewhere(pool: Pool, pool': Pool, k: Key) {
    forall k': Key :: k' != k ==> SlotAt(pool', k') == SlotAt(pool, k')
  }

  // How an acquire on `k` may change the slots and the listeners.
  ghost predicate Acquired(s: State, s': State, k: Key, bindHost: string, f: Foreign, got: Option<Slot>) {
    && SameElsewhere(s.pool, s'.pool, k)
    && s.net.next <= s'.net.next
    && match got {
       case None => SlotAt(s'.pool, k) == SlotAt(s.pool, k) && s'.net.listeners == s.net.listeners
       case Some(slot) =>
         && SlotAt(s'.pool, k) == got
         && if SlotAt(s.pool, k).Some? then
              && slot == SlotAt(s.pool, k).value.(count := SlotAt(s.pool, k).value.count + 1)
              && s'.net.listeners == s.net.listeners
            else
              && slot.count == 1 && slot.bound == Endpoint(bindHost, f.port)
              && s.net.next <= slot.listener < s'.net.next
              && s'.net.listeners == s.net.listeners[slot.listener := k]
    }
  }

  /** A successful acquire raises its own slot by one and leaves every other
      slot alone; a new slot gets the caller's bind address, an old one keeps
      its own.  A failed acquire changes no slot at all. */
  lemma AcquireSlots(s: State, k: Key, bindHost: string, f: Foreign, now: real)
    requires Counted(s.pool)
    ensures var (s', got) := Acquire(s, k, bindHost, f, now);
            Acquired(s, s', k, bindHost, f, got)
  {
    match k
    case ForwardKey(sig, t) => AcquireForwardSlots(s, sig, t, bindHost, f, now);
    case SocksKey(sig) => AcquireSocksSlots(s, sig, bindHost, f, now);
  }

  lemma AcquireForwardSlots(s: State, sig: Sig, t: Target, bindHost: string, f: Foreign, now: real)
    ensures var (s', got) := AcquireForward(s, sig, t, bindHost, f, now);
            Acquired(s, s', ForwardKey(sig, t), bindHost, f, got)
  {
  }

  lemma AcquireSocksSlots(s: State, sig: Sig, bindHost: string, f: Foreign, now: real)
    requires Counted(s.pool)
    ensures var (s', got) := AcquireSocks(s, sig, bindHost, f, now);
            Acquired(s, s', SocksKey(sig), bindHost, f, got)
  {
  }

  /** Acquire succeeds exactly when every foreign call it needs succeeds. */
  lemma AcquireSucceedsIff(s: State, k: Key, bindHost: string, f: Foreign, now: real)
    ensures Acquire(s, k, bindHost, f, now).1.Some? <==>
            k.sig != [] && (k.sig in s.pool || f.hopsUp >= |k.sig|) && (SlotAt(s.pool, k).Some? || f.listenOk)
  {
  }

  lemma AcquiredListeners(s: State, s': State, k: Key, bindHost: string, f: Foreign, got: Option<Slot>)
    requires ListenersTracked(s.pool, s.net.listeners, s.net.next)
    requires Acquired(s, s', k, bindHost, f, got)
    ensures ListenersTracked(s'.pool, s'.net.listeners, s'.net.next)
  {
  }

  // The two states pool the same connections.
  ghost predicate SameConns(s: State, s': State) {
    && s'.pool.Keys == s.pool.Keys
    && (forall sig :: sig in s.pool ==> s'.pool[sig].conn == s.pool[sig].conn)
    && s'.net.conns == s.net.conns && s.net.next <= s'.net.next
  }

  // The state once an acquire has the connection it needs, or has failed to get it.
  function Connected(s: State, sig: Sig, f: Foreign, now: real): State {
    if sig == [] || sig in s.pool then s
    else if f.hopsUp < |sig| then s.(net := Open(s.net, sig, f.hopsUp))
    else Connect(s, sig, now)
  }

  lemma AcquireConns(s: State, k: Key, bindHost: string, f: Foreign, now: real)
    ensures SameConns(Connected(s, k.sig, f, now), Acquire(s, k, bindHost, f, now).0)
  {
    var s1, s' := Connected(s, k.sig, f, now), Acquire(s, k, bindHost, f, now).0;
    assert s'.pool.Keys == s1.pool.Keys;
  }

  lemma SameConnsTracked(s: State, s': State)
    requires ConnsTracked(s.pool, s.net.conns, s.net.next) && SameConns(s, s')
    ensures ConnsTracked(s'.pool, s'.net.conns, s'.net.next)
  {
    forall sig | sig in s'.pool ensures Standing(s'.pool[sig], sig, s'.net.conns) {
      assert Standing(s.pool[sig], sig, s.net.conns);
    }
  }

  // Hops opened anew disturb no pooled chain.
  lemma OpenStanding(s: State, sig: Sig, n: nat, g: Sig)
    requires ConnsTracked(s.pool, s.net.conns, s.net.next) && g in s.pool
    ensures Standing(s.pool[g], g, Open(s.net, sig, n).conns)
  {
    assert Standing(s.pool[g], g, s.net.conns) && Carries(s.pool[g], g, s.pool[g].conn);
  }

  lemma OpenTracked(s: State, sig: Sig, n: nat)
    requires ConnsTracked(s.pool, s.net.conns, s.net.next) && n < |sig|
    ensures ConnsTracked(s.pool, Open(s.net, sig, n).conns, Open(s.net, sig, n).next)
  {
    forall g | g in s.pool ensures Standing(s.pool[g], g, Open(s.net, sig, n).conns) { OpenStanding(s, sig, n, g); }
  }

  lemma ConnectTracked(s: State, sig: Sig, f: Foreign, now: real)
    requires ConnsTracked(s.pool, s.net.conns, s.net.next)
    ensures var s' := Connected(s, sig, f, now);
            ConnsTracked(s'.pool, s'.net.conns, s'.net.next)
  {
    var s' := Connected(s, sig, f, now);
    if sig != [] && sig !in s.pool {
      if f.hopsUp < |sig| {
        OpenTracked(s, sig, f.hopsUp);
      } else {
        forall g | g in s'.pool ensures Standing(s'.pool[g], g, s'.net.conns) {
          if g != sig { OpenStanding(s, sig, |sig|, g); }
        }
      }
    }
  }

  lemma AcquireSocksZero(s: State, k: Key, bindHost: string, f: Foreign, now: real)
    requires SocksZero(s.pool)
    ensures SocksZero(Acquire(s, k, bindHost, f, now).0.pool)
  {
  }

  lemma AcquireSound(s: State, k: Key, bindHost: string, f: Foreign, now: real)
    requires Sound(s)
    ensures Sound(Acquire(s, k, bindHost, f, now).0)
  {
    var (s', got) := Acquire(s, k, bindHost, f, now);
    AcquireSlots(s, k, bindHost, f, now);
    AcquiredListeners(s, s', k, bindHost, f, got);
    AcquireSocksZero(s, k, bindHost, f, now);
    AcquireConns(s, k, bindHost, f, now);
    ConnectTracked(s, k.sig, f, now);
    SameConnsTracked(Connected(s, k.sig, f, now), s');
  }

  // How a release on `k` may change the slots and the listeners.
  ghost predicate Released(s: State, s': State, k: Key) {
    && SameElsewhere(s.pool, s'.pool, k)
    && s'.net.next == s.net.next && s'.net.conns == s.net.conns
    && match SlotAt(s.pool, k) {
       case None => SlotAt(s'.pool, k) == None && s'.net.listeners == s.net.listeners
       case Some(slot) =>
         if slot.count == 1 then
           SlotAt(s'.pool, k) == None && s'.net.listeners == s.net.listeners - {slot.listener}
         else
           && SlotAt(s'.pool, k) == Some(slot.(count := slot.count - 1))
           && s'.net.listeners == s.net.listeners
    }
  }

  /** Release lowers its own slot by one, closing it at zero, and leaves every
      other slot alone; releasing a key that has no slot changes no slot. */
  lemma ReleaseSlots(s: State, k: Key, now: real)
    requires Counted(s.pool)
    ensures Released(s, Release(s, k, now), k)
  {
    match k
    case ForwardKey(sig, t) => ReleaseForwardSlots(s, sig, t, now);
    case SocksKey(sig) => ReleaseSocksSlots(s, sig, now);
  }

  lemma ReleaseForwardSlots(s: State, sig: Sig, t: Target, now: real)
    requires Counted(s.pool)
    ensures Released(s, ReleaseForward(s, sig, t, now), ForwardKey(sig, t))
  {
    assert SlotAt(s.pool, ForwardKey(sig, t)).Some? ==> SlotAt(s.pool, ForwardKey(sig, t)).value.count >= 1;
  }

  lemma ReleaseSocksSlots(s: State, sig: Sig, now: real)
    requires Counted(s.pool)
    ensures Released(s, ReleaseSocks(s, sig, now), SocksKey(sig))
  {
    assert SlotAt(s.pool, SocksKey(sig)).Some? ==> SlotAt(s.pool, SocksKey(sig)).value.count >= 1;
  }

  lemma ReleasedListeners(s: State, s': State, k: Key)
    requires ListenersTracked(s.pool, s.net.listeners, s.net.next)
    requires Released(s, s', k)
    ensures ListenersTracked(s'.pool, s'.net.listeners, s'.net.next)
  {
  }

  lemma ReleaseConns(s: State, k: Key, now: real)
    ensures SameConns(s, Release(s, k, now))
  {
    assert Release(s, k, now).pool.Keys == s.pool.Keys;
  }

  lemma ReleaseSocksZero(s: State, k: Key, now: real)
    requires SocksZero(s.pool)
    ensures SocksZero(Release(s, k, now).pool)
  {
  }

  lemma ReleaseSound(s: State, k: Key, now: real)
    requires Sound(s)
    ensures Sound(Release(s, k, now))
  {
    var s' := Release(s, k, now);
    ReleaseSlots(s, k, now);
    ReleasedListeners(s, s', k);
    ReleaseConns(s, k, now);
    SameConnsTracked(s, s');
    ReleaseSocksZero(s, k, now);
  }

  /** The reaper never touches a slot. */
  lemma GcSlots(s: State, now: real)
    ensures forall k: Key :: SlotAt(Gc(s, now).pool, k) == SlotAt(s.pool, k)
  {
  }

  lemma GcConns(s: State, now: real)
    requires ConnsTracked(s.pool, s.net.conns, s.net.next)
    ensures ConnsTracked(Gc(s, now).pool, Gc(s, now).net.conns, s.net.next)
    ensures forall c :: c in Gc(s, now).net.conns <==>
              c in s.net.conns && !(LastHop(s.net.conns[c]) && Reapable(s.pool[s.net.conns[c].sig], now))
    ensures forall c :: c in Gc(s, now).net.conns ==> Gc(s, now).net.conns[c] == s.net.conns[c]
  {
    var s' := Gc(s, now);
    forall sig | sig in s.pool
      ensures s.pool[sig].conn in s.net.conns && s.net.conns[s.pool[sig].conn] == Hop(sig, |sig| - 1)
    {
      assert Standing(s.pool[sig], sig, s.net.conns) && Carries(s.pool[sig], sig, s.pool[sig].conn);
    }
    forall sig | sig in s'.pool ensures Standing(s'.pool[sig], sig, s'.net.conns) {
      assert Standing(s.pool[sig], sig, s.net.conns);
    }
  }

  lemma GcTakes(s: State, now: real, sig: Sig)
    requires ConnsTracked(s.pool, s.net.conns, s.net.next) && sig in s.pool
    ensures sig !in Gc(s, now).pool <==> Reapable(s.pool[sig], now)
    ensures s.pool[sig].conn in Gc(s, now).net.conns <==> sig in Gc(s, now).pool
  {
    GcConns(s, now);
    assert Standing(s.pool[sig], sig, s.net.conns) && Carries(s.pool[sig], sig, s.pool[sig].conn);
  }

  lemma GcSound(s: State, now: real)
    requires Sound(s)
    ensures Sound(Gc(s, now))
  {
    GcSlots(s, now);
    GcConns(s, now);
  }

  // ---- which chains are pooled, and since when they have been idle ---------------

  /** An acquire pools its own chain if all hops connect, and touches it if that opens the
      chain or the acquire succeeds. */
  lemma AcquireActive(s: State, k: Key, bindHost: string, f: Foreign, now: real, sig: Sig)
    requires sig != []
    ensures var s' := Acquire(s, k, bindHost, f, now).0;
            && (sig in s'.pool <==> sig in s.pool || (k.sig == sig && f.hopsUp >= |sig|))
            && (sig in s'.pool ==>
                  s'.pool[sig].lastActive ==
                  if k.sig == sig && (sig !in s.pool || SlotAt(s.pool, k).Some? || f.listenOk) then now
                  else s.pool[sig].lastActive)
  {
  }

  /** A release pools and drops no chain, and touches its own only. */
  lemma ReleaseActive(s: State, k: Key, now: real, sig: Sig)
    requires SlotAt(s.pool, k).Some?
    ensures var s' := Release(s, k, now);
            && (sig in s'.pool <==> sig in s.pool)
            && (sig in s'.pool ==>
                  s'.pool[sig].lastActive == if k.sig == sig then now else s.pool[sig].lastActive)
  {
  }

  // ---- connections outside the pool ---------------------------------------------

  // Which connections a failed acquire leaves behind.
  predicate Dropped(s: State, sig: Sig, f: Foreign, c: nat) {
    sig !in s.pool && f.hopsUp < |sig| && s.net.next <= c < s.net.next + f.hopsUp
  }

  /** An acquire adds to the connections outside the pool exactly the hops it had opened
      before one refused. */
  lemma AcquireStrays(s: State, k: Key, bindHost: string, f: Foreign, now: real, c: nat)
    requires Sound(s)
    ensures Stray(Acquire(s, k, bindHost, f, now).0, c) <==> Stray(s, c) || Dropped(s, k.sig, f, c)
  {
    AcquireConns(s, k, bindHost, f, now);
    ConnectStrays(s, k.sig, f, now, c);
  }

  lemma ConnectStrays(s: State, sig: Sig, f: Foreign, now: real, c: nat)
    requires ConnsTracked(s.pool, s.net.conns, s.net.next)
    ensures Stray(Connected(s, sig, f, now), c) <==> Stray(s, c) || Dropped(s, sig, f, c)
  {
    forall g | g in s.pool ensures s.pool[g].conn < s.net.next {
      assert Standing(s.pool[g], g, s.net.conns) && Carries(s.pool[g], g, s.pool[g].conn);
    }
  }

  // An earlier hop of a chain that is up for reaping.
  predicate LeftByReaper(s: State, now: real, c: nat) {
    && c in s.net.conns && !LastHop(s.net.conns[c]) && s.net.conns[c].sig in s.pool
    && Carries(s.pool[s.net.conns[c].sig], s.net.conns[c].sig, c)
    && Reapable(s.pool[s.net.conns[c].sig], now)
  }

  /** The reaper adds exactly the earlier hops of the chains it takes: it closes the last
      one only. */
  lemma GcStrays(s: State, now: real, c: nat)
    requires Sound(s)
    ensures Stray(Gc(s, now), c) <==>
            Stray(s, c) || LeftByReaper(s, now, c)
  {
    GcConns(s, now);
  }

  lemma ReleaseStrays(s: State, k: Key, now: real, c: nat)
    ensures Stray(Release(s, k, now), c) <==> Stray(s, c)
  {
    ReleaseConns(s, k, now);
  }
}
