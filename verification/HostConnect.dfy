/**
 The life of one tunnel lease inside the connect page handler.  The handler is
 followed along all its exception paths; what it does to its lease is a short
 script, and the lemmas place that script in any run of the pool, interleaved
 with anything other tasks do.
 */
module HostConnect {
  import opened Prelude
  import opened TunnelPool
  import opened TunnelRuns

  // How a call the handler makes comes back: normally, with the exception the
  // handler names at that place, or with any other exception.
  datatype Call = Returns | Raises | Crashes

  datatype AcquireCall = GivesLease | GivesNone | AcquireRaises

  datatype Scenario = Scenario(
    jumped: bool,            // the host has a jump host
    rdGateway: bool,         // RDP target behind an RDP jump box
    nonSshHop: bool,
    isSsh: bool,
    acquire: AcquireCall,
    probe: Call,
    credential: Call,
    verify: Call,
    preflight: Call,
    build: Call,
    encode: Call,
    token: Call,
    settles: bool)           // false: the request is cancelled while its first release, or
                             // the registration, waits for the lock of the pool

  // What the handler does to its lease; a release that is cancelled has set the flag.
  datatype Action = CallRelease | StartRelease | HandOver

  datatype Raise = Nothing | BuildError | Other

  // The outcome of the handler: the page is rendered (with or without a session
  // frame), or an exception leaves the handler.
  datatype End = Page(framed: bool) | Escaped

  predicate TakesLease(o: Scenario) {
    o.jumped && !o.rdGateway && !o.nonSshHop && o.acquire.GivesLease?
  }

  // The lease's fate that each outcome must come with.
  predicate Settled(script: seq<Action>, end: End) {
    match end
    case Page(framed) =>
      if framed then script == [HandOver] else script == [CallRelease] || script == [CallRelease, CallRelease]
    case Escaped => script == [] || script == [StartRelease]
  }

  // The first of two calls that does not return decides.
  function Then(first: Call, rest: Call): Call {
    if first.Returns? then rest else first
  }

  // How the calls that the handler reaches turn out, taken together.
  function CallsAfterAcquire(o: Scenario): Call {
    Then(o.build, Then(o.encode, o.token))
  }

  function Verified(o: Scenario): Call {
    Then(o.probe, if o.isSsh then Then(o.credential, o.verify) else Returns)
  }

  /** The fate of the page, read off the scenario: it is framed if this returns, shows
      an error if it raises, and an exception leaves the handler if it crashes. */
  function Fate(o: Scenario): Call {
    if !o.jumped then Then(o.preflight, CallsAfterAcquire(o))
    else if o.rdGateway then CallsAfterAcquire(o)
    else if o.nonSshHop || o.acquire.AcquireRaises? then Raises
    else if o.acquire.GivesLease? then Then(Verified(o), CallsAfterAcquire(o))
    else CallsAfterAcquire(o)
  }

  // The target is probed, or its login tried, in vain.
  predicate TargetRefused(o: Scenario) {
    o.probe.Raises? || (o.probe.Returns? && o.isSsh && o.credential.Returns? && o.verify.Raises?)
  }

  // What the handler does to its lease.
  function ScriptOf(o: Scenario): seq<Action> {
    if !TakesLease(o) || Fate(o).Crashes? then []
    else if !o.settles then (if Fate(o).Returns? then [] else [StartRelease])
    else if Fate(o).Returns? then [HandOver]
    else if TargetRefused(o) then [CallRelease, CallRelease]
    else [CallRelease]
  }

  /** The handler's `try` block. */
  method Attempt(o: Scenario) returns (raised: Raise, script: seq<Action>, leased: bool, framed: bool)
    ensures leased == TakesLease(o)
    ensures script == if leased && TargetRefused(o) then [if o.settles then CallRelease else StartRelease] else []
    ensures framed <==> Fate(o).Returns?
    ensures raised.Other? <==> Fate(o).Crashes? || (leased && TargetRefused(o) && !o.settles)
  {
    raised, script, leased, framed := Nothing, [], false, false;
    if o.jumped {
      if o.rdGateway {
        if !o.build.Returns? { raised := AsBuild(o.build); return; }
      } else {
        if o.nonSshHop { raised := BuildError; return; }
        if o.acquire.AcquireRaises? { raised := BuildError; return; }
        leased := o.acquire.GivesLease?;
        if leased {
          match o.probe {
            case Returns =>
            case Raises =>
              if o.settles {
                script, raised := [CallRelease], BuildError;
              } else {
                script, raised := [StartRelease], Other;
              }
              return;
            case Crashes => raised := Other; return;
          }
          if o.isSsh {
            if !o.credential.Returns? { raised := AsBuild(o.credential); return; }
            match o.verify {
              case Returns =>
              case Raises =>
                if o.settles {
                  script, raised := [CallRelease], BuildError;
                } else {
                  script, raised := [StartRelease], Other;
                }
                return;
              case Crashes => raised := Other; return;
            }
          }
        }
        if !o.build.Returns? { raised := AsBuild(o.build); return; }
      }
    } else {
      if !o.preflight.Returns? { raised := AsBuild(o.preflight); return; }
      if !o.build.Returns? { raised := AsBuild(o.build); return; }
    }
    if !o.encode.Returns? { raised := AsBuild(o.encode); return; }
    match o.token {
      case Returns => framed := true;
      case Raises =>
      case Crashes => raised := Other;
    }
  }

  function AsBuild(c: Call): Raise {
    match c
    case Returns => Nothing
    case Raises => BuildError
    case Crashes => Other
  }

  /** `host_connect`: an exception leaves the handler exactly when the first call that
      does not return is one whose exception is not expected there, or the request is
      cancelled while its lease waits to be settled; on every other path a page without
      frame has released it, once or twice, and one with a frame has handed it over
      unreleased. */
  method Connect(o: Scenario) returns (end: End, script: seq<Action>)
    ensures end.Escaped? <==> Fate(o).Crashes? || (TakesLease(o) && !o.settles)
    ensures end.Page? ==> (end.framed <==> Fate(o).Returns?)
    ensures script == ScriptOf(o)
    ensures TakesLease(o) ==> Settled(script, end)
  {
    var raised, tried, leased, framed := Attempt(o);
    script := tried;
    if raised.Other? { return Escaped, script; }
    if !framed && leased {
      // After a release that went through the second finds the flag set.
      if !o.settles { return Escaped, [StartRelease]; }
      script := script + [CallRelease];
    } else if framed && leased {
      if !o.settles { return Escaped, []; }
      script := script + [HandOver];
    }
    end := Page(framed);
  }

  // ---- the script inside a run ------------------------------------------------

  // The pool events of a script, for lease `l` and session id `sid`.
  function Events(script: seq<Action>, l: nat, sid: string, ttl: real): seq<Event> {
    if script == [] then []
    else (match script[0]
          case CallRelease => [BeginRelease(l), RunRelease(l)]
          case StartRelease => [BeginRelease(l)]
          case HandOver => [Register(l, sid, ttl)])
         + Events(script[1..], l, sid, ttl)
  }

  predicate Concerns(e: Event, l: nat) {
    match e
    case BeginRelease(m) => m == l
    case RunRelease(m) => m == l
    case Register(m, _, _) => m == l
    case _ => false
  }

  // The events of a run that concern `l`, in order.
  function Own(es: seq<Event>, l: nat): seq<Event> {
    if es == [] then []
    else Own(es[..|es| - 1], l) + if Concerns(es[|es| - 1], l) then [es[|es| - 1]] else []
  }

  function PhaseStep(p: Phase, e: Event): Phase {
    match e
    case BeginRelease(_) => if p.Held? then Releasing else p
    case RunRelease(_) => if p.Releasing? then Done else p
    case _ => p
  }

  // The phase of a lease after its own events, taken alone.
  function PhaseAfter(p: Phase, own: seq<Event>): Phase {
    if own == [] then p else PhaseStep(PhaseAfter(p, own[..|own| - 1]), own[|own| - 1])
  }

  // No session has ever been given lease `l`.
  ghost predicate Unregistered(w: World, l: nat) {
    && (forall sid :: sid in w.issued ==> w.issued[sid].lease != l)
    && (forall sid :: sid in w.sessions ==> w.sessions[sid] != l)
  }

  ghost predicate NoRegister(es: seq<Event>, l: nat) {
    forall i :: 0 <= i < |es| && es[i].Register? ==> es[i].lease != l
  }

  lemma FrontPhase(w: World, e: Event, got: Option<Lease>, l: nat)
    requires l < |w.leases| && Unregistered(w, l)
    ensures var w' := FrontStep(w, e, got);
            && l < |w'.leases|
            && w'.leases[l].phase == (if Concerns(e, l) then PhaseStep(w.leases[l].phase, e) else w.leases[l].phase)
            && (!(e.Register? && e.lease == l) ==> Unregistered(w', l))
  {
  }

  lemma StepPhase(w: World, e: Event, l: nat)
    requires l < |w.leases| && Unregistered(w, l)
    ensures l < |Step(w, e).leases|
    ensures Step(w, e).leases[l].phase ==
            if Concerns(e, l) then PhaseStep(w.leases[l].phase, e) else w.leases[l].phase
    ensures !(e.Register? && e.lease == l) ==> Unregistered(Step(w, e), l)
  {
    FrontPhase(w, e, Got(w, e), l);
  }

  /** In any run, the phase of a lease that no session refers to depends on its own
      events only. */
  lemma {:induction false} PhaseIsLocal(w: World, es: seq<Event>, l: nat)
    requires l < |w.leases| && Unregistered(w, l) && NoRegister(es, l)
    ensures l < |Exec(w, es).leases| && Unregistered(Exec(w, es), l)
    ensures Exec(w, es).leases[l].phase == PhaseAfter(w.leases[l].phase, Own(es, l))
  {
    if es != [] {
      var init, e := es[..|es| - 1], es[|es| - 1];
      assert forall i :: 0 <= i < |init| ==> init[i] == es[i];
      PhaseIsLocal(w, init, l);
      StepPhase(Exec(w, init), e, l);
      if Concerns(e, l) {
        assert Own(es, l) == Own(init, l) + [e];
        assert (Own(init, l) + [e])[..|Own(init, l)|] == Own(init, l);
      } else {
        assert Own(es, l) == Own(init, l);
      }
    }
  }

  lemma {:induction false} OwnHasAll(es: seq<Event>, l: nat, e: Event)
    requires Concerns(e, l) && e in es
    ensures e in Own(es, l)
  {
    if es[|es| - 1] != e {
      OwnHasAll(es[..|es| - 1], l, e);
    }
  }

  lemma ReleasedScript(script: seq<Action>, l: nat, sid: string, ttl: real)
    requires script == [CallRelease] || script == [CallRelease, CallRelease]
    ensures PhaseAfter(Held, Events(script, l, sid, ttl)) == Done
    ensures forall i :: 0 <= i < |Events(script, l, sid, ttl)| ==> !Events(script, l, sid, ttl)[i].Register?
  {
    var b, r := BeginRelease(l), RunRelease(l);
    assert Events([CallRelease], l, sid, ttl) == [b, r];
    assert PhaseAfter(Held, [b]) == Releasing by { assert [b][..0] == []; }
    assert PhaseAfter(Held, [b, r]) == Done by { assert [b, r][..1] == [b]; }
    if script == [CallRelease, CallRelease] {
      assert script[1..] == [CallRelease];
      assert Events(script, l, sid, ttl) == [b, r, b, r];
      assert PhaseAfter(Held, [b, r, b]) == Done by { assert [b, r, b][..2] == [b, r]; }
      assert PhaseAfter(Held, [b, r, b, r]) == Done by { assert [b, r, b, r][..3] == [b, r, b]; }
    }
  }

  lemma OwnNoRegister(es: seq<Event>, l: nat)
    requires forall i :: 0 <= i < |Own(es, l)| ==> !Own(es, l)[i].Register?
    ensures NoRegister(es, l)
  {
    forall i | 0 <= i < |es| && es[i].Register? ensures es[i].lease != l {
      if es[i].lease == l { OwnHasAll(es, l, es[i]); }
    }
  }

  // The handler has just been given lease `l`.
  ghost predicate Granted(w: World, l: nat) {
    l < |w.leases| && w.leases[l].phase.Held? && Unregistered(w, l)
  }

  /** A page without a session frame: however the rest of the program interleaves,
      the lease has been decremented exactly once and no session refers to it. */
  lemma FramelessPageReleasesLease(es: seq<Event>, more: seq<Event>, l: nat, sid: string, ttl: real,
                                   script: seq<Action>)
    requires Granted(Exec(START, es), l)
    requires Settled(script, Page(false)) && Own(more, l) == Events(script, l, sid, ttl)
    ensures var w' := Exec(START, es + more);
            && l < |w'.leases| && w'.leases[l].phase.Done?
            && Decrements(START, es + more, l) == 1
            && Unregistered(w', l)
  {
    ExecConcat(es, more);
    RunInvariant(es);
    ReleasedScript(script, l, sid, ttl);
    OwnNoRegister(more, l);
    PhaseIsLocal(Exec(START, es), more, l);
    DecrementedOnce(es + more, l);
  }

  predicate MayIssue(w: World, l: nat, sid: string) {
    l < |w.leases| && (sid in w.issued ==> w.issued[sid].lease == l)
  }

  lemma FrontIssues(w: World, e: Event, got: Option<Lease>, l: nat, sid: string)
    requires MayIssue(w, l, sid) && (e.Register? && e.sid == sid ==> e.lease == l)
    ensures MayIssue(FrontStep(w, e, got), l, sid)
    ensures sid in w.issued || (e.Register? && e.sid == sid) ==> sid in FrontStep(w, e, got).issued
  {
  }

  lemma StepIssues(w: World, e: Event, l: nat, sid: string)
    requires MayIssue(w, l, sid) && (e.Register? && e.sid == sid ==> e.lease == l)
    ensures MayIssue(Step(w, e), l, sid)
    ensures sid in w.issued || (e.Register? && e.sid == sid) ==> sid in Step(w, e).issued
  {
    FrontIssues(w, e, Got(w, e), l, sid);
  }

  // A session id that is free until then is given out for the lease it is drawn for.
  lemma {:induction false} RegisterIssues(w: World, es: seq<Event>, l: nat, sid: string, ttl: real)
    requires MayIssue(w, l, sid) && DrawnFor(es, l, sid)
    ensures MayIssue(Exec(w, es), l, sid)
    ensures Register(l, sid, ttl) in es ==> sid in Exec(w, es).issued
  {
    if es != [] {
      var init, e := es[..|es| - 1], es[|es| - 1];
      assert es == init + [e] && forall i :: 0 <= i < |init| ==> init[i] == es[i];
      RegisterIssues(w, init, l, sid, ttl);
      StepIssues(Exec(w, init), e, l, sid);
    }
  }

  ghost predicate DrawnFor(es: seq<Event>, l: nat, sid: string) {
    forall i :: 0 <= i < |es| && es[i].Register? && es[i].sid == sid ==> es[i].lease == l
  }

  lemma {:induction false} OwnWithin(es: seq<Event>, l: nat, e: Event)
    requires e in Own(es, l)
    ensures e in es
  {
    if e in Own(es[..|es| - 1], l) {
      OwnWithin(es[..|es| - 1], l, e);
    }
  }

  // The lease is not released, or only by flag, and no session refers to it.
  ghost predicate Lost(w: World, l: nat) {
    l < |w.leases| && !w.leases[l].phase.Done? && Unregistered(w, l)
  }

  /** Exactly when a lease is lost: when the handler has done its part, and no other task
      has touched the lease, its decrement has not run and no session refers to it if
      and only if the first call that did not return was one whose exception is not
      expected there, or the request was cancelled while the lease waited to be settled;
      and then its listener stays open. */
  lemma LeaseLostExactly(o: Scenario, es: seq<Event>, more: seq<Event>, l: nat, sid: string, ttl: real)
    requires TakesLease(o) && Granted(Exec(START, es), l)
    requires sid !in Exec(START, es).issued && DrawnFor(more, l, sid)
    requires Own(more, l) == Events(ScriptOf(o), l, sid, ttl)
    ensures Lost(Exec(START, es + more), l) <==> Fate(o).Crashes? || !o.settles
    ensures Lost(Exec(START, es + more), l) ==>
              Exec(START, es + more).leases[l].listener in Exec(START, es + more).state.net.listeners
  {
    ScriptTells(o);
    if ScriptOf(o) == [] {
      EscapedLeaseIsNeverClosed(es, more, l);
    } else if ScriptOf(o) == [StartRelease] {
      StartedReleaseIsLost(es, more, l, sid, ttl);
    } else if ScriptOf(o) == [HandOver] {
      HandedOverIsKnown(es, more, l, sid, ttl);
    } else {
      FramelessPageReleasesLease(es, more, l, sid, ttl, ScriptOf(o));
    }
  }

  lemma ScriptTells(o: Scenario)
    requires TakesLease(o)
    ensures Fate(o).Crashes? || !o.settles <==> ScriptOf(o) == [] || ScriptOf(o) == [StartRelease]
    ensures ScriptOf(o) in {[], [StartRelease], [HandOver], [CallRelease], [CallRelease, CallRelease]}
  {
  }

  // A lease that was handed over is known to a session.
  lemma HandedOverIsKnown(es: seq<Event>, more: seq<Event>, l: nat, sid: string, ttl: real)
    requires l < |Exec(START, es).leases| && sid !in Exec(START, es).issued && DrawnFor(more, l, sid)
    requires Own(more, l) == Events([HandOver], l, sid, ttl)
    ensures !Lost(Exec(START, es + more), l)
  {
    assert Own(more, l)[0] == Register(l, sid, ttl);
    OwnWithin(more, l, Register(l, sid, ttl));
    ExecConcat(es, more);
    RegisterIssues(Exec(START, es), more, l, sid, ttl);
  }

  // A release that is cancelled before its decrement leaves the listener open for good.
  lemma StartedReleaseIsLost(es: seq<Event>, more: seq<Event>, l: nat, sid: string, ttl: real)
    requires Granted(Exec(START, es), l) && Own(more, l) == Events([StartRelease], l, sid, ttl)
    ensures Lost(Exec(START, es + more), l)
    ensures Exec(START, es + more).leases[l].listener in Exec(START, es + more).state.net.listeners
  {
    StartedScript(l, sid, ttl);
    ExecConcat(es, more);
    OwnNoRegister(more, l);
    PhaseIsLocal(Exec(START, es), more, l);
    LeaseStaysOpen(es + more, l);
  }

  lemma StartedScript(l: nat, sid: string, ttl: real)
    ensures Events([StartRelease], l, sid, ttl) == [BeginRelease(l)] && PhaseAfter(Held, [BeginRelease(l)]) == Releasing
  {
    assert [StartRelease][1..] == [] && [BeginRelease(l)][..0] == [];
  }

  /** No run without a release of it ever closes the listener of such a lease. */
  lemma EscapedLeaseIsNeverClosed(es: seq<Event>, more: seq<Event>, l: nat)
    requires Granted(Exec(START, es), l) && Own(more, l) == []
    ensures Granted(Exec(START, es + more), l)
    ensures Exec(START, es + more).leases[l].listener in Exec(START, es + more).state.net.listeners
  {
    ExecConcat(es, more);
    RunInvariant(es);
    OwnNoRegister(more, l);
    PhaseIsLocal(Exec(START, es), more, l);
    LeaseStaysOpen(es + more, l);
  }

  // A jumped SSH host whose probe works and whose secret backend then refuses its token,
  // which the credential lookup does not expect.
  const SECRETS_REFUSED := Scenario(
    true, false, false, true, GivesLease, Returns, Crashes, Returns, Returns, Returns, Returns, Returns, true)

  /** An input that loses its lease. */
  lemma RefusedSecretsLoseLease(es: seq<Event>, more: seq<Event>, l: nat)
    requires Granted(Exec(START, es), l)
    requires Own(more, l) == Events(ScriptOf(SECRETS_REFUSED), l, "", 0.0)
    ensures TakesLease(SECRETS_REFUSED) && Fate(SECRETS_REFUSED).Crashes?
    ensures Granted(Exec(START, es + more), l)
    ensures Exec(START, es + more).leases[l].listener in Exec(START, es + more).state.net.listeners
  {
    EscapedLeaseIsNeverClosed(es, more, l);
  }

  // ---- after the hand-over ---------------------------------------------------------

  // Lease `l` is held, and `sid` is the one session that has it.
  ghost predicate HandedOver(w: World, l: nat, sid: string) {
    && l < |w.leases| && w.leases[l].phase.Held?
    && sid in w.sessions && w.sessions[sid] == l
    && sid in w.issued
    && (forall s :: s in w.issued && s != sid ==> w.issued[s].lease != l)
    && (forall s :: s in w.sessions && s != sid ==> w.sessions[s] != l)
  }

  lemma {:induction false} StaysHandedOver(w: World, es: seq<Event>, l: nat, sid: string)
    requires HandedOver(w, l, sid) && Own(es, l) == []
    requires forall i :: 0 <= i < |es| && es[i].Pop? ==> es[i].sid != sid
    ensures HandedOver(Exec(w, es), l, sid)
    ensures Exec(w, es).issued[sid] == w.issued[sid]
  {
    if es != [] {
      var init, e := es[..|es| - 1], es[|es| - 1];
      assert forall i :: 0 <= i < |init| ==> init[i] == es[i];
      StaysHandedOver(w, init, l, sid);
      StepStaysHandedOver(Exec(w, init), e, l, sid);
    }
  }

  lemma FrontStaysHandedOver(w: World, e: Event, got: Option<Lease>, l: nat, sid: string)
    requires HandedOver(w, l, sid) && !Concerns(e, l) && (e.Pop? ==> e.sid != sid)
    ensures var w' := FrontStep(w, e, got); HandedOver(w', l, sid) && w'.issued[sid] == w.issued[sid]
  {
  }

  lemma StepStaysHandedOver(w: World, e: Event, l: nat, sid: string)
    requires HandedOver(w, l, sid) && !Concerns(e, l) && (e.Pop? ==> e.sid != sid)
    ensures HandedOver(Step(w, e), l, sid) && Step(w, e).issued[sid] == w.issued[sid]
  {
    FrontStaysHandedOver(w, e, Got(w, e), l, sid);
  }

  /** A page with a session frame: the lease is still held, its session id is in
      the registry, and so its listener is open, until someone takes it. */
  lemma FramedPageHandsLeaseOver(es: seq<Event>, before: seq<Event>, after: seq<Event>, l: nat, sid: string, ttl: real)
    requires Granted(Exec(START, es), l) && sid !in Exec(START, es + before).issued
    requires Own(before, l) == [] && Own(after, l) == []
    requires forall i :: 0 <= i < |after| && after[i].Pop? ==> after[i].sid != sid
    ensures var w' := Exec(START, es + before + [Register(l, sid, ttl)] + after);
            && HandedOver(w', l, sid)
            && w'.issued[sid] == Ticket(l, Exec(START, es + before).clock + ttl)
            && w'.leases[l].listener in w'.state.net.listeners
  {
    var run := es + before + [Register(l, sid, ttl)];
    EscapedLeaseIsNeverClosed(es, before, l);
    ExecSnoc(START, es + before, Register(l, sid, ttl));
    RegisterHandsOver(Exec(START, es + before), l, sid, ttl);
    ExecConcat(run, after);
    StaysHandedOver(Exec(START, run), after, l, sid);
    LeaseStaysOpen(run + after, l);
  }

  lemma RegisterHandsOver(w: World, l: nat, sid: string, ttl: real)
    requires Granted(w, l) && sid !in w.issued
    ensures var w' := Step(w, Register(l, sid, ttl));
            HandedOver(w', l, sid) && w'.issued[sid] == Ticket(l, w.clock + ttl)
  {
  }

  // A lease that is being released is done once its decrement has run, and not before.
  lemma {:induction false} ReleasingEnds(w: World, es: seq<Event>, l: nat)
    requires l < |w.leases| && w.leases[l].phase.Releasing?
    ensures l < |Exec(w, es).leases|
    ensures Exec(w, es).leases[l].phase == if RunRelease(l) in es then Done else Releasing
  {
    if es != [] {
      var init, e := es[..|es| - 1], es[|es| - 1];
      assert es == init + [e];
      ReleasingEnds(w, init, l);
      FrontEnds(Exec(w, init), e, Got(Exec(w, init), e), l);
    }
  }

  // A lease that is not held moves on by its own decrement only.
  lemma FrontEnds(w: World, e: Event, got: Option<Lease>, l: nat)
    requires l < |w.leases| && !w.leases[l].phase.Held?
    ensures var w' := FrontStep(w, e, got);
            l < |w'.leases| && w'.leases[l].phase == if e == RunRelease(l) then Done else w.leases[l].phase
  {
  }

  // The first arrival that may take a session takes it and sets the flag of its lease.
  lemma PopTakes(w: World, l: nat, sid: string, who: Popper)
    requires Registered(w) && HandedOver(w, l, sid)
    requires who.Backstop? ==> w.issued[sid].deadline <= w.clock
    ensures var w' := Step(w, Pop(sid, who));
            && sid !in w'.sessions && sid in w'.pops && w'.pops[sid] == who
            && l < |w'.leases| && w'.leases[l].phase.Releasing?
  {
  }

  /** After the hand-over exactly one of the beacon and the backstop releases the lease:
      the first of them to arrive takes it and starts its release; whatever follows,
      later arrivals of either and further release calls included, the taker stays the
      same, the lease is done once the taker's decrement has run, and that is the only
      decrement it ever gets. */
  lemma BeaconOrBackstop(es: seq<Event>, before: seq<Event>, after: seq<Event>, l: nat, sid: string, ttl: real,
                         who: Popper, rest: seq<Event>)
    requires Granted(Exec(START, es), l) && sid !in Exec(START, es + before).issued
    requires Own(before, l) == [] && Own(after, l) == []
    requires forall i :: 0 <= i < |after| && after[i].Pop? ==> after[i].sid != sid
    requires who.Backstop? ==>
               Exec(START, es + before).clock + ttl <= Exec(START, es + before + [Register(l, sid, ttl)] + after).clock
    ensures var run := es + before + [Register(l, sid, ttl)] + after + [Pop(sid, who)] + rest;
            var w' := Exec(START, run);
            && sid in w'.pops && w'.pops[sid] == who && sid !in w'.sessions
            && l < |w'.leases| && w'.leases[l].phase == (if RunRelease(l) in rest then Done else Releasing)
            && Decrements(START, run, l) == (if RunRelease(l) in rest then 1 else 0)
  {
    var handed := es + before + [Register(l, sid, ttl)] + after;
    var taken := handed + [Pop(sid, who)];
    FramedPageHandsLeaseOver(es, before, after, l, sid, ttl);
    RunInvariant(handed);
    PopTakes(Exec(START, handed), l, sid, who);
    ExecSnoc(START, handed, Pop(sid, who));
    TakenReleasedOnce(taken, rest, l, sid);
  }

  lemma TakenReleasedOnce(taken: seq<Event>, rest: seq<Event>, l: nat, sid: string)
    requires var w := Exec(START, taken); sid in w.pops && l < |w.leases| && w.leases[l].phase.Releasing?
    ensures var w, w' := Exec(START, taken), Exec(START, taken + rest);
            && sid in w'.pops && w'.pops[sid] == w.pops[sid] && sid !in w'.sessions
            && l < |w'.leases| && w'.leases[l].phase == (if RunRelease(l) in rest then Done else Releasing)
            && Decrements(START, taken + rest, l) == (if RunRelease(l) in rest then 1 else 0)
  {
    RunInvariant(taken);
    SessionTakenForGood(taken, rest, sid);
    RunInvariant(taken + rest);
    ExecConcat(taken, rest);
    ReleasingEnds(Exec(START, taken), rest, l);
    DecrementedOnce(taken + rest, l);
  }

  lemma {:induction false} ExecConcat(es: seq<Event>, more: seq<Event>)
    ensures Exec(START, es + more) == Exec(Exec(START, es), more)
  {
    if more == [] {
      assert es + more == es;
    } else {
      var init, e := more[..|more| - 1], more[|more| - 1];
      assert es + more == es + init + [e];
      ExecConcat(es, init);
      ExecSnoc(START, es + init, e);
    }
  }
}
