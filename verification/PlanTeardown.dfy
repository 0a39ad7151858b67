/**
 Rejection as the program commits it: the handler stages the row, and the session
 writes it when it closes, after any number of other requests. Approvals commit before
 they give way; a request that raises a tier flushes, which takes the write lock, and
 commits when its session closes, and is one step here.
 */
module PlanTeardown {
  import opened Prelude
  import opened PlanCards
  import opened PlanRuns

  datatype Staged = Staged(user: nat, cid: nat, card: nat)

  datatype World = World(s: State, staged: map<nat, Staged>)

  datatype Event =
    | Stage(request: nat, user: nat, cid: nat, card: nat)
    | Commit(request: nat)
    | Section(event: PlanCards.Event)

  predicate MayReject(setup: Setup, s: State, user: nat, cid: nat, id: nat) {
    Owns(setup, s, user, cid, id) && s.cards[id].status == Pending
  }

  function WriteReject(s: State, user: nat, id: nat): State
    requires id in s.cards
  {
    s.(cards := s.cards[id := s.cards[id].(status := Rejected, approver := Some(user))],
       log := s.log + [RejectRow(id, user)])
  }

  function Step(setup: Setup, w: World, e: Event): World {
    match e
    case Stage(r, user, cid, id) =>
      if r !in w.staged && MayReject(setup, w.s, user, cid, id)
      then w.(staged := w.staged[r := Staged(user, cid, id)]) else w
    case Commit(r) =>
      if r in w.staged && w.staged[r].card in w.s.cards
      then World(WriteReject(w.s, w.staged[r].user, w.staged[r].card), w.staged - {r}) else w
    case Section(e) => if e.RejectCard? then w else w.(s := PlanCards.Step(setup, w.s, e))
  }

  function Exec(setup: Setup, s: State, es: seq<Event>): World {
    if es == [] then World(s, map[]) else Step(setup, Exec(setup, s, es[..|es| - 1]), es[|es| - 1])
  }

  // ---- prompt commits -----------------------------------------------------------------

  // A commit finds its card still pending.
  predicate PromptStep(w: World, e: Event) {
    e.Commit? && e.request in w.staged && w.staged[e.request].card in w.s.cards ==>
      w.s.cards[w.staged[e.request].card].status == Pending
  }

  ghost predicate Prompt(setup: Setup, s: State, es: seq<Event>) {
    es == [] || (Prompt(setup, s, es[..|es| - 1]) && PromptStep(Exec(setup, s, es[..|es| - 1]), es[|es| - 1]))
  }

  // What a step amounts to in the protocol with one-step rejections.
  function AtomicOf(w: World, e: Event): seq<PlanCards.Event> {
    match e
    case Stage(_, _, _, _) => []
    case Commit(r) =>
      if r in w.staged && w.staged[r].card in w.s.cards
      then [RejectCard(w.staged[r].user, w.staged[r].cid, w.staged[r].card)] else []
    case Section(e) => if e.RejectCard? then [] else [e]
  }

  // The same run with each rejection in one step, where it commits.
  function Atomic(setup: Setup, s: State, es: seq<Event>): seq<PlanCards.Event> {
    if es == [] then []
    else Atomic(setup, s, es[..|es| - 1]) + AtomicOf(Exec(setup, s, es[..|es| - 1]), es[|es| - 1])
  }

  // A staged card is its owner's, and if it is rejected by now the log says so.
  ghost predicate StagedOk(setup: Setup, w: World) {
    forall r :: r in w.staged ==>
      var g := w.staged[r];
      Owns(setup, w.s, g.user, g.cid, g.card)
          && (w.s.cards[g.card].status == Rejected ==> RejectedInLog(w.s.log, g.card))
  }

  ghost predicate RejectedInLog(log: seq<Effect>, c: nat) {
    exists k :: 0 <= k < |log| && log[k].RejectRow? && log[k].card == c
  }

  lemma RejectedLater(log: seq<Effect>, more: seq<Effect>, c: nat)
    requires RejectedInLog(log, c)
    ensures RejectedInLog(log + more, c)
  {
    var k :| 0 <= k < |log| && log[k].RejectRow? && log[k].card == c;
    assert (log + more)[k] == log[k];
  }

  // No section but a rejection makes a card rejected; cards stay where they are, and
  // the log grows.
  lemma {:induction false} TakeAllFrames(setup: Setup, b: Batch, user: nat, ids: seq<nat>, c: nat)
    requires c in b.cards
    ensures var b' := TakeAll(setup, b, user, ids);
            && c in b'.cards && b'.cards[c].conv == b.cards[c].conv
            && (b'.cards[c].status == Rejected ==> b.cards[c].status == Rejected)
            && b.log <= b'.log
    decreases |ids|
  {
    if ids != [] { TakeAllFrames(setup, b, user, ids[..|ids| - 1], c); }
  }

  lemma OtherFrames(setup: Setup, s: State, e: PlanCards.Event, c: nat)
    requires Inv(setup, s) && c in s.cards && !e.RejectCard?
    ensures var s' := PlanCards.Step(setup, s, e);
            && c in s'.cards && s'.cards[c].conv == s.cards[c].conv
            && (s'.cards[c].status == Rejected ==> s.cards[c].status == Rejected)
            && s.log <= s'.log
  {
    assert CardOk(setup, s, c);
    match e
    case ApproveMessage(user, cid, message) =>
      TakeAllFrames(setup, Batch(s.cards, s.log, []), user, Group(s.cards, cid, message, s.next), c);
    case _ =>
  }

  lemma OtherKeepsStaged(setup: Setup, w: World, e: PlanCards.Event)
    requires Inv(setup, w.s) && StagedOk(setup, w) && !e.RejectCard?
    ensures StagedOk(setup, w.(s := PlanCards.Step(setup, w.s, e)))
  {
    var s' := PlanCards.Step(setup, w.s, e);
    forall r | r in w.staged
      ensures var g := w.staged[r];
              Owns(setup, s', g.user, g.cid, g.card)
                  && (s'.cards[g.card].status == Rejected ==> RejectedInLog(s'.log, g.card))
    {
      var c := w.staged[r].card;
      OtherFrames(setup, w.s, e, c);
      if s'.cards[c].status == Rejected {
        RejectedLater(w.s.log, s'.log[|w.s.log|..], c);
        assert w.s.log + s'.log[|w.s.log|..] == s'.log;
      }
    }
  }

  lemma CommitKeepsStaged(setup: Setup, w: World, r: nat)
    requires StagedOk(setup, w) && r in w.staged
    ensures StagedOk(setup, World(WriteReject(w.s, w.staged[r].user, w.staged[r].card), w.staged - {r}))
  {
    var c := w.staged[r].card;
    var row := RejectRow(c, w.staged[r].user);
    var s' := WriteReject(w.s, w.staged[r].user, c);
    assert s'.log[|w.s.log|] == row;
    forall q | q in w.staged && q != r
      ensures var g := w.staged[q];
              Owns(setup, s', g.user, g.cid, g.card)
                  && (s'.cards[g.card].status == Rejected ==> RejectedInLog(s'.log, g.card))
    {
      var d := w.staged[q].card;
      if d != c && w.s.cards[d].status == Rejected { RejectedLater(w.s.log, [row], d); }
    }
  }

  /** A run in which every commit finds its card pending is a run of the protocol with
      one-step rejections, so everything proved of those holds of it. */
  lemma {:induction false} PromptIsAtomic(setup: Setup, s: State, es: seq<Event>)
    requires RoundTrips(setup) && Fresh(setup, s) && Prompt(setup, s, es)
    ensures Exec(setup, s, es).s == PlanCards.Exec(setup, s, Atomic(setup, s, es))
    ensures Inv(setup, Exec(setup, s, es).s) && StagedOk(setup, Exec(setup, s, es))
  {
    if es == [] {
      RunInvariant(setup, s, []);
    } else {
      var init, e := es[..|es| - 1], es[|es| - 1];
      PromptIsAtomic(setup, s, init);
      AtomicStep(setup, s, es);
      RunInvariant(setup, s, Atomic(setup, s, es));
      StepKeepsStaged(setup, Exec(setup, s, init), e);
    }
  }

  lemma StepKeepsStaged(setup: Setup, w: World, e: Event)
    requires Inv(setup, w.s) && StagedOk(setup, w)
    ensures StagedOk(setup, Step(setup, w, e))
  {
    match e
    case Stage(_, _, _, _) =>
    case Commit(r) => if r in w.staged { CommitKeepsStaged(setup, w, r); }
    case Section(e) => if !e.RejectCard? { OtherKeepsStaged(setup, w, e); }
  }

  lemma AtomicStep(setup: Setup, s: State, es: seq<Event>)
    requires es != [] && PromptStep(Exec(setup, s, es[..|es| - 1]), es[|es| - 1])
    requires StagedOk(setup, Exec(setup, s, es[..|es| - 1]))
    requires Exec(setup, s, es[..|es| - 1]).s == PlanCards.Exec(setup, s, Atomic(setup, s, es[..|es| - 1]))
    ensures Exec(setup, s, es).s == PlanCards.Exec(setup, s, Atomic(setup, s, es))
  {
    var w, e, done := Exec(setup, s, es[..|es| - 1]), es[|es| - 1], Atomic(setup, s, es[..|es| - 1]);
    StepIsAtomic(setup, w, e);
    if AtomicOf(w, e) == [] {
      assert done + [] == done;
    } else {
      ExecMore(setup, s, done, AtomicOf(w, e)[0]);
      assert AtomicOf(w, e) == [AtomicOf(w, e)[0]];
    }
  }

  lemma StepIsAtomic(setup: Setup, w: World, e: Event)
    requires PromptStep(w, e) && StagedOk(setup, w)
    ensures |AtomicOf(w, e)| <= 1
    ensures Step(setup, w, e).s == if AtomicOf(w, e) == [] then w.s else PlanCards.Step(setup, w.s, AtomicOf(w, e)[0])
  {
  }

  lemma ExecMore(setup: Setup, s: State, es: seq<PlanCards.Event>, e: PlanCards.Event)
    ensures PlanCards.Exec(setup, s, es + [e]) == PlanCards.Step(setup, PlanCards.Exec(setup, s, es), e)
  {
    assert (es + [e])[..|es|] == es;
  }

  // ---- late commits ---------------------------------------------------------------------

  // What the protocol promises of one step: statuses move only the allowed ways, and no
  // card is decided or run twice.
  ghost predicate Legal(before: State, after: State) {
    && Once(after.log)
    && forall c :: c in before.cards ==> c in after.cards && Moves(before.cards[c].status, after.cards[c].status)
  }

  ghost predicate LegalRun(setup: Setup, s: State, es: seq<Event>) {
    es == [] || (LegalRun(setup, s, es[..|es| - 1]) && Legal(Exec(setup, s, es[..|es| - 1]).s, Exec(setup, s, es).s))
  }

  // A commit that comes too late decides a card twice or moves it where it may not go.
  lemma LateIsIllegal(setup: Setup, w: World, r: nat)
    requires StagedOk(setup, w) && !PromptStep(w, Commit(r))
    ensures !Legal(w.s, Step(setup, w, Commit(r)).s)
  {
    var g := w.staged[r];
    var s' := WriteReject(w.s, g.user, g.card);
    if w.s.cards[g.card].status == Rejected {
      var k :| 0 <= k < |w.s.log| && w.s.log[k].RejectRow? && w.s.log[k].card == g.card;
      assert s'.log[k] == w.s.log[k] && s'.log[|w.s.log|] == RejectRow(g.card, g.user);
      assert IsDecision(s'.log[k]) && IsDecision(s'.log[|w.s.log|]);
    } else {
      assert !Moves(w.s.cards[g.card].status, s'.cards[g.card].status);
    }
  }

  lemma PromptStepIsLegal(setup: Setup, w: World, e: Event)
    requires RoundTrips(setup) && Inv(setup, w.s) && StagedOk(setup, w) && PromptStep(w, e)
    ensures Legal(w.s, Step(setup, w, e).s)
  {
    if e.Commit? && e.request in w.staged {
      var g := w.staged[e.request];
      OneStepIsLegal(setup, w.s, RejectCard(g.user, g.cid, g.card));
    } else if e.Section? && !e.event.RejectCard? {
      OneStepIsLegal(setup, w.s, e.event);
    }
  }

  lemma OneStepIsLegal(setup: Setup, s: State, e: PlanCards.Event)
    requires RoundTrips(setup) && Inv(setup, s)
    ensures Legal(s, PlanCards.Step(setup, s, e))
  {
    StepKeeps(setup, s, e);
    forall c | c in s.cards
      ensures c in PlanCards.Step(setup, s, e).cards
      ensures Moves(s.cards[c].status, PlanCards.Step(setup, s, e).cards[c].status)
    {
      StepMoves(setup, s, e, c);
    }
  }

  /** The protocol's promises hold in a run with late commits exactly when there are
      none: every step moves statuses only the allowed ways and decides and runs no card
      twice if and only if every commit of a rejection finds its card still pending. */
  lemma {:induction false} LegalExactlyWhenPrompt(setup: Setup, s: State, es: seq<Event>)
    requires RoundTrips(setup) && Fresh(setup, s)
    ensures LegalRun(setup, s, es) <==> Prompt(setup, s, es)
  {
    if es != [] {
      var init, e := es[..|es| - 1], es[|es| - 1];
      LegalExactlyWhenPrompt(setup, s, init);
      if Prompt(setup, s, init) {
        PromptIsAtomic(setup, s, init);
        if PromptStep(Exec(setup, s, init), e) {
          PromptStepIsLegal(setup, Exec(setup, s, init), e);
        } else {
          LateIsIllegal(setup, Exec(setup, s, init), e.request);
        }
      }
    }
  }

  /** In such runs a rejected card has never run, and every run was granted before. */
  lemma PromptRejectedNeverRan(setup: Setup, s: State, es: seq<Event>, c: nat)
    requires RoundTrips(setup) && Fresh(setup, s) && Prompt(setup, s, es)
    requires c in Exec(setup, s, es).s.cards && Exec(setup, s, es).s.cards[c].status == Rejected
    ensures NoRun(Exec(setup, s, es).s.log, c)
    ensures RunsGranted(setup, Exec(setup, s, es).s.cards, Exec(setup, s, es).s.log)
  {
    PromptIsAtomic(setup, s, es);
    assert CardOk(setup, Exec(setup, s, es).s, c);
  }

  /** An input with a late commit: a rejection is staged, the card is approved and its
      runner called, the rejection commits, and the runner returns. The card was shown
      rejected, has run, and ends up executed. */
  lemma LateRejectionRuns(setup: Setup, s: State, user: nat, cid: nat, id: nat, form: map<string, string>,
                          confirmation: string)
    requires MayReject(setup, s, user, cid, id) && s.tasks == map[]
    requires s.cards[id].tool in setup.registry
    requires Entitled(setup, s.cards[id].tool, Submitted(setup, s.cards[id], form), confirmation)
    ensures var w0 := World(s, map[]);
            var w1 := Step(setup, w0, Stage(0, user, cid, id));
            var w2 := Step(setup, w1, Section(ApproveCard(user, cid, id, form, confirmation)));
            var w3 := Step(setup, w2, Section(StartRunner(s.nextTask)));
            var w4 := Step(setup, w3, Commit(0));
            var w5 := Step(setup, w4, Section(FinishRunner(s.nextTask, true)));
            && id in w4.s.cards && w4.s.cards[id].status == Rejected && !NoRun(w4.s.log, id)
            && id in w5.s.cards && w5.s.cards[id].status == Executed
  {
    var args := Submitted(setup, s.cards[id], form);
    var s2 := Approve(setup, s, user, cid, id, form, confirmation);
    assert s2.cards[id].status == Approved && s2.tasks[s.nextTask].todo == [Job(id, s.cards[id].tool, args)];
    var s3 := Start(setup, s2, s.nextTask);
    assert s3.log[|s2.log|].RunStarted? && s3.log[|s2.log|].card == id;
    var s4 := WriteReject(s3, user, id);
    assert s4.log[|s2.log|] == s3.log[|s2.log|];
  }
}
