/**
 What the committed rows say over every interleaving: the card of each audit row, the
 arguments each runner was given, and what each request leaves alone.
 */
module PlanRecords {
  import opened Prelude
  import opened PlanCards
  import opened PlanRuns

  // ---- rows and cards ------------------------------------------------------------------

  predicate IsOwner(setup: Setup, card: Card, user: nat) {
    card.conv in setup.convs && setup.convs[card.conv].owner == user
  }

  predicate HasRun(status: Status) {
    status.Approved? || status.Executed? || status.Failed?
  }

  // The card records an approval: by whom, of which arguments, and how they classify.
  predicate Records(setup: Setup, card: Card, user: nat, args: Args) {
    && HasRun(card.status) && IsOwner(setup, card, user) && card.approver == Some(user)
    && card.effective.Some? && setup.loads(card.effective.value) == Some(args)
    && card.tool in setup.registry && Classify(setup, card.tool, args) == Some(card.tier)
  }

  // What a row in the log says of its card for good.
  predicate RowTold(setup: Setup, cards: Cards, row: Effect) {
    && row.card in cards
    && var card := cards[row.card];
       match row
       case ApproveRow(_, user, args, _) => Records(setup, card, user, args)
       case RejectRow(_, user) => card.status == Rejected && card.approver == Some(user) && IsOwner(setup, card, user)
       case FailRow(_, user) => card.status == Failed && card.tool !in setup.registry && IsOwner(setup, card, user)
       case RunStarted(_, _, _) => true
       case ExecuteRow(_, user, ok) =>
         && card.status == (if ok then Executed else Failed)
         && card.approver == Some(user) && IsOwner(setup, card, user)
  }

  ghost predicate RowsTold(setup: Setup, cards: Cards, log: seq<Effect>) {
    forall k :: 0 <= k < |log| ==> RowTold(setup, cards, log[k])
  }

  // A decided card stays, or its runner returns.
  predicate Settled(a: Card, b: Card) {
    || a == b
    || (a.status.Approved? && (b == a.(status := Executed) || b == a.(status := Failed)))
  }

  ghost predicate AllSettled(cards: Cards, cards': Cards) {
    forall c :: c in cards && cards[c].status != Pending ==> c in cards' && Settled(cards[c], cards'[c])
  }

  ghost predicate PendingHaveNoRow(cards: Cards, log: seq<Effect>) {
    forall k :: 0 <= k < |log| && log[k].card in cards ==> cards[log[k].card].status != Pending
  }

  lemma RowsKept(setup: Setup, cards: Cards, cards': Cards, log: seq<Effect>)
    requires RowsTold(setup, cards, log) && PendingHaveNoRow(cards, log) && AllSettled(cards, cards')
    ensures RowsTold(setup, cards', log)
  {
    forall k | 0 <= k < |log| ensures RowTold(setup, cards', log[k]) { assert RowTold(setup, cards, log[k]); }
  }

  lemma NoRowPending(setup: Setup, s: State)
    requires Inv(setup, s)
    ensures PendingHaveNoRow(s.cards, s.log)
  {
    forall k | 0 <= k < |s.log| && s.log[k].card in s.cards ensures s.cards[s.log[k].card].status != Pending {
      assert CardOk(setup, s, s.log[k].card);
    }
  }

  // ---- requests and results ----------------------------------------------------------------

  // A request works for the owner of the cards it has to run.
  ghost predicate TasksOwn(setup: Setup, s: State) {
    forall t, i :: IsJob(s, t, i) && JobOf(s, t, i).card in s.cards ==>
      && s.cards[JobOf(s, t, i).card].approver == Some(s.tasks[t].user)
      && IsOwner(setup, s.cards[JobOf(s, t, i).card], s.tasks[t].user)
  }

  ghost predicate Started(log: seq<Effect>, c: nat, n: nat)
    requires n <= |log|
  {
    exists j :: 0 <= j < n && log[j].RunStarted? && log[j].card == c
  }

  // Whichever runner is at work has been started, and each result follows a start.
  ghost predicate RunningStarted(s: State) {
    && (forall t :: CanFinish(s, t) ==> Started(s.log, s.tasks[t].todo[0].card, |s.log|))
    && (forall k :: 0 <= k < |s.log| && s.log[k].ExecuteRow? ==> Started(s.log, s.log[k].card, k))
  }

  ghost predicate ResultsOnce(log: seq<Effect>) {
    forall j, k :: 0 <= j < k < |log| && log[j].ExecuteRow? && log[k].ExecuteRow? ==> log[j].card != log[k].card
  }

  ghost predicate Told(setup: Setup, s: State) {
    RowsTold(setup, s.cards, s.log) && TasksOwn(setup, s) && RunningStarted(s) && ResultsOnce(s.log)
  }

  lemma StartedLater(log: seq<Effect>, more: seq<Effect>, c: nat, n: nat)
    requires n <= |log| && Started(log, c, n)
    ensures Started(log + more, c, n) && Started(log + more, c, |log + more|)
  {
    var j :| 0 <= j < n && log[j].RunStarted? && log[j].card == c;
    assert (log + more)[j] == log[j];
  }

  // No runner starts or returns: rows of other kinds are appended, and no request is touched
  // but a new one.
  ghost predicate Quiet(more: seq<Effect>) {
    forall k :: 0 <= k < |more| ==> !more[k].RunStarted? && !more[k].ExecuteRow?
  }

  lemma NoResults(log: seq<Effect>, more: seq<Effect>)
    requires Quiet(more)
    ensures forall k :: 0 <= k < |log + more| && (log + more)[k].ExecuteRow? ==> k < |log|
  {
    forall k | |log| <= k < |log + more| ensures !(log + more)[k].ExecuteRow? {
      assert (log + more)[k] == more[k - |log|];
    }
  }

  lemma QuietKeepsResults(s: State, s': State, more: seq<Effect>)
    requires RunningStarted(s) && ResultsOnce(s.log) && s'.log == s.log + more && Quiet(more)
    requires forall t :: CanFinish(s', t) ==> CanFinish(s, t) && s'.tasks[t].todo[0] == s.tasks[t].todo[0]
    ensures RunningStarted(s') && ResultsOnce(s'.log)
  {
    NoResults(s.log, more);
    forall t | CanFinish(s', t) ensures Started(s'.log, s'.tasks[t].todo[0].card, |s'.log|) {
      StartedLater(s.log, more, s.tasks[t].todo[0].card, |s.log|);
    }
    forall k | 0 <= k < |s'.log| && s'.log[k].ExecuteRow? ensures Started(s'.log, s'.log[k].card, k) {
      StartedLater(s.log, more, s.log[k].card, k);
    }
  }

  lemma RowsMore(setup: Setup, cards: Cards, log: seq<Effect>, more: seq<Effect>)
    requires RowsTold(setup, cards, log) && RowsTold(setup, cards, more)
    ensures RowsTold(setup, cards, log + more)
  {
    forall k | 0 <= k < |log + more| ensures RowTold(setup, cards, (log + more)[k]) {
      if k < |log| { assert (log + more)[k] == log[k]; } else { assert (log + more)[k] == more[k - |log|]; }
    }
  }

  // ---- each step ---------------------------------------------------------------------------

  // A pending card is decided, with a row that tells it, and no request is touched.
  lemma DecideTells(setup: Setup, s: State, s': State, c: nat, more: seq<Effect>)
    requires Inv(setup, s) && Told(setup, s) && c in s.cards && s.cards[c].status == Pending
    requires c in s'.cards && s'.cards == s.cards[c := s'.cards[c]] && s'.log == s.log + more && s'.tasks == s.tasks
    requires Quiet(more) && RowsTold(setup, s'.cards, more)
    ensures Told(setup, s')
  {
    NoRowPending(setup, s);
    RowsKept(setup, s.cards, s'.cards, s.log);
    RowsMore(setup, s'.cards, s.log, more);
    QuietKeepsResults(s, s', more);
    forall t, i | IsJob(s', t, i) && JobOf(s', t, i).card in s'.cards
      ensures s'.cards[JobOf(s', t, i).card].approver == Some(s'.tasks[t].user)
      ensures IsOwner(setup, s'.cards[JobOf(s', t, i).card], s'.tasks[t].user)
    {
      assert IsJob(s, t, i) && JobOk(setup, s, t, i);
    }
  }

  lemma CreateTells(setup: Setup, s: State, cid: nat, message: nat, tool: string, args: Args)
    requires Inv(setup, s) && Told(setup, s)
    ensures Told(setup, Create(setup, s, cid, message, tool, args))
  {
    var s' := Create(setup, s, cid, message, tool, args);
    if s' != s {
      assert s.next in s.cards ==> CardOk(setup, s, s.next);
      NoRowPending(setup, s);
      RowsKept(setup, s.cards, s'.cards, s.log);
      assert s'.log == s.log + [];
      QuietKeepsResults(s, s', []);
      forall t, i | IsJob(s', t, i) && JobOf(s', t, i).card in s'.cards
        ensures s'.cards[JobOf(s', t, i).card].approver == Some(s'.tasks[t].user)
        ensures IsOwner(setup, s'.cards[JobOf(s', t, i).card], s'.tasks[t].user)
      {
        assert IsJob(s, t, i) && JobOk(setup, s, t, i);
      }
    }
  }

  lemma RejectTells(setup: Setup, s: State, user: nat, cid: nat, id: nat)
    requires Inv(setup, s) && Told(setup, s)
    ensures Told(setup, Reject(setup, s, user, cid, id))
  {
    if Owns(setup, s, user, cid, id) && s.cards[id].status == Pending {
      DecideTells(setup, s, Reject(setup, s, user, cid, id), id, [RejectRow(id, user)]);
    }
  }

  // A new request is opened for the cards that its owner has just approved.
  lemma OpenTells(setup: Setup, s: State, user: nat, tenant: nat, jobs: seq<Job>)
    requires Told(setup, s)
    requires forall i :: 0 <= i < |jobs| && jobs[i].card in s.cards ==>
               s.cards[jobs[i].card].approver == Some(user) && IsOwner(setup, s.cards[jobs[i].card], user)
    ensures Told(setup, s.(tasks := s.tasks[s.nextTask := Task(user, tenant, jobs, false)],
                           nextTask := s.nextTask + 1))
  {
    var s' := s.(tasks := s.tasks[s.nextTask := Task(user, tenant, jobs, false)], nextTask := s.nextTask + 1);
    assert s'.log == s.log + [];
    QuietKeepsResults(s, s', []);
    forall t, i | IsJob(s', t, i) && JobOf(s', t, i).card in s'.cards
      ensures s'.cards[JobOf(s', t, i).card].approver == Some(s'.tasks[t].user)
      ensures IsOwner(setup, s'.cards[JobOf(s', t, i).card], s'.tasks[t].user)
    {
      if t != s.nextTask { assert IsJob(s, t, i) && JobOf(s, t, i) == JobOf(s', t, i); }
    }
  }

  lemma ApprovedTells(setup: Setup, s: State, user: nat, tenant: nat, id: nat, card: Card, args: Args,
                      confirmation: string)
    requires Inv(setup, s) && Told(setup, s) && id in s.cards && s.cards[id].status == Pending
    requires card.status == Approved && Records(setup, card, user, args)
    ensures Told(setup, State(s.cards[id := card], s.next, s.log + [ApproveRow(id, user, args, confirmation)],
                              s.tasks[s.nextTask := Task(user, tenant, [Job(id, card.tool, args)], false)],
                              s.nextTask + 1))
  {
    var s1 := s.(cards := s.cards[id := card], log := s.log + [ApproveRow(id, user, args, confirmation)]);
    DecideTells(setup, s, s1, id, [ApproveRow(id, user, args, confirmation)]);
    OpenTells(setup, s1, user, tenant, [Job(id, card.tool, args)]);
  }

  lemma ApproveTells(setup: Setup, s: State, user: nat, cid: nat, id: nat, form: map<string, string>,
                     confirmation: string)
    requires RoundTrips(setup) && Inv(setup, s) && Told(setup, s)
    ensures Told(setup, Approve(setup, s, user, cid, id, form, confirmation))
  {
    if Owns(setup, s, user, cid, id) && s.cards[id].status == Pending {
      var card := s.cards[id];
      if card.tool !in setup.registry {
        DecideTells(setup, s, Approve(setup, s, user, cid, id, form, confirmation), id, [FailRow(id, user)]);
      } else {
        var args := Edited(LoadArgs(setup, card.args), setup.registry[card.tool].fields, form);
        var tier := Classify(setup, card.tool, args);
        if tier.Some? && tier.value.Elevated? && !Confirmed(setup.registry[card.tool], args, confirmation) {
          assert s.log + [] == s.log;
          DecideTells(setup, s, s.(cards := s.cards[id := card.(tier := Elevated)]), id, []);
        } else if tier.Some? {
          var card' := card.(tier := tier.value, effective := Some(setup.dumps(args)), status := Approved,
              approver := Some(user));
          ApprovedTells(setup, s, user, setup.convs[cid].tenant, id, card', args, confirmation);
        }
      }
    }
  }

  // The group loop has decided cards of `ids` only, and appended rows of theirs.
  ghost predicate BatchLogged(setup: Setup, s: State, b: Batch, ids: seq<nat>) {
    && RowsTold(setup, b.cards, b.log) && s.log <= b.log
    && forall k :: |s.log| <= k < |b.log| ==> b.log[k].ApproveRow? && b.log[k].card in ids
  }

  ghost predicate BatchKept(s: State, b: Batch, ids: seq<nat>) {
    forall c :: c in s.cards && c !in ids ==> c in b.cards && b.cards[c] == s.cards[c]
  }

  ghost predicate BatchJobs(setup: Setup, b: Batch, user: nat, ids: seq<nat>) {
    forall i :: 0 <= i < |b.jobs| ==>
      && b.jobs[i].card in ids && b.jobs[i].card in b.cards
      && b.cards[b.jobs[i].card].approver == Some(user) && IsOwner(setup, b.cards[b.jobs[i].card], user)
  }

  ghost predicate BatchTold(setup: Setup, s: State, b: Batch, user: nat, ids: seq<nat>) {
    BatchLogged(setup, s, b, ids) && BatchKept(s, b, ids) && BatchJobs(setup, b, user, ids)
  }

  lemma {:induction false} TakeAllTells(setup: Setup, s: State, user: nat, cid: nat, message: nat, ids: seq<nat>)
    requires RoundTrips(setup) && Inv(setup, s) && Told(setup, s)
    requires cid in setup.convs && setup.convs[cid].owner == user && Ascending(ids)
    requires forall id :: id in ids ==> InGroup(s.cards, cid, message, id)
    ensures BatchTold(setup, s, TakeAll(setup, Batch(s.cards, s.log, []), user, ids), user, ids)
    decreases |ids|
  {
    if ids != [] {
      var init, id := ids[..|ids| - 1], ids[|ids| - 1];
      assert id in ids && id !in init && ids == init + [id] && forall c :: c in init ==> c in ids;
      TakeAllTells(setup, s, user, cid, message, init);
      assert CardOk(setup, s, id);
      TakeTells(setup, s, TakeAll(setup, Batch(s.cards, s.log, []), user, init), user, init, id);
    }
  }

  lemma TakeTells(setup: Setup, s: State, b: Batch, user: nat, init: seq<nat>, id: nat)
    requires RoundTrips(setup) && BatchTold(setup, s, b, user, init) && id !in init && id in s.cards
    requires s.cards[id].status == Pending && NoRow(s.log, id) && IsOwner(setup, s.cards[id], user)
    requires s.cards[id].tier == Safe && SafeIsSafe(setup, s.cards[id])
    ensures BatchTold(setup, s, Take(setup, b, user, id), user, init + [id])
  {
    TakeLogs(setup, s, b, user, init, id);
    TakeJobs(setup, b, user, init, id);
  }

  lemma TakeLogs(setup: Setup, s: State, b: Batch, user: nat, init: seq<nat>, id: nat)
    requires RoundTrips(setup) && BatchLogged(setup, s, b, init) && id !in init
    requires NoRow(s.log, id) && id in b.cards && b.cards[id].status == Pending && IsOwner(setup, b.cards[id], user)
    requires b.cards[id].tier == Safe && SafeIsSafe(setup, b.cards[id])
    ensures BatchLogged(setup, s, Take(setup, b, user, id), init + [id])
  {
    var b' := Take(setup, b, user, id);
    forall k | 0 <= k < |b.log| ensures RowTold(setup, b'.cards, b.log[k]) {
      assert RowTold(setup, b.cards, b.log[k]) && b.log[k].card != id;
    }
    if b.cards[id].tool in setup.registry {
      var row := ApproveRow(id, user, LoadArgs(setup, b.cards[id].args), "");
      assert b'.log == b.log + [row] && RowTold(setup, b'.cards, row);
      RowsMore(setup, b'.cards, b.log, [row]);
    }
  }

  lemma TakeJobs(setup: Setup, b: Batch, user: nat, init: seq<nat>, id: nat)
    requires BatchJobs(setup, b, user, init) && id !in init && id in b.cards && IsOwner(setup, b.cards[id], user)
    ensures BatchJobs(setup, Take(setup, b, user, id), user, init + [id])
  {
  }

  lemma GroupTells(setup: Setup, s: State, user: nat, cid: nat, message: nat)
    requires RoundTrips(setup) && Inv(setup, s) && Told(setup, s)
    ensures Told(setup, ApproveGroup(setup, s, user, cid, message))
  {
    var ids := Group(s.cards, cid, message, s.next);
    if cid in setup.convs && setup.convs[cid].owner == user && ids != [] {
      GroupShape(s.cards, cid, message, s.next);
      TakeAllTells(setup, s, user, cid, message, ids);
      var b := TakeAll(setup, Batch(s.cards, s.log, []), user, ids);
      BatchIsTold(setup, s, b, user, ids);
      OpenTells(setup, s.(cards := b.cards, log := b.log), user, setup.convs[cid].tenant, b.jobs);
    }
  }

  lemma BatchIsTold(setup: Setup, s: State, b: Batch, user: nat, ids: seq<nat>)
    requires Inv(setup, s) && Told(setup, s) && BatchTold(setup, s, b, user, ids)
    requires forall id :: id in ids ==> id in s.cards && s.cards[id].status == Pending
    ensures Told(setup, s.(cards := b.cards, log := b.log))
  {
    var s1, more := s.(cards := b.cards, log := b.log), b.log[|s.log|..];
    assert b.log == s.log + more;
    QuietKeepsResults(s, s1, more);
    forall t, i | IsJob(s1, t, i) && JobOf(s1, t, i).card in s1.cards
      ensures s1.cards[JobOf(s1, t, i).card].approver == Some(s1.tasks[t].user)
      ensures IsOwner(setup, s1.cards[JobOf(s1, t, i).card], s1.tasks[t].user)
    {
      assert IsJob(s, t, i) && JobOk(setup, s, t, i) && JobOf(s, t, i).card !in ids;
    }
  }

  lemma StartTells(setup: Setup, s: State, t: nat)
    requires Inv(setup, s) && Told(setup, s)
    ensures Told(setup, Start(setup, s, t))
  {
    if CanStart(s, t) {
      assert IsJob(s, t, 0) && JobOk(setup, s, t, 0);
      var s', job := Start(setup, s, t), JobOf(s, t, 0);
      var row := RunStarted(job.card, job.args, s.tasks[t].tenant);
      RowsMore(setup, s.cards, s.log, [row]);
      StartResults(s, s', t, row);
      forall u, i | IsJob(s', u, i) && JobOf(s', u, i).card in s'.cards
        ensures s'.cards[JobOf(s', u, i).card].approver == Some(s'.tasks[u].user)
        ensures IsOwner(setup, s'.cards[JobOf(s', u, i).card], s'.tasks[u].user)
      {
        assert IsJob(s, u, i) && JobOf(s, u, i) == JobOf(s', u, i);
      }
    }
  }

  lemma StartResults(s: State, s': State, t: nat, row: Effect)
    requires RunningStarted(s) && ResultsOnce(s.log) && CanStart(s, t)
    requires row.RunStarted? && row.card == s.tasks[t].todo[0].card && s'.log == s.log + [row]
    requires s'.tasks == s.tasks[t := s.tasks[t].(running := true)]
    ensures RunningStarted(s') && ResultsOnce(s'.log)
  {
    assert s'.log[|s.log|] == row;
    forall u | CanFinish(s', u) ensures Started(s'.log, s'.tasks[u].todo[0].card, |s'.log|) {
      if u != t { StartedLater(s.log, [row], s.tasks[u].todo[0].card, |s.log|); }
    }
    forall k | 0 <= k < |s'.log| && s'.log[k].ExecuteRow? ensures Started(s'.log, s'.log[k].card, k) {
      StartedLater(s.log, [row], s.log[k].card, k);
    }
  }

  lemma FinishTells(setup: Setup, s: State, t: nat, ok: bool)
    requires Inv(setup, s) && Told(setup, s)
    ensures Told(setup, Finish(s, t, ok))
  {
    if CanFinish(s, t) {
      assert IsJob(s, t, 0) && JobOk(setup, s, t, 0);
      var s', c := Finish(s, t, ok), JobOf(s, t, 0).card;
      var row := ExecuteRow(c, s.tasks[t].user, ok);
      NoRowPending(setup, s);
      FinishRows(setup, s.cards, s'.cards, s.log, row);
      FinishResults(s, s', t, row);
      FinishTasks(setup, s, t, ok);
    }
  }

  lemma FinishRows(setup: Setup, cards: Cards, cards': Cards, log: seq<Effect>, row: Effect)
    requires RowsTold(setup, cards, log) && PendingHaveNoRow(cards, log) && AllSettled(cards, cards')
    requires row.ExecuteRow? && row.card in cards && cards[row.card].status.Approved? && RowTold(setup, cards', row)
    ensures RowsTold(setup, cards', log + [row])
    ensures forall k :: 0 <= k < |log| && log[k].ExecuteRow? ==> log[k].card != row.card
  {
    RowsKept(setup, cards, cards', log);
    RowsMore(setup, cards', log, [row]);
    forall k | 0 <= k < |log| && log[k].ExecuteRow? ensures log[k].card != row.card {
      assert RowTold(setup, cards, log[k]);
    }
  }

  lemma FinishTasks(setup: Setup, s: State, t: nat, ok: bool)
    requires TasksOwn(setup, s) && CanFinish(s, t) && s.tasks[t].todo[0].card in s.cards
    ensures TasksOwn(setup, Finish(s, t, ok))
  {
    var s' := Finish(s, t, ok);
    forall u, i | IsJob(s', u, i) && JobOf(s', u, i).card in s'.cards
      ensures s'.cards[JobOf(s', u, i).card].approver == Some(s'.tasks[u].user)
      ensures IsOwner(setup, s'.cards[JobOf(s', u, i).card], s'.tasks[u].user)
    {
      var i0 := if u == t then i + 1 else i;
      assert IsJob(s, u, i0) && JobOf(s, u, i0) == JobOf(s', u, i);
    }
  }

  lemma FinishResults(s: State, s': State, t: nat, row: Effect)
    requires RunningStarted(s) && ResultsOnce(s.log) && CanFinish(s, t)
    requires row.ExecuteRow? && row.card == s.tasks[t].todo[0].card && s'.log == s.log + [row]
    requires forall k :: 0 <= k < |s.log| && s.log[k].ExecuteRow? ==> s.log[k].card != row.card
    requires s'.tasks == s.tasks[t := s.tasks[t].(todo := s.tasks[t].todo[1..], running := false)]
    ensures RunningStarted(s') && ResultsOnce(s'.log)
  {
    forall u | CanFinish(s', u) ensures Started(s'.log, s'.tasks[u].todo[0].card, |s'.log|) {
      StartedLater(s.log, [row], s.tasks[u].todo[0].card, |s.log|);
    }
    forall k | 0 <= k < |s'.log| && s'.log[k].ExecuteRow? ensures Started(s'.log, s'.log[k].card, k) {
      StartedLater(s.log, [row], s'.log[k].card, k);
    }
  }

  lemma CancelTells(setup: Setup, s: State, t: nat)
    requires Told(setup, s)
    ensures Told(setup, s.(tasks := s.tasks - {t}))
  {
    var s' := s.(tasks := s.tasks - {t});
    assert s'.log == s.log + [];
    QuietKeepsResults(s, s', []);
    forall u, i | IsJob(s', u, i) && JobOf(s', u, i).card in s'.cards
      ensures s'.cards[JobOf(s', u, i).card].approver == Some(s'.tasks[u].user)
      ensures IsOwner(setup, s'.cards[JobOf(s', u, i).card], s'.tasks[u].user)
    {
      assert IsJob(s, u, i) && JobOf(s, u, i) == JobOf(s', u, i);
    }
  }

  lemma StepTells(setup: Setup, s: State, e: Event)
    requires RoundTrips(setup) && Inv(setup, s) && Told(setup, s)
    ensures Told(setup, Step(setup, s, e))
  {
    match e
    case CreateCard(cid, message, tool, args) => CreateTells(setup, s, cid, message, tool, args);
    case RejectCard(user, cid, card) => RejectTells(setup, s, user, cid, card);
    case ApproveCard(user, cid, card, form, confirmation) =>
      ApproveTells(setup, s, user, cid, card, form, confirmation);
    case ApproveMessage(user, cid, message) => GroupTells(setup, s, user, cid, message);
    case StartRunner(t) => StartTells(setup, s, t);
    case FinishRunner(t, ok) => FinishTells(setup, s, t, ok);
    case Cancel(t) => CancelTells(setup, s, t);
  }

  // ---- every run ---------------------------------------------------------------------------

  lemma {:induction false} RunTold(setup: Setup, s: State, es: seq<Event>)
    requires RoundTrips(setup) && Fresh(setup, s)
    ensures Told(setup, Exec(setup, s, es))
  {
    if es != [] {
      RunTold(setup, s, es[..|es| - 1]);
      RunInvariant(setup, s, es[..|es| - 1]);
      StepTells(setup, Exec(setup, s, es[..|es| - 1]), es[|es| - 1]);
    }
  }

  /** Over every interleaving each audit row stays true of its card: an approval of the
      owner who approved it, the arguments and their tier; a rejection of who rejected it;
      a result of whether the runner returned or raised. No card has two results, and each
      one follows the start of its runner. */
  lemma LogTellsCards(setup: Setup, s: State, es: seq<Event>)
    requires RoundTrips(setup) && Fresh(setup, s)
    ensures var now := Exec(setup, s, es);
            && RowsTold(setup, now.cards, now.log) && ResultsOnce(now.log)
            && forall k :: 0 <= k < |now.log| && now.log[k].ExecuteRow? ==> Started(now.log, now.log[k].card, k)
  {
    RunTold(setup, s, es);
  }

  /** Every runner was given the arguments that its card records as those in effect, in
      the tenant of the conversation, whose owner the card records as approver. */
  lemma RunnersGetRecordedArgs(setup: Setup, s: State, es: seq<Event>, k: nat)
    requires RoundTrips(setup) && Fresh(setup, s)
    requires k < |Exec(setup, s, es).log| && Exec(setup, s, es).log[k].RunStarted?
    ensures var now := Exec(setup, s, es); var run := now.log[k];
            && run.card in now.cards && now.cards[run.card].conv in setup.convs
            && setup.convs[now.cards[run.card].conv].tenant == run.tenant
            && Records(setup, now.cards[run.card], setup.convs[now.cards[run.card].conv].owner, run.args)
  {
    RunTold(setup, s, es);
    RunInvariant(setup, s, es);
    var now := Exec(setup, s, es);
    assert Granted(setup, now.cards, now.log, k, now.log[k]);
    var j :| 0 <= j < k && Grants(setup, now.cards, now.log[j], now.log[k]);
    assert RowTold(setup, now.cards, now.log[j]);
  }

  // ---- what a request changes, and what it leaves alone ----------------------------------------

  // The request, or the result of a runner, is about card `c`.
  predicate Addressed(setup: Setup, s: State, e: Event, c: nat) {
    match e
    case RejectCard(user, cid, card) => c == card && Owns(setup, s, user, cid, card)
    case ApproveCard(user, cid, card, _, _) => c == card && Owns(setup, s, user, cid, card)
    case ApproveMessage(user, cid, message) =>
      cid in setup.convs && setup.convs[cid].owner == user && c in s.cards && IsPendingSafe(s.cards[c], cid, message)
    case FinishRunner(t, _) => CanFinish(s, t) && s.tasks[t].todo[0].card == c
    case _ => false
  }

  // Row `k` is new, and of card `c`.
  predicate NewRow(s: State, s': State, c: nat, k: nat) {
    |s.log| <= k < |s'.log| && s'.log[k].card == c && !s'.log[k].RunStarted?
  }

  ghost predicate Logged(s: State, s': State, c: nat) {
    exists k :: NewRow(s, s', c, k)
  }

  lemma {:induction false} TakeAllLogs(setup: Setup, s: State, user: nat, ids: seq<nat>, c: nat) returns (k: nat)
    requires Ascending(ids) && c in ids && c in s.cards && s.cards[c].tool in setup.registry
    ensures var b := TakeAll(setup, Batch(s.cards, s.log, []), user, ids);
            |s.log| <= k < |b.log| && b.log[k].ApproveRow? && b.log[k].card == c
    decreases |ids|
  {
    var init, id := ids[..|ids| - 1], ids[|ids| - 1];
    var b := TakeAll(setup, Batch(s.cards, s.log, []), user, init);
    if id == c {
      k := |b.log|;
      assert c !in init;
      TakeAllHandles(setup, s, user, init, c);
      LogGrows(setup, s, user, init);
    } else {
      assert c in init;
      k := TakeAllLogs(setup, s, user, init, c);
    }
  }

  lemma {:induction false} LogGrows(setup: Setup, s: State, user: nat, ids: seq<nat>)
    ensures s.log <= TakeAll(setup, Batch(s.cards, s.log, []), user, ids).log
    decreases |ids|
  {
    if ids != [] { LogGrows(setup, s, user, ids[..|ids| - 1]); }
  }

  lemma {:induction false} TakeAllKeepsProposal(setup: Setup, s: State, user: nat, ids: seq<nat>, c: nat)
    requires c in s.cards
    ensures var b := TakeAll(setup, Batch(s.cards, s.log, []), user, ids);
            c in b.cards && SameProposal(s.cards[c], b.cards[c])
    decreases |ids|
  {
    if ids != [] { TakeAllKeepsProposal(setup, s, user, ids[..|ids| - 1], c); }
  }

  predicate SameProposal(a: Card, b: Card) {
    a.conv == b.conv && a.message == b.message && a.tool == b.tool && a.args == b.args
  }

  /** A step changes only the card it is about, never what that card proposes, and its
      status only with a row in the log, unless its tool is not known. */
  lemma OnlyAddressedChange(setup: Setup, s: State, e: Event, c: nat)
    requires Inv(setup, s) && c in s.cards
    ensures var s' := Step(setup, s, e);
            && c in s'.cards && SameProposal(s.cards[c], s'.cards[c])
            && (!Addressed(setup, s, e, c) ==> s'.cards[c] == s.cards[c])
            && (s'.cards[c].status != s.cards[c].status && s.cards[c].tool in setup.registry ==> Logged(s, s', c))
  {
    assert CardOk(setup, s, c);
    match e
    case RejectCard(user, cid, id) => RejectChanges(setup, s, user, cid, id, c);
    case ApproveCard(user, cid, id, form, confirmation) =>
      ApproveChanges(setup, s, user, cid, id, form, confirmation, c);
    case ApproveMessage(user, cid, message) => GroupChanges(setup, s, user, cid, message, c);
    case FinishRunner(t, ok) => FinishChanges(s, t, ok, c);
    case _ =>
  }

  lemma RejectChanges(setup: Setup, s: State, user: nat, cid: nat, id: nat, c: nat)
    requires c in s.cards
    ensures var s' := Reject(setup, s, user, cid, id);
            && c in s'.cards && SameProposal(s.cards[c], s'.cards[c])
            && (!(c == id && Owns(setup, s, user, cid, id)) ==> s'.cards[c] == s.cards[c])
            && (s'.cards[c].status != s.cards[c].status ==> Logged(s, s', c))
  {
    var s' := Reject(setup, s, user, cid, id);
    if s'.cards[c].status != s.cards[c].status { assert NewRow(s, s', c, |s.log|); }
  }

  lemma ApproveChanges(setup: Setup, s: State, user: nat, cid: nat, id: nat, form: map<string, string>,
                       confirmation: string, c: nat)
    requires c in s.cards
    ensures var s' := Approve(setup, s, user, cid, id, form, confirmation);
            && c in s'.cards && SameProposal(s.cards[c], s'.cards[c])
            && (!(c == id && Owns(setup, s, user, cid, id)) ==> s'.cards[c] == s.cards[c])
            && (s'.cards[c].status != s.cards[c].status ==> Logged(s, s', c))
  {
    var s' := Approve(setup, s, user, cid, id, form, confirmation);
    if s'.cards[c].status != s.cards[c].status { assert NewRow(s, s', c, |s.log|); }
  }

  lemma GroupChanges(setup: Setup, s: State, user: nat, cid: nat, message: nat, c: nat)
    requires Inv(setup, s) && c in s.cards
    ensures var s' := ApproveGroup(setup, s, user, cid, message);
            && c in s'.cards && SameProposal(s.cards[c], s'.cards[c])
            && (!(cid in setup.convs && setup.convs[cid].owner == user && IsPendingSafe(s.cards[c], cid, message)) ==>
                  s'.cards[c] == s.cards[c])
            && (s'.cards[c].status != s.cards[c].status && s.cards[c].tool in setup.registry ==> Logged(s, s', c))
  {
    var ids, s' := Group(s.cards, cid, message, s.next), ApproveGroup(setup, s, user, cid, message);
    GroupTakesAll(setup, s, user, cid, message, c);
    TakeAllKeepsProposal(setup, s, user, ids, c);
    if s'.cards[c].status != s.cards[c].status && s.cards[c].tool in setup.registry {
      GroupShape(s.cards, cid, message, s.next);
      assert CardOk(setup, s, c);
      var k := TakeAllLogs(setup, s, user, ids, c);
      assert NewRow(s, s', c, k);
    }
  }

  lemma FinishChanges(s: State, t: nat, ok: bool, c: nat)
    requires c in s.cards
    ensures var s' := Finish(s, t, ok);
            && c in s'.cards && SameProposal(s.cards[c], s'.cards[c])
            && (!(CanFinish(s, t) && s.tasks[t].todo[0].card == c) ==> s'.cards[c] == s.cards[c])
            && (s'.cards[c].status != s.cards[c].status ==> Logged(s, s', c))
  {
    var s' := Finish(s, t, ok);
    if s'.cards[c].status != s.cards[c].status { assert NewRow(s, s', c, |s.log|); }
  }

  /** A tool call becomes a card exactly if its tool is known and classifies its arguments;
      the card proposes them as they are, at that tier, and nobody has decided it. */
  lemma CreateExactly(setup: Setup, s: State, cid: nat, message: nat, tool: string, args: Args)
    requires RoundTrips(setup) && Inv(setup, s) && cid in setup.convs
    ensures var s' := Create(setup, s, cid, message, tool, args);
            if tool in setup.registry && Classify(setup, tool, args).Some? then
              && s.next !in s.cards && s.next in s'.cards
              && s' == s.(cards := s.cards[s.next := s'.cards[s.next]], next := s.next + 1)
              && var card := s'.cards[s.next];
              && card.conv == cid && card.message == message && card.tool == tool
              && setup.loads(card.args) == Some(args) && Classify(setup, tool, args) == Some(card.tier)
              && card.status == Pending && card.approver.None? && card.effective.None?
            else s' == s
  {
    assert s.next in s.cards ==> CardOk(setup, s, s.next);
  }

  /** A request approves a card exactly if its user owns it, it is pending, and the typed
      confirmation entitles what the edits make of its arguments. It then opens one request
      with that one job; otherwise it opens none, and the card is pending as before unless
      its tool is not known. */
  lemma ApproveExactly(setup: Setup, s: State, user: nat, cid: nat, id: nat, form: map<string, string>,
                       confirmation: string)
    requires RoundTrips(setup) && Owns(setup, s, user, cid, id) && s.cards[id].status == Pending
    ensures var s' := Approve(setup, s, user, cid, id, form, confirmation); var card := s.cards[id];
            && id in s'.cards
            && if card.tool in setup.registry
                  && Entitled(setup, card.tool, Submitted(setup, card, form), confirmation) then
                 var args := Submitted(setup, card, form);
                 && s'.cards[id].status == Approved && Records(setup, s'.cards[id], user, args)
                 && s'.log == s.log + [ApproveRow(id, user, args, confirmation)]
                 && s'.tasks == s.tasks[s.nextTask := Task(user, setup.convs[cid].tenant,
                                                           [Job(id, card.tool, args)], false)]
               else
                 && s'.cards[id].status == (if card.tool in setup.registry then Pending else Failed)
                 && s'.cards[id].approver == card.approver && s'.cards[id].effective == card.effective
                 && s'.tasks == s.tasks
  {
  }

  /** A runner that returns leaves its card executed, one that raises failed, with the row
      that says so; its request goes on with the next card, and no other request moves. */
  lemma ResultIsRecorded(setup: Setup, s: State, t: nat, ok: bool)
    requires Inv(setup, s) && CanFinish(s, t)
    ensures var s' := Finish(s, t, ok); var c := s.tasks[t].todo[0].card;
            && c in s'.cards && s'.cards == s.cards[c := s'.cards[c]]
            && s'.cards[c] == s.cards[c].(status := if ok then Executed else Failed)
            && s'.log == s.log + [ExecuteRow(c, s.tasks[t].user, ok)]
            && t in s'.tasks && s'.tasks == s.tasks[t := s'.tasks[t]]
            && [s.tasks[t].todo[0]] + s'.tasks[t].todo == s.tasks[t].todo && !s'.tasks[t].running
  {
    assert IsJob(s, t, 0) && JobOk(setup, s, t, 0);
  }

  // The runners of a request come in the order of their cards.
  ghost predicate InOrder(jobs: seq<Job>) {
    forall i, j :: 0 <= i < j < |jobs| ==> jobs[i].card < jobs[j].card
  }

  lemma {:induction false} TakeAllInOrder(setup: Setup, s: State, user: nat, ids: seq<nat>)
    requires Ascending(ids)
    ensures var jobs := TakeAll(setup, Batch(s.cards, s.log, []), user, ids).jobs;
            InOrder(jobs) && forall i :: 0 <= i < |jobs| ==> jobs[i].card in ids
    decreases |ids|
  {
    if ids != [] {
      var init, id := ids[..|ids| - 1], ids[|ids| - 1];
      TakeAllInOrder(setup, s, user, init);
      assert ids == init + [id] && forall c :: c in init ==> c < id;
    }
  }

  /** Group approval opens one request of its user, in the conversation's tenant, whose
      runners come in the order of the cards and are those of the group's cards only. */
  lemma GroupInOrder(setup: Setup, s: State, user: nat, cid: nat, message: nat)
    requires Inv(setup, s)
    ensures var s' := ApproveGroup(setup, s, user, cid, message);
            s' != s ==>
              && s.nextTask in s'.tasks && s'.tasks == s.tasks[s.nextTask := s'.tasks[s.nextTask]]
              && cid in setup.convs && user == setup.convs[cid].owner
              && var task := s'.tasks[s.nextTask];
              && task.user == user && task.tenant == setup.convs[cid].tenant && !task.running && InOrder(task.todo)
              && forall i :: 0 <= i < |task.todo| ==>
                   task.todo[i].card in s.cards && IsPendingSafe(s.cards[task.todo[i].card], cid, message)
  {
    GroupShape(s.cards, cid, message, s.next);
    TakeAllInOrder(setup, s, user, Group(s.cards, cid, message, s.next));
  }
}
