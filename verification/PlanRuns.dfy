/** What holds of plan cards over every interleaving of requests and runners. */
module PlanRuns {
  import opened Prelude
  import opened PlanCards

  // ---- what the log shows ------------------------------------------------------------

  predicate IsDecision(e: Effect) {
    e.ApproveRow? || e.RejectRow?
  }

  ghost predicate NoRow(log: seq<Effect>, c: nat) {
    forall k :: 0 <= k < |log| ==> log[k].card != c
  }

  ghost predicate NoRun(log: seq<Effect>, c: nat) {
    forall k :: 0 <= k < |log| && log[k].RunStarted? ==> log[k].card != c
  }

  /** No card is decided twice, and no runner is started twice. */
  ghost predicate Once(log: seq<Effect>) {
    && (forall j, k :: 0 <= j < k < |log| && log[j].RunStarted? && log[k].RunStarted? ==> log[j].card != log[k].card)
    && (forall j, k :: 0 <= j < k < |log| && IsDecision(log[j]) && IsDecision(log[k]) ==> log[j].card != log[k].card)
  }

  /** Row `a` approves run `r`: same card and arguments, decided by the owner of the
      card's conversation, run in that conversation's tenant, and entitled to run. */
  predicate Grants(setup: Setup, cards: Cards, a: Effect, r: Effect) {
    && a.ApproveRow? && r.RunStarted? && a.card == r.card && a.args == r.args
    && a.card in cards && cards[a.card].conv in setup.convs
    && setup.convs[cards[a.card].conv] == Conversation(a.user, r.tenant)
    && Entitled(setup, cards[a.card].tool, a.args, a.confirmation)
  }

  ghost predicate Granted(setup: Setup, cards: Cards, log: seq<Effect>, n: nat, r: Effect)
    requires n <= |log|
  {
    exists j :: 0 <= j < n && Grants(setup, cards, log[j], r)
  }

  ghost predicate RunsGranted(setup: Setup, cards: Cards, log: seq<Effect>) {
    forall k :: 0 <= k < |log| && log[k].RunStarted? ==> Granted(setup, cards, log, k, log[k])
  }

  // ---- the invariant -----------------------------------------------------------------

  ghost predicate CardOk(setup: Setup, s: State, c: nat)
    requires c in s.cards
  {
    && c < s.next
    && (s.cards[c].status == Pending ==> NoRow(s.log, c) && SafeIsSafe(setup, s.cards[c]))
    && (s.cards[c].status == Rejected ==> NoRun(s.log, c))
  }

  // A card shown as safe has safe arguments.
  predicate SafeIsSafe(setup: Setup, card: Card) {
    card.tier == Safe && card.tool in setup.registry ==>
        Classify(setup, card.tool, LoadArgs(setup, card.args)) == Some(Safe)
  }

  predicate IsJob(s: State, t: nat, i: int) {
    t in s.tasks && 0 <= i < |s.tasks[t].todo|
  }

  function JobOf(s: State, t: nat, i: int): Job
    requires IsJob(s, t, i)
  {
    s.tasks[t].todo[i]
  }

  ghost predicate JobOk(setup: Setup, s: State, t: nat, i: int)
    requires IsJob(s, t, i)
  {
    var job := JobOf(s, t, i);
    && job.card in s.cards && s.cards[job.card].status == Approved && s.cards[job.card].tool == job.tool
    && Granted(setup, s.cards, s.log, |s.log|, RunStarted(job.card, job.args, s.tasks[t].tenant))
    && (i > 0 || !s.tasks[t].running ==> NoRun(s.log, job.card))
  }

  ghost predicate Apart(s: State) {
    forall t, i, u, j :: IsJob(s, t, i) && IsJob(s, u, j) && JobOf(s, t, i).card == JobOf(s, u, j).card ==>
        t == u && i == j
  }

  ghost predicate CardsOk(setup: Setup, s: State) {
    forall c :: c in s.cards ==> CardOk(setup, s, c)
  }

  ghost predicate JobsOk(setup: Setup, s: State) {
    forall t, i :: IsJob(s, t, i) ==> JobOk(setup, s, t, i)
  }

  ghost predicate Inv(setup: Setup, s: State) {
    && CardsOk(setup, s)
    && (forall k :: 0 <= k < |s.log| ==> s.log[k].card in s.cards)
    && (forall t :: t in s.tasks ==> t < s.nextTask)
    && JobsOk(setup, s)
    && Apart(s)
    && Once(s.log)
    && RunsGranted(setup, s.cards, s.log)
  }

  // ---- steps that leave the log alone ----------------------------------------------------

  // Cards may change as long as decided cards keep what grants and jobs depend on.
  predicate SameCard(a: Card, b: Card) {
    a.conv == b.conv && a.tool == b.tool
  }

  ghost predicate SameCards(a: Cards, b: Cards) {
    forall c :: c in a ==> c in b && SameCard(a[c], b[c])
  }

  lemma GrantedKept(setup: Setup, a: Cards, b: Cards, log: seq<Effect>, more: seq<Effect>, n: nat, r: Effect)
    requires n <= |log| && SameCards(a, b) && Granted(setup, a, log, n, r)
    ensures Granted(setup, b, log + more, n, r)
  {
    var j :| 0 <= j < n && Grants(setup, a, log[j], r);
    assert (log + more)[j] == log[j];
  }

  lemma GrantedLater(setup: Setup, cards: Cards, log: seq<Effect>, m: nat, n: nat, r: Effect)
    requires m <= n <= |log| && Granted(setup, cards, log, m, r)
    ensures Granted(setup, cards, log, n, r)
  {
  }

  lemma RunsGrantedKept(setup: Setup, a: Cards, b: Cards, log: seq<Effect>)
    requires SameCards(a, b) && RunsGranted(setup, a, log)
    ensures RunsGranted(setup, b, log)
  {
    forall k | 0 <= k < |log| && log[k].RunStarted? ensures Granted(setup, b, log, k, log[k]) {
      GrantedKept(setup, a, b, log, [], k, log[k]);
      assert log + [] == log;
    }
  }

  // A row is appended that is not a run.
  lemma RunsGrantedMore(setup: Setup, a: Cards, b: Cards, log: seq<Effect>, e: Effect)
    requires SameCards(a, b) && RunsGranted(setup, a, log)
    requires e.RunStarted? ==> Granted(setup, b, log, |log|, e)
    ensures RunsGranted(setup, b, log + [e])
  {
    var more := log + [e];
    forall k | 0 <= k < |more| && more[k].RunStarted? ensures Granted(setup, b, more, k, more[k]) {
      if k < |log| {
        GrantedKept(setup, a, b, log, [e], k, log[k]);
      } else {
        GrantedKept(setup, b, b, log, [e], k, e);
      }
    }
  }

  lemma OnceMore(log: seq<Effect>, e: Effect)
    requires Once(log)
    requires e.RunStarted? ==> NoRun(log, e.card)
    requires IsDecision(e) ==> NoRow(log, e.card)
    ensures Once(log + [e])
  {
  }

  // Jobs stay in order when cards and log grow without touching their cards.
  lemma JobKept(setup: Setup, s: State, s': State, t: nat, i: int, t': nat, i': int, more: seq<Effect>)
    requires IsJob(s, t, i) && JobOk(setup, s, t, i) && IsJob(s', t', i') && JobOf(s, t, i) == JobOf(s', t', i')
    requires s'.tasks[t'].tenant == s.tasks[t].tenant && s'.log == s.log + more && SameCards(s.cards, s'.cards)
    requires s'.cards[JobOf(s, t, i).card].status == Approved
    requires (i' > 0 || !s'.tasks[t'].running) ==> (i > 0 || !s.tasks[t].running) && NoRun(more, JobOf(s, t, i).card)
    ensures JobOk(setup, s', t', i')
  {
    var r := RunStarted(JobOf(s, t, i).card, JobOf(s, t, i).args, s.tasks[t].tenant);
    GrantedKept(setup, s.cards, s'.cards, s.log, more, |s.log|, r);
    GrantedLater(setup, s'.cards, s'.log, |s.log|, |s'.log|, r);
  }

  // ---- each step keeps the invariant --------------------------------------------------------

  lemma CreateKeeps(setup: Setup, s: State, cid: nat, message: nat, tool: string, args: Args)
    requires RoundTrips(setup) && Inv(setup, s)
    ensures Inv(setup, Create(setup, s, cid, message, tool, args))
  {
    var s' := Create(setup, s, cid, message, tool, args);
    if s' != s {
      assert s.next in s.cards ==> CardOk(setup, s, s.next);
      assert s'.log == s.log + [];
      RunsGrantedKept(setup, s.cards, s'.cards, s.log);
      forall c | c in s'.cards ensures CardOk(setup, s', c) {
        if c in s.cards { assert CardOk(setup, s, c); }
      }
      forall t, i | IsJob(s', t, i) ensures JobOk(setup, s', t, i) {
        assert IsJob(s, t, i);
        JobKept(setup, s, s', t, i, t, i, []);
      }
      ApartKept(s, s');
    }
  }

  lemma ApartKept(s: State, s': State)
    requires Apart(s) && s'.tasks == s.tasks
    ensures Apart(s')
  {
    forall t, i, u, j | IsJob(s', t, i) && IsJob(s', u, j) && JobOf(s', t, i).card == JobOf(s', u, j).card
      ensures t == u && i == j
    {
      assert IsJob(s, t, i) && IsJob(s, u, j);
    }
  }

  // A pending card moves on, with a row of its own or none.
  ghost predicate Settles(setup: Setup, s: State, c: nat, card: Card, more: seq<Effect>) {
    && c in s.cards && s.cards[c].status == Pending && SameCard(s.cards[c], card)
    && (card.status == Pending ==> more == [] && SafeIsSafe(setup, card))
    && (more == [] || (|more| == 1 && more[0].card == c && !more[0].RunStarted?))
  }

  lemma SettleKeeps(setup: Setup, s: State, c: nat, card: Card, more: seq<Effect>)
    requires Inv(setup, s) && Settles(setup, s, c, card, more)
    ensures Inv(setup, s.(cards := s.cards[c := card], log := s.log + more))
  {
    var s' := s.(cards := s.cards[c := card], log := s.log + more);
    assert CardOk(setup, s, c);
    SettleLog(setup, s, c, card, more);
    SettleCards(setup, s, c, card, more);
    SettleJobs(setup, s, c, card, more);
    ApartKept(s, s');
  }

  lemma SettleCards(setup: Setup, s: State, c: nat, card: Card, more: seq<Effect>)
    requires CardsOk(setup, s) && Settles(setup, s, c, card, more)
    ensures CardsOk(setup, s.(cards := s.cards[c := card], log := s.log + more))
  {
    var s' := s.(cards := s.cards[c := card], log := s.log + more);
    forall d | d in s'.cards ensures CardOk(setup, s', d) {
      assert CardOk(setup, s, d);
    }
  }

  lemma SettleJobs(setup: Setup, s: State, c: nat, card: Card, more: seq<Effect>)
    requires JobsOk(setup, s) && Settles(setup, s, c, card, more)
    ensures JobsOk(setup, s.(cards := s.cards[c := card], log := s.log + more))
  {
    var s' := s.(cards := s.cards[c := card], log := s.log + more);
    forall t, i | IsJob(s', t, i) ensures JobOk(setup, s', t, i) {
      assert IsJob(s, t, i) && JobOk(setup, s, t, i);
      JobKept(setup, s, s', t, i, t, i, more);
    }
  }

  lemma SettleLog(setup: Setup, s: State, c: nat, card: Card, more: seq<Effect>)
    requires Settles(setup, s, c, card, more) && CardOk(setup, s, c) && Once(s.log)
             && RunsGranted(setup, s.cards, s.log)
    ensures Once(s.log + more) && RunsGranted(setup, s.cards[c := card], s.log + more)
  {
    if more == [] {
      assert s.log + more == s.log;
      RunsGrantedKept(setup, s.cards, s.cards[c := card], s.log);
    } else {
      assert more == [more[0]];
      RunsGrantedMore(setup, s.cards, s.cards[c := card], s.log, more[0]);
      OnceMore(s.log, more[0]);
    }
  }

  // A request that has approved nothing yet.
  lemma OpenKeeps(setup: Setup, s: State, user: nat, tenant: nat)
    requires Inv(setup, s)
    ensures Inv(setup, s.(tasks := s.tasks[s.nextTask := Task(user, tenant, [], false)], nextTask := s.nextTask + 1))
  {
    var s' := s.(tasks := s.tasks[s.nextTask := Task(user, tenant, [], false)], nextTask := s.nextTask + 1);
    forall c | c in s'.cards ensures CardOk(setup, s', c) { assert CardOk(setup, s, c); }
    forall t, i | IsJob(s', t, i) ensures JobOk(setup, s', t, i) {
      assert IsJob(s, t, i) && s'.log == s.log + [];
      JobKept(setup, s, s', t, i, t, i, []);
    }
    forall t, i, u, j | IsJob(s', t, i) && IsJob(s', u, j) && JobOf(s', t, i).card == JobOf(s', u, j).card
      ensures t == u && i == j
    {
      assert IsJob(s, t, i) && IsJob(s, u, j);
    }
  }

  // Approving one card under a request: the row, the status and the job.
  function Admit(s: State, t: nat, c: nat, card: Card, args: Args, confirmation: string): State
    requires t in s.tasks
  {
    var task := s.tasks[t];
    s.(cards := s.cards[c := card], log := s.log + [ApproveRow(c, task.user, args, confirmation)],
       tasks := s.tasks[t := task.(todo := task.todo + [Job(c, card.tool, args)])])
  }

  lemma AdmitKeeps(setup: Setup, s: State, t: nat, c: nat, card: Card, args: Args, confirmation: string)
    requires Inv(setup, s) && t in s.tasks && !s.tasks[t].running
    requires c in s.cards && s.cards[c].status == Pending && SameCard(s.cards[c], card) && card.status == Approved
    requires card.conv in setup.convs && setup.convs[card.conv] == Conversation(s.tasks[t].user, s.tasks[t].tenant)
    requires Entitled(setup, card.tool, args, confirmation)
    ensures Inv(setup, Admit(s, t, c, card, args, confirmation))
  {
    var row := ApproveRow(c, s.tasks[t].user, args, confirmation);
    var s1 := s.(cards := s.cards[c := card], log := s.log + [row]);
    SettleKeeps(setup, s, c, card, [row]);
    AddJobKeeps(setup, s, s1, t, Job(c, card.tool, args), row);
  }

  lemma AddJobKeeps(setup: Setup, s: State, s1: State, t: nat, job: Job, row: Effect)
    requires Inv(setup, s) && Inv(setup, s1) && t in s.tasks && !s.tasks[t].running && s1.tasks == s.tasks
    requires s1.log == s.log + [row] && job.card in s1.cards && s1.cards[job.card].status == Approved
             && s1.cards[job.card].tool == job.tool
    requires job.card in s.cards && s.cards[job.card].status == Pending
    requires Grants(setup, s1.cards, row, RunStarted(job.card, job.args, s.tasks[t].tenant))
    ensures Inv(setup, s1.(tasks := s1.tasks[t := s1.tasks[t].(todo := s1.tasks[t].todo + [job])]))
  {
    var s' := s1.(tasks := s1.tasks[t := s1.tasks[t].(todo := s1.tasks[t].todo + [job])]);
    var n := |s1.tasks[t].todo|;
    assert s'.log == s1.log + [];
    forall c | c in s'.cards ensures CardOk(setup, s', c) { assert CardOk(setup, s1, c); }
    forall u, i | IsJob(s', u, i) ensures JobOk(setup, s', u, i) {
      if u == t && i == n {
        assert CardOk(setup, s, job.card);
        assert s1.log[|s.log|] == row;
      } else {
        assert IsJob(s1, u, i);
        JobKept(setup, s1, s', u, i, u, i, []);
      }
    }
    assert forall u, i :: IsJob(s1, u, i) ==> JobOf(s1, u, i).card != job.card by {
      forall u, i | IsJob(s1, u, i) ensures JobOf(s1, u, i).card != job.card {
        assert IsJob(s, u, i) && JobOk(setup, s, u, i);
      }
    }
    AddedApart(s1, s', t, job);
  }

  lemma AddedApart(s1: State, s': State, t: nat, job: Job)
    requires Apart(s1) && t in s1.tasks && s'.tasks == s1.tasks[t := s1.tasks[t].(todo := s1.tasks[t].todo + [job])]
    requires forall u, i :: IsJob(s1, u, i) ==> JobOf(s1, u, i).card != job.card
    ensures Apart(s')
  {
    var n := |s1.tasks[t].todo|;
    forall u, i, v, j | IsJob(s', u, i) && IsJob(s', v, j) && JobOf(s', u, i).card == JobOf(s', v, j).card
      ensures u == v && i == j
    {
      assert !(u == t && i == n) ==> IsJob(s1, u, i) && JobOf(s1, u, i) == JobOf(s', u, i);
      assert !(v == t && j == n) ==> IsJob(s1, v, j) && JobOf(s1, v, j) == JobOf(s', v, j);
    }
  }

  // The approved case: the request is opened, and the card admitted under it.
  lemma ApprovedKeeps(setup: Setup, s: State, user: nat, tenant: nat, id: nat, card: Card, args: Args,
                      confirmation: string)
    requires Inv(setup, s) && id in s.cards && s.cards[id].status == Pending && SameCard(s.cards[id], card)
             && card.status == Approved
    requires card.conv in setup.convs && setup.convs[card.conv] == Conversation(user, tenant)
    requires Entitled(setup, card.tool, args, confirmation)
    ensures Inv(setup, State(s.cards[id := card], s.next, s.log + [ApproveRow(id, user, args, confirmation)],
                             s.tasks[s.nextTask := Task(user, tenant, [Job(id, card.tool, args)], false)],
                             s.nextTask + 1))
  {
    var s1 := s.(tasks := s.tasks[s.nextTask := Task(user, tenant, [], false)], nextTask := s.nextTask + 1);
    OpenKeeps(setup, s, user, tenant);
    AdmitKeeps(setup, s1, s.nextTask, id, card, args, confirmation);
    var job := Job(id, card.tool, args);
    assert [] + [job] == [job];
    assert s1.tasks[s.nextTask := Task(user, tenant, [job], false)] ==
        s.tasks[s.nextTask := Task(user, tenant, [job], false)];
  }

  lemma ApproveKeeps(setup: Setup, s: State, user: nat, cid: nat, id: nat, form: map<string, string>,
                     confirmation: string)
    requires Inv(setup, s)
    ensures Inv(setup, Approve(setup, s, user, cid, id, form, confirmation))
  {
    if Owns(setup, s, user, cid, id) && s.cards[id].status == Pending {
      var card := s.cards[id];
      if card.tool !in setup.registry {
        SettleKeeps(setup, s, id, card.(status := Failed), [FailRow(id, user)]);
      } else {
        var args := Edited(LoadArgs(setup, card.args), setup.registry[card.tool].fields, form);
        var tier := Classify(setup, card.tool, args);
        if tier.Some? && tier.value.Elevated? && !Confirmed(setup.registry[card.tool], args, confirmation) {
          SettleKeeps(setup, s, id, card.(tier := Elevated), []);
          assert s.log + [] == s.log;
        } else if tier.Some? {
          var card' := card.(tier := tier.value, effective := Some(setup.dumps(args)), status := Approved,
              approver := Some(user));
          ApprovedKeeps(setup, s, user, setup.convs[cid].tenant, id, card', args, confirmation);
        }
      }
    }
  }

  // ---- group approval --------------------------------------------------------------------

  ghost predicate Ascending(ids: seq<nat>) {
    forall i, j :: 0 <= i < j < |ids| ==> ids[i] < ids[j]
  }

  ghost predicate AllInGroup(cards: Cards, cid: nat, message: nat, n: nat, ids: seq<nat>) {
    forall id: nat :: id in ids <==> id < n && InGroup(cards, cid, message, id)
  }

  /** The query lists the pending safe cards of the message, all of them, in id order. */
  lemma {:induction false} GroupShape(cards: Cards, cid: nat, message: nat, n: nat)
    ensures AllInGroup(cards, cid, message, n, Group(cards, cid, message, n))
    ensures Ascending(Group(cards, cid, message, n))
  {
    if n > 0 {
      GroupShape(cards, cid, message, n - 1);
      var before := Group(cards, cid, message, n - 1);
      assert forall i :: 0 <= i < |before| ==> before[i] in before;
    }
  }

  // The state after part of the group loop.
  function Partway(s: State, b: Batch, user: nat, tenant: nat): State {
    State(b.cards, s.next, b.log, s.tasks[s.nextTask := Task(user, tenant, b.jobs, false)], s.nextTask + 1)
  }

  lemma {:induction false} TakeAllKeeps(setup: Setup, s: State, user: nat, cid: nat, message: nat, ids: seq<nat>)
    requires Inv(setup, s) && cid in setup.convs && setup.convs[cid].owner == user
    requires forall id :: id in ids ==> InGroup(s.cards, cid, message, id)
    requires Ascending(ids)
    ensures var b := TakeAll(setup, Batch(s.cards, s.log, []), user, ids);
            && Inv(setup, Partway(s, b, user, setup.convs[cid].tenant))
            && (forall c :: c in s.cards && c !in ids ==> c in b.cards && b.cards[c] == s.cards[c])
    decreases |ids|
  {
    var b0, tenant := Batch(s.cards, s.log, []), setup.convs[cid].tenant;
    if ids == [] {
      OpenKeeps(setup, s, user, tenant);
    } else {
      var init, id := ids[..|ids| - 1], ids[|ids| - 1];
      assert id in ids && id !in init && forall c :: c in init ==> c in ids;
      TakeAllKeeps(setup, s, user, cid, message, init);
      TakeKeeps(setup, s, TakeAll(setup, b0, user, init), user, cid, message, id);
    }
  }

  lemma TakeKeeps(setup: Setup, s: State, b: Batch, user: nat, cid: nat, message: nat, id: nat)
    requires cid in setup.convs && setup.convs[cid].owner == user
    requires Inv(setup, Partway(s, b, user, setup.convs[cid].tenant)) && InGroup(b.cards, cid, message, id)
    ensures Inv(setup, Partway(s, Take(setup, b, user, id), user, setup.convs[cid].tenant))
  {
    var tenant := setup.convs[cid].tenant;
    var s1, card := Partway(s, b, user, tenant), b.cards[id];
    assert CardOk(setup, s1, id);
    if card.tool !in setup.registry {
      SettleKeeps(setup, s1, id, card.(status := Failed), []);
      assert b.log + [] == b.log;
    } else {
      var args := LoadArgs(setup, card.args);
      var card' := card.(effective := Some(setup.dumps(args)), status := Approved, approver := Some(user));
      AdmitKeeps(setup, s1, s.nextTask, id, card', args, "");
      assert Admit(s1, s.nextTask, id, card', args, "").tasks ==
          Partway(s, Take(setup, b, user, id), user, tenant).tasks;
    }
  }

  lemma ApproveGroupKeeps(setup: Setup, s: State, user: nat, cid: nat, message: nat)
    requires Inv(setup, s)
    ensures Inv(setup, ApproveGroup(setup, s, user, cid, message))
    ensures forall c :: c in s.cards && s.cards[c].status != Pending ==>
              c in ApproveGroup(setup, s, user, cid, message).cards
                  && ApproveGroup(setup, s, user, cid, message).cards[c] == s.cards[c]
  {
    var ids := Group(s.cards, cid, message, s.next);
    if cid in setup.convs && setup.convs[cid].owner == user && ids != [] {
      GroupShape(s.cards, cid, message, s.next);
      TakeAllKeeps(setup, s, user, cid, message, ids);
    }
  }

  // What the loop has made of card `c`.
  ghost predicate Handled(setup: Setup, s: State, b: Batch, user: nat, ids: seq<nat>, c: nat)
    requires c in s.cards
  {
    && c in b.cards
    && (c !in ids ==> b.cards[c] == s.cards[c] && forall i :: 0 <= i < |b.jobs| ==> b.jobs[i].card != c)
    && (c in ids && s.cards[c].tool !in setup.registry ==> b.cards[c] == s.cards[c].(status := Failed))
    && (c in ids && s.cards[c].tool in setup.registry ==>
          && b.cards[c].status == Approved && b.cards[c].approver == Some(user)
          && Job(c, s.cards[c].tool, LoadArgs(setup, s.cards[c].args)) in b.jobs)
  }

  lemma {:induction false} TakeAllHandles(setup: Setup, s: State, user: nat, ids: seq<nat>, c: nat)
    requires c in s.cards && Ascending(ids)
    ensures Handled(setup, s, TakeAll(setup, Batch(s.cards, s.log, []), user, ids), user, ids, c)
    decreases |ids|
  {
    if ids != [] {
      var init, id := ids[..|ids| - 1], ids[|ids| - 1];
      assert id !in init;
      TakeAllHandles(setup, s, user, init, c);
      TakeHandles(setup, s, TakeAll(setup, Batch(s.cards, s.log, []), user, init), user, init, id, c);
      assert ids == init + [id];
    }
  }

  lemma TakeHandles(setup: Setup, s: State, b: Batch, user: nat, init: seq<nat>, id: nat, c: nat)
    requires c in s.cards && Handled(setup, s, b, user, init, c) && id !in init
    ensures Handled(setup, s, Take(setup, b, user, id), user, init + [id], c)
  {
  }

  // A pending card of the message that is shown as safe.
  predicate IsPendingSafe(card: Card, cid: nat, message: nat) {
    card.status.Pending? && card.tier.Safe? && card.conv == cid && card.message == message
  }

  /** Group approval approves and queues, with its proposed arguments, every pending
      safe card of the message whose tool is known, fails those whose tool is not, and
      touches no other card. */
  lemma GroupTakesAll(setup: Setup, s: State, user: nat, cid: nat, message: nat, c: nat)
    requires c in s.cards && Inv(setup, s)
    ensures var s' := ApproveGroup(setup, s, user, cid, message);
            var asked := && cid in setup.convs && setup.convs[cid].owner == user
                         && IsPendingSafe(s.cards[c], cid, message);
            && c in s'.cards
            && (!asked ==> s'.cards[c] == s.cards[c])
            && (asked && s.cards[c].tool !in setup.registry ==> s'.cards[c] == s.cards[c].(status := Failed))
            && (asked && s.cards[c].tool in setup.registry ==>
                  && s'.cards[c].status == Approved && s'.cards[c].approver == Some(user) && s.nextTask in s'.tasks
                  && Job(c, s.cards[c].tool, LoadArgs(setup, s.cards[c].args)) in s'.tasks[s.nextTask].todo)
  {
    var ids := Group(s.cards, cid, message, s.next);
    assert CardOk(setup, s, c);
    GroupShape(s.cards, cid, message, s.next);
    assert c in ids <==> InGroup(s.cards, cid, message, c);
    TakeAllHandles(setup, s, user, ids, c);
  }

  // ---- runners ---------------------------------------------------------------------------

  lemma StartKeeps(setup: Setup, s: State, t: nat)
    requires Inv(setup, s)
    ensures Inv(setup, Start(setup, s, t))
  {
    if CanStart(s, t) {
      assert IsJob(s, t, 0) && JobOk(setup, s, t, 0);
      var job := JobOf(s, t, 0);
      var e := RunStarted(job.card, job.args, s.tasks[t].tenant);
      var s' := Start(setup, s, t);
      assert s'.log == s.log + [e];
      RunsGrantedMore(setup, s.cards, s.cards, s.log, e);
      OnceMore(s.log, e);
      StartCards(setup, s, t);
      StartJobs(setup, s, t);
    }
  }

  lemma StartCards(setup: Setup, s: State, t: nat)
    requires CardsOk(setup, s) && CanStart(s, t) && IsJob(s, t, 0) && JobOk(setup, s, t, 0)
    ensures CardsOk(setup, Start(setup, s, t))
  {
    var s' := Start(setup, s, t);
    forall c | c in s'.cards ensures CardOk(setup, s', c) { assert CardOk(setup, s, c); }
  }

  lemma StartJobs(setup: Setup, s: State, t: nat)
    requires JobsOk(setup, s) && Apart(s) && CanStart(s, t) && IsJob(s, t, 0) && JobOk(setup, s, t, 0)
    ensures JobsOk(setup, Start(setup, s, t)) && Apart(Start(setup, s, t))
  {
    var s' := Start(setup, s, t);
    var e := RunStarted(JobOf(s, t, 0).card, JobOf(s, t, 0).args, s.tasks[t].tenant);
    forall u, i | IsJob(s', u, i) ensures JobOk(setup, s', u, i) {
      assert IsJob(s, u, i) && JobOk(setup, s, u, i);
      JobKept(setup, s, s', u, i, u, i, [e]);
    }
    forall u, i, v, j | IsJob(s', u, i) && IsJob(s', v, j) && JobOf(s', u, i).card == JobOf(s', v, j).card
      ensures u == v && i == j
    {
      assert IsJob(s, u, i) && IsJob(s, v, j);
    }
  }

  lemma FinishKeeps(setup: Setup, s: State, t: nat, ok: bool)
    requires Inv(setup, s)
    ensures Inv(setup, Finish(s, t, ok))
  {
    if CanFinish(s, t) {
      assert IsJob(s, t, 0) && JobOk(setup, s, t, 0);
      var e := ExecuteRow(JobOf(s, t, 0).card, s.tasks[t].user, ok);
      var s' := Finish(s, t, ok);
      assert s'.log == s.log + [e];
      RunsGrantedMore(setup, s.cards, s'.cards, s.log, e);
      OnceMore(s.log, e);
      FinishCards(setup, s, t, ok);
      FinishJobs(setup, s, t, ok);
      PoppedApart(s, s', t);
    }
  }

  lemma FinishCards(setup: Setup, s: State, t: nat, ok: bool)
    requires CardsOk(setup, s) && CanFinish(s, t) && IsJob(s, t, 0) && JobOk(setup, s, t, 0)
    ensures CardsOk(setup, Finish(s, t, ok))
  {
    var s' := Finish(s, t, ok);
    forall c | c in s'.cards ensures CardOk(setup, s', c) { assert CardOk(setup, s, c); }
  }

  lemma FinishJobs(setup: Setup, s: State, t: nat, ok: bool)
    requires JobsOk(setup, s) && Apart(s) && CanFinish(s, t) && IsJob(s, t, 0)
    ensures JobsOk(setup, Finish(s, t, ok))
  {
    var s' := Finish(s, t, ok);
    var e := ExecuteRow(JobOf(s, t, 0).card, s.tasks[t].user, ok);
    forall u, i | IsJob(s', u, i) ensures JobOk(setup, s', u, i) {
      var i0 := if u == t then i + 1 else i;
      assert IsJob(s, u, i0) && JobOk(setup, s, u, i0) && JobOf(s, u, i0) == JobOf(s', u, i);
      JobKept(setup, s, s', u, i0, u, i, [e]);
    }
  }

  lemma PoppedApart(s: State, s': State, t: nat)
    requires Apart(s) && IsJob(s, t, 0)
             && s'.tasks == s.tasks[t := s.tasks[t].(todo := s.tasks[t].todo[1..], running := false)]
    ensures Apart(s')
  {
    forall u, i, v, j | IsJob(s', u, i) && IsJob(s', v, j) && JobOf(s', u, i).card == JobOf(s', v, j).card
      ensures u == v && i == j
    {
      var i0, j0 := if u == t then i + 1 else i, if v == t then j + 1 else j;
      assert IsJob(s, u, i0) && IsJob(s, v, j0) && JobOf(s, u, i0) == JobOf(s', u, i)
          && JobOf(s, v, j0) == JobOf(s', v, j);
    }
  }

  lemma CancelKeeps(setup: Setup, s: State, t: nat)
    requires Inv(setup, s)
    ensures Inv(setup, s.(tasks := s.tasks - {t}))
  {
    var s' := s.(tasks := s.tasks - {t});
    assert s'.log == s.log + [];
    forall c | c in s'.cards ensures CardOk(setup, s', c) { assert CardOk(setup, s, c); }
    forall u, i | IsJob(s', u, i) ensures JobOk(setup, s', u, i) {
      assert IsJob(s, u, i) && JobOk(setup, s, u, i);
      JobKept(setup, s, s', u, i, u, i, []);
    }
    forall u, i, v, j | IsJob(s', u, i) && IsJob(s', v, j) && JobOf(s', u, i).card == JobOf(s', v, j).card
      ensures u == v && i == j
    {
      assert IsJob(s, u, i) && IsJob(s, v, j);
    }
  }

  lemma StepKeeps(setup: Setup, s: State, e: Event)
    requires RoundTrips(setup) && Inv(setup, s)
    ensures Inv(setup, Step(setup, s, e))
  {
    match e
    case CreateCard(cid, message, tool, args) => CreateKeeps(setup, s, cid, message, tool, args);
    case RejectCard(user, cid, card) =>
      if Owns(setup, s, user, cid, card) && s.cards[card].status == Pending {
        SettleKeeps(setup, s, card, s.cards[card].(status := Rejected, approver := Some(user)),
            [RejectRow(card, user)]);
      }
    case ApproveCard(user, cid, card, form, confirmation) =>
      ApproveKeeps(setup, s, user, cid, card, form, confirmation);
    case ApproveMessage(user, cid, message) => ApproveGroupKeeps(setup, s, user, cid, message);
    case StartRunner(t) => StartKeeps(setup, s, t);
    case FinishRunner(t, ok) => FinishKeeps(setup, s, t, ok);
    case Cancel(t) => CancelKeeps(setup, s, t);
  }

  // ---- every run -------------------------------------------------------------------------

  // A database before the run: any cards, safe where they say so; no request open.
  ghost predicate Fresh(setup: Setup, s: State) {
    && s.log == [] && s.tasks == map[]
    && forall c :: c in s.cards ==> c < s.next && (s.cards[c].status == Pending ==> SafeIsSafe(setup, s.cards[c]))
  }

  lemma {:induction false} RunInvariant(setup: Setup, s: State, es: seq<Event>)
    requires RoundTrips(setup) && Fresh(setup, s)
    ensures Inv(setup, Exec(setup, s, es))
  {
    if es != [] {
      RunInvariant(setup, s, es[..|es| - 1]);
      StepKeeps(setup, Exec(setup, s, es[..|es| - 1]), es[|es| - 1]);
    }
  }

  /** Over every interleaving, a runner starts at most once per card, a card is decided
      at most once, and every runner start follows a committed approval of the same
      arguments, by the owner of the conversation, that entitles it. */
  lemma RunsOnceAfterApproval(setup: Setup, s: State, es: seq<Event>)
    requires RoundTrips(setup) && Fresh(setup, s)
    ensures Once(Exec(setup, s, es).log)
    ensures RunsGranted(setup, Exec(setup, s, es).cards, Exec(setup, s, es).log)
  {
    RunInvariant(setup, s, es);
  }

  /** A runner only ever starts while its card is committed as approved, and a card
      that is pending or rejected has never had one. */
  lemma StartsOnlyApproved(setup: Setup, s: State, es: seq<Event>, t: nat, c: nat)
    requires RoundTrips(setup) && Fresh(setup, s)
    ensures var now, next := Exec(setup, s, es), Start(setup, Exec(setup, s, es), t);
            && (next.log != now.log ==>
                  var started := next.log[|next.log| - 1].card;
                  started in now.cards && now.cards[started].status == Approved)
            && (c in now.cards && (now.cards[c].status == Pending || now.cards[c].status == Rejected) ==>
                NoRun(now.log, c))
  {
    RunInvariant(setup, s, es);
    var now := Exec(setup, s, es);
    if CanStart(now, t) {
      assert IsJob(now, t, 0) && JobOk(setup, now, t, 0);
    }
    assert c in now.cards ==> CardOk(setup, now, c);
  }

  predicate Terminal(status: Status) {
    status.Rejected? || status.Executed? || status.Failed?
  }

  // The moves a status can make.
  predicate Moves(a: Status, b: Status) {
    || a == b
    || (a.Pending? && (b.Approved? || b.Rejected? || b.Failed?))
    || (a.Approved? && (b.Executed? || b.Failed?))
  }

  // What a step may do to one card.
  predicate MovesCard(s: State, s': State, c: nat)
    requires c in s.cards
  {
    && c in s'.cards && Moves(s.cards[c].status, s'.cards[c].status)
    && (Terminal(s.cards[c].status) ==> s'.cards[c] == s.cards[c])
  }

  lemma ApproveMoves(setup: Setup, s: State, user: nat, cid: nat, id: nat, form: map<string, string>,
                     confirmation: string, c: nat)
    requires c in s.cards
    ensures MovesCard(s, Approve(setup, s, user, cid, id, form, confirmation), c)
  {
  }

  lemma GroupMoves(setup: Setup, s: State, user: nat, cid: nat, message: nat, c: nat)
    requires Inv(setup, s) && c in s.cards
    ensures MovesCard(s, ApproveGroup(setup, s, user, cid, message), c)
  {
    ApproveGroupKeeps(setup, s, user, cid, message);
    GroupTakesAll(setup, s, user, cid, message, c);
  }

  lemma FinishMoves(setup: Setup, s: State, t: nat, ok: bool, c: nat)
    requires JobsOk(setup, s) && c in s.cards
    ensures MovesCard(s, Finish(s, t, ok), c)
  {
    if CanFinish(s, t) { assert IsJob(s, t, 0) && JobOk(setup, s, t, 0); }
  }

  lemma StepMoves(setup: Setup, s: State, e: Event, c: nat)
    requires Inv(setup, s) && c in s.cards
    ensures var s' := Step(setup, s, e);
            && c in s'.cards && Moves(s.cards[c].status, s'.cards[c].status)
            && (Terminal(s.cards[c].status) ==> s'.cards[c] == s.cards[c])
  {
    assert CardOk(setup, s, c);
    match e
    case ApproveCard(user, cid, id, form, confirmation) => ApproveMoves(setup, s, user, cid, id, form, confirmation, c);
    case ApproveMessage(user, cid, message) => GroupMoves(setup, s, user, cid, message, c);
    case FinishRunner(t, ok) => FinishMoves(setup, s, t, ok, c);
    case _ =>
  }

  /** Rejected, executed and failed cards never change again. */
  lemma {:induction false} TerminalForever(setup: Setup, s: State, es: seq<Event>, k: nat, c: nat)
    requires RoundTrips(setup) && Fresh(setup, s) && k <= |es|
    requires c in Exec(setup, s, es[..k]).cards && Terminal(Exec(setup, s, es[..k]).cards[c].status)
    ensures c in Exec(setup, s, es).cards && Exec(setup, s, es).cards[c] == Exec(setup, s, es[..k]).cards[c]
    decreases |es|
  {
    if k == |es| {
      assert es[..k] == es;
    } else {
      var init := es[..|es| - 1];
      assert init[..k] == es[..k];
      TerminalForever(setup, s, init, k, c);
      RunInvariant(setup, s, init);
      StepMoves(setup, Exec(setup, s, init), es[|es| - 1], c);
    }
  }
}
