/** The request handlers of plan cards, up to and after each runner call, as the program runs them. */
module PlanRoutes {
  import opened Prelude
  import opened Text
  import opened PlanCards
  import PlanTeardown

  class Desk {
    const setup: Setup
    var cards: Cards
    var next: nat
    var log: seq<Effect>
    var tasks: map<nat, Task>
    var nextTask: nat

    ghost function View(): State
      reads this
    {
      State(cards, next, log, tasks, nextTask)
    }

    constructor (setup: Setup, cards: Cards, next: nat)
      ensures this.setup == setup && View() == State(cards, next, [], map[], 0)
    {
      this.setup, this.cards, this.next, log, tasks, nextTask := setup, cards, next, [], map[], 0;
    }

    /** A tool call of the model becomes a pending card. */
    method CreateCard(cid: nat, message: nat, tool: string, args: Args)
      modifies this
      ensures View() == Step(setup, old(View()), PlanCards.CreateCard(cid, message, tool, args))
    {
      if tool !in setup.registry || cid !in setup.convs { return; }
      var tier := Classify(setup, tool, args);
      if tier.None? { return; }
      cards := cards[next := Card(cid, message, tool, setup.dumps(args), None, tier.value, Pending, None)];
      next := next + 1;
    }

    method OwnCard(user: nat, cid: nat, id: nat) returns (found: bool)
      ensures found == Owns(setup, View(), user, cid, id)
    {
      if cid !in setup.convs || setup.convs[cid].owner != user { return false; }
      return id in cards && cards[id].conv == cid;
    }

    /** `plan_reject` up to its return: the card is read, and if it is pending a
        rejection is left in the session. */
    method StageReject(user: nat, cid: nat, id: nat) returns (staged: bool)
      ensures staged == PlanTeardown.MayReject(setup, View(), user, cid, id)
    {
      var found := OwnCard(user, cid, id);
      return found && cards[id].status == Pending;
    }

    /** The commit when its session closes: the row is written as it was staged, without
        another look at the status. */
    method CommitReject(user: nat, id: nat)
      requires id in cards
      modifies this
      ensures View() == PlanTeardown.WriteReject(old(View()), user, id)
    {
      cards := cards[id := cards[id].(status := Rejected)];
      cards := cards[id := cards[id].(approver := Some(user))];
      log := log + [RejectRow(id, user)];
    }

    /** `plan_reject` with nothing in between. */
    method RejectCard(user: nat, cid: nat, id: nat)
      modifies this
      ensures View() == Step(setup, old(View()), PlanCards.RejectCard(user, cid, id))
    {
      var staged := StageReject(user, cid, id);
      if staged { CommitReject(user, id); }
    }

    // The operator's edits.
    method ApplyEdits(proposed: Args, fields: seq<string>, form: map<string, string>) returns (args: Args)
      ensures args == Edited(proposed, fields, form)
    {
      args := proposed;
      for i := 0 to |fields|
        invariant args == Edited(proposed, fields[..i], form)
      {
        assert fields[..i + 1][..i] == fields[..i];
        var value := Typed(form, fields[i]);
        if value != "" { args := args[fields[i] := Text(value)]; }
      }
      assert fields[..|fields|] == fields;
    }

    /** `plan_approve` up to its commit; `task` then has the runner to call. */
    method ApproveCard(user: nat, cid: nat, id: nat, form: map<string, string>, confirmation: string)
        returns (task: Option<nat>)
      modifies this
      ensures View() == Step(setup, old(View()), PlanCards.ApproveCard(user, cid, id, form, confirmation))
      ensures task.Some? <==> nextTask == old(nextTask) + 1
      ensures task.Some? ==> task.value == old(nextTask) && CanStart(View(), task.value)
    {
      task := None;
      var found := OwnCard(user, cid, id);
      if !found || cards[id].status != Pending { return; }
      if cards[id].tool !in setup.registry {
        cards := cards[id := cards[id].(status := Failed)];
        log := log + [FailRow(id, user)];
        return;
      }
      var spec := setup.registry[cards[id].tool];
      var args := ApplyEdits(LoadArgs(setup, cards[id].args), spec.fields, form);
      var tier := Classify(setup, cards[id].tool, args);
      if tier.None? { return; }
      if tier.value.Elevated? && spec.confirm.Some? {
        var expected := Shown(args, spec.confirm.value);
        if Strip(confirmation) != expected {
          cards := cards[id := cards[id].(tier := Elevated)];
          return;
        }
      }
      var card := cards[id].(tier := tier.value, effective := Some(setup.dumps(args)));
      cards := cards[id := card.(status := Approved, approver := Some(user))];
      log := log + [ApproveRow(id, user, args, confirmation)];
      task := Some(nextTask);
      tasks := tasks[nextTask := Task(user, setup.convs[cid].tenant, [Job(id, card.tool, args)], false)];
      nextTask := nextTask + 1;
    }

    // The query of the pending safe cards of a message, ordered by id.
    method PendingSafe(cid: nat, message: nat) returns (ids: seq<nat>)
      ensures ids == Group(cards, cid, message, next)
    {
      ids := [];
      for n := 0 to next
        invariant ids == Group(cards, cid, message, n)
      {
        if InGroup(cards, cid, message, n) { ids := ids + [n]; }
      }
    }

    /** `plan_approve_group` up to its commit. */
    method ApproveMessage(user: nat, cid: nat, message: nat)
      modifies this
      ensures View() == Step(setup, old(View()), PlanCards.ApproveMessage(user, cid, message))
    {
      if cid !in setup.convs || setup.convs[cid].owner != user { return; }
      var ids := PendingSafe(cid, message);
      if ids == [] { return; }
      var jobs: seq<Job> := [];
      ghost var start := Batch(cards, log, []);
      for i := 0 to |ids|
        invariant Batch(cards, log, jobs) == TakeAll(setup, start, user, ids[..i])
        invariant tasks == old(tasks) && next == old(next) && nextTask == old(nextTask)
      {
        var id := ids[i];
        assert ids[..i + 1][..i] == ids[..i];
        if id !in cards { continue; }
        if cards[id].tool !in setup.registry {
          cards := cards[id := cards[id].(status := Failed)];
          continue;
        }
        var args := LoadArgs(setup, cards[id].args);
        jobs := jobs + [Job(id, cards[id].tool, args)];
        cards := cards[id := cards[id].(effective := Some(setup.dumps(args)), status := Approved,
            approver := Some(user))];
        log := log + [ApproveRow(id, user, args, "")];
      }
      assert ids[..|ids|] == ids;
      tasks := tasks[nextTask := Task(user, setup.convs[cid].tenant, jobs, false)];
      nextTask := nextTask + 1;
    }

    /** The next runner of a request is called, in the tenant of its conversation. */
    method StartRunner(t: nat) returns (call: Option<(string, Args, nat)>)
      requires CanStart(View(), t)
      modifies this
      ensures View() == Step(setup, old(View()), PlanCards.StartRunner(t))
      ensures call.Some? <==> old(tasks[t].todo[0].tool) in setup.registry
      ensures call.Some? ==> log == old(log) + [RunStarted(old(tasks[t].todo[0].card), call.value.1, call.value.2)]
    {
      var task := tasks[t];
      var job := task.todo[0];
      if job.tool !in setup.registry {
        tasks := tasks[t := task.(todo := task.todo[1..])];
        return None;
      }
      log := log + [RunStarted(job.card, job.args, task.tenant)];
      tasks := tasks[t := task.(running := true)];
      return Some((job.tool, job.args, task.tenant));
    }

    /** Its result is recorded in a session of its own. */
    method FinishRunner(t: nat, ok: bool)
      requires CanFinish(View(), t)
      modifies this
      ensures View() == Step(setup, old(View()), PlanCards.FinishRunner(t, ok))
    {
      var task := tasks[t];
      var id := task.todo[0].card;
      if id in cards {
        cards := cards[id := cards[id].(status := if ok then Executed else Failed)];
      }
      log := log + [ExecuteRow(id, task.user, ok)];
      tasks := tasks[t := task.(todo := task.todo[1..], running := false)];
    }
  }
}
