/**
 The approval protocol of plan cards: creation by the model, then reject, approve and
 group approve, each a committed section followed by runners that are awaited one by
 one while other requests go on.
 */
module PlanCards {
  import opened Prelude
  import opened Text

  datatype Tier = Safe | Elevated

  datatype Status = Pending | Approved | Rejected | Executed | Failed

  // A JSON value: a string, or anything else with its printed form.
  datatype Value = Text(text: string) | Other(shown: string)

  type Args = map<string, Value>

  // A registered tool; `classify` is None where it raises.
  datatype Spec = Spec(fields: seq<string>, classify: Args -> Option<Tier>, confirm: Option<string>)

  datatype Conversation = Conversation(owner: nat, tenant: nat)

  // What stays fixed: registry, command allow-list, JSON codec, conversations.
  datatype Setup = Setup(
    registry: map<string, Spec>,
    allowed: string -> bool,
    loads: string -> Option<Args>,
    dumps: Args -> string,
    convs: map<nat, Conversation>)

  datatype Card = Card(
    conv: nat, message: nat, tool: string, args: string,
    effective: Option<string>, tier: Tier, status: Status, approver: Option<nat>)

  type Cards = map<nat, Card>

  // What has happened, in order: committed audit rows, and runner starts. The
  // approval row also remembers the arguments and the typed confirmation.
  datatype Effect =
    | ApproveRow(card: nat, user: nat, args: Args, confirmation: string)
    | RejectRow(card: nat, user: nat)
    | FailRow(card: nat, user: nat)
    | RunStarted(card: nat, args: Args, tenant: nat)
    | ExecuteRow(card: nat, user: nat, ok: bool)

  datatype Job = Job(card: nat, tool: string, args: Args)

  // A request that has committed its approvals and still has runners to await.
  datatype Task = Task(user: nat, tenant: nat, todo: seq<Job>, running: bool)

  datatype State = State(cards: Cards, next: nat, log: seq<Effect>, tasks: map<nat, Task>, nextTask: nat)

  ghost predicate RoundTrips(setup: Setup) {
    forall a: Args :: setup.loads(setup.dumps(a)) == Some(a)
  }

  // ---- tiers and confirmation --------------------------------------------------------

  const COMMAND_TOOLS: set<string> := {"ssh_exec", "local_exec", "winrm_exec"}

  function CommandTier(setup: Setup, command: string): Tier {
    if Strip(command) != "" && setup.allowed(Strip(command)) then Safe else Elevated
  }

  // None where classification raises.
  function Classify(setup: Setup, tool: string, args: Args): Option<Tier>
    requires tool in setup.registry
  {
    if tool !in COMMAND_TOOLS then setup.registry[tool].classify(args)
    else if "command" !in args then Some(CommandTier(setup, ""))
    else match args["command"]
      case Text(c) => Some(CommandTier(setup, c))
      case Other(_) => None
  }

  function LoadArgs(setup: Setup, text: string): Args {
    match setup.loads(text)
    case Some(a) => a
    case None => map[]
  }

  // `str(args.get(field, ""))`.
  function Shown(args: Args, field: string): string {
    if field !in args then "" else match args[field] case Text(t) => t case Other(t) => t
  }

  function Typed(form: map<string, string>, field: string): string {
    if field in form then Strip(form[field]) else ""
  }

  // Operator edits, one schema field after the other.
  function Edited(args: Args, fields: seq<string>, form: map<string, string>): Args {
    if fields == [] then args
    else
      var before := Edited(args, fields[..|fields| - 1], form);
      var field := fields[|fields| - 1];
      if Typed(form, field) == "" then before else before[field := Text(Typed(form, field))]
  }

  /** A typed value wins over the proposed one, and nothing else changes. */
  lemma {:induction false} EditsWin(args: Args, fields: seq<string>, form: map<string, string>, f: string)
    ensures f in fields && Typed(form, f) != "" ==>
              f in Edited(args, fields, form) && Edited(args, fields, form)[f] == Text(Typed(form, f))
    ensures !(f in fields && Typed(form, f) != "") ==>
              (f in Edited(args, fields, form) <==> f in args)
                  && (f in args ==> Edited(args, fields, form)[f] == args[f])
  {
    if fields != [] {
      EditsWin(args, fields[..|fields| - 1], form, f);
    }
  }

  predicate Confirmed(spec: Spec, args: Args, confirmation: string) {
    spec.confirm.None? || Strip(confirmation) == Shown(args, spec.confirm.value)
  }

  /** What entitles a run: safe arguments, a tool without confirm field, or a typed
      confirmation that matches. */
  predicate Entitled(setup: Setup, tool: string, args: Args, confirmation: string) {
    && tool in setup.registry
    && Classify(setup, tool, args).Some?
    && (Classify(setup, tool, args).value.Safe? || Confirmed(setup.registry[tool], args, confirmation))
  }

  // ---- the committed sections --------------------------------------------------------

  predicate Owns(setup: Setup, s: State, user: nat, cid: nat, id: nat) {
    && cid in setup.convs && setup.convs[cid].owner == user
    && id in s.cards && s.cards[id].conv == cid
  }

  function Create(setup: Setup, s: State, cid: nat, message: nat, tool: string, args: Args): State {
    if tool !in setup.registry || Classify(setup, tool, args).None? || cid !in setup.convs then s
    else
      var card := Card(cid, message, tool, setup.dumps(args), None, Classify(setup, tool, args).value, Pending, None);
      s.(cards := s.cards[s.next := card], next := s.next + 1)
  }

  function Reject(setup: Setup, s: State, user: nat, cid: nat, id: nat): State {
    if !Owns(setup, s, user, cid, id) || s.cards[id].status != Pending then s
    else s.(cards := s.cards[id := s.cards[id].(status := Rejected, approver := Some(user))],
            log := s.log + [RejectRow(id, user)])
  }

  function Approve(setup: Setup, s: State, user: nat, cid: nat, id: nat, form: map<string, string>,
                   confirmation: string): State {
    if !Owns(setup, s, user, cid, id) || s.cards[id].status != Pending then s
    else
      var card := s.cards[id];
      if card.tool !in setup.registry then
        s.(cards := s.cards[id := card.(status := Failed)], log := s.log + [FailRow(id, user)])
      else
        var args := Edited(LoadArgs(setup, card.args), setup.registry[card.tool].fields, form);
        var tier := Classify(setup, card.tool, args);
        if tier.None? then s
        else if tier.value.Elevated? && !Confirmed(setup.registry[card.tool], args, confirmation) then
          s.(cards := s.cards[id := card.(tier := Elevated)])
        else
          var approved := card.(tier := tier.value, effective := Some(setup.dumps(args)), status := Approved,
                                approver := Some(user));
          State(s.cards[id := approved],
                s.next,
                s.log + [ApproveRow(id, user, args, confirmation)],
                s.tasks[s.nextTask := Task(user, setup.convs[cid].tenant, [Job(id, card.tool, args)], false)],
                s.nextTask + 1)
  }

  // The pending safe cards of a message among the first `n` ids, in id order.
  function Group(cards: Cards, cid: nat, message: nat, n: nat): seq<nat> {
    if n == 0 then []
    else Group(cards, cid, message, n - 1) + (if InGroup(cards, cid, message, n - 1) then [n - 1] else [])
  }

  predicate InGroup(cards: Cards, cid: nat, message: nat, id: nat) {
    id in cards && cards[id].conv == cid && cards[id].message == message && cards[id].status == Pending
        && cards[id].tier == Safe
  }

  datatype Batch = Batch(cards: Cards, log: seq<Effect>, jobs: seq<Job>)

  // One turn of the group loop.
  function Take(setup: Setup, b: Batch, user: nat, id: nat): Batch {
    if id !in b.cards then b
    else
      var card := b.cards[id];
      if card.tool !in setup.registry then b.(cards := b.cards[id := card.(status := Failed)])
      else
        var args := LoadArgs(setup, card.args);
        Batch(b.cards[id := card.(effective := Some(setup.dumps(args)), status := Approved, approver := Some(user))],
              b.log + [ApproveRow(id, user, args, "")],
              b.jobs + [Job(id, card.tool, args)])
  }

  function TakeAll(setup: Setup, b: Batch, user: nat, ids: seq<nat>): Batch {
    if ids == [] then b else Take(setup, TakeAll(setup, b, user, ids[..|ids| - 1]), user, ids[|ids| - 1])
  }

  function ApproveGroup(setup: Setup, s: State, user: nat, cid: nat, message: nat): State {
    var ids := Group(s.cards, cid, message, s.next);
    if cid !in setup.convs || setup.convs[cid].owner != user || ids == [] then s
    else
      var b := TakeAll(setup, Batch(s.cards, s.log, []), user, ids);
      State(b.cards, s.next, b.log, s.tasks[s.nextTask := Task(user, setup.convs[cid].tenant, b.jobs, false)],
          s.nextTask + 1)
  }

  // ---- the runners -------------------------------------------------------------------

  predicate CanStart(s: State, t: nat) {
    t in s.tasks && !s.tasks[t].running && s.tasks[t].todo != []
  }

  predicate CanFinish(s: State, t: nat) {
    t in s.tasks && s.tasks[t].running && s.tasks[t].todo != []
  }

  // The next runner of a request is called.
  function Start(setup: Setup, s: State, t: nat): State {
    if !CanStart(s, t) then s
    else
      var task := s.tasks[t];
      var job := task.todo[0];
      if job.tool !in setup.registry then s.(tasks := s.tasks[t := task.(todo := task.todo[1..])])
      else s.(log := s.log + [RunStarted(job.card, job.args, task.tenant)],
          tasks := s.tasks[t := task.(running := true)])
  }

  // It returns or raises, and its result is committed.
  function Finish(s: State, t: nat, ok: bool): State {
    if !CanFinish(s, t) then s
    else
      var task := s.tasks[t];
      var id := task.todo[0].card;
      s.(cards := if id in s.cards then s.cards[id := s.cards[id].(status := if ok then Executed else Failed)]
          else s.cards,
         log := s.log + [ExecuteRow(id, task.user, ok)],
         tasks := s.tasks[t := task.(todo := task.todo[1..], running := false)])
  }

  datatype Event =
    | CreateCard(cid: nat, message: nat, tool: string, args: Args)
    | RejectCard(user: nat, cid: nat, card: nat)
    | ApproveCard(user: nat, cid: nat, card: nat, form: map<string, string>, confirmation: string)
    | ApproveMessage(user: nat, cid: nat, message: nat)
    | StartRunner(task: nat)
    | FinishRunner(task: nat, ok: bool)
    | Cancel(task: nat)

  function Step(setup: Setup, s: State, e: Event): State {
    match e
    case CreateCard(cid, message, tool, args) => Create(setup, s, cid, message, tool, args)
    case RejectCard(user, cid, card) => Reject(setup, s, user, cid, card)
    case ApproveCard(user, cid, card, form, confirmation) => Approve(setup, s, user, cid, card, form, confirmation)
    case ApproveMessage(user, cid, message) => ApproveGroup(setup, s, user, cid, message)
    case StartRunner(t) => Start(setup, s, t)
    case FinishRunner(t, ok) => Finish(s, t, ok)
    case Cancel(t) => s.(tasks := s.tasks - {t})
  }

  function Exec(setup: Setup, s: State, es: seq<Event>): State {
    if es == [] then s else Step(setup, Exec(setup, s, es[..|es| - 1]), es[|es| - 1])
  }

  // ---- what the confirmation guards --------------------------------------------------

  // What the operator approves: the proposed arguments with the edits.
  function Submitted(setup: Setup, card: Card, form: map<string, string>): Args
    requires card.tool in setup.registry
  {
    Edited(LoadArgs(setup, card.args), setup.registry[card.tool].fields, form)
  }

  // The request asks to run an elevated action of a pending card the user owns.
  predicate AsksElevated(setup: Setup, s: State, user: nat, cid: nat, id: nat, form: map<string, string>) {
    && Owns(setup, s, user, cid, id) && s.cards[id].status == Pending && s.cards[id].tool in setup.registry
    && Classify(setup, s.cards[id].tool, Submitted(setup, s.cards[id], form)) == Some(Elevated)
  }

  predicate ApprovedAndQueued(setup: Setup, s: State, s': State, id: nat, form: map<string, string>)
    requires id in s.cards && s.cards[id].tool in setup.registry
  {
    && id in s'.cards && s'.cards[id].status == Approved
    && s.nextTask in s'.tasks
    && s'.tasks[s.nextTask].todo == [Job(id, s.cards[id].tool, Submitted(setup, s.cards[id], form))]
  }

  // The confirm field has a value to be typed: proposed, or edited in.
  predicate HasConfirmValue(setup: Setup, card: Card, form: map<string, string>)
    requires card.tool in setup.registry
  {
    var spec := setup.registry[card.tool];
    && spec.confirm.Some?
    && (Shown(LoadArgs(setup, card.args), spec.confirm.value) != ""
        || (spec.confirm.value in spec.fields && Typed(form, spec.confirm.value) != ""))
  }

  /** An elevated action is approved with a blank confirmation exactly when its tool has
      no confirm field, or the field is absent or empty both in the proposed arguments
      and among the edits; otherwise the card stays pending and nothing is queued. */
  lemma BlankConfirmation(setup: Setup, s: State, user: nat, cid: nat, id: nat, form: map<string, string>,
                          blank: string)
    requires AsksElevated(setup, s, user, cid, id, form) && Strip(blank) == ""
    ensures var s' := Approve(setup, s, user, cid, id, form, blank);
            && (ApprovedAndQueued(setup, s, s', id, form) <==> !HasConfirmValue(setup, s.cards[id], form))
            && (HasConfirmValue(setup, s.cards[id], form) ==>
                  s'.cards[id] == s.cards[id].(tier := Elevated) && s'.log == s.log && s'.tasks == s.tasks)
  {
    var spec := setup.registry[s.cards[id].tool];
    if spec.confirm.Some? {
      ShownAfterEdits(LoadArgs(setup, s.cards[id].args), spec.fields, form, spec.confirm.value);
    }
  }

  // A field is shown empty after the edits if it was before and no value was typed.
  lemma ShownAfterEdits(args: Args, fields: seq<string>, form: map<string, string>, f: string)
    ensures Shown(Edited(args, fields, form), f) == "" <==>
            Shown(args, f) == "" && !(f in fields && Typed(form, f) != "")
  {
    EditsWin(args, fields, form, f);
  }

  /** An input: an elevated action whose confirm field is missing from its arguments runs
      on an empty form, although its tool asks for a typed confirmation. */
  lemma MissingFieldNeedsNoTyping(setup: Setup, s: State, user: nat, cid: nat, id: nat, field: string)
    requires AsksElevated(setup, s, user, cid, id, map[])
    requires setup.registry[s.cards[id].tool].confirm == Some(field) && field !in LoadArgs(setup, s.cards[id].args)
    ensures ApprovedAndQueued(setup, s, Approve(setup, s, user, cid, id, map[], ""), id, map[])
  {
    BlankConfirmation(setup, s, user, cid, id, map[], "");
  }
}
