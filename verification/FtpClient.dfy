/**
 The FTP client over its control channel. The server is any that answers each command
 with one final reply, preceded by a 125 or 150 for a transfer it accepts.
 */
module FtpClient {
  import opened Prelude
  import opened Text
  import opened FtpReply
  import FtpPassive
  import FtpListing

  // The answer to one command.
  datatype Answer = Answer(prelim: Option<Reply>, final: Reply)

  datatype Command =
    | AuthTls | User(name: string) | Pass(password: string) | Pbsz | ProtP | TypeI | QuitCmd
    | Pwd | Cwd(path: string) | Mkd(path: string) | Rmd(path: string) | Dele(path: string)
    | SizeOf(path: string) | Rnfr(path: string) | Rnto(path: string) | Epsv | Pasv
    | Mlsd(path: string) | List(path: string) | Retr(path: string) | Stor(path: string)

  // What the server answers to the `n`-th command of the session.
  datatype Server = Server(greeting: Reply, answer: (nat, Command) -> Answer)

  predicate IsTransfer(c: Command) {
    c.Mlsd? || c.List? || c.Retr? || c.Stor?
  }

  predicate Starts(code: int) {
    code == 125 || code == 150
  }

  predicate Completes(code: int) {
    code == 226 || code == 250
  }

  predicate AnswerOk(command: Command, a: Answer) {
    && WellFormed(a.final) && a.final.code >= 200
    && (a.prelim.Some? ==> IsTransfer(command) && WellFormed(a.prelim.value) && Starts(a.prelim.value.code))
  }

  ghost predicate Conforming(s: Server) {
    && WellFormed(s.greeting)
    && forall n: nat, command: Command :: AnswerOk(command, s.answer(n, command))
  }

  function PrintAnswer(a: Answer): string {
    (if a.prelim.Some? then Print(a.prelim.value) else "") + Print(a.final)
  }

  // What a directory listing comes back as: entries, or the text of a plain listing.
  datatype Listing = Entries(entries: seq<FtpListing.RemoteEntry>) | Plain(text: string)

  // A client operation after login, with what its data connections deliver and whether
  // its local file works.
  datatype Operation =
    | DoSimple(command: Command)
    | DoRename(src: string, dst: string)
    | DoSize(path: string)
    | DoList(path: string, entries: string, lines: string)
    | DoMove(command: Command, moved: nat, fileOk: bool)

  predicate Proper(op: Operation) {
    && (op.DoSimple? ==> op.command.Cwd? || op.command.Mkd? || op.command.Rmd? || op.command.Dele?)
    && (op.DoMove? ==> op.command.Retr? || op.command.Stor?)
  }

  class Client {
    const server: Server
    const host: string
    const useTls: bool
    const trustPasvIp: bool
    // Whether the control connection is bound, how many commands were sent, and what
    // the server has sent, or will send in answer to them, that is not yet read.
    var bound: bool
    var turn: nat
    var inbox: string

    constructor (server: Server, host: string, useTls: bool, trustPasvIp: bool)
      ensures this.server == server && this.host == host && this.useTls == useTls && this.trustPasvIp == trustPasvIp
      ensures !bound && turn == 0 && inbox == ""
    {
      this.server, this.host, this.useTls, this.trustPasvIp := server, host, useTls, trustPasvIp;
      bound, turn, inbox := false, 0, "";
    }

    /** In step: the connection is bound and every reply is read. */
    ghost predicate InStep()
      reads this
    {
      Conforming(server) && bound && inbox == ""
    }

    method Send(command: Command) returns (fault: Option<Fault>)
      modifies this
      ensures bound == old(bound)
      ensures !bound ==> fault == Some(NotOpen) && turn == old(turn) && inbox == old(inbox)
      ensures bound ==> fault == None && turn == old(turn) + 1
      ensures bound ==> inbox == old(inbox) + PrintAnswer(server.answer(old(turn), command))
      ensures bound && old(inbox) == "" ==> inbox == PrintAnswer(server.answer(old(turn), command))
    {
      if !bound { return Some(NotOpen); }
      inbox := inbox + PrintAnswer(server.answer(turn, command));
      turn := turn + 1;
      return None;
    }

    method ReadLine() returns (line: string, any: bool)
      modifies this
      ensures bound == old(bound) && turn == old(turn)
      ensures any == (old(inbox) != "") && line == NextLine(old(inbox)) && inbox == Rest(old(inbox))
    {
      any := inbox != "";
      line, inbox := NextLine(inbox), Rest(inbox);
    }

    // The further lines of a multi-line reply.
    method ReadMore(end: string) returns (lines: seq<string>)
      modifies this
      ensures bound == old(bound) && turn == old(turn)
      ensures (lines, inbox) == More(old(inbox), end)
    {
      lines := [];
      ghost var all := More(inbox, end);
      while true
        invariant bound == old(bound) && turn == old(turn)
        invariant lines + More(inbox, end).0 == all.0 && More(inbox, end).1 == all.1
        decreases |inbox|
      {
        var line, any := ReadLine();
        if !any {
          assert lines + [] == lines;
          return;
        }
        assert lines + ([line] + More(inbox, end).0) == (lines + [line]) + More(inbox, end).0;
        lines := lines + [line];
        if StartsWith(line, end) { return; }
      }
    }

    /** `_read_reply`. */
    method ReadReply() returns (r: Result<Said, Fault>)
      modifies this
      ensures bound == old(bound) && turn == old(turn)
      ensures (r, inbox) == Read(old(inbox))
    {
      var text, any := ReadLine();
      if !any { return Err(Closed); }
      if !HasCode(text) { return Err(Malformed(text)); }
      var code := ValueOf(text[..3]);
      if text[3] != '-' { return Ok(Said(code, text[4..])); }
      var lines := ReadMore(text[..3] + " ");
      JoinKeeps(text, lines);
      return Ok(Said(code, Join([text] + lines, "\n")[4..]));
    }

    /** `_expect`. */
    method Expect(codes: seq<int>) returns (r: Result<Said, Fault>)
      modifies this
      ensures bound == old(bound) && turn == old(turn) && inbox == Read(old(inbox)).1
      ensures Read(old(inbox)).0.Err? ==> r == Read(old(inbox)).0
      ensures Read(old(inbox)).0.Ok? ==>
                var said := Read(old(inbox)).0.value;
                r == if said.code in codes then Ok(said) else Err(Unexpected(said.code, said.text))
    {
      r := ReadReply();
      if r.Ok? && r.value.code !in codes { return Err(Unexpected(r.value.code, r.value.text)); }
    }

    // A plain command and its reply.
    method Ask(command: Command) returns (said: Said)
      requires InStep() && !IsTransfer(command)
      modifies this
      ensures InStep() && turn == old(turn) + 1
      ensures said == Heard(server.answer(old(turn), command).final)
    {
      var fault := Send(command);
      assert AnswerOk(command, server.answer(old(turn), command));
      AnswerIsRead(command, server.answer(old(turn), command));
      var r := ReadReply();
      said := r.value;
    }

    // The final code of the answer to the command sent at `n`.
    function Code(n: nat, command: Command): int {
      server.answer(n, command).final.code
    }

    method AskFor(command: Command, codes: seq<int>) returns (r: Result<Said, Fault>)
      requires InStep() && !IsTransfer(command)
      modifies this
      ensures InStep() && turn == old(turn) + 1
      ensures r.Ok? <==> Code(old(turn), command) in codes
      ensures r.Ok? ==> r.value == Heard(server.answer(old(turn), command).final)
      ensures r.Err? ==>
                r.error == Unexpected(Code(old(turn), command), Heard(server.answer(old(turn), command).final).text)
    {
      var said := Ask(command);
      if said.code !in codes { return Err(Unexpected(said.code, said.text)); }
      return Ok(said);
    }

    /** `connect`, on a new connection: the greeting, then the switch to TLS, at which
        the old reader is dropped with nothing left in it. */
    method Connect() returns (r: Option<Fault>)
      requires Conforming(server) && !bound
      modifies this
      ensures InStep()
      ensures r.None? <==> server.greeting.code == 220 && (useTls ==> Code(old(turn), AuthTls) == 234)
      ensures r.None? ==> turn == old(turn) + if useTls then 1 else 0
    {
      inbox := Print(server.greeting);
      bound := true;
      ReplyIsRead(server.greeting, "");
      assert inbox == Print(server.greeting) + "";
      var g := Expect([220]);
      if g.Err? { return Some(g.error); }
      if useTls {
        var a := AskFor(AuthTls, [234]);
        if a.Err? { return Some(a.error); }
      }
      return None;
    }

    // The user is accepted, with or without a password; `AfterUser` commands on.
    predicate UserOk(n: nat, user: string, password: string) {
      Code(n, User(user)) == 230 || (Code(n, User(user)) == 331 && Code(n + 1, Pass(password)) == 230)
    }

    function AfterUser(n: nat, user: string): nat {
      n + if Code(n, User(user)) == 331 then 2 else 1
    }

    method Authenticate(user: string, password: string) returns (r: Option<Fault>)
      requires InStep()
      modifies this
      ensures InStep() && turn == AfterUser(old(turn), user)
      ensures r.None? <==> UserOk(old(turn), user, password)
    {
      var u := Ask(User(user));
      if u.code == 331 {
        var p := AskFor(Pass(password), [230]);
        return if p.Err? then Some(p.error) else None;
      }
      return if u.code != 230 then Some(Rejected(u.code)) else None;
    }

    // Data connections are protected, where TLS is used.
    method ProtectData() returns (r: Option<Fault>)
      requires InStep()
      modifies this
      ensures InStep() && turn == old(turn) + if useTls then 2 else 0
      ensures r.None? <==> (useTls ==> Code(old(turn) + 1, ProtP) == 200)
    {
      if !useTls { return None; }
      var _ := Ask(Pbsz);
      var p := AskFor(ProtP, [200]);
      return if p.Err? then Some(p.error) else None;
    }

    // The server accepts each command of the login that starts at `n`.
    predicate LoginOk(n: nat, user: string, password: string) {
      var m := AfterUser(n, user);
      && UserOk(n, user, password)
      && (useTls ==> Code(m + 1, ProtP) == 200)
      && Code(if useTls then m + 2 else m, TypeI) == 200
    }

    function AfterLogin(n: nat, user: string): nat {
      AfterUser(n, user) + if useTls then 3 else 1
    }

    /** `login`. */
    method Login(user: string, password: string) returns (r: Option<Fault>)
      requires InStep()
      modifies this
      ensures InStep()
      ensures r.None? <==> LoginOk(old(turn), user, password)
      ensures r.None? ==> turn == AfterLogin(old(turn), user)
    {
      var u := Authenticate(user, password);
      if u.Some? { return u; }
      var d := ProtectData();
      if d.Some? { return d; }
      var t := AskFor(TypeI, [200]);
      return if t.Err? then Some(t.error) else None;
    }

    /** `quit`: one reply is read, the next that is there, and what is then `left` unread
        is lost with the connection. */
    method Quit() returns (said: Option<Said>, left: string)
      requires Conforming(server)
      modifies this
      ensures !bound && inbox == ""
      ensures !old(bound) ==> said == None && left == old(inbox)
      ensures var all := old(inbox) + PrintAnswer(server.answer(old(turn), QuitCmd));
              old(bound) ==>
                left == Read(all).1 && said == match Read(all).0 { case Ok(v) => Some(v) case Err(_) => None }
    {
      said := None;
      if bound {
        var _ := Send(QuitCmd);
        var r := ReadReply();
        if r.Ok? { said := Some(r.value); }
      }
      left := inbox;
      bound, inbox := false, "";
    }

    /** One-command operations: `cwd`, `mkd`, `rmd`, `delete`. */
    method Simple(command: Command) returns (r: Option<Fault>)
      requires InStep() && (command.Cwd? || command.Mkd? || command.Rmd? || command.Dele?)
      modifies this
      ensures InStep() && turn == old(turn) + 1
      ensures r.None? <==> Code(old(turn), command) == if command.Mkd? then 257 else 250
    {
      var a := AskFor(command, [if command.Mkd? then 257 else 250]);
      return if a.Err? then Some(a.error) else None;
    }

    /** `rename`: the second command goes out only after the first is accepted. */
    method Rename(src: string, dst: string) returns (r: Option<Fault>)
      requires InStep()
      modifies this
      ensures InStep()
      ensures r.None? <==> Code(old(turn), Rnfr(src)) == 350 && Code(old(turn) + 1, Rnto(dst)) == 250
      ensures turn == old(turn) + if Code(old(turn), Rnfr(src)) == 350 then 2 else 1
    {
      var a := AskFor(Rnfr(src), [350]);
      if a.Err? { return Some(a.error); }
      var b := AskFor(Rnto(dst), [250]);
      return if b.Err? then Some(b.error) else None;
    }

    // The port of an EPSV answer that has one.
    function ExtendedPort(n: nat): Option<int> {
      var said := Heard(server.answer(n, Epsv).final);
      if said.code == 229 then FtpPassive.EpsvPort(said.text) else None
    }

    function ClassicPort(n: nat): Option<(string, int)> {
      var said := Heard(server.answer(n, Pasv).final);
      if said.code == 227 then FtpPassive.PasvPort(said.text) else None
    }

    // The data address that the commands from `n` on lead to, and the turn after them.
    function DataAddress(n: nat): Option<(string, int)> {
      if ExtendedPort(n).Some? then Some((host, ExtendedPort(n).value))
      else if ClassicPort(n + 1).None? then None
      else Some((if trustPasvIp then ClassicPort(n + 1).value.0 else host, ClassicPort(n + 1).value.1))
    }

    function AfterPassive(n: nat): nat {
      n + if ExtendedPort(n).Some? then 1 else 2
    }

    // What the server's two answers say about the address: without trust it is the control
    // host; an EPSV reply gives the port; where there is none, a PASV reply does.
    ghost predicate AsPrinted(n: nat, r: Result<(string, int), Fault>) {
      && (r.Ok? && !trustPasvIp ==> r.value.0 == host)
      && ReadsExtended(server.answer(n, Epsv).final, host, r)
      && (NoExtended(server.answer(n, Epsv).final) ==>
            ReadsClassic(server.answer(n + 1, Pasv).final, host, trustPasvIp, r))
    }

    lemma AddressIsPrinted(n: nat, r: Result<(string, int), Fault>)
      requires r.Ok? <==> DataAddress(n).Some?
      requires r.Ok? ==> r.value == DataAddress(n).value
      ensures AsPrinted(n, r)
    {
      var e, q := server.answer(n, Epsv).final, server.answer(n + 1, Pasv).final;
      forall pre, d, port: nat, post | PrintsExtended(e, pre, d, port, post) ensures r == Ok((host, port)) {
        FtpPassive.EpsvRecovered(pre, d, port, post);
      }
      if NoExtended(e) {
        FtpPassive.EpsvFoundExactly(Heard(e).text);
        forall pre, address, port: nat, post | PrintsClassic(q, pre, address, port, post)
          ensures r.Ok? && r.value.1 == port
          ensures FtpPassive.Numbers(pre) == [] ==> r.value.0 == if trustPasvIp then Dotted(address) else host
        {
          FtpPassive.PasvRecovered(pre, address, port, post);
        }
      }
    }

    /** `_passive`: the address of the next data connection. */
    method Passive() returns (r: Result<(string, int), Fault>)
      requires InStep()
      modifies this
      ensures InStep() && turn == AfterPassive(old(turn))
      ensures r.Ok? <==> DataAddress(old(turn)).Some?
      ensures r.Ok? ==> r.value == DataAddress(old(turn)).value
      ensures AsPrinted(old(turn), r)
    {
      r := AskAddress();
      AddressIsPrinted(old(turn), r);
    }

    // The commands of `_passive`, and what their replies hold.
    method AskAddress() returns (r: Result<(string, int), Fault>)
      requires InStep()
      modifies this
      ensures InStep() && turn == AfterPassive(old(turn))
      ensures r.Ok? <==> DataAddress(old(turn)).Some?
      ensures r.Ok? ==> r.value == DataAddress(old(turn)).value
    {
      var e := Ask(Epsv);
      if e.code == 229 {
        var port := FtpPassive.EpsvPort(e.text);
        if port.Some? { return Ok((host, port.value)); }
      }
      var p := AskFor(Pasv, [227]);
      if p.Err? { return Err(p.error); }
      var found := FtpPassive.PasvPort(p.value.text);
      if found.None? { return Err(NoPort(p.value.text)); }
      return Ok((if trustPasvIp then found.value.0 else host, found.value.1));
    }

    // A transfer command and its first reply.
    method AskTransfer(command: Command) returns (said: Said)
      requires InStep() && IsTransfer(command)
      modifies this
      ensures Conforming(server) && bound && turn == old(turn) + 1
      ensures var a := server.answer(old(turn), command);
              && (a.prelim.Some? ==> said == Heard(a.prelim.value) && inbox == Print(a.final) && Starts(said.code))
              && (a.prelim.None? ==> said == Heard(a.final) && inbox == "" && !Starts(said.code))
    {
      var fault := Send(command);
      var a := server.answer(old(turn), command);
      assert AnswerOk(command, a);
      AnswerIsRead(command, a);
      var r := ReadReply();
      said := r.value;
    }

    // The reply that ends a transfer.
    method EndTransfer(ghost a: Answer) returns (r: Result<Said, Fault>)
      requires Conforming(server) && bound && WellFormed(a.final) && inbox == Print(a.final)
      modifies this
      ensures InStep() && turn == old(turn)
      ensures r.Ok? <==> Completes(a.final.code)
    {
      ReplyIsRead(a.final, "");
      assert inbox == Print(a.final) + "";
      r := Expect([226, 250]);
    }

    // A data address is found, and the transfer asked for is accepted and completed.
    predicate Transfers(n: nat, command: Command) {
      DataAddress(n).Some? && server.answer(AfterPassive(n), command).prelim.Some?
          && Completes(Code(AfterPassive(n), command))
    }

    function AfterTransfer(n: nat): nat {
      AfterPassive(n) + if DataAddress(n).Some? then 1 else 0
    }

    // A transfer up to its final reply; `reached` says whether a data address was found.
    method Transfer(command: Command) returns (r: Option<Fault>, reached: bool)
      requires InStep() && IsTransfer(command)
      modifies this
      ensures InStep()
      ensures r.None? <==> Transfers(old(turn), command)
      ensures reached <==> DataAddress(old(turn)).Some?
      ensures turn == AfterTransfer(old(turn))
    {
      var d := Passive();
      if d.Err? { return Some(d.error), false; }
      ghost var n := turn;
      var first := AskTransfer(command);
      if !Starts(first.code) { return Some(Unexpected(first.code, first.text)), true; }
      assert AnswerOk(command, server.answer(n, command));
      var end := EndTransfer(server.answer(n, command));
      return if end.Err? then Some(end.error) else None, true;
    }

    // The local file raises after the server has accepted the transfer.
    predicate FileFails(n: nat, command: Command, fileOk: bool) {
      !fileOk && DataAddress(n).Some? && server.answer(AfterPassive(n), command).prelim.Some?
    }

    /** `retrieve` and `store`: `moved` bytes go over the data connection. The final reply
        is left unread exactly when the local file raises in the middle of an accepted
        transfer. */
    method Move(command: Command, moved: nat, fileOk: bool) returns (r: Result<nat, Fault>)
      requires InStep() && (command.Retr? || command.Stor?)
      modifies this
      ensures Conforming(server) && bound && turn == AfterTransfer(old(turn))
      ensures InStep() <==> !FileFails(old(turn), command, fileOk)
      ensures FileFails(old(turn), command, fileOk) ==>
                inbox == Print(server.answer(AfterPassive(old(turn)), command).final)
      ensures r.Ok? <==> Transfers(old(turn), command) && fileOk
      ensures r.Ok? ==> r.value == moved
    {
      var d := Passive();
      if d.Err? { return Err(d.error); }
      ghost var n := turn;
      var first := AskTransfer(command);
      if !Starts(first.code) { return Err(Unexpected(first.code, first.text)); }
      assert AnswerOk(command, server.answer(n, command));
      PrintsSomething(server.answer(n, command).final);
      if !fileOk { return Err(LocalFile); }
      var end := EndTransfer(server.answer(n, command));
      return if end.Err? then Err(end.error) else Ok(moved);
    }

    // The fallback is taken where a data address is found but MLSD does not work out.
    function AfterList(n: nat, path: string): nat {
      if DataAddress(n).None? || Transfers(n, Mlsd(path)) then AfterTransfer(n) else AfterTransfer(AfterTransfer(n))
    }

    /** `list_dir`: the entries of a machine-readable listing. A server that refuses it, or
        breaks it off, is asked again with LIST over a new data connection. */
    method ListDir(path: string, entries: string, lines: string) returns (r: Result<Listing, Fault>)
      requires InStep()
      modifies this
      ensures InStep() && turn == AfterList(old(turn), path)
      ensures Transfers(old(turn), Mlsd(path)) <==> r.Ok? && r.value.Entries?
      ensures r.Ok? && r.value.Entries? ==>
                r.value.entries == FtpListing.ParseLines(SplitLines(entries))
      ensures r.Ok? && r.value.Plain? <==>
                DataAddress(old(turn)).Some? && !Transfers(old(turn), Mlsd(path))
                    && Transfers(AfterPassive(old(turn)) + 1, List(path))
      ensures r.Ok? && r.value.Plain? ==> r.value.text == lines
    {
      var first, reached := Transfer(Mlsd(path));
      if first.None? {
        var found := FtpListing.ParseMlsd(entries);
        return Ok(Entries(found));
      }
      if !reached { return Err(first.value); }
      var t, _ := Transfer(List(path));
      return if t.Some? then Err(t.value) else Ok(Plain(lines));
    }

    // The size in the answer to a SIZE sent at `n`.
    function SizeAnswer(n: nat, path: string): Option<int> {
      var text := Strip(Heard(server.answer(n, SizeOf(path)).final).text);
      if Code(n, SizeOf(path)) == 213 && text != "" && AllDigits(text) then Some(ValueOf(text)) else None
    }

    /** Only a 213 reports a size, and a number printed in it is that size. */
    lemma SizeIsRead(n: nat, path: string, left: string, size: nat, right: string)
      requires AllSpace(left) && AllSpace(right)
      ensures Code(n, SizeOf(path)) != 213 ==> SizeAnswer(n, path).None?
      ensures server.answer(n, SizeOf(path)).final == Single(213, left + Digits(size) + right) ==>
                SizeAnswer(n, path) == Some(size)
    {
      DigitsRead(size);
      StripPad(left, Digits(size), right);
    }

    /** `size`: any other code means no size. */
    method Size(path: string) returns (size: Option<int>)
      requires InStep()
      modifies this
      ensures InStep() && turn == old(turn) + 1
      ensures size == SizeAnswer(old(turn), path)
    {
      var said := Ask(SizeOf(path));
      if said.code != 213 { return None; }
      var text := Strip(said.text);
      if text == "" || !AllDigits(text) { return None; }
      return Some(ValueOf(text));
    }

    // What the server's answers to its own commands make of an operation that starts
    // at `n`, and where the next one starts.
    predicate Succeeds(op: Operation, n: nat) {
      match op
      case DoSimple(command) => Code(n, command) == if command.Mkd? then 257 else 250
      case DoRename(src, dst) => Code(n, Rnfr(src)) == 350 && Code(n + 1, Rnto(dst)) == 250
      case DoSize(path) => SizeAnswer(n, path).Some?
      case DoList(path, _, _) =>
        Transfers(n, Mlsd(path)) || (DataAddress(n).Some? && Transfers(AfterPassive(n) + 1, List(path)))
      case DoMove(command, _, fileOk) => Transfers(n, command) && fileOk
    }

    function AfterOp(op: Operation, n: nat): nat {
      match op
      case DoSimple(_) => n + 1
      case DoRename(src, _) => n + if Code(n, Rnfr(src)) == 350 then 2 else 1
      case DoSize(_) => n + 1
      case DoList(path, _, _) => AfterList(n, path)
      case DoMove(_, _, _) => AfterTransfer(n)
    }

    // The operation leaves its final reply unread.
    predicate LosesStep(op: Operation, n: nat) {
      op.DoMove? && FileFails(n, op.command, op.fileOk)
    }

    function Unread(op: Operation, n: nat): string {
      if LosesStep(op, n) then Print(server.answer(AfterPassive(n), op.command).final) else ""
    }

    function StartOf(ops: seq<Operation>, n: nat): nat {
      if ops == [] then n else AfterOp(ops[|ops| - 1], StartOf(ops[..|ops| - 1], n))
    }

    method Perform(op: Operation) returns (ok: bool)
      requires InStep() && Proper(op)
      modifies this
      ensures Conforming(server) && bound && inbox == Unread(op, old(turn))
      ensures turn == AfterOp(op, old(turn)) && ok == Succeeds(op, old(turn))
    {
      match op
      case DoSimple(command) =>
        var r := Simple(command);
        return r.None?;
      case DoRename(src, dst) =>
        var r := Rename(src, dst);
        return r.None?;
      case DoSize(path) =>
        var r := Size(path);
        return r.Some?;
      case DoList(path, entries, lines) =>
        var r := ListDir(path, entries, lines);
        return r.Ok?;
      case DoMove(command, moved, fileOk) =>
        var r := Move(command, moved, fileOk);
        return r.Ok?;
    }

    // Connection and login go through, and the operations start at `FirstTurn`.
    predicate Opens(n: nat, user: string, password: string) {
      && server.greeting.code == 220
      && (useTls ==> Code(n, AuthTls) == 234)
      && LoginOk(if useTls then n + 1 else n, user, password)
    }

    function FirstTurn(n: nat, user: string): nat {
      AfterLogin(if useTls then n + 1 else n, user)
    }

    // The first `i` operations, the first of them sent at `n`, had these outcomes.
    ghost predicate Matched(ops: seq<Operation>, outcomes: seq<bool>, n: nat, i: nat)
      requires i <= |ops|
    {
      |outcomes| == i && forall j :: 0 <= j < i ==> outcomes[j] == Succeeds(ops[j], StartOf(ops[..j], n))
    }

    // None of the first `i` operations leaves a reply unread.
    ghost predicate StaysInStep(ops: seq<Operation>, n: nat, i: nat)
      requires i <= |ops|
    {
      forall j :: 0 <= j < i ==> !LosesStep(ops[j], StartOf(ops[..j], n))
    }

    lemma NextOp(ops: seq<Operation>, outcomes: seq<bool>, n: nat, i: nat, ok: bool)
      requires i < |ops| && Matched(ops, outcomes, n, i) && ok == Succeeds(ops[i], StartOf(ops[..i], n))
      ensures Matched(ops, outcomes + [ok], n, i + 1)
    {
      var all := outcomes + [ok];
      assert all[i] == ok && forall j :: 0 <= j < i ==> all[j] == outcomes[j];
    }

    lemma NextStart(ops: seq<Operation>, n: nat, i: nat)
      requires i < |ops|
      ensures StartOf(ops[..i + 1], n) == AfterOp(ops[i], StartOf(ops[..i], n))
    {
      assert ops[..i + 1][..i] == ops[..i];
    }

    // Operation after operation, up to one whose local file raises.
    method PerformAll(ops: seq<Operation>) returns (outcomes: seq<bool>)
      requires InStep() && forall i :: 0 <= i < |ops| ==> Proper(ops[i])
      modifies this
      ensures Conforming(server) && bound
      ensures |outcomes| <= |ops| && Matched(ops, outcomes, old(turn), |outcomes|)
      ensures inbox == "" ==> |outcomes| == |ops| && StaysInStep(ops, old(turn), |ops|)
      ensures inbox != "" ==> Broken(ops, old(turn), |outcomes|) && turn == StartOf(ops[..|outcomes|], old(turn))
      ensures inbox != "" ==> inbox == Unread(ops[|outcomes| - 1], StartOf(ops[..|outcomes| - 1], old(turn)))
    {
      outcomes := [];
      for i := 0 to |ops|
        invariant InStep() && turn == StartOf(ops[..i], old(turn)) && Matched(ops, outcomes, old(turn), i)
        invariant StaysInStep(ops, old(turn), i)
      {
        var ok := Perform(ops[i]);
        NextOp(ops, outcomes, old(turn), i, ok);
        NextStart(ops, old(turn), i);
        outcomes := outcomes + [ok];
        if inbox != "" { return; }
        NotLost(ops[i], StartOf(ops[..i], old(turn)));
      }
    }

    // The last of the first `m` operations is the first that leaves a reply unread.
    ghost predicate Broken(ops: seq<Operation>, n: nat, m: nat)
      requires m <= |ops|
    {
      m > 0 && StaysInStep(ops, n, m - 1) && LosesStep(ops[m - 1], StartOf(ops[..m - 1], n))
    }

    lemma NotLost(op: Operation, n: nat)
      requires Conforming(server) && Unread(op, n) == "" && Proper(op)
      ensures !LosesStep(op, n)
    {
      if LosesStep(op, n) {
        assert AnswerOk(op.command, server.answer(AfterPassive(n), op.command));
        PrintsSomething(server.answer(AfterPassive(n), op.command).final);
      }
    }

    // How operations that start at `n` come out, with what `quit` reads and what is lost.
    ghost predicate Ended(ops: seq<Operation>, n: nat, outcomes: seq<bool>, said: Option<Said>, left: string) {
      && |outcomes| <= |ops| && Matched(ops, outcomes, n, |outcomes|)
      && (left == "" <==> StaysInStep(ops, n, |ops|))
      && (left == "" ==> |outcomes| == |ops|)
      && (left != "" ==> LostAt(ops, n, |outcomes|, said, left))
    }

    // The operations of a session, and its end.
    method Operate(ops: seq<Operation>) returns (outcomes: seq<bool>, said: Option<Said>, left: string)
      requires InStep() && forall i :: 0 <= i < |ops| ==> Proper(ops[i])
      modifies this
      ensures !bound && inbox == "" && Ended(ops, old(turn), outcomes, said, left)
    {
      outcomes := PerformAll(ops);
      QuitReads(ops, old(turn), |outcomes|, turn, inbox);
      said, left := Quit();
    }

    // Connection and login.
    method Open(user: string, password: string) returns (open: bool)
      requires Conforming(server) && !bound
      modifies this
      ensures InStep() && open == Opens(old(turn), user, password)
      ensures open ==> turn == FirstTurn(old(turn), user)
    {
      var c := Connect();
      if c.Some? { return false; }
      var l := Login(user, password);
      return l.None?;
    }

    // A session that does not come to its operations.
    method GiveUp() returns (said: Option<Said>, left: string)
      requires InStep()
      modifies this
      ensures !bound && inbox == "" && left == ""
    {
      QuitIsRead(turn);
      said, left := Quit();
    }

    /** A whole session: the outcome of each operation is that of the server's answers to
        its own commands, and no reply is lost at the end, if and only if no local file
        raises in the middle of an accepted transfer. Where one does, the session ends
        there; the reply that `quit` then reads is the stale one of the transfer, and its
        own is lost. */
    method Session(user: string, password: string, ops: seq<Operation>)
        returns (outcomes: seq<bool>, said: Option<Said>, left: string)
      requires Conforming(server) && !bound && inbox == "" && forall i :: 0 <= i < |ops| ==> Proper(ops[i])
      modifies this
      ensures !bound && inbox == ""
      ensures !Opens(old(turn), user, password) ==> outcomes == [] && left == ""
      ensures Opens(old(turn), user, password) ==> Ended(ops, FirstTurn(old(turn), user), outcomes, said, left)
    {
      var open := Open(user, password);
      if open {
        outcomes, said, left := Operate(ops);
      } else {
        outcomes := [];
        said, left := GiveUp();
      }
    }

    // The session broke at the last of `m` operations: what `quit` read is the final reply
    // to that, and what was lost is the answer to `quit`.
    ghost predicate LostAt(ops: seq<Operation>, n: nat, m: nat, said: Option<Said>, left: string)
      requires m <= |ops|
    {
      && Broken(ops, n, m)
      && said == Some(Heard(server.answer(AfterPassive(StartOf(ops[..m - 1], n)), ops[m - 1].command).final))
      && left == PrintAnswer(server.answer(StartOf(ops[..m], n), QuitCmd))
    }

    lemma QuitIsRead(end: nat)
      requires Conforming(server)
      ensures var a := server.answer(end, QuitCmd); Read("" + PrintAnswer(a)) == (Ok(Heard(a.final)), "")
    {
      var a := server.answer(end, QuitCmd);
      assert AnswerOk(QuitCmd, a);
      AnswerIsRead(QuitCmd, a);
      assert "" + PrintAnswer(a) == PrintAnswer(a);
    }

    // What `quit` reads after the operations, in step or not.
    lemma QuitReads(ops: seq<Operation>, n: nat, m: nat, end: nat, stale: string)
      requires Conforming(server) && m <= |ops| && forall i :: 0 <= i < |ops| ==> Proper(ops[i])
      requires stale == "" ==> m == |ops| && StaysInStep(ops, n, |ops|)
      requires stale != "" ==> Broken(ops, n, m) && end == StartOf(ops[..m], n)
      requires stale != "" ==> stale == Unread(ops[m - 1], StartOf(ops[..m - 1], n))
      ensures var got := Read(stale + PrintAnswer(server.answer(end, QuitCmd)));
              && got.0.Ok? && (got.1 == "" <==> StaysInStep(ops, n, |ops|)) && (got.1 == "" <==> stale == "")
              && (stale != "" ==> LostAt(ops, n, m, Some(got.0.value), got.1))
    {
      if stale == "" {
        QuitIsRead(end);
      } else {
        var before := StartOf(ops[..m - 1], n);
        var a, q := server.answer(AfterPassive(before), ops[m - 1].command), server.answer(end, QuitCmd);
        assert AnswerOk(ops[m - 1].command, a) && AnswerOk(QuitCmd, q);
        ReplyIsRead(a.final, PrintAnswer(q));
        PrintsSomething(q.final);
        assert !StaysInStep(ops, n, |ops|);
      }
    }
  }

  // The reply prints a port as section 3 of RFC 2428 says, with no match before it.
  ghost predicate PrintsExtended(r: Reply, pre: string, d: char, port: nat, post: string) {
    && r.code == 229 && FtpPassive.Printable(d)
    && Heard(r).text == pre + ['(', d, d, d] + Digits(port) + [d, ')'] + post
    && FtpPassive.NoneBefore(pre + (['(', d, d, d] + (Digits(port) + [d, ')'] + post)), |pre|)
  }

  // The reply has no such port.
  ghost predicate NoExtended(r: Reply) {
    r.code != 229 || forall pre, d, digits, post :: !FtpPassive.Encloses(Heard(r).text, pre, d, digits, post)
  }

  // The reply prints an address and a port as RFC 959 says.
  ghost predicate PrintsClassic(r: Reply, pre: string, address: seq<nat>, port: nat, post: string) {
    && r.code == 227 && |address| == 4 && (forall i :: 0 <= i < |post| ==> !IsDigit(post[i]))
    && Heard(r).text == pre + ['('] + FtpPassive.Commas(address + [port / 256, port % 256]) + [')'] + post
  }

  // A port so printed is the one that is used, at the control host.
  ghost predicate ReadsExtended(e: Reply, host: string, r: Result<(string, int), Fault>) {
    forall pre, d, port: nat, post :: PrintsExtended(e, pre, d, port, post) ==> r == Ok((host, port))
  }

  // Port and address so printed are used, the address exactly with trust.
  ghost predicate ReadsClassic(q: Reply, host: string, trust: bool, r: Result<(string, int), Fault>) {
    forall pre, address, port: nat, post :: PrintsClassic(q, pre, address, port, post) ==>
      && r.Ok? && r.value.1 == port
      && (FtpPassive.Numbers(pre) == [] ==> r.value.0 == if trust then Dotted(address) else host)
  }

  function Dotted(address: seq<nat>): string {
    Join(FtpPassive.AllPrinted(address), ".")
  }

  lemma PrintsSomething(r: Reply)
    ensures Print(r) != ""
  {
  }

  // A first line keeps its code when more lines are joined to it.
  lemma JoinKeeps(first: string, rest: seq<string>)
    ensures |Join([first] + rest, "\n")| >= |first|
  {
    assert rest != [] ==> ([first] + rest)[1..] == rest;
  }

  lemma AnswerIsRead(command: Command, a: Answer)
    requires AnswerOk(command, a)
    ensures a.prelim.Some? ==> Read(PrintAnswer(a)) == (Ok(Heard(a.prelim.value)), Print(a.final))
    ensures a.prelim.None? ==> Read(PrintAnswer(a)) == (Ok(Heard(a.final)), "")
  {
    if a.prelim.Some? {
      ReplyIsRead(a.prelim.value, Print(a.final));
    } else {
      ReplyIsRead(a.final, "");
      assert PrintAnswer(a) == Print(a.final) + "";
    }
  }
}
