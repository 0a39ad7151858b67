/**
 Server-sent events: the frames the chat writes, and the event stream interpretation
 of section 9.2.6 of the WHATWG HTML standard that reads them.
 */
module Sse {
  import opened Text

  // ---- writing ------------------------------------------------------------------------------

  function NonEmpty(lines: seq<string>): seq<string> {
    if lines == [] then [""] else lines
  }

  function DataFields(lines: seq<string>): seq<string> {
    if lines == [] then [] else ["data: " + lines[0]] + DataFields(lines[1..])
  }

  /** `_sse`; an empty name stands for none. */
  function Frame(name: string, data: string): string {
    Join((if name != "" then ["event: " + name] else []) + DataFields(NonEmpty(SplitLines(data))) + ["", ""], "\n")
  }

  // ---- reading ------------------------------------------------------------------------------

  datatype Event = Event(name: string, data: string)

  predicate IsEol(c: char) {
    c == '\n' || c == '\r'
  }

  predicate NoEol(s: string) {
    forall i :: 0 <= i < |s| ==> !IsEol(s[i])
  }

  function EolAt(s: string): (n: nat)
    ensures n <= |s|
  {
    if s == [] || IsEol(s[0]) then 0 else 1 + EolAt(s[1..])
  }

  function ColonAt(s: string): (n: nat)
    ensures n <= |s|
  {
    if s == [] || s[0] == ':' then 0 else 1 + ColonAt(s[1..])
  }

  // Field name and value of a line: up to the first colon, and after it and one space.
  function Field(line: string): (string, string) {
    var n := ColonAt(line);
    if n == |line| then (line, "")
    else if n + 1 < |line| && line[n + 1] == ' ' then (line[..n], line[n + 2..])
    else (line[..n], line[n + 1..])
  }

  datatype Buffers = Buffers(name: string, data: string)

  // A line that is not empty; comments and other fields leave the buffers alone.
  function TakeLine(b: Buffers, line: string): Buffers {
    var (field, value) := Field(line);
    if field == "event" then b.(name := value)
    else if field == "data" then b.(data := b.data + value + "\n")
    else b
  }

  // An empty line: no event if there are no data, and the last newline is dropped.
  function Dispatch(b: Buffers): seq<Event> {
    if b.data == "" then []
    else
      var data := if b.data[|b.data| - 1] == '\n' then b.data[..|b.data| - 1] else b.data;
      [Event(if b.name == "" then "message" else b.name, data)]
  }

  // Lines end in CR LF, LF or CR; an unfinished event at the end is dropped.
  function Decode(s: string, b: Buffers): seq<Event>
    decreases |s|
  {
    var n := EolAt(s);
    if n == |s| then []
    else
      var rest := s[n..][BreakLength(s[n..])..];
      if n == 0 then Dispatch(b) + Decode(rest, Buffers("", "")) else Decode(rest, TakeLine(b, s[..n]))
  }

  // ---- reading undoes writing ---------------------------------------------------------------

  lemma {:induction false} EolIs(line: string, rest: string)
    requires NoEol(line)
    ensures EolAt(line + "\n" + rest) == |line|
  {
    var s := line + "\n" + rest;
    if line != [] {
      assert s[1..] == line[1..] + "\n" + rest;
      EolIs(line[1..], rest);
    }
  }

  lemma LineIsTaken(line: string, rest: string, b: Buffers)
    requires NoEol(line) && line != ""
    ensures Decode(line + "\n" + rest, b) == Decode(rest, TakeLine(b, line))
  {
    var s := line + "\n" + rest;
    EolIs(line, rest);
    assert s[|line|..] == "\n" + rest && s[..|line|] == line;
    assert ("\n" + rest)[1..] == rest;
  }

  lemma BlankDispatches(rest: string, b: Buffers)
    ensures Decode("\n" + rest, b) == Dispatch(b) + Decode(rest, Buffers("", ""))
  {
    var s := "\n" + rest;
    assert s[0..] == s && s[1..] == rest;
  }

  lemma {:induction false} ColonIs(name: string, rest: string)
    requires ':' !in name
    ensures ColonAt(name + ":" + rest) == |name|
  {
    var s := name + ":" + rest;
    if name != [] {
      assert s[1..] == name[1..] + ":" + rest;
      ColonIs(name[1..], rest);
    }
  }

  lemma FieldIs(name: string, value: string)
    requires ':' !in name
    ensures Field(name + ": " + value) == (name, value)
  {
    var line := name + ": " + value;
    assert line == name + ":" + (" " + value);
    ColonIs(name, " " + value);
    assert line[..|name|] == name && line[|name| + 2..] == value;
  }

  function Lines(lines: seq<string>): string {
    if lines == [] then "" else lines[0] + "\n" + Lines(lines[1..])
  }

  lemma DataIsTaken(line: string, rest: string, b: Buffers)
    requires OneLine(line)
    ensures Decode("data: " + line + "\n" + rest, b) == Decode(rest, b.(data := b.data + (line + "\n")))
  {
    assert NoEol("data: ");
    LineIsTaken("data: " + line, rest, b);
    assert "data" + ": " == "data: ";
    FieldIs("data", line);
    assert b.data + line + "\n" == b.data + (line + "\n");
  }

  lemma {:induction false} DataAreTaken(lines: seq<string>, rest: string, b: Buffers)
    requires forall i :: 0 <= i < |lines| ==> OneLine(lines[i])
    ensures Decode(Lines(DataFields(lines)) + rest, b) == Decode(rest, b.(data := b.data + Lines(lines)))
    decreases |lines|
  {
    if lines == [] {
      assert Lines(DataFields(lines)) + rest == rest && b.data + Lines(lines) == b.data;
    } else {
      var fields, more := DataFields(lines), Lines(DataFields(lines[1..])) + rest;
      assert fields[1..] == DataFields(lines[1..]);
      Assoc("data: " + lines[0] + "\n", Lines(fields[1..]), rest);
      DataIsTaken(lines[0], more, b);
      DataAreTaken(lines[1..], rest, b.(data := b.data + (lines[0] + "\n")));
      Assoc(b.data, lines[0] + "\n", Lines(lines[1..]));
    }
  }

  // Joining with two empty lines at the end ends every line and adds a blank one.
  lemma {:induction false} JoinEnds(lines: seq<string>)
    ensures Join(lines + ["", ""], "\n") == Lines(lines) + "\n"
  {
    var all := lines + ["", ""];
    if lines == [] {
      assert all[1..] == [""];
    } else {
      assert all[1..] == lines[1..] + ["", ""];
      JoinEnds(lines[1..]);
    }
  }

  lemma {:induction false} LinesJoin(lines: seq<string>)
    requires lines != []
    ensures Lines(lines) == Join(lines, "\n") + "\n"
  {
    if |lines| == 1 {
      assert Lines(lines[1..]) == "";
    } else {
      LinesJoin(lines[1..]);
    }
  }

  /** The data an event arrives with: its lines, joined by newlines. */
  function Arrives(name: string, data: string): Event {
    Event(if name == "" then "message" else name, Join(NonEmpty(SplitLines(data)), "\n"))
  }

  lemma DispatchIs(name: string, lines: seq<string>)
    requires lines != []
    ensures Dispatch(Buffers(name, "" + Lines(lines))) ==
            [Event(if name == "" then "message" else name, Join(lines, "\n"))]
  {
    LinesJoin(lines);
    assert "" + Lines(lines) == Lines(lines);
    assert (Join(lines, "\n") + "\n")[..|Join(lines, "\n")|] == Join(lines, "\n");
  }

  // The frame, with every line ended.
  lemma FrameLines(name: string, data: string)
    ensures var fields := DataFields(NonEmpty(SplitLines(data)));
            Frame(name, data) == (if name != "" then "event: " + name + "\n" else "") + Lines(fields) + "\n"
  {
    var fields := DataFields(NonEmpty(SplitLines(data)));
    if name != "" {
      var first := "event: " + name;
      JoinEnds([first] + fields);
      assert ([first] + fields)[1..] == fields;
    } else {
      JoinEnds([] + fields);
      assert [] + fields == fields;
    }
  }

  // The data fields and the blank line after the name.
  lemma BodyIsRead(name: string, lines: seq<string>, rest: string)
    requires lines != [] && forall i :: 0 <= i < |lines| ==> OneLine(lines[i])
    ensures Decode(Lines(DataFields(lines)) + ("\n" + rest), Buffers(name, "")) ==
            [Event(if name == "" then "message" else name, Join(lines, "\n"))] + Decode(rest, Buffers("", ""))
  {
    DataAreTaken(lines, "\n" + rest, Buffers(name, ""));
    BlankDispatches(rest, Buffers(name, "" + Lines(lines)));
    DispatchIs(name, lines);
  }

  // The name, if there is one, goes into the buffer.
  lemma HeadIsRead(name: string, data: string, rest: string)
    requires NoEol(name)
    ensures Decode(Frame(name, data) + rest, Buffers("", "")) ==
            Decode(Lines(DataFields(NonEmpty(SplitLines(data)))) + ("\n" + rest), Buffers(name, ""))
  {
    FrameLines(name, data);
    var fields := Lines(DataFields(NonEmpty(SplitLines(data))));
    HeadSplits(name, fields, rest);
    if name != "" {
      NameIsTaken(name, fields + ("\n" + rest));
    }
  }

  lemma HeadSplits(name: string, fields: string, rest: string)
    ensures (if name != "" then "event: " + name + "\n" else "") + fields + "\n" + rest ==
            (if name != "" then "event: " + name + "\n" + (fields + ("\n" + rest)) else fields + ("\n" + rest))
  {
  }

  /** One frame is one event, whatever follows it. */
  lemma FrameIsRead(name: string, data: string, rest: string)
    requires NoEol(name)
    ensures Decode(Frame(name, data) + rest, Buffers("", "")) == [Arrives(name, data)] + Decode(rest, Buffers("", ""))
  {
    HeadIsRead(name, data, rest);
    SplitLinesAreLines(data);
    var lines := NonEmpty(SplitLines(data));
    assert forall i :: 0 <= i < |lines| ==> OneLine(lines[i]);
    BodyIsRead(name, lines, rest);
  }

  lemma NameIsTaken(name: string, after: string)
    requires NoEol(name)
    ensures Decode("event: " + name + "\n" + after, Buffers("", "")) == Decode(after, Buffers(name, ""))
  {
    assert NoEol("event: ");
    LineIsTaken("event: " + name, after, Buffers("", ""));
    assert "event" + ": " == "event: ";
    FieldIs("event", name);
  }

  // ---- whole streams --------------------------------------------------------------------------

  function Write(events: seq<Event>): string {
    if events == [] then "" else Frame(events[0].name, events[0].data) + Write(events[1..])
  }

  function AllArrive(events: seq<Event>): seq<Event> {
    if events == [] then [] else [Arrives(events[0].name, events[0].data)] + AllArrive(events[1..])
  }

  /** Any stream of frames is read back as exactly its events, in order. */
  lemma {:induction false} StreamIsRead(events: seq<Event>)
    requires forall i :: 0 <= i < |events| ==> NoEol(events[i].name)
    ensures Decode(Write(events), Buffers("", "")) == AllArrive(events)
  {
    if events != [] {
      FrameIsRead(events[0].name, events[0].data, Write(events[1..]));
      StreamIsRead(events[1..]);
    }
  }

  // The answer a reply ends with.
  datatype Answer = Answer(content: string, error: string, plans: seq<string>)

  function PlanEvents(plans: seq<string>): seq<Event> {
    if plans == [] then [] else [Event("plan", plans[0])] + PlanEvents(plans[1..])
  }

  /** `_stream_result`. */
  function AnswerEvents(a: Answer): seq<Event> {
    (if a.content != "" then [Event("token", a.content)] else [])
    + (if a.error != "" then [Event("error", a.error)] else [])
    + PlanEvents(a.plans) + [Event("done", "")]
  }

  lemma {:induction false} PlansNamed(plans: seq<string>)
    ensures forall i :: 0 <= i < |PlanEvents(plans)| ==> PlanEvents(plans)[i].name == "plan"
  {
    if plans != [] { PlansNamed(plans[1..]); }
  }

  lemma {:induction false} ArriveAppend(a: seq<Event>, b: seq<Event>)
    ensures AllArrive(a + b) == AllArrive(a) + AllArrive(b)
  {
    if a == [] {
      assert a + b == b;
    } else {
      assert (a + b)[1..] == a[1..] + b;
      ArriveAppend(a[1..], b);
    }
  }

  lemma AnswerNames(a: Answer)
    ensures forall i :: 0 <= i < |AnswerEvents(a)| ==> NoEol(AnswerEvents(a)[i].name)
  {
    PlansNamed(a.plans);
    assert NoEol("token") && NoEol("error");
    assert NoEol("plan") && NoEol("done");
  }

  lemma DoneArrives()
    ensures AllArrive([Event("done", "")]) == [Event("done", "")]
  {
    var done := [Event("done", "")];
    assert done[1..] == [];
    assert Join([""], "\n") == "";
  }

  /** The reader of an answer's stream gets its events, and the last one it gets is
      the empty "done". */
  lemma AnswerIsRead(a: Answer)
    ensures Decode(Write(AnswerEvents(a)), Buffers("", "")) == AllArrive(AnswerEvents(a))
    ensures var got := Decode(Write(AnswerEvents(a)), Buffers("", ""));
            got != [] && got[|got| - 1] == Event("done", "")
  {
    var events := AnswerEvents(a);
    AnswerNames(a);
    StreamIsRead(events);
    var init := events[..|events| - 1];
    ArriveAppend(init, [Event("done", "")]);
    assert events == init + [Event("done", "")];
    DoneArrives();
  }
}
