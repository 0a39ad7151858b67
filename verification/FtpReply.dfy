/** Replies on the FTP control channel (section 4.2 of RFC 959): printing and reading. */
module FtpReply {
  import opened Prelude
  import opened Text

  // A reply as the server means it: one line, or a first line, middle lines and a last one.
  datatype Reply =
    | Single(code: nat, text: string)
    | Multi(code: nat, first: string, middle: seq<string>, last: string)

  // What the client makes of it.
  datatype Said = Said(code: int, text: string)

  datatype Fault = NotOpen | Closed | Malformed(line: string) | Unexpected(code: int, text: string)
      | NoPort(text: string) | Rejected(code: int) | LocalFile

  // ---- printing ----------------------------------------------------------------------

  const CRLF := "\r\n"

  predicate LineText(s: string) {
    '\n' !in s && (s != "" ==> s[|s| - 1] != '\r')
  }

  predicate StartsWith(s: string, p: string) {
    |p| <= |s| && s[..|p|] == p
  }

  /** A reply a server may send: three-digit code, text lines, and no middle line that
      looks like the last one. */
  predicate WellFormed(r: Reply) {
    && 100 <= r.code <= 999
    && match r
       case Single(_, text) => LineText(text)
       case Multi(code, first, middle, last) =>
         && LineText(first) && LineText(last)
         && forall i :: 0 <= i < |middle| ==> LineText(middle[i]) && !StartsWith(middle[i], Digits(code) + " ")
  }

  function PrintLines(lines: seq<string>): string {
    if lines == [] then "" else lines[0] + CRLF + PrintLines(lines[1..])
  }

  function Print(r: Reply): string {
    match r
    case Single(code, text) => Digits(code) + " " + text + CRLF
    case Multi(code, first, middle, last) =>
      Digits(code) + "-" + first + CRLF + PrintLines(middle + [Digits(code) + " " + last])
  }

  // The text of a reply: everything after the first code and separator.
  function Heard(r: Reply): Said {
    match r
    case Single(code, text) => Said(code, text)
    case Multi(code, first, middle, last) => Said(code, first + "\n" + Join(middle + [Digits(code) + " " + last], "\n"))
  }

  // ---- reading -------------------------------------------------------------------------

  // `readline`: up to and with the first LF, or all there is.
  function LineEnd(s: string): (n: nat)
    ensures n <= |s| && (s != [] ==> n > 0)
  {
    if s == [] then 0 else if s[0] == '\n' then 1 else 1 + LineEnd(s[1..])
  }

  // `rstrip("\r\n")`.
  function TrimEol(s: string): string {
    if s != [] && (s[|s| - 1] == '\r' || s[|s| - 1] == '\n') then TrimEol(s[..|s| - 1]) else s
  }

  function NextLine(s: string): string {
    TrimEol(s[..LineEnd(s)])
  }

  function Rest(s: string): (r: string)
    ensures s != [] ==> |r| < |s|
  {
    s[LineEnd(s)..]
  }

  // The lines up to the one that begins with `end`, or to the end of the stream.
  function More(s: string, end: string): (seq<string>, string)
    decreases |s|
  {
    if s == [] then ([], [])
    else if StartsWith(NextLine(s), end) then ([NextLine(s)], Rest(s))
    else
      var (lines, rest) := More(Rest(s), end);
      ([NextLine(s)] + lines, rest)
  }

  predicate HasCode(line: string) {
    |line| >= 4 && AllDigits(line[..3])
  }

  /** `_read_reply`: what is said and what is left to read. */
  function Read(s: string): (Result<Said, Fault>, string) {
    if s == [] then (Err(Closed), [])
    else
      var line := NextLine(s);
      if !HasCode(line) then (Err(Malformed(line)), Rest(s))
      else if line[3] != '-' then (Ok(Said(ValueOf(line[..3]), line[4..])), Rest(s))
      else
        var (lines, rest) := More(Rest(s), line[..3] + " ");
        (Ok(Said(ValueOf(line[..3]), Join([line] + lines, "\n")[4..])), rest)
  }

  // ---- reading undoes printing ---------------------------------------------------------

  lemma {:induction false} LineEndIs(line: string, rest: string)
    requires '\n' !in line
    ensures LineEnd(line + CRLF + rest) == |line| + 2
  {
    var s := line + CRLF + rest;
    if line == [] {
      assert s[1..] == ['\n'] + rest;
    } else {
      assert s[1..] == line[1..] + CRLF + rest;
      LineEndIs(line[1..], rest);
    }
  }

  lemma TrimEolIs(line: string)
    requires LineText(line)
    ensures TrimEol(line + CRLF) == line
  {
    var s := line + CRLF;
    assert s[..|s| - 1] == line + "\r";
    assert (line + "\r")[..|line|] == line;
    assert line != "" ==> line[|line| - 1] in line;
    assert TrimEol(line + "\r") == TrimEol(line) == line;
  }

  /** A printed line is read back and nothing more. */
  lemma LineIsRead(line: string, rest: string)
    requires LineText(line)
    ensures NextLine(line + CRLF + rest) == line && Rest(line + CRLF + rest) == rest
  {
    LineEndIs(line, rest);
    TrimEolIs(line);
    assert (line + CRLF + rest)[..|line| + 2] == line + CRLF;
  }

  lemma {:induction false} MoreIsRead(middle: seq<string>, last: string, end: string, rest: string)
    requires LineText(last) && StartsWith(last, end)
    requires forall i :: 0 <= i < |middle| ==> LineText(middle[i]) && !StartsWith(middle[i], end)
    ensures More(PrintLines(middle + [last]) + rest, end) == (middle + [last], rest)
    decreases |middle|
  {
    if middle == [] {
      assert PrintLines([last]) == last + CRLF + PrintLines([]);
      assert PrintLines([last]) + rest == last + CRLF + rest;
      LineIsRead(last, rest);
      assert middle + [last] == [last];
    } else {
      var line, tail := middle[0], middle[1..];
      var after := PrintLines(tail + [last]) + rest;
      assert (middle + [last])[1..] == tail + [last];
      assert PrintLines(middle + [last]) + rest == line + CRLF + after;
      LineIsRead(line, after);
      MoreIsRead(tail, last, end, rest);
      assert [line] + (tail + [last]) == middle + [last];
    }
  }

  lemma ThreeDigits(code: nat)
    requires 100 <= code <= 999
    ensures |Digits(code)| == 3
  {
    assert |Digits(code / 100)| == 1;
    assert code / 10 / 10 == code / 100;
  }

  lemma CodedLine(code: nat, sep: char, text: string)
    requires 100 <= code <= 999 && LineText(text) && sep != '\r' && sep != '\n'
    ensures var line := Digits(code) + [sep] + text;
            LineText(line) && HasCode(line) && line[..3] == Digits(code) && line[3] == sep && line[4..] == text
            && ValueOf(line[..3]) == code
  {
    ThreeDigits(code);
    DigitsRead(code);
    var d := Digits(code);
    assert forall i :: 0 <= i < 3 ==> IsDigit(d[i]);
    assert '\n' !in d;
  }

  /** Any well-formed reply, single or multi-line, is read back with its code and text,
      and exactly its own bytes are consumed. */
  lemma ReplyIsRead(r: Reply, rest: string)
    requires WellFormed(r)
    ensures Read(Print(r) + rest) == (Ok(Heard(r)), rest)
  {
    match r
    case Single(code, text) =>
      var line := Digits(code) + " " + text;
      CodedLine(code, ' ', text);
      assert Print(r) + rest == line + CRLF + rest;
      LineIsRead(line, rest);
    case Multi(code, first, middle, last) =>
      MultiIsRead(code, first, middle, last, rest);
  }

  lemma MultiPrints(code: nat, first: string, middle: seq<string>, last: string, rest: string)
    ensures var line, lines := Digits(code) + "-" + first, middle + [Digits(code) + " " + last];
            Print(Multi(code, first, middle, last)) + rest == line + CRLF + (PrintLines(lines) + rest)
  {
    Assoc(Digits(code) + "-" + first + CRLF, PrintLines(middle + [Digits(code) + " " + last]), rest);
  }

  lemma JoinedText(line: string, lines: seq<string>)
    requires |line| >= 4 && lines != []
    ensures Join([line] + lines, "\n")[4..] == line[4..] + "\n" + Join(lines, "\n")
  {
    assert ([line] + lines)[1..] == lines;
    assert Join([line] + lines, "\n") == line + "\n" + Join(lines, "\n");
    Assoc(line, "\n", Join(lines, "\n"));
    DropFirst(line, "\n" + Join(lines, "\n"));
    Assoc(line[4..], "\n", Join(lines, "\n"));
  }

  lemma DropFirst(a: string, b: string)
    requires |a| >= 4
    ensures (a + b)[4..] == a[4..] + b
  {
  }

  lemma MultiIsRead(code: nat, first: string, middle: seq<string>, last: string, rest: string)
    requires WellFormed(Multi(code, first, middle, last))
    ensures Read(Print(Multi(code, first, middle, last)) + rest) == (Ok(Heard(Multi(code, first, middle, last))), rest)
  {
    var line, final := Digits(code) + "-" + first, Digits(code) + " " + last;
    var lines := middle + [final];
    CodedLine(code, '-', first);
    CodedLine(code, ' ', last);
    MultiPrints(code, first, middle, last, rest);
    LineIsRead(line, PrintLines(lines) + rest);
    MoreIsRead(middle, final, Digits(code) + " ", rest);
    JoinedText(line, lines);
  }
}
