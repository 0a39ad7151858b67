/** Machine-readable directory listings (section 7 of RFC 3659): printing and `_parse_mlsd`. */
module FtpListing {
  import opened Prelude
  import opened Text

  datatype RemoteEntry = RemoteEntry(name: string, isDir: bool, size: Option<int>, modified: Option<string>)

  // ---- parsing ------------------------------------------------------------------------

  function LowerChar(c: char): char {
    if 'A' <= c <= 'Z' then (c as int + 32) as char else c
  }

  // `str.lower`, on ASCII.
  function Lower(s: string): string {
    if s == [] then [] else [LowerChar(s[0])] + Lower(s[1..])
  }

  // The index of the first `c`, or the length.
  function Find(s: string, c: char): (n: nat)
    ensures n <= |s| && c !in s[..n] && (n < |s| ==> s[n] == c)
  {
    if s == [] || s[0] == c then 0 else 1 + Find(s[1..], c)
  }

  function Before(s: string, c: char): string {
    s[..Find(s, c)]
  }

  function After(s: string, c: char): string {
    if Find(s, c) < |s| then s[Find(s, c) + 1..] else ""
  }

  type Facts = map<string, string>

  // One part between semicolons.
  function AddFact(facts: Facts, part: string): Facts {
    if '=' in part then facts[Lower(Before(part, '=')) := After(part, '=')] else facts
  }

  function FactsOf(parts: seq<string>): Facts {
    if parts == [] then map[] else AddFact(FactsOf(parts[..|parts| - 1]), parts[|parts| - 1])
  }

  function Get(facts: Facts, key: string): string {
    if key in facts then facts[key] else ""
  }

  function GetOption(facts: Facts, key: string): Option<string> {
    if key in facts then Some(facts[key]) else None
  }

  // The entry that a type, a size and a modification fact make.
  function MakeEntry(name: string, kind: string, size: string, modified: Option<string>): Option<RemoteEntry> {
    var typ := Lower(kind);
    if typ == "cdir" || typ == "pdir" then None
    else
      var length := if typ != "dir" && size != "" && AllDigits(size) then Some(ValueOf(size)) else None;
      Some(RemoteEntry(name, typ == "dir", length, modified))
  }

  // A line, unless it is skipped.
  function ParseLine(line: string): Option<RemoteEntry> {
    if Strip(line) == "" || After(line, ' ') == "" then None
    else
      var facts := FactsOf(Split(Before(line, ' '), ';'));
      MakeEntry(After(line, ' '), Get(facts, "type"), Get(facts, "size"), GetOption(facts, "modify"))
  }

  function Keep(e: Option<RemoteEntry>): seq<RemoteEntry> {
    if e.Some? then [e.value] else []
  }

  function ParseLines(lines: seq<string>): seq<RemoteEntry> {
    if lines == [] then [] else Keep(ParseLine(lines[0])) + ParseLines(lines[1..])
  }

  /** `_parse_mlsd`. */
  method ParseMlsd(text: string) returns (entries: seq<RemoteEntry>)
    ensures entries == ParseLines(SplitLines(text))
  {
    entries := ParseEach(SplitLines(text));
  }

  method ParseEach(lines: seq<string>) returns (entries: seq<RemoteEntry>)
    ensures entries == ParseLines(lines)
  {
    entries := [];
    for i := 0 to |lines|
      invariant entries + ParseLines(lines[i..]) == ParseLines(lines)
    {
      var e := ParseOne(lines[i]);
      ParseNext(entries, lines, i, e);
      if e.Some? { entries := entries + [e.value]; } else { assert entries + [] == entries; }
    }
  }

  lemma ParseNext(entries: seq<RemoteEntry>, lines: seq<string>, i: nat, e: Option<RemoteEntry>)
    requires i < |lines| && e == ParseLine(lines[i])
    ensures entries + ParseLines(lines[i..]) == (entries + Keep(e)) + ParseLines(lines[i + 1..])
  {
    assert lines[i..][1..] == lines[i + 1..];
  }

  // One turn of its loop.
  method ParseOne(line: string) returns (e: Option<RemoteEntry>)
    ensures e == ParseLine(line)
  {
    if Strip(line) == "" { return None; }
    var name := After(line, ' ');
    if name == "" { return None; }
    var facts := ReadFacts(Before(line, ' '));
    var typ := Lower(Get(facts, "type"));
    if typ == "cdir" || typ == "pdir" { return None; }
    var isDir := typ == "dir";
    var size := None;
    if !isDir && Get(facts, "size") != "" && AllDigits(Get(facts, "size")) {
      size := Some(ValueOf(Get(facts, "size")));
    }
    return Some(RemoteEntry(name, isDir, size, GetOption(facts, "modify")));
  }

  method ReadFacts(text: string) returns (facts: Facts)
    ensures facts == FactsOf(Split(text, ';'))
  {
    facts := map[];
    var parts := Split(text, ';');
    for i := 0 to |parts|
      invariant facts == FactsOf(parts[..i])
    {
      assert parts[..i + 1][..i] == parts[..i];
      if '=' in parts[i] {
        facts := facts[Lower(Before(parts[i], '=')) := After(parts[i], '=')];
      }
    }
    assert parts[..|parts|] == parts;
  }

  // ---- printing -----------------------------------------------------------------------

  datatype Fact = Fact(key: string, value: string)

  datatype Line = Line(facts: seq<Fact>, name: string)

  predicate Plain(s: string) {
    ';' !in s && ' ' !in s && OneLine(s)
  }

  predicate FactOk(f: Fact) {
    Plain(f.key) && '=' !in f.key && Plain(f.value)
  }

  predicate LineOk(l: Line) {
    && (forall i :: 0 <= i < |l.facts| ==> FactOk(l.facts[i]))
    && l.name != "" && OneLine(l.name)
    && (l.facts != [] || !AllSpace(l.name))
  }

  predicate AllLinesOk(lines: seq<Line>) {
    forall i :: 0 <= i < |lines| ==> LineOk(lines[i])
  }

  function PrintFact(f: Fact): string {
    f.key + "=" + f.value
  }

  function PrintFacts(facts: seq<Fact>): string {
    if facts == [] then "" else PrintFact(facts[0]) + ";" + PrintFacts(facts[1..])
  }

  function PrintLine(l: Line): string {
    PrintFacts(l.facts) + " " + l.name
  }

  function PrintListing(lines: seq<Line>): string {
    if lines == [] then "" else PrintLine(lines[0]) + "\r\n" + PrintListing(lines[1..])
  }

  // The last fact with a key, whatever its case.
  function Stated(facts: seq<Fact>, key: string): Option<string> {
    if facts == [] then None
    else if Lower(facts[|facts| - 1].key) == key then Some(facts[|facts| - 1].value)
    else Stated(facts[..|facts| - 1], key)
  }

  function Or(v: Option<string>): string {
    if v.Some? then v.value else ""
  }

  // The entry a line stands for; none for the directory itself and its parent.
  function Meaning(l: Line): Option<RemoteEntry> {
    MakeEntry(l.name, Or(Stated(l.facts, "type")), Or(Stated(l.facts, "size")), Stated(l.facts, "modify"))
  }

  function Meanings(lines: seq<Line>): seq<RemoteEntry> {
    if lines == [] then [] else Keep(Meaning(lines[0])) + Meanings(lines[1..])
  }

  // ---- parsing undoes printing ----------------------------------------------------------

  lemma {:induction false} FindIs(a: string, c: char, b: string)
    requires c !in a
    ensures Find(a + [c] + b, c) == |a|
  {
    var s := a + [c] + b;
    if a != [] {
      assert s[1..] == a[1..] + [c] + b && s[0] == a[0];
      FindIs(a[1..], c, b);
    }
  }

  lemma Cut(a: string, c: char, b: string)
    requires c !in a
    ensures Before(a + [c] + b, c) == a && After(a + [c] + b, c) == b
  {
    FindIs(a, c, b);
  }

  function PrintedParts(facts: seq<Fact>): seq<string> {
    seq(|facts|, i requires 0 <= i < |facts| => PrintFact(facts[i]))
  }

  lemma {:induction false} SplitFacts(facts: seq<Fact>)
    requires forall i :: 0 <= i < |facts| ==> FactOk(facts[i])
    ensures Split(PrintFacts(facts), ';') == PrintedParts(facts) + [""]
  {
    if facts != [] {
      SplitFacts(facts[1..]);
      assert ';' !in PrintFact(facts[0]) by { assert FactOk(facts[0]); }
      SplitFirst(PrintFact(facts[0]), ';', PrintFacts(facts[1..]));
      assert PrintedParts(facts) == [PrintFact(facts[0])] + PrintedParts(facts[1..]);
    }
  }

  // The dictionary built from the parts holds the last fact for every key.
  lemma {:induction false} FactsAreStated(facts: seq<Fact>, key: string)
    requires forall i :: 0 <= i < |facts| ==> FactOk(facts[i])
    ensures GetOption(FactsOf(PrintedParts(facts)), key) == Stated(facts, key)
    decreases |facts|
  {
    var parts := PrintedParts(facts);
    if facts != [] {
      var init, last := facts[..|facts| - 1], facts[|facts| - 1];
      FactsAreStated(init, key);
      assert parts[..|parts| - 1] == PrintedParts(init);
      assert FactOk(last);
      Cut(last.key, '=', last.value);
      assert PrintFact(last)[|last.key|] == '=';
    }
  }

  lemma LastPartEmpty(parts: seq<string>)
    ensures FactsOf(parts + [""]) == FactsOf(parts)
  {
    assert (parts + [""])[..|parts|] == parts;
  }

  lemma {:induction false} FactsArePlain(facts: seq<Fact>)
    requires forall i :: 0 <= i < |facts| ==> FactOk(facts[i])
    ensures ' ' !in PrintFacts(facts) && OneLine(PrintFacts(facts))
    ensures facts != [] ==> !AllSpace(PrintFacts(facts))
  {
    if facts != [] {
      FactsArePlain(facts[1..]);
      assert FactOk(facts[0]);
      assert PrintFacts(facts)[|facts[0].key|] == '=';
    }
  }

  lemma StripBlank(s: string)
    requires !AllSpace(s)
    ensures Strip(s) != ""
  {
    LStripSplits(s);
    RStripSplits(LStrip(s));
  }

  lemma LineNotBlank(l: Line)
    requires LineOk(l)
    ensures Strip(PrintLine(l)) != ""
  {
    var line, head := PrintLine(l), PrintFacts(l.facts);
    FactsArePlain(l.facts);
    if l.facts != [] {
      var i :| 0 <= i < |head| && !IsSpace(head[i]);
      assert line[i] == head[i];
    } else {
      var i :| 0 <= i < |l.name| && !IsSpace(l.name[i]);
      assert line[|head| + 1 + i] == l.name[i];
    }
    StripBlank(line);
  }

  // The dictionary read from the printed facts.
  lemma FactsAreRead(facts: seq<Fact>, key: string)
    requires forall i :: 0 <= i < |facts| ==> FactOk(facts[i])
    ensures GetOption(FactsOf(Split(PrintFacts(facts), ';')), key) == Stated(facts, key)
  {
    SplitFacts(facts);
    LastPartEmpty(PrintedParts(facts));
    FactsAreStated(facts, key);
  }

  lemma GetIsOr(facts: Facts, key: string)
    ensures Get(facts, key) == Or(GetOption(facts, key))
  {
  }

  lemma LineIsParsed(l: Line)
    requires LineOk(l)
    ensures ParseLine(PrintLine(l)) == Meaning(l)
  {
    FactsArePlain(l.facts);
    LineNotBlank(l);
    Cut(PrintFacts(l.facts), ' ', l.name);
    FactsAreRead(l.facts, "type");
    FactsAreRead(l.facts, "size");
    FactsAreRead(l.facts, "modify");
    var facts := FactsOf(Split(PrintFacts(l.facts), ';'));
    GetIsOr(facts, "type");
    GetIsOr(facts, "size");
  }

  lemma LineIsOne(l: Line)
    requires LineOk(l)
    ensures OneLine(PrintLine(l))
  {
    FactsArePlain(l.facts);
  }

  /** A printed listing, facts in any order, case and number, parses back to the
      entries its lines stand for, in order, without the lines for the directory
      itself and its parent. */
  lemma {:induction false} ListingIsParsed(lines: seq<Line>)
    requires AllLinesOk(lines)
    ensures ParseLines(SplitLines(PrintListing(lines))) == Meanings(lines)
  {
    if lines != [] {
      ListingIsParsed(lines[1..]);
      assert LineOk(lines[0]);
      LineIsParsed(lines[0]);
      LineIsOne(lines[0]);
      SplitLinesFirst(PrintLine(lines[0]), "\r\n", PrintListing(lines[1..]));
    }
  }

  // ---- listing entries --------------------------------------------------------------------

  // An entry as a server prints it.
  function KindFact(e: RemoteEntry): Fact {
    Fact("type", if e.isDir then "dir" else "file")
  }

  function ModifyFacts(e: RemoteEntry): seq<Fact> {
    if e.modified.Some? then [Fact("modify", e.modified.value)] else []
  }

  function SizeFacts(e: RemoteEntry): seq<Fact> {
    if e.size.Some? && e.size.value >= 0 then [Fact("size", Digits(e.size.value))] else []
  }

  function EntryLine(e: RemoteEntry): Line {
    Line([KindFact(e)] + ModifyFacts(e) + SizeFacts(e), e.name)
  }

  predicate EntryOk(e: RemoteEntry) {
    && e.name != "" && OneLine(e.name)
    && (e.modified.Some? ==> Plain(e.modified.value))
    && (e.size.Some? ==> !e.isDir && e.size.value >= 0)
  }

  function EntryLines(entries: seq<RemoteEntry>): seq<Line> {
    if entries == [] then [] else [EntryLine(entries[0])] + EntryLines(entries[1..])
  }

  lemma DigitsArePlain(n: nat)
    ensures Plain(Digits(n)) && AllDigits(Digits(n)) && Digits(n) != ""
  {
    var d := Digits(n);
    assert forall i :: 0 <= i < |d| ==> IsDigit(d[i]);
  }

  predicate Word(s: string) {
    forall i :: 0 <= i < |s| ==> 'a' <= s[i] <= 'z'
  }

  lemma {:induction false} WordIsLower(s: string)
    requires Word(s)
    ensures Lower(s) == s && Plain(s) && '=' !in s
  {
    if s != [] {
      WordIsLower(s[1..]);
    }
  }

  // A word as key: the fact is well formed, and states its value under that key only.
  lemma WordFact(key: string, value: string, k: string)
    requires Word(key) && Plain(value)
    ensures FactOk(Fact(key, value))
    ensures Stated([Fact(key, value)], k) == if k == key then Some(value) else None
  {
    WordIsLower(key);
    var f := [Fact(key, value)];
    assert f[..0] == [];
  }

  lemma KindStates(e: RemoteEntry, key: string)
    ensures FactOk(KindFact(e))
    ensures Stated([KindFact(e)], key) == if key == "type" then Some(KindFact(e).value) else None
  {
    assert Word("type");
    assert Word("dir") && Word("file");
    WordIsLower(KindFact(e).value);
    WordFact("type", KindFact(e).value, key);
  }

  lemma ModifyStates(e: RemoteEntry, key: string)
    requires EntryOk(e)
    ensures |ModifyFacts(e)| <= 1 && forall i :: 0 <= i < |ModifyFacts(e)| ==> FactOk(ModifyFacts(e)[i])
    ensures Stated(ModifyFacts(e), key) == if key == "modify" then e.modified else None
  {
    assert Word("modify");
    if e.modified.Some? { WordFact("modify", e.modified.value, key); }
  }

  lemma SizeStates(e: RemoteEntry, key: string)
    requires EntryOk(e)
    ensures |SizeFacts(e)| <= 1 && forall i :: 0 <= i < |SizeFacts(e)| ==> FactOk(SizeFacts(e)[i])
    ensures Stated(SizeFacts(e), key) == if key == "size" && e.size.Some? then Some(Digits(e.size.value)) else None
  {
    assert Word("size");
    if e.size.Some? {
      DigitsArePlain(e.size.value);
      WordFact("size", Digits(e.size.value), key);
    }
  }

  lemma StatedAppend(a: seq<Fact>, b: seq<Fact>, key: string)
    requires |b| <= 1
    ensures Stated(a + b, key) == if Stated(b, key).Some? then Stated(b, key) else Stated(a, key)
  {
    if b == [] {
      assert a + b == a;
    } else {
      assert (a + b)[..|a|] == a && b[..0] == [];
    }
  }

  // What the facts of an entry's line say.
  lemma EntryStates(e: RemoteEntry, key: string)
    requires EntryOk(e)
    ensures Stated(EntryLine(e).facts, key) ==
            if key == "type" then Some(KindFact(e).value)
            else if key == "modify" then e.modified
            else if key == "size" && e.size.Some? then Some(Digits(e.size.value)) else None
  {
    KindStates(e, key);
    ModifyStates(e, key);
    SizeStates(e, key);
    StatedAppend([KindFact(e)] + ModifyFacts(e), SizeFacts(e), key);
    StatedAppend([KindFact(e)], ModifyFacts(e), key);
  }

  lemma EntryLineOk(e: RemoteEntry)
    requires EntryOk(e)
    ensures LineOk(EntryLine(e))
  {
    KindStates(e, "");
    ModifyStates(e, "");
    SizeStates(e, "");
  }

  lemma EntryMade(e: RemoteEntry, size: string)
    requires EntryOk(e)
    requires if e.size.Some? then size == Digits(e.size.value) else size == ""
    ensures MakeEntry(e.name, KindFact(e).value, size, e.modified) == Some(e)
  {
    assert Word("dir") && Word("file");
    WordIsLower(KindFact(e).value);
    if e.size.Some? {
      DigitsArePlain(e.size.value);
      DigitsRead(e.size.value);
    }
  }

  lemma EntryMeans(e: RemoteEntry)
    requires EntryOk(e)
    ensures Meaning(EntryLine(e)) == Some(e)
  {
    EntryStates(e, "type");
    EntryStates(e, "modify");
    EntryStates(e, "size");
    EntryMade(e, Or(Stated(EntryLine(e).facts, "size")));
  }

  lemma {:induction false} EntriesMean(entries: seq<RemoteEntry>)
    requires forall i :: 0 <= i < |entries| ==> EntryOk(entries[i])
    ensures Meanings(EntryLines(entries)) == entries
    ensures AllLinesOk(EntryLines(entries))
  {
    if entries != [] {
      EntryMeans(entries[0]);
      EntryLineOk(entries[0]);
      EntriesMean(entries[1..]);
      OneMore(EntryLine(entries[0]), EntryLines(entries[1..]), entries[0], entries[1..]);
      assert entries == [entries[0]] + entries[1..];
    }
  }

  lemma {:induction false} OneMore(line: Line, rest: seq<Line>, e: RemoteEntry, es: seq<RemoteEntry>)
    requires Meaning(line) == Some(e) && Meanings(rest) == es && LineOk(line) && AllLinesOk(rest)
    ensures Meanings([line] + rest) == [e] + es && AllLinesOk([line] + rest)
  {
    assert ([line] + rest)[0] == line && ([line] + rest)[1..] == rest;
  }

  // A line for the directory itself or its parent.
  predicate IsDot(l: Line) {
    LineOk(l) && (Lower(Or(Stated(l.facts, "type"))) == "cdir" || Lower(Or(Stated(l.facts, "type"))) == "pdir")
  }

  lemma DotDropped(dot: Line, lines: seq<Line>)
    requires IsDot(dot) && AllLinesOk(lines)
    ensures Meanings([dot] + lines) == Meanings(lines) && AllLinesOk([dot] + lines)
  {
    assert ([dot] + lines)[1..] == lines;
    assert Meaning(dot).None?;
  }

  // A listing of a directory: its own two entries, then the rest.
  ghost predicate Lists(listing: seq<Line>, entries: seq<RemoteEntry>) {
    exists dot, dotDot :: IsDot(dot) && IsDot(dotDot) && listing == [dot] + ([dotDot] + EntryLines(entries))
  }

  lemma ListsMean(listing: seq<Line>, entries: seq<RemoteEntry>)
    requires Lists(listing, entries) && forall i :: 0 <= i < |entries| ==> EntryOk(entries[i])
    ensures AllLinesOk(listing) && Meanings(listing) == entries
  {
    var dot, dotDot :| IsDot(dot) && IsDot(dotDot) && listing == [dot] + ([dotDot] + EntryLines(entries));
    EntriesMean(entries);
    DotDropped(dotDot, EntryLines(entries));
    DotDropped(dot, [dotDot] + EntryLines(entries));
  }

  /** A server's listing of a directory, with its own two entries first, parses back
      to the entries. */
  lemma EntriesRecovered(listing: seq<Line>, entries: seq<RemoteEntry>)
    requires Lists(listing, entries) && forall i :: 0 <= i < |entries| ==> EntryOk(entries[i])
    ensures ParseLines(SplitLines(PrintListing(listing))) == entries
  {
    ListsMean(listing, entries);
    ListingIsParsed(listing);
  }
}
