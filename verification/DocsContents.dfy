/**
 What the rows of the docs index hold, in terms of the files alone: every listed file
 that parses can be found by any of its words, and one that does not shows why.
 */
module DocsContents {
  import opened Prelude
  import opened Text
  import opened Chunker
  import opened DocsIndex

  // Chunk `i` holds the character at `p` of the text, at its place in a slice of it.
  predicate Covers(chunks: seq<Chunk>, text: string, i: nat, from: nat, p: nat) {
    && i < |chunks|
    && chunks[i].startChar <= from <= p < from + |chunks[i].text| <= chunks[i].endChar <= |text|
    && chunks[i].text == text[from..from + |chunks[i].text|]
  }

  // Chunk `i` is the stripped, non-blank text of window `k`.
  predicate OfWindow(chunks: seq<Chunk>, text: string, w: Widths, i: nat, k: nat)
    requires w.Valid()
  {
    && i < |chunks| && k < WindowCount(|text|, w) && Piece(text, w, k) != []
    && chunks[i] == Chunk(i, Piece(text, w, k), Start(w, k), End(text, w, k))
  }

  ghost predicate Found(chunks: seq<Chunk>, text: string, p: nat) {
    exists i, from :: Covers(chunks, text, i, from, p)
  }

  ghost predicate Placed(chunks: seq<Chunk>, text: string, w: Widths, i: nat)
    requires w.Valid()
  {
    exists k :: OfWindow(chunks, text, w, i, k)
  }

  ghost predicate Kept(chunks: seq<Chunk>, text: string, w: Widths, k: nat)
    requires w.Valid()
  {
    exists i :: OfWindow(chunks, text, w, i, k)
  }

  ghost predicate Ordered(chunks: seq<Chunk>) {
    forall i, j :: 0 <= i < j < |chunks| ==> chunks[i].startChar < chunks[j].startChar
  }

  // The chunks are the non-blank windows of the text, each one once and in order, and no
  // character of the text but white space is outside all of them.
  ghost predicate HoldText(chunks: seq<Chunk>, text: string, w: Widths)
    requires w.Valid()
  {
    && (forall p: nat :: p < |text| && !IsSpace(text[p]) ==> Found(chunks, text, p))
    && (forall i: nat :: i < |chunks| ==> Placed(chunks, text, w, i))
    && (forall k: nat :: k < WindowCount(|text|, w) && Piece(text, w, k) != [] ==> Kept(chunks, text, w, k))
    && Ordered(chunks)
  }

  // A row shows a file: its hash and stat, and its text or why there is none.
  ghost predicate Shows(rules: Rules, p: Path, f: File, d: Doc)
    requires rules.widths.Valid()
  {
    && d.sha == rules.hash(f.content) && d.size == f.size && d.mtime == f.mtime
    && d.chunkCount == |d.chunks|
    && match rules.parse(p, f.content)
       case Ok(doc) => d.status == Indexed && HoldText(d.chunks, Strip(doc.text), rules.widths)
       case Err(e) => d.status == Broken(e) && d.chunks == []
  }

  ghost predicate Rising(win: nat -> Window) {
    forall k: nat :: win(k).start < win(k + 1).start
  }

  lemma {:induction false} CollectOrdered(win: nat -> Window, n: nat)
    requires Rising(win)
    ensures Ordered(Collect(win, n))
    ensures forall i :: 0 <= i < |Collect(win, n)| ==> Collect(win, n)[i].startChar < win(n).start
  {
    if n > 0 {
      CollectOrdered(win, n - 1);
      assert win(n - 1).start < win(n - 1 + 1).start;
    }
  }

  lemma StartRises(w: Widths, k: nat)
    requires w.Valid()
    ensures Start(w, k) < Start(w, k + 1)
  {
  }

  lemma WindowAt(text: string, w: Widths, k: nat)
    requires w.Valid()
    ensures WindowsOf(text, w)(k).start == Start(w, k)
  {
  }

  lemma WindowsRise(text: string, w: Widths)
    requires w.Valid()
    ensures Rising(WindowsOf(text, w))
  {
    forall k: nat ensures WindowsOf(text, w)(k).start < WindowsOf(text, w)(k + 1).start {
      StartRises(w, k);
      WindowAt(text, w, k);
      WindowAt(text, w, k + 1);
    }
  }

  lemma FindsCharacter(text: string, w: Widths, p: nat)
    requires w.Valid() && p < |text| && !IsSpace(text[p])
    ensures Found(Chunks(text, w), text, p)
  {
    var i, from := EveryCharacterIsInAChunk(text, w, p);
    assert Covers(Chunks(text, w), text, i, from, p);
  }

  lemma PlacesChunk(text: string, w: Widths, i: nat)
    requires w.Valid() && i < |Chunks(text, w)|
    ensures Placed(Chunks(text, w), text, w, i)
  {
    var k := EveryChunkIsAWindow(text, w, i);
    assert OfWindow(Chunks(text, w), text, w, i, k);
  }

  lemma EmptyIsBlank(w: Widths, k: nat)
    requires w.Valid()
    ensures Piece([], w, k) == []
  {
  }

  lemma KeepsWindow(text: string, w: Widths, k: nat)
    requires w.Valid() && k < WindowCount(|text|, w) && Piece(text, w, k) != []
    ensures Kept(Chunks(text, w), text, w, k)
  {
    EmptyIsBlank(w, k);
    var i := CollectKeeps(WindowsOf(text, w), WindowCount(|text|, w), k);
    assert OfWindow(Chunks(text, w), text, w, i, k);
  }

  lemma ChunksHoldText(text: string, w: Widths)
    requires w.Valid()
    ensures HoldText(Chunks(text, w), text, w)
  {
    forall p: nat | p < |text| && !IsSpace(text[p]) ensures Found(Chunks(text, w), text, p) {
      FindsCharacter(text, w, p);
    }
    forall i: nat | i < |Chunks(text, w)| ensures Placed(Chunks(text, w), text, w, i) { PlacesChunk(text, w, i); }
    forall k: nat | k < WindowCount(|text|, w) && Piece(text, w, k) != [] ensures Kept(Chunks(text, w), text, w, k) {
      KeepsWindow(text, w, k);
    }
    WindowsRise(text, w);
    CollectOrdered(WindowsOf(text, w), WindowCount(|text|, w));
  }

  lemma BuiltShows(rules: Rules, p: Path, f: File, meta: bool, d: Doc)
    requires rules.widths.Valid() && Agree(d, Built(rules, p, f, meta))
    ensures Shows(rules, p, f, d)
  {
    if rules.parse(p, f.content).Ok? {
      ChunksHoldText(Strip(rules.parse(p, f.content).value.text), rules.widths);
    }
  }

  /** After any history a pass without store exceptions leaves one row for each listed file
      and no other. The row has the file's hash and stat; if the file parses it is indexed,
      its chunks are the non-blank windows of the stripped text and miss no character; if
      not, it has the parser's error and no chunks. */
  lemma CleanPassShowsFiles(rules: Rules, passes: seq<Pass>, last: Pass)
    requires rules.widths.Valid() && Honest(rules, passes + [last]) && Clean(last)
    ensures var after := After(rules, passes + [last]);
            && after.Keys == last.disk.Keys
            && forall p :: p in last.disk ==> Shows(rules, p, last.disk[p], after[p])
  {
    var after := After(rules, passes + [last]);
    IncrementalEqualsRebuild(rules, passes, last);
    RebuildIsFresh(rules, last.disk);
    forall p | p in last.disk ensures p in after && Shows(rules, p, last.disk[p], after[p]) {
      CleanRow(rules, passes, last, p);
      BuiltShows(rules, p, last.disk[p], MetaRead(rules, passes + [last], p), after[p]);
    }
  }

  /** In particular a forced rebuild from nothing shows each listed file, with its titles. */
  lemma RebuildShowsFiles(rules: Rules, disk: Disk)
    requires rules.widths.Valid()
    ensures var rebuilt := Reindex(rules, map[], Rebuilt(disk));
            && rebuilt.Keys == disk.Keys
            && forall p :: p in disk ==>
                 && Shows(rules, p, disk[p], rebuilt[p])
                 && rebuilt[p].frontmatterTitle == rules.frontmatter(p, disk[p].content)
                 && rebuilt[p].title ==
                    if OwnTitle(rules, p, disk[p]) then rules.parse(p, disk[p].content).value.title
                    else if rules.parse(p, disk[p].content).Ok? then rebuilt[p].frontmatterTitle else None
  {
    RebuildIsFresh(rules, disk);
    forall p | p in disk ensures Shows(rules, p, disk[p], Fresh(rules, p, disk[p])) {
      BuiltShows(rules, p, disk[p], true, Fresh(rules, p, disk[p]));
    }
  }

  /** Over any history, whatever fails: an indexed row shows some listed state of its file. */
  lemma IndexedShowsSomeState(rules: Rules, passes: seq<Pass>, p: Path)
    requires rules.widths.Valid() && Honest(rules, passes)
    requires p in After(rules, passes) && After(rules, passes)[p].status.Indexed?
    ensures exists i :: 0 <= i < |passes| && p in passes[i].disk
                        && Shows(rules, p, passes[i].disk[p], After(rules, passes)[p])
  {
    HistoryBacked(rules, passes, p);
    var d, meta := After(rules, passes)[p], MetaRead(rules, passes, p);
    var i :| 0 <= i < |passes| && p in passes[i].disk && Agree(d, Built(rules, p, passes[i].disk[p], meta));
    BuiltShows(rules, p, passes[i].disk[p], meta, d);
  }

  /** The titles of a listed file after a clean pass: the frontmatter title is there exactly
      if the pass that last built the row could read it; an indexed row shows the body's own
      title if it has one and else that of the frontmatter, and a row in error keeps the
      title the path had. */
  lemma CleanPassTitles(rules: Rules, passes: seq<Pass>, last: Pass, p: Path)
    requires rules.widths.Valid() && Honest(rules, passes + [last]) && Clean(last) && p in last.disk
    ensures var before, after, f := After(rules, passes), After(rules, passes + [last]), last.disk[p];
            && p in after
            && after[p].frontmatterTitle ==
                (if MetaRead(rules, passes + [last], p) then rules.frontmatter(p, f.content) else None)
            && after[p].title ==
               if OwnTitle(rules, p, f) then rules.parse(p, f.content).value.title
               else if rules.parse(p, f.content).Ok? then after[p].frontmatterTitle
               else if p in before then before[p].title else None
  {
    CleanRow(rules, passes, last, p);
    if rules.parse(p, last.disk[p].content).Err? {
      BrokenTitle(rules, passes, last, p);
    }
  }

  // ---- what trouble leaves alone, and what a pass reports --------------------------------

  /** A listing that fails changes no row, nor does a store exception the row of its own
      file, nor does a failed pruning the row of a file that is gone; otherwise exactly the
      rows of the files that are gone are dropped. */
  lemma TroubleKeepsRows(rules: Rules, passes: seq<Pass>, pass: Pass, p: Path)
    requires rules.widths.Valid()
    ensures var before, after := After(rules, passes), After(rules, passes + [pass]);
            if !pass.listOk || (if p in pass.disk then pass.luck(p).Raises? else !pass.pruneOk)
            then Row(after, p) == Row(before, p)
            else p in after <==> p in pass.disk
  {
    var docs := After(rules, passes);
    assert (passes + [pass])[..|passes|] == passes;
    assert After(rules, passes + [pass]) == Reindex(rules, docs, pass);
    if pass.listOk && p in pass.disk { ReindexRow(rules, docs, pass, p); }
  }

  /** A row in error has no chunks, so that its old text is no longer found. */
  lemma {:induction false} BrokenHasNoChunks(rules: Rules, passes: seq<Pass>, p: Path)
    requires rules.widths.Valid() && p in After(rules, passes) && After(rules, passes)[p].status.Broken?
    ensures After(rules, passes)[p].chunks == [] && After(rules, passes)[p].chunkCount == 0
  {
    var init, pass := passes[..|passes| - 1], passes[|passes| - 1];
    if pass.listOk && p in pass.disk { ReindexRow(rules, After(rules, init), pass, p); }
    if p in After(rules, init) && After(rules, init)[p].status.Broken? {
      BrokenHasNoChunks(rules, init, p);
    }
  }

  /** After any history a clean pass reports an error for exactly the files that do not
      parse; and a clean pass over the same files again, unless forced, reports all the
      others as unchanged and leaves every row as it is. */
  lemma CleanPassReports(rules: Rules, passes: seq<Pass>, last: Pass, p: Path)
    requires rules.widths.Valid() && Honest(rules, passes + [last]) && Clean(last) && p in last.disk
    ensures var before, after := After(rules, passes), After(rules, passes + [last]);
            var broken, again := rules.parse(p, last.disk[p].content).Err?, last.(force := false);
            && (Reported(rules, before, last, p).DidFail? <==> broken)
            && (last.force && !broken ==> Reported(rules, before, last, p).DidIndex?)
            && Reported(rules, after, again, p) == (if broken then DidFail else DidSkip)
            && p in after && Row(Reindex(rules, after, again), p) == Row(after, p)
  {
    var docs, after, f := After(rules, passes), After(rules, passes + [last]), last.disk[p];
    HonestPrefix(rules, passes, last);
    HistoryBacked(rules, passes, p);
    var was := Witness(rules, passes, last, p, Row(docs, p), MetaRead(rules, passes, p));
    FailsIfBroken(rules, Row(docs, p), p, f, last.force, was, MetaRead(rules, passes, p));
    CleanRow(rules, passes, last, p);
    ReindexRow(rules, after, last.(force := false), p);
    if rules.parse(p, f.content).Err? { BrokenTitle(rules, passes, last, p); }
    AgainUnchanged(rules, after[p], p, f, MetaRead(rules, passes + [last], p));
  }

  lemma FailsIfBroken(rules: Rules, row: Option<Doc>, p: Path, f: File, force: bool, was: File, meta: bool)
    requires rules.widths.Valid() && Reflects(rules, row, p, f, was, meta)
    ensures IndexOne(rules, row, p, f, force, FINE).1.DidFail? <==> rules.parse(p, f.content).Err?
    ensures force && rules.parse(p, f.content).Ok? ==> IndexOne(rules, row, p, f, force, FINE).1.DidIndex?
  {
  }

  lemma AgainUnchanged(rules: Rules, d: Doc, p: Path, f: File, meta: bool)
    requires rules.widths.Valid() && Agree(d, Built(rules, p, f, meta))
    requires rules.parse(p, f.content).Err? ==> meta
    ensures var (row, out) := IndexOne(rules, Some(d), p, f, false, FINE);
            row == Some(d) && out == if rules.parse(p, f.content).Err? then DidFail else DidSkip
  {
  }
}
