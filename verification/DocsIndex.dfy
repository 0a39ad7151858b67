/**
 The incremental docs index: one pass over the docs tree with the stat fast path
 and the hash check, rows rewritten in place, deletions pruned.  After a pass
 without store exceptions the rows are those a forced rebuild from an empty table
 would give, but for two title fields, whose exact rule is given.
 */
module DocsIndex {
  import opened Prelude
  import opened Text
  import opened Chunker

  type Path = string
  type Content = string

  datatype File = File(size: nat, mtime: int, content: Content)

  type Disk = map<Path, File>

  datatype Status = Indexed | Broken(error: string)

  datatype Doc = Doc(
    sha: string, size: nat, mtime: int, status: Status,
    title: Option<string>, frontmatterTitle: Option<string>,
    chunks: seq<Chunk>, chunkCount: nat)

  datatype Parsed = Parsed(text: string, title: Option<string>)

  // The fixed configuration and the foreign pure functions: content hash, parser
  // dispatch, frontmatter title, and the chunker's widths.
  datatype Rules = Rules(
    hash: Content -> string,
    parse: (Path, Content) -> Result<Parsed, string>,
    frontmatter: (Path, Content) -> Option<string>,
    widths: Widths)

  // How the store behaves for one file: some call raises, or the file is read twice,
  // for its frontmatter, where a failure goes unnoticed, and for its body, where it is
  // reported as a parse error.
  datatype Luck = Raises | Reads(meta: bool, body: Option<string>)

  const FINE := Reads(true, None)

  datatype Outcome = DidIndex | DidSkip | DidFail

  function Row(docs: map<Path, Doc>, p: Path): Option<Doc> {
    if p in docs then Some(docs[p]) else None
  }

  function DisplayTitle(title: Option<string>, fm: Option<string>): Option<string> {
    if title.Some? && title.value != "" then title else fm
  }

  // The row of a file whose body parsed, or did not; `title` is the title so far.
  function BuildRow(rules: Rules, p: Path, f: File, parsed: Result<Parsed, string>, fm: Option<string>,
                    title: Option<string>): Doc
    requires rules.widths.Valid()
  {
    match parsed
    case Err(e) => Doc(rules.hash(f.content), f.size, f.mtime, Broken(e), title, fm, [], 0)
    case Ok(doc) =>
      var chunks := Chunks(Strip(doc.text), rules.widths);
      Doc(rules.hash(f.content), f.size, f.mtime, Indexed, DisplayTitle(doc.title, fm), fm, chunks, |chunks|)
  }

  // The stat fast path: nothing is read.
  predicate SameStat(row: Option<Doc>, f: File, force: bool) {
    row.Some? && !force && row.value.status.Indexed? && row.value.size == f.size && row.value.mtime == f.mtime
  }

  predicate SameHash(rules: Rules, row: Option<Doc>, f: File, force: bool) {
    row.Some? && !force && row.value.sha == rules.hash(f.content) && row.value.status.Indexed?
  }

  // The row is built anew.
  predicate Builds(rules: Rules, row: Option<Doc>, f: File, force: bool, luck: Luck) {
    luck.Reads? && !SameStat(row, f, force) && !SameHash(rules, row, f, force)
  }

  function Frontmatter(rules: Rules, p: Path, f: File, meta: bool): Option<string> {
    if meta then rules.frontmatter(p, f.content) else None
  }

  /** `_index_one`, for the row the table holds. */
  function IndexOne(rules: Rules, row: Option<Doc>, p: Path, f: File, force: bool, luck: Luck): (Option<Doc>, Outcome)
    requires rules.widths.Valid()
  {
    if luck.Raises? then (row, DidFail)
    else if SameStat(row, f, force) then (row, DidSkip)
    else if SameHash(rules, row, f, force) then (Some(row.value.(size := f.size, mtime := f.mtime)), DidSkip)
    else
      var parsed := if luck.body.Some? then Err(luck.body.value) else rules.parse(p, f.content);
      var title := if row.Some? then row.value.title else None;
      (Some(BuildRow(rules, p, f, parsed, Frontmatter(rules, p, f, luck.meta), title)),
       if parsed.Ok? then DidIndex else DidFail)
  }

  // One call of `reindex`: the files it lists, and how its calls turn out.
  datatype Pass = Pass(disk: Disk, force: bool, luck: Path -> Luck, listOk: bool, pruneOk: bool)

  // What a pass reports for a listed file.
  function Reported(rules: Rules, docs: map<Path, Doc>, pass: Pass, p: Path): Outcome
    requires rules.widths.Valid() && p in pass.disk
  {
    IndexOne(rules, Row(docs, p), p, pass.disk[p], pass.force, pass.luck(p)).1
  }

  function NewRow(rules: Rules, docs: map<Path, Doc>, pass: Pass, p: Path): Option<Doc>
    requires rules.widths.Valid()
  {
    if p in pass.disk then IndexOne(rules, Row(docs, p), p, pass.disk[p], pass.force, pass.luck(p)).0
    else if pass.pruneOk then None
    else Row(docs, p)
  }

  /** What a pass makes of the table. */
  function Reindex(rules: Rules, docs: map<Path, Doc>, pass: Pass): map<Path, Doc>
    requires rules.widths.Valid()
  {
    if !pass.listOk then docs
    else
      map p | p in docs.Keys + pass.disk.Keys && NewRow(rules, docs, pass, p).Some? ::
        NewRow(rules, docs, pass, p).value
  }

  // ---- the reference: a forced rebuild from nothing --------------------------------

  ghost predicate Clean(pass: Pass) {
    pass.listOk && pass.pruneOk && forall p :: pass.luck(p) == FINE
  }

  function Rebuilt(disk: Disk): Pass {
    Pass(disk, true, (p: Path) => FINE, true, true)
  }

  // An index of a file from scratch, with or without its frontmatter.
  function Built(rules: Rules, p: Path, f: File, meta: bool): Doc
    requires rules.widths.Valid()
  {
    BuildRow(rules, p, f, rules.parse(p, f.content), Frontmatter(rules, p, f, meta), None)
  }

  function Fresh(rules: Rules, p: Path, f: File): Doc
    requires rules.widths.Valid()
  {
    Built(rules, p, f, true)
  }

  lemma RebuildIsFresh(rules: Rules, disk: Disk)
    requires rules.widths.Valid()
    ensures Reindex(rules, map[], Rebuilt(disk)) == map p | p in disk :: Fresh(rules, p, disk[p])
  {
  }

  // Two rows agree on everything but the title of a row in error, which the code
  // leaves as it was.
  predicate Agree(d: Doc, e: Doc) {
    d.(title := None) == e.(title := None) && (d.status.Indexed? ==> d.title == e.title)
  }

  // Hash, stat, status and chunks are the same.
  predicate SameContent(d: Doc, e: Doc) {
    d.(title := None, frontmatterTitle := None) == e.(title := None, frontmatterTitle := None)
  }

  ghost predicate Agrees(docs: map<Path, Doc>, docs': map<Path, Doc>) {
    docs.Keys == docs'.Keys && forall p :: p in docs ==> SameContent(docs[p], docs'[p])
  }

  ghost function After(rules: Rules, passes: seq<Pass>): map<Path, Doc>
    requires rules.widths.Valid()
  {
    if passes == [] then map[] else Reindex(rules, After(rules, passes[..|passes| - 1]), passes[|passes| - 1])
  }

  // Over the history, a file whose content changes changes size or time stamp, and
  // its contents do not collide under the hash.
  ghost predicate Honest(rules: Rules, passes: seq<Pass>) {
    forall i, j, p :: 0 <= i < |passes| && 0 <= j < |passes| && p in passes[i].disk && p in passes[j].disk ==>
      HonestPair(rules, passes[i].disk[p], passes[j].disk[p])
  }

  predicate HonestPair(rules: Rules, f: File, g: File) {
    (f.size == g.size && f.mtime == g.mtime) || rules.hash(f.content) == rules.hash(g.content) ==>
        f.content == g.content
  }

  // Whether the pass that last built the row of `p` could read its frontmatter.
  ghost predicate MetaRead(rules: Rules, passes: seq<Pass>, p: Path)
    requires rules.widths.Valid()
  {
    if passes == [] then true
    else
      var init, pass := passes[..|passes| - 1], passes[|passes| - 1];
      if pass.listOk && p in pass.disk
         && Builds(rules, Row(After(rules, init), p), pass.disk[p], pass.force, pass.luck(p))
      then pass.luck(p).meta else MetaRead(rules, init, p)
  }

  // An indexed row is what an index from scratch of some listed state of the file gives.
  ghost predicate Backed(rules: Rules, passes: seq<Pass>, p: Path, d: Doc, meta: bool)
    requires rules.widths.Valid()
  {
    d.status.Indexed? ==>
      exists i :: 0 <= i < |passes| && p in passes[i].disk && Agree(d, Built(rules, p, passes[i].disk[p], meta))
  }

  // An indexed row reflects an honest state `was` of the file.
  predicate Reflects(rules: Rules, row: Option<Doc>, p: Path, f: File, was: File, meta: bool)
    requires rules.widths.Valid()
  {
    row.Some? && row.value.status.Indexed? ==> Agree(row.value, Built(rules, p, was, meta)) && HonestPair(rules, was, f)
  }

  // The short cuts agree with an index from scratch that has the same view of the
  // frontmatter as the row they keep.
  lemma IndexOneIsBuilt(rules: Rules, row: Option<Doc>, p: Path, f: File, force: bool, was: File, meta: bool)
    requires rules.widths.Valid() && Reflects(rules, row, p, f, was, meta)
    ensures var r := IndexOne(rules, row, p, f, force, FINE).0;
            r.Some? && Agree(r.value, Built(rules, p, f, Builds(rules, row, f, force, FINE) || meta))
  {
  }

  // Whatever the luck, an indexed result reflects this file or the old one.
  lemma IndexOneBacked(rules: Rules, row: Option<Doc>, p: Path, f: File, force: bool, luck: Luck, was: File, meta: bool)
    requires rules.widths.Valid() && Reflects(rules, row, p, f, was, meta)
    ensures var r := IndexOne(rules, row, p, f, force, luck).0;
            var meta' := if Builds(rules, row, f, force, luck) then luck.meta else meta;
            r.Some? && r.value.status.Indexed? ==>
              Agree(r.value, Built(rules, p, f, meta')) || Agree(r.value, Built(rules, p, was, meta'))
  {
  }

  lemma BackedMono(rules: Rules, passes: seq<Pass>, pass: Pass, p: Path, d: Doc, meta: bool)
    requires rules.widths.Valid() && Backed(rules, passes, p, d, meta)
    ensures Backed(rules, passes + [pass], p, d, meta)
  {
    if d.status.Indexed? {
      var i :| 0 <= i < |passes| && p in passes[i].disk && Agree(d, Built(rules, p, passes[i].disk[p], meta));
      assert (passes + [pass])[i] == passes[i];
    }
  }

  // The earlier state of the file that an indexed row reflects.
  lemma Witness(rules: Rules, passes: seq<Pass>, pass: Pass, p: Path, row: Option<Doc>, meta: bool) returns (was: File)
    requires rules.widths.Valid() && (row.Some? ==> Backed(rules, passes, p, row.value, meta))
    requires Honest(rules, passes + [pass]) && p in pass.disk
    ensures Reflects(rules, row, p, pass.disk[p], was, meta)
    ensures was == pass.disk[p] || exists i :: 0 <= i < |passes| && p in passes[i].disk && passes[i].disk[p] == was
  {
    was := pass.disk[p];
    if row.Some? && row.value.status.Indexed? {
      var i :| 0 <= i < |passes| && p in passes[i].disk && Agree(row.value, Built(rules, p, passes[i].disk[p], meta));
      was := passes[i].disk[p];
      var all := passes + [pass];
      assert all[i] == passes[i] && all[|passes|] == pass;
    }
  }

  lemma RowStaysBacked(rules: Rules, passes: seq<Pass>, docs: map<Path, Doc>, pass: Pass, p: Path, meta: bool)
    requires rules.widths.Valid() && Honest(rules, passes + [pass])
    requires p in docs ==> Backed(rules, passes, p, docs[p], meta)
    requires NewRow(rules, docs, pass, p).Some?
    ensures var builds := p in pass.disk && Builds(rules, Row(docs, p), pass.disk[p], pass.force, pass.luck(p));
            Backed(rules, passes + [pass], p, NewRow(rules, docs, pass, p).value,
                   if builds then pass.luck(p).meta else meta)
  {
    if p in docs { BackedMono(rules, passes, pass, p, docs[p], meta); }
    if p in pass.disk {
      var all := passes + [pass];
      var was := Witness(rules, passes, pass, p, Row(docs, p), meta);
      IndexOneBacked(rules, Row(docs, p), p, pass.disk[p], pass.force, pass.luck(p), was, meta);
      assert all[|passes|] == pass;
      if was != pass.disk[p] {
        var i :| 0 <= i < |passes| && p in passes[i].disk && passes[i].disk[p] == was;
        assert all[i] == passes[i];
      }
    }
  }

  /** Over any history every indexed row is what an index from scratch of some listed
      state of its file gives, with the frontmatter exactly if the pass that last built
      the row could read it. */
  lemma {:induction false} HistoryBacked(rules: Rules, passes: seq<Pass>, p: Path)
    requires rules.widths.Valid() && Honest(rules, passes)
    ensures p in After(rules, passes) ==>
              Backed(rules, passes, p, After(rules, passes)[p], MetaRead(rules, passes, p))
  {
    if passes != [] {
      var init, pass := passes[..|passes| - 1], passes[|passes| - 1];
      assert passes == init + [pass];
      HonestPrefix(rules, init, pass);
      HistoryBacked(rules, init, p);
      var docs := After(rules, init);
      if p in After(rules, passes) {
        if pass.listOk {
          RowStaysBacked(rules, init, docs, pass, p, MetaRead(rules, init, p));
        } else {
          BackedMono(rules, init, pass, p, docs[p], MetaRead(rules, init, p));
        }
      }
    }
  }

  // What a clean pass makes of a listed file.
  lemma CleanRow(rules: Rules, passes: seq<Pass>, last: Pass, p: Path)
    requires rules.widths.Valid() && Honest(rules, passes + [last]) && Clean(last) && p in last.disk
    ensures var after := After(rules, passes + [last]);
            p in after && Agree(after[p], Built(rules, p, last.disk[p], MetaRead(rules, passes + [last], p)))
  {
    var docs := After(rules, passes);
    assert (passes + [last])[..|passes|] == passes;
    assert After(rules, passes + [last]) == Reindex(rules, docs, last);
    HonestPrefix(rules, passes, last);
    HistoryBacked(rules, passes, p);
    var was := Witness(rules, passes, last, p, Row(docs, p), MetaRead(rules, passes, p));
    IndexOneIsBuilt(rules, Row(docs, p), p, last.disk[p], last.force, was, MetaRead(rules, passes, p));
  }

  // The frontmatter touches the two title fields only.
  lemma MetaIsTitles(rules: Rules, p: Path, f: File, meta: bool, d: Doc)
    requires rules.widths.Valid() && Agree(d, Built(rules, p, f, meta))
    ensures SameContent(d, Fresh(rules, p, f))
  {
  }

  /** Incremental equals rebuild: after any history of passes with whatever edits and
      failures between them, a pass that meets no store exception leaves the paths,
      hashes, stats, statuses and chunks that a forced rebuild from an empty table
      leaves; and also the frontmatter titles, and the titles of indexed rows, wherever
      the pass that last built the row could read its frontmatter. */
  lemma IncrementalEqualsRebuild(rules: Rules, passes: seq<Pass>, last: Pass)
    requires rules.widths.Valid() && Honest(rules, passes + [last]) && Clean(last)
    ensures var after, rebuilt := After(rules, passes + [last]), Reindex(rules, map[], Rebuilt(last.disk));
            && Agrees(after, rebuilt)
            && forall p :: p in after && MetaRead(rules, passes + [last], p) ==> Agree(after[p], rebuilt[p])
  {
    var docs := After(rules, passes);
    assert (passes + [last])[..|passes|] == passes;
    assert After(rules, passes + [last]) == Reindex(rules, docs, last);
    RebuildIsFresh(rules, last.disk);
    forall p | p in last.disk
      ensures p in After(rules, passes + [last])
      ensures SameContent(After(rules, passes + [last])[p], Fresh(rules, p, last.disk[p]))
      ensures MetaRead(rules, passes + [last], p) ==>
                Agree(After(rules, passes + [last])[p], Fresh(rules, p, last.disk[p]))
    {
      CleanRow(rules, passes, last, p);
      MetaIsTitles(rules, p, last.disk[p], MetaRead(rules, passes + [last], p), After(rules, passes + [last])[p]);
    }
  }

  // ---- the two title fields ------------------------------------------------------------

  // A file that does not parse is built again by every pass.
  lemma BrokenIsBuilt(rules: Rules, row: Option<Doc>, p: Path, f: File, force: bool, was: File, meta: bool)
    requires rules.widths.Valid() && rules.parse(p, f.content).Err? && Reflects(rules, row, p, f, was, meta)
    ensures Builds(rules, row, f, force, FINE)
    ensures IndexOne(rules, row, p, f, force, FINE).0.value.title == (if row.Some? then row.value.title else None)
  {
  }

  // The file has no frontmatter title to lose, or its frontmatter was read.
  ghost predicate MetaShows(rules: Rules, passes: seq<Pass>, p: Path, f: File)
    requires rules.widths.Valid()
  {
    MetaRead(rules, passes, p) || rules.frontmatter(p, f.content).None?
  }

  // The body has a title of its own, which the frontmatter does not show through.
  predicate OwnTitle(rules: Rules, p: Path, f: File) {
    && rules.parse(p, f.content).Ok?
    && rules.parse(p, f.content).value.title.Some? && rules.parse(p, f.content).value.title.value != ""
  }

  /** Exactly when the two title fields of a listed file differ from a rebuild's. The
      frontmatter title is the rebuild's if and only if the pass that last built the row
      could read the frontmatter, or there is no such title. The title is the rebuild's
      if and only if, for a file that parses, the same holds or the body has a title of
      its own; and for one that does not, the path had no row or a row without title. */
  lemma TitlesAgreeExactly(rules: Rules, passes: seq<Pass>, last: Pass, p: Path)
    requires rules.widths.Valid() && Honest(rules, passes + [last]) && Clean(last) && p in last.disk
    ensures var before, after := After(rules, passes), After(rules, passes + [last]);
            var rebuilt, f := Reindex(rules, map[], Rebuilt(last.disk)), last.disk[p];
            && p in after && p in rebuilt
            && (after[p].frontmatterTitle == rebuilt[p].frontmatterTitle <==> MetaShows(rules, passes + [last], p, f))
            && (after[p].title == rebuilt[p].title <==>
                  if rules.parse(p, f.content).Ok? then OwnTitle(rules, p, f) || MetaShows(rules, passes + [last], p, f)
                  else p !in before || before[p].title.None?)
  {
    CleanRow(rules, passes, last, p);
    RebuildIsFresh(rules, last.disk);
    if rules.parse(p, last.disk[p].content).Err? {
      BrokenTitle(rules, passes, last, p);
    }
  }

  lemma BrokenTitle(rules: Rules, passes: seq<Pass>, last: Pass, p: Path)
    requires rules.widths.Valid() && Honest(rules, passes + [last]) && Clean(last) && p in last.disk
    requires rules.parse(p, last.disk[p].content).Err?
    ensures MetaRead(rules, passes + [last], p)
    ensures var before, after := After(rules, passes), After(rules, passes + [last]);
            p in after && after[p].title == if p in before then before[p].title else None
  {
    var docs := After(rules, passes);
    assert (passes + [last])[..|passes|] == passes;
    HonestPrefix(rules, passes, last);
    HistoryBacked(rules, passes, p);
    var was := Witness(rules, passes, last, p, Row(docs, p), MetaRead(rules, passes, p));
    BrokenIsBuilt(rules, Row(docs, p), p, last.disk[p], last.force, was, MetaRead(rules, passes, p));
  }

  lemma HonestPrefix(rules: Rules, passes: seq<Pass>, last: Pass)
    requires Honest(rules, passes + [last])
    ensures Honest(rules, passes)
  {
    assert forall i :: 0 <= i < |passes| ==> (passes + [last])[i] == passes[i];
  }

  /** An input where the title differs: a file that was indexed once and then stops
      parsing keeps its old title. */
  lemma BrokenRowKeepsOldTitle(rules: Rules, p: Path, f: File, g: File, title: string)
    requires rules.widths.Valid() && title != "" && rules.hash(f.content) != rules.hash(g.content) && f.mtime != g.mtime
    requires rules.parse(p, f.content).Ok? && rules.parse(p, f.content).value.title == Some(title)
    requires rules.parse(p, g.content).Err?
    ensures var first := IndexOne(rules, None, p, f, false, FINE).0;
            var second := IndexOne(rules, first, p, g, false, FINE).0;
            second.value.title == Some(title) && Fresh(rules, p, g).title == None
  {
  }

  // One pass over one file, with that luck, then one without trouble.
  function OnceThenClean(p: Path, f: File, luck: Luck): seq<Pass> {
    var disk := map[p := f];
    [Pass(disk, false, (q: Path) => luck, true, true), Pass(disk, false, (q: Path) => FINE, true, true)]
  }

  /** An input where both differ: the frontmatter of a file without a title of its own
      cannot be read in one pass, and the clean pass after it skips the file, so that
      both titles stay missing. */
  lemma UnreadFrontmatterStaysMissing(rules: Rules, p: Path, f: File, title: string)
    requires rules.widths.Valid() && rules.frontmatter(p, f.content) == Some(title)
    requires rules.parse(p, f.content).Ok? && rules.parse(p, f.content).value.title.None?
    ensures var after := After(rules, OnceThenClean(p, f, Reads(false, None)));
            && p in after && after[p].title.None? && after[p].frontmatterTitle.None?
            && Fresh(rules, p, f).title == Some(title) && Fresh(rules, p, f).frontmatterTitle == Some(title)
  {
    var passes := OnceThenClean(p, f, Reads(false, None));
    AfterTwo(rules, passes[0], passes[1]);
    assert passes == [passes[0], passes[1]];
    var first := Reindex(rules, map[], passes[0]);
    ReindexRow(rules, map[], passes[0], p);
    ReindexRow(rules, first, passes[1], p);
    UnreadThenSkipped(rules, p, f, title);
  }

  lemma UnreadThenSkipped(rules: Rules, p: Path, f: File, title: string)
    requires rules.widths.Valid() && rules.frontmatter(p, f.content) == Some(title)
    requires rules.parse(p, f.content).Ok? && rules.parse(p, f.content).value.title.None?
    ensures var first := IndexOne(rules, None, p, f, false, Reads(false, None)).0;
            var second := IndexOne(rules, first, p, f, false, FINE).0;
            && second.Some? && second.value.title.None? && second.value.frontmatterTitle.None?
            && Fresh(rules, p, f).title == Some(title) && Fresh(rules, p, f).frontmatterTitle == Some(title)
  {
  }

  lemma ReindexRow(rules: Rules, docs: map<Path, Doc>, pass: Pass, p: Path)
    requires rules.widths.Valid() && pass.listOk && p in pass.disk
    ensures Row(Reindex(rules, docs, pass), p)
            == IndexOne(rules, Row(docs, p), p, pass.disk[p], pass.force, pass.luck(p)).0
  {
  }

  lemma AfterTwo(rules: Rules, a: Pass, b: Pass)
    requires rules.widths.Valid()
    ensures After(rules, [a, b]) == Reindex(rules, Reindex(rules, map[], a), b)
  {
    assert [a, b][..1] == [a] && [a][..0] == [];
    assert After(rules, [a]) == Reindex(rules, After(rules, []), a);
  }
}
