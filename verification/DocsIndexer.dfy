/**
 `reindex` as the program runs it: a loop over the listed files that rewrites
 document rows field by field and counts outcomes, then a loop that prunes the
 rows of files that are gone.
 */
module DocsIndexer {
  import opened Prelude
  import opened Chunker
  import opened DocsIndex

  ghost predicate ListsOnce(files: seq<Path>, disk: Disk) {
    && (forall p :: p in files <==> p in disk)
    && (forall i, j :: 0 <= i < j < |files| ==> files[i] != files[j])
  }

  class Indexer {
    const rules: Rules
    var docs: map<Path, Doc>
    var totalFiles: nat
    var processed: nat
    var indexed: nat
    var skipped: nat
    var errors: nat

    constructor (rules: Rules)
      ensures this.rules == rules && docs == map[] && processed == 0
    {
      this.rules, docs := rules, map[];
      totalFiles, processed, indexed, skipped, errors := 0, 0, 0, 0, 0;
    }

    /** `_index_one` inside the scan's `try`: a store exception leaves the row as it was,
        one while reading the frontmatter goes unnoticed. */
    method IndexFile(p: Path, f: File, force: bool, luck: Luck) returns (outcome: Outcome)
      requires rules.widths.Valid()
      modifies this`docs
      ensures var (row, out) := IndexOne(rules, Row(old(docs), p), p, f, force, luck);
              && outcome == out
              && Row(docs, p) == row
              && forall q :: q != p ==> Row(docs, q) == Row(old(docs), q)
    {
      if luck.Raises? { return DidFail; }
      var row := if p in docs then Some(docs[p]) else None;
      if row.Some? && !force && row.value.status.Indexed? && row.value.size == f.size && row.value.mtime == f.mtime {
        return DidSkip;
      }
      var digest := rules.hash(f.content);
      if row.Some? && !force && row.value.sha == digest && row.value.status.Indexed? {
        docs := docs[p := row.value.(size := f.size, mtime := f.mtime)];
        return DidSkip;
      }
      var fm := if luck.meta then rules.frontmatter(p, f.content) else None;
      var parsed := if luck.body.Some? then Err(luck.body.value) else rules.parse(p, f.content);
      if parsed.Err? {
        var title := if row.Some? then row.value.title else None;
        docs := docs[p := Doc(digest, f.size, f.mtime, Broken(parsed.error), title, fm, [], 0)];
        return DidFail;
      }
      var chunks := ChunkText(parsed.value.text, rules.widths);
      var title := DisplayTitle(parsed.value.title, fm);
      docs := docs[p := Doc(digest, f.size, f.mtime, Indexed, title, fm, chunks, |chunks|)];
      return DidIndex;
    }

    /** One turn of the scan loop: the file's row, and one locked counter update. */
    method ScanFile(pass: Pass, p: Path)
      requires rules.widths.Valid() && p in pass.disk
      modifies this
      ensures Row(docs, p) == Scanned(rules, old(docs), pass)(p)
      ensures forall q :: q != p ==> Row(docs, q) == Row(old(docs), q)
      ensures totalFiles == old(totalFiles) && processed == old(processed) + 1
      ensures var out := Reports(rules, old(docs), pass)(p);
              && indexed == old(indexed) + (if out.DidIndex? then 1 else 0)
              && skipped == old(skipped) + (if out.DidSkip? then 1 else 0)
              && errors == old(errors) + (if out.DidFail? then 1 else 0)
    {
      var outcome := IndexFile(p, pass.disk[p], pass.force, pass.luck(p));
      processed := processed + 1;
      match outcome {
        case DidIndex => indexed := indexed + 1;
        case DidSkip => skipped := skipped + 1;
        case DidFail => errors := errors + 1;
      }
    }

    /** The scan loop: each listed file once, and each outcome counted. */
    method Scan(pass: Pass, files: seq<Path>)
      requires rules.widths.Valid() && ListsOnce(files, pass.disk)
      modifies this
      ensures totalFiles == processed == |files| && processed == indexed + skipped + errors
      ensures Counted(rules, old(docs), pass, indexed, skipped, errors)
      ensures forall p :: Row(docs, p) == Scanned(rules, old(docs), pass)(p)
    {
      totalFiles, processed, indexed, skipped, errors := |files|, 0, 0, 0, 0;
      ghost var row, report := Scanned(rules, docs, pass), Reports(rules, docs, pass);
      for i := 0 to |files|
        invariant processed == i && processed == indexed + skipped + errors && totalFiles == |files|
        invariant Partway(old(docs), docs, row, files, i) && Tallied(report, files, i, indexed, skipped, errors)
      {
        ghost var before := docs;
        SameFile(rules, old(docs), before, pass, files, i);
        NextTally(report, files, i, report(files[i]), indexed, skipped, errors);
        ScanFile(pass, files[i]);
        NextFile(old(docs), before, docs, row, files, i);
      }
      AllFiles(rules, old(docs), docs, pass, files);
      AllCounted(rules, old(docs), pass, files, indexed, skipped, errors);
    }

    /** `_remove_deleted`: drops exactly the rows of files not on disk. */
    method RemoveDeleted(onDisk: set<Path>) returns (removed: nat)
      modifies this`docs
      ensures docs == old(docs) - (old(docs).Keys - onDisk)
      ensures removed == |old(docs).Keys - onDisk|
    {
      var stale := docs.Keys - onDisk;
      removed := |stale|;
      docs := DropKeys(docs, stale);
    }

    /** `reindex`: the table becomes what `Reindex` says, and a pass that lists its
        files ends with every one of them processed and counted as it was reported. */
    method Run(pass: Pass, files: seq<Path>)
      requires rules.widths.Valid() && ListsOnce(files, pass.disk)
      modifies this
      ensures docs == Reindex(rules, old(docs), pass)
      ensures processed == indexed + skipped + errors && totalFiles == processed
      ensures processed == if pass.listOk then |pass.disk| else 0
      ensures pass.listOk ==> Counted(rules, old(docs), pass, indexed, skipped, errors)
    {
      totalFiles, processed, indexed, skipped, errors := 0, 0, 0, 0, 0;
      if !pass.listOk { return; }
      Scan(pass, files);
      CountOnce(files, pass.disk);
      ghost var scanned := docs;
      if pass.pruneOk {
        var _ := RemoveDeleted(pass.disk.Keys);
      }
      ScanThenPrune(rules, old(docs), pass, scanned, docs);
    }
  }

  // The first `i` files have their rows made by `row`; the other rows are as they were.
  ghost predicate Partway(start: map<Path, Doc>, docs: map<Path, Doc>, row: Path -> Option<Doc>, files: seq<Path>,
                          i: nat)
    requires i <= |files|
  {
    forall p :: Row(docs, p) == if p in files[..i] then row(p) else Row(start, p)
  }

  ghost function Reports(rules: Rules, docs: map<Path, Doc>, pass: Pass): Path -> Outcome
    requires rules.widths.Valid()
  {
    (p: Path) => if p in pass.disk then Reported(rules, docs, pass, p) else DidSkip
  }

  // The files reported with each outcome.
  ghost predicate Counted(rules: Rules, docs: map<Path, Doc>, pass: Pass, indexed: nat, skipped: nat, errors: nat)
    requires rules.widths.Valid()
  {
    && indexed == |set p | p in pass.disk && Reported(rules, docs, pass, p) == DidIndex|
    && skipped == |set p | p in pass.disk && Reported(rules, docs, pass, p) == DidSkip|
    && errors == |set p | p in pass.disk && Reported(rules, docs, pass, p) == DidFail|
  }

  // The same count, along the list of files.
  ghost function Tally(report: Path -> Outcome, files: seq<Path>, out: Outcome): nat {
    if files == [] then 0
    else Tally(report, files[..|files| - 1], out) + if report(files[|files| - 1]) == out then 1 else 0
  }

  ghost predicate Tallied(report: Path -> Outcome, files: seq<Path>, i: nat, indexed: nat, skipped: nat, errors: nat)
    requires i <= |files|
  {
    && indexed == Tally(report, files[..i], DidIndex)
    && skipped == Tally(report, files[..i], DidSkip)
    && errors == Tally(report, files[..i], DidFail)
  }

  // The scan meets a file as if its row were that of the start.
  lemma SameFile(rules: Rules, start: map<Path, Doc>, docs: map<Path, Doc>, pass: Pass, files: seq<Path>, i: nat)
    requires rules.widths.Valid() && ListsOnce(files, pass.disk) && i < |files|
    requires Partway(start, docs, Scanned(rules, start, pass), files, i)
    ensures files[i] in pass.disk
    ensures Scanned(rules, docs, pass)(files[i]) == Scanned(rules, start, pass)(files[i])
    ensures Reports(rules, docs, pass)(files[i]) == Reports(rules, start, pass)(files[i])
  {
    assert Row(docs, files[i]) == Row(start, files[i]);
  }

  lemma NextTally(report: Path -> Outcome, files: seq<Path>, i: nat, outcome: Outcome, indexed: nat, skipped: nat,
                  errors: nat)
    requires i < |files| && Tallied(report, files, i, indexed, skipped, errors) && outcome == report(files[i])
    ensures Tallied(report, files, i + 1, indexed + (if outcome.DidIndex? then 1 else 0),
                    skipped + (if outcome.DidSkip? then 1 else 0), errors + (if outcome.DidFail? then 1 else 0))
  {
    assert files[..i + 1][..i] == files[..i];
  }

  ghost function Those(report: Path -> Outcome, files: seq<Path>, out: Outcome): set<Path> {
    set p | p in files && report(p) == out
  }

  lemma ThoseSnoc(report: Path -> Outcome, files: seq<Path>, q: Path, out: Outcome)
    ensures Those(report, files + [q], out) == Those(report, files, out) + if report(q) == out then {q} else {}
  {
  }

  lemma AddOne(s: set<Path>, q: Path)
    requires q !in s
    ensures |s + {q}| == |s| + 1
  {
  }

  lemma {:induction false} TallyIs(report: Path -> Outcome, files: seq<Path>, out: Outcome)
    requires forall i, j :: 0 <= i < j < |files| ==> files[i] != files[j]
    ensures Tally(report, files, out) == |Those(report, files, out)|
  {
    if files != [] {
      var init, q := files[..|files| - 1], files[|files| - 1];
      assert files == init + [q];
      TallyIs(report, init, out);
      ThoseSnoc(report, init, q, out);
      AddOne(Those(report, init, out), q);
    }
  }

  lemma AllCounted(rules: Rules, docs: map<Path, Doc>, pass: Pass, files: seq<Path>, indexed: nat, skipped: nat,
                   errors: nat)
    requires rules.widths.Valid() && ListsOnce(files, pass.disk)
    requires Tallied(Reports(rules, docs, pass), files, |files|, indexed, skipped, errors)
    ensures Counted(rules, docs, pass, indexed, skipped, errors)
  {
    assert files[..|files|] == files;
    OneCounted(rules, docs, pass, files, DidIndex);
    OneCounted(rules, docs, pass, files, DidSkip);
    OneCounted(rules, docs, pass, files, DidFail);
  }

  lemma OneCounted(rules: Rules, docs: map<Path, Doc>, pass: Pass, files: seq<Path>, out: Outcome)
    requires rules.widths.Valid() && ListsOnce(files, pass.disk)
    ensures Tally(Reports(rules, docs, pass), files, out)
            == |set p | p in pass.disk && Reported(rules, docs, pass, p) == out|
  {
    var report := Reports(rules, docs, pass);
    TallyIs(report, files, out);
    assert Those(report, files, out) == (set p | p in pass.disk && Reported(rules, docs, pass, p) == out);
  }

  lemma NextFile(start: map<Path, Doc>, before: map<Path, Doc>, docs: map<Path, Doc>, row: Path -> Option<Doc>,
                 files: seq<Path>, i: nat)
    requires i < |files| && Partway(start, before, row, files, i)
    requires Row(docs, files[i]) == row(files[i]) && forall q :: q != files[i] ==> Row(docs, q) == Row(before, q)
    ensures Partway(start, docs, row, files, i + 1)
  {
    assert files[..i + 1] == files[..i] + [files[i]];
  }

  lemma AllFiles(rules: Rules, start: map<Path, Doc>, docs: map<Path, Doc>, pass: Pass, files: seq<Path>)
    requires rules.widths.Valid() && ListsOnce(files, pass.disk)
    requires Partway(start, docs, Scanned(rules, start, pass), files, |files|)
    ensures forall p :: Row(docs, p) == Scanned(rules, start, pass)(p)
  {
    assert files[..|files|] == files;
  }

  // The loop of `_remove_deleted`, row by row.
  method DropKeys<K(==), V>(m: map<K, V>, stale: set<K>) returns (rest: map<K, V>)
    ensures rest == m - stale
  {
    rest := m;
    var todo := stale;
    while todo != {}
      invariant todo <= stale
      invariant forall k :: k in rest <==> k in m && (k !in stale || k in todo)
      invariant forall k :: k in rest ==> rest[k] == m[k]
      decreases |todo|
    {
      var p :| p in todo;
      rest := rest - {p};
      todo := todo - {p};
    }
  }

  // What the scan makes of each listed file.
  ghost function Scanned(rules: Rules, docs: map<Path, Doc>, pass: Pass): Path -> Option<Doc>
    requires rules.widths.Valid()
  {
    (p: Path) => if p in pass.disk then IndexOne(rules, Row(docs, p), p, pass.disk[p], pass.force, pass.luck(p)).0
                 else Row(docs, p)
  }

  lemma RowsDecide(docs: map<Path, Doc>, docs': map<Path, Doc>)
    requires forall p :: Row(docs, p) == Row(docs', p)
    ensures docs == docs'
  {
    forall p ensures p in docs <==> p in docs' {
      assert Row(docs, p) == Row(docs', p);
    }
    forall p | p in docs ensures docs[p] == docs'[p] {
      assert Row(docs, p) == Row(docs', p);
    }
  }

  lemma ScanThenPrune(rules: Rules, before: map<Path, Doc>, pass: Pass, scanned: map<Path, Doc>, docs: map<Path, Doc>)
    requires rules.widths.Valid() && pass.listOk
    requires forall p :: Row(scanned, p) == Scanned(rules, before, pass)(p)
    requires docs == if pass.pruneOk then scanned - (scanned.Keys - pass.disk.Keys) else scanned
    ensures docs == Reindex(rules, before, pass)
  {
    forall p ensures Row(docs, p) == Row(Reindex(rules, before, pass), p) {
      assert Row(scanned, p) == Scanned(rules, before, pass)(p);
      assert Row(docs, p) == NewRow(rules, before, pass, p);
    }
    RowsDecide(docs, Reindex(rules, before, pass));
  }

  lemma {:induction false} CountOnce(files: seq<Path>, disk: Disk)
    requires ListsOnce(files, disk)
    ensures |files| == |disk|
  {
    if files == [] {
      assert disk.Keys == {};
    } else {
      var p := files[0];
      var rest := disk - {p};
      assert rest.Keys == disk.Keys - {p};
      CountOnce(files[1..], rest);
    }
  }
}
