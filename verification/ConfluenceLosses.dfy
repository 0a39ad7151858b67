/**
 What the mirror loses: attachments whose listing failed, which it deletes although
 they still exist remotely, and files whose delete failed, which it forgets.
 */
module ConfluenceLosses {
  import opened Prelude
  import opened ConfluencePaths
  import opened ConfluenceMirror
  import opened ConfluenceHealing
  import opened ConfluenceSync

  // ---- which rows survive a run --------------------------------------------------

  lemma {:induction false} ProcessRowKeys(rule: PathRule, existing: set<Key>, st: St, jobs: seq<Job>, k: Key)
    requires k in st.rows
    ensures k in Process(rule, existing, st, jobs).rows
  {
    if jobs != [] {
      ProcessRowKeys(rule, existing, st, jobs[..|jobs| - 1], k);
    }
  }

  lemma {:induction false} DeleteRow(st: St, seen: set<Key>, stuck: set<Key>, order: seq<Key>, k: Key)
    ensures k in MirrorDelete(st, seen, stuck, order).rows <==> k in st.rows && (k in seen || k !in Elems(order))
  {
    if order != [] {
      DeleteRow(st, seen, stuck, order[..|order| - 1], k);
    }
  }

  /** A tracked item survives a run that does not raise exactly if the run saw it. */
  lemma RowSurvives(rule: PathRule, store: Store, rows: map<Key, Item>, jobs: seq<Job>, order: seq<Key>,
                    stuck: set<Key>, close: Close, k: Key)
    requires Lists(order, rows) && k in rows
    requires Sync(rule, store, rows, jobs, order, stuck, close).counts.Some?
    ensures k in Sync(rule, store, rows, jobs, order, stuck, close).rows <==> k in Seen(jobs)
  {
    var st := Process(rule, rows.Keys, St(store, rows, ZERO, false), jobs);
    ProcessRowKeys(rule, rows.Keys, St(store, rows, ZERO, false), jobs, k);
    DeleteRow(st, Seen(jobs), stuck, order, k);
  }

  // ---- attachments whose listing failed ----------------------------------------------

  // Pages are listed as pages, and attachments as attachments.
  ghost predicate WellKinded(listing: seq<PageListing>) {
    forall i :: 0 <= i < |listing| ==>
      && listing[i].page.key.kind.Page?
      && (listing[i].attachments.Some? ==>
            forall j :: 0 <= j < |listing[i].attachments.value| ==>
                listing[i].attachments.value[j].0.key.kind.Attachment?)
  }

  // Attachment `k` is on a list of attachments that could be fetched.
  predicate Offered(p: PageListing, k: Key) {
    p.attachments.Some? && exists j :: 0 <= j < |p.attachments.value| && p.attachments.value[j].0.key == k
  }

  lemma {:induction false} VisitsSeen(atts: seq<(Entry, Outcome)>, k: Key)
    ensures k in Seen(Visits(atts)) <==> exists j :: 0 <= j < |atts| && atts[j].0.key == k
    decreases |atts|
  {
    if atts != [] {
      var init := atts[..|atts| - 1];
      assert Visits(atts)[..|atts| - 1] == Visits(init);
      assert forall j :: 0 <= j < |init| ==> init[j] == atts[j];
      VisitsSeen(init, k);
    }
  }

  lemma PageSeen(pages: bool, attachments: bool, p: PageListing, k: Key)
    requires k.kind.Attachment? && p.page.key.kind.Page?
    ensures k in Seen(PageJobs(pages, attachments, p)) <==> attachments && Offered(p, k)
  {
    var first := if pages then [Visit(p.page, p.out)] else [];
    var second := if !attachments then [] else if p.attachments.None? then [ListFailed]
        else Visits(p.attachments.value);
    SeenConcat(first, second);
    assert [Visit(p.page, p.out)][..0] == [] && [ListFailed][..0] == [];
    if p.attachments.Some? { VisitsSeen(p.attachments.value, k); }
  }

  predicate OfferedBy(listing: seq<PageListing>, k: Key) {
    exists i :: 0 <= i < |listing| && Offered(listing[i], k)
  }

  lemma OfferedFirst(listing: seq<PageListing>, k: Key)
    requires listing != []
    ensures OfferedBy(listing, k) <==> Offered(listing[0], k) || OfferedBy(listing[1..], k)
  {
    var rest := listing[1..];
    if OfferedBy(rest, k) {
      var i :| 0 <= i < |rest| && Offered(rest[i], k);
      assert listing[i + 1] == rest[i];
    }
    if OfferedBy(listing, k) && !Offered(listing[0], k) {
      var i :| 0 <= i < |listing| && Offered(listing[i], k);
      assert rest[i - 1] == listing[i];
    }
  }

  lemma {:induction false} ListingSeen(pages: bool, attachments: bool, listing: seq<PageListing>, k: Key)
    requires WellKinded(listing) && k.kind.Attachment?
    ensures k in Seen(Jobs(pages, attachments, listing)) <==> attachments && OfferedBy(listing, k)
    decreases |listing|
  {
    if listing != [] {
      SeenConcat(PageJobs(pages, attachments, listing[0]), Jobs(pages, attachments, listing[1..]));
      PageSeen(pages, attachments, listing[0], k);
      ListingSeen(pages, attachments, listing[1..], k);
      OfferedFirst(listing, k);
    }
  }

  /** In a run that does not raise, a tracked attachment keeps its row if and only if
      attachments are synced and some page lists it whose attachment listing worked. */
  lemma AttachmentSurvives(rule: PathRule, store: Store, rows: map<Key, Item>, pages: bool, attachments: bool,
                           listing: seq<PageListing>, order: seq<Key>, stuck: set<Key>, close: Close, k: Key)
    requires WellKinded(listing) && Lists(order, rows) && k in rows && k.kind.Attachment?
    requires Sync(rule, store, rows, Jobs(pages, attachments, listing), order, stuck, close).counts.Some?
    ensures k in Sync(rule, store, rows, Jobs(pages, attachments, listing), order, stuck, close).rows <==>
            attachments && OfferedBy(listing, k)
  {
    RowSurvives(rule, store, rows, Jobs(pages, attachments, listing), order, stuck, close, k);
    ListingSeen(pages, attachments, listing, k);
  }

  /** An input: a page that is up to date, with one tracked attachment, and one failed
      attachment listing. The attachment loses its row and its file, and the run
      reports a single error, that of the listing. */
  lemma FailedListingDeletes(rule: PathRule, page: Entry, out: Outcome, att: Key, row: Item, html: Content,
                             data: Content)
    requires page.key.kind.Page? && att.kind.Attachment? && rule(page.key, page.title).Some?
    requires row.rel != rule(page.key, page.title).value
    ensures var rel := rule(page.key, page.title).value;
            var rows := map[page.key := Item(rel, page.version, page.title), att := row];
            Sync(rule, map[rel := html, row.rel := data], rows, Jobs(true, true, [PageListing(page, out, None)]),
                 [page.key, att], {}, RollsBack)
            == Run(map[rel := html], map[page.key := Item(rel, page.version, page.title)],
                   Some(ZERO.(upToDate := 1, deleted := 1, errors := 1)))
  {
    var listing, jobs := [PageListing(page, out, None)], [Visit(page, out), ListFailed];
    assert Jobs(true, true, listing) == jobs by {
      assert listing[1..] == [];
      assert [Visit(page, out)] + [ListFailed] + [] == jobs;
    }
    FailedListingRun(rule, page, out, att, row, html, data);
  }

  // The run of that input, before its session closes.
  lemma FailedListingRun(rule: PathRule, page: Entry, out: Outcome, att: Key, row: Item, html: Content, data: Content)
    requires page.key.kind.Page? && att.kind.Attachment? && rule(page.key, page.title).Some?
    requires row.rel != rule(page.key, page.title).value
    ensures var rel := rule(page.key, page.title).value;
            var item, jobs := Item(rel, page.version, page.title), [Visit(page, out), ListFailed];
            var st := St(map[rel := html, row.rel := data], map[page.key := item, att := row], ZERO, false);
            var st' := Process(rule, st.rows.Keys, st, jobs);
            && !st'.raised && Seen(jobs) == {page.key}
            && MirrorDelete(st', {page.key}, {}, [page.key, att])
               == St(map[rel := html], map[page.key := item], ZERO.(upToDate := 1, deleted := 1, errors := 1), false)
  {
    var rel := rule(page.key, page.title).value;
    var item, jobs := Item(rel, page.version, page.title), [Visit(page, out), ListFailed];
    var st := St(map[rel := html, row.rel := data], map[page.key := item, att := row], ZERO, false);
    var st1 := st.(counts := ZERO.(upToDate := 1));
    var st2 := st.(counts := ZERO.(upToDate := 1, errors := 1));
    var existing := st.rows.Keys;
    assert jobs[..1] == [Visit(page, out)] && [Visit(page, out)][..0] == [];
    assert Process(rule, existing, st, []) == st;
    assert Process(rule, existing, st, [Visit(page, out)]) == st1;
    assert Process(rule, existing, st, jobs) == st2;
    assert Seen(jobs) == {page.key} by { assert Seen([Visit(page, out)]) == {page.key}; }
    DeletesSecond(st2, page.key, att, {page.key});
    assert st.store - {row.rel} == map[rel := html];
    assert st.rows - {att} == map[page.key := item];
  }

  lemma DeletesSecond(st: St, a: Key, b: Key, seen: set<Key>)
    requires a in seen && b !in seen && b in st.rows
    ensures MirrorDelete(st, seen, {}, [a, b]) == DeleteOne(st, seen, {}, b)
  {
    assert [a, b][..1] == [a] && [a][..0] == [];
    assert MirrorDelete(st, seen, {}, []) == st;
    assert MirrorDelete(st, seen, {}, [a]) == st;
  }

  // ---- files whose delete failed -------------------------------------------------------

  // A file that no row points to.
  ghost predicate Forgotten(store: Store, rows: map<Key, Item>, p: string, c: Content) {
    p in store && store[p] == c && forall k :: k in rows ==> rows[k].rel != p
  }

  // No listed entry maps to `p`.
  ghost predicate NotListed(rule: PathRule, jobs: seq<Job>, p: string) {
    forall i :: 0 <= i < |jobs| && jobs[i].Visit? ==> rule(jobs[i].entry.key, jobs[i].entry.title) != Some(p)
  }

  lemma {:induction false} ProcessForgets(rule: PathRule, existing: set<Key>, st: St, jobs: seq<Job>, p: string,
                                          c: Content)
    requires Forgotten(st.store, st.rows, p, c) && NotListed(rule, jobs, p)
    ensures var st' := Process(rule, existing, st, jobs); Forgotten(st'.store, st'.rows, p, c)
  {
    if jobs != [] {
      var init := jobs[..|jobs| - 1];
      assert forall i :: 0 <= i < |init| ==> init[i] == jobs[i];
      ProcessForgets(rule, existing, st, init, p, c);
    }
  }

  lemma {:induction false} DeleteForgets(st: St, seen: set<Key>, stuck: set<Key>, order: seq<Key>, p: string,
                                         c: Content)
    requires Forgotten(st.store, st.rows, p, c)
    ensures var st' := MirrorDelete(st, seen, stuck, order); Forgotten(st'.store, st'.rows, p, c)
  {
    if order != [] {
      DeleteForgets(st, seen, stuck, order[..|order| - 1], p, c);
    }
  }

  // A forgotten file stays, and stays forgotten, unless it is listed again.
  lemma SyncForgets(rule: PathRule, store: Store, rows: map<Key, Item>, pass: Pass, p: string, c: Content)
    requires Forgotten(store, rows, p, c) && NotListed(rule, pass.jobs, p)
    ensures var r := Sync(rule, store, rows, pass.jobs, pass.order, pass.stuck, pass.close);
            Forgotten(r.store, r.rows, p, c)
  {
    var st := Process(rule, rows.Keys, St(store, rows, ZERO, false), pass.jobs);
    ProcessForgets(rule, rows.Keys, St(store, rows, ZERO, false), pass.jobs, p, c);
    DeleteForgets(st, Seen(pass.jobs), pass.stuck, pass.order, p, c);
  }

  /** Over any later history of runs, whatever they list and however they fail, a file
      that no row points to keeps its place and content, as long as no listed entry
      maps to its path. */
  lemma {:induction false} ForgottenForGood(rule: PathRule, store: Store, before: seq<Pass>, later: seq<Pass>,
                                            p: string, c: Content)
    requires var r := After(rule, store, before); Forgotten(r.store, r.rows, p, c)
    requires forall i :: 0 <= i < |later| ==> NotListed(rule, later[i].jobs, p)
    ensures var r := After(rule, store, before + later); Forgotten(r.store, r.rows, p, c)
    decreases |later|
  {
    if later == [] {
      assert before + later == before;
    } else {
      var init, pass := later[..|later| - 1], later[|later| - 1];
      assert (before + later)[..|before + later| - 1] == before + init;
      ForgottenForGood(rule, store, before, init, p, c);
      var r := After(rule, store, before + init);
      SyncForgets(rule, r.store, r.rows, pass, p, c);
    }
  }

  // A run that cannot delete the file of an unlisted item forgets it.
  lemma StuckIsForgotten(rule: PathRule, owner: string -> Key, store: Store, rows: map<Key, Item>, jobs: seq<Job>,
                         order: seq<Key>, stuck: set<Key>, close: Close, k: Key)
    requires WellListed(rule, owner, rows, jobs) && Lists(order, rows)
    requires Sync(rule, store, rows, jobs, order, stuck, close).counts.Some?
    requires k in rows && k in stuck && k !in Seen(jobs) && rows[k].rel in store
    ensures var r := Sync(rule, store, rows, jobs, order, stuck, close);
            k !in r.rows && Forgotten(r.store, r.rows, rows[k].rel, store[rows[k].rel])
  {
    var p := rows[k].rel;
    var st', end := FinishedRun(rule, owner, store, rows, jobs, order, stuck, close);
    assert SameFor(owner, k, St(store, rows, ZERO, false), st') && owner(p) == k;
    assert RowsOwned(owner, st'.rows);
    assert !LosesFile(owner, st'.rows, rows.Keys - Seen(jobs), stuck, p);
  }

  /** A file whose delete failed is never looked at again: in any history, once a run
      has dropped the row of an unlisted item but could not delete its file, the file
      is there, unchanged and without a row, after every later history in which no
      listed entry maps to its path. */
  lemma StuckFileIsNeverRevisited(ns: string, slug: string -> string, titleOf: (Key, nat) -> string, store: Store,
                                  before: seq<Pass>, pass: Pass, later: seq<Pass>, k: Key)
    requires PlainPart(ns) && SlugsPlain(slug) && GoodHistory(RuleFor(ns, slug), titleOf, store, before + [pass])
    requires var r := After(RuleFor(ns, slug), store, before);
             && k in r.rows && r.rows[k].rel in r.store && k !in Seen(pass.jobs) && k in pass.stuck
             && After(RuleFor(ns, slug), store, before + [pass]).counts.Some?
             && forall i :: 0 <= i < |later| ==> NotListed(RuleFor(ns, slug), later[i].jobs, r.rows[k].rel)
    ensures var r := After(RuleFor(ns, slug), store, before);
            var end := After(RuleFor(ns, slug), store, before + [pass] + later);
            Forgotten(end.store, end.rows, r.rows[k].rel, r.store[r.rows[k].rel])
  {
    var rule, owner := RuleFor(ns, slug), OwnerFor(ns);
    var r := After(rule, store, before);
    assert (before + [pass])[..|before|] == before && (before + [pass])[|before|] == pass;
    HistoryEnds(rule, titleOf, store, before + [pass]);
    HistorySane(false, ns, slug, titleOf, store, before);
    PlainIdsOwned(ns, slug, pass.jobs);
    StuckIsForgotten(rule, owner, r.store, r.rows, pass.jobs, pass.order, pass.stuck, pass.close, k);
    ForgottenForGood(rule, store, before + [pass], later, r.rows[k].rel, r.store[r.rows[k].rel]);
  }

  // ---- files whose rows came back ----------------------------------------------------------

  // Entry `e` is listed at the version and path of a row whose file `late` deleted.
  predicate Relisted(rule: PathRule, rows: map<Key, Item>, late: Pass, e: Entry) {
    && e.key in rows && e.key !in Seen(late.jobs) && e.key !in late.stuck
    && rule(e.key, e.title).Some? && UpToDate(Some(rows[e.key]), e, rule(e.key, e.title).value)
  }

  ghost predicate NoneRelisted(rule: PathRule, rows: map<Key, Item>, late: Pass, next: seq<Job>) {
    forall i :: 0 <= i < |next| && next[i].Visit? ==> !Relisted(rule, rows, late, next[i].entry)
  }

  // Which listed entries a run that failed after its mirror delete has left without file.
  lemma LateMissing(rule: PathRule, owner: string -> Key, titleOf: (Key, nat) -> string, floor: Key -> nat,
                    store: Store, rows: map<Key, Item>, late: Pass, st': St, end: St, e: Entry)
    requires Ran(rule, owner, store, rows, late.jobs, late.stuck, st', end) && RowsOwned(owner, rows)
    requires Faithful(titleOf, floor, late.floor, late.jobs) && Sane(true, rule, owner, titleOf, floor, store, rows)
    requires late.floor(e.key) <= e.version
    ensures NotMissing(rule, end.store, rows, e) <==> !Relisted(rule, rows, late, e)
  {
    if e.key in rows && rule(e.key, e.title).Some? && UpToDate(Some(rows[e.key]), e, rule(e.key, e.title).value) {
      var k, p := e.key, rows[e.key].rel;
      assert owner(p) == k && RowSane(true, rule, titleOf, floor, store, k, rows[k]);
      OldRowsSane(true, rule, owner, titleOf, floor, late.floor, St(store, rows, ZERO, false), st', late.jobs);
      assert RowSane(true, rule, titleOf, late.floor, st'.store, k, rows[k]);
      if k !in Seen(late.jobs) {
        assert SameFor(owner, k, St(store, rows, ZERO, false), st');
        assert LosesFile(owner, st'.rows, rows.Keys - Seen(late.jobs), late.stuck, p) <==> k !in late.stuck;
      } else {
        DeleteKeepsFiles(owner, st', end, rows.Keys - Seen(late.jobs), late.stuck, k);
      }
    }
  }

  /** The exact rule for a session that fails to write its rows after the mirror delete:
      after a history of sessions that wrote theirs, one such run, and one run that
      reports no error while the space holds still, the listing is mirrored if and only
      if no item whose file the failed run deleted is listed again at the version and
      path of its row. */
  lemma LateRollbackHealed(ns: string, slug: string -> string, titleOf: (Key, nat) -> string, store: Store,
                           before: seq<Pass>, late: Pass, last: Pass)
    requires PlainPart(ns) && SlugsPlain(slug) && NoneFails(before) && late.close.Fails? && Quiet(last.jobs)
    requires GoodHistory(RuleFor(ns, slug), titleOf, store, before + [late] + [last])
    requires var r := After(RuleFor(ns, slug), store, before);
             !Process(RuleFor(ns, slug), r.rows.Keys, St(r.store, r.rows, ZERO, false), late.jobs).raised
    requires var r := After(RuleFor(ns, slug), store, before + [late] + [last]);
             r.counts.Some? && r.counts.value.errors == 0
    ensures var rule := RuleFor(ns, slug);
            var r := After(rule, store, before + [late] + [last]);
            Mirrors(rule, r.store, r.rows, last.jobs) <==>
                NoneRelisted(rule, After(rule, store, before).rows, late, last.jobs)
  {
    var rule, passes := RuleFor(ns, slug), before + [late] + [last];
    assert passes[..|passes| - 1] == before + [late] && (before + [late])[..|before|] == before;
    SelfHealing(ns, slug, titleOf, store, passes);
    HistoryEnds(rule, titleOf, store, passes);
    HistoryEnds(rule, titleOf, store, before + [late]);
    HistorySane(true, ns, slug, titleOf, store, before);
    var r := After(rule, store, before);
    PlainIdsOwned(ns, slug, late.jobs);
    LateNoneMissing(rule, OwnerFor(ns), titleOf, FloorAfter(before), r.store, r.rows, late, last);
  }

  lemma LateNoneMissing(rule: PathRule, owner: string -> Key, titleOf: (Key, nat) -> string, floor: Key -> nat,
                        store: Store, rows: map<Key, Item>, late: Pass, last: Pass)
    requires WellListed(rule, owner, rows, late.jobs) && Lists(late.order, rows) && late.close.Fails?
    requires Faithful(titleOf, floor, late.floor, late.jobs) && Sane(true, rule, owner, titleOf, floor, store, rows)
    requires Faithful(titleOf, late.floor, last.floor, last.jobs)
    requires !Process(rule, rows.Keys, St(store, rows, ZERO, false), late.jobs).raised
    ensures var r := Sync(rule, store, rows, late.jobs, late.order, late.stuck, late.close);
            NoneMissing(rule, r.store, r.rows, last.jobs) <==> NoneRelisted(rule, rows, late, last.jobs)
  {
    var st', end := FinishedRun(rule, owner, store, rows, late.jobs, late.order, late.stuck, late.close);
    forall i | 0 <= i < |last.jobs| && last.jobs[i].Visit?
      ensures NotMissing(rule, end.store, rows, last.jobs[i].entry) <==> !Relisted(rule, rows, late, last.jobs[i].entry)
    {
      LateMissing(rule, owner, titleOf, floor, store, rows, late, st', end, last.jobs[i].entry);
    }
  }

  /** An input that is not healed: one attachment listing fails, the session then fails to
      write its rows, and the next run lists both items at their old versions. It reports
      no error and nothing changed, and the attachment is tracked without a file. */
  lemma LateRollbackLosesFile(rule: PathRule, page: Entry, att: Entry, out: Outcome, html: Content, data: Content)
    requires page.key.kind.Page? && att.key.kind.Attachment?
    requires rule(page.key, page.title).Some? && rule(att.key, att.title).Some?
    requires rule(page.key, page.title) != rule(att.key, att.title)
    ensures var rel, arel := rule(page.key, page.title).value, rule(att.key, att.title).value;
            var item, aitem := Item(rel, page.version, page.title), Item(arel, att.version, att.title);
            var rows := map[page.key := item, att.key := aitem];
            var first := Sync(rule, map[rel := html, arel := data], rows, [Visit(page, out), ListFailed],
                              [page.key, att.key], {}, Fails);
            var again := Sync(rule, first.store, first.rows, [Visit(page, out), Visit(att, out)],
                              [page.key, att.key], {}, RollsBack);
            && again == Run(map[rel := html], rows, Some(ZERO.(upToDate := 2)))
            && !Mirrors(rule, again.store, again.rows, [Visit(page, out), Visit(att, out)])
  {
    var rel, arel := rule(page.key, page.title).value, rule(att.key, att.title).value;
    var item, aitem := Item(rel, page.version, page.title), Item(arel, att.version, att.title);
    var rows := map[page.key := item, att.key := aitem];
    FailedListingRun(rule, page, out, att.key, aitem, html, data);
    var jobs := [Visit(page, out), Visit(att, out)];
    assert AllCurrent(rule, rows, jobs);
    var st := St(map[rel := html], rows, ZERO, false);
    CurrentProcess(rule, st, jobs);
    assert Seen(jobs) == {page.key, att.key} by { SeenSnoc([Visit(page, out)], Visit(att, out)); SeenOne(page, out); }
    assert Elems([page.key, att.key]) == {page.key, att.key} by { ElemsTwo(page.key, att.key); }
    DeleteNothing(Process(rule, rows.Keys, st, jobs), Seen(jobs), {}, [page.key, att.key]);
    assert !Holds(rule, map[rel := html], rows, att) && jobs[1].entry == att;
  }

  lemma SeenOne(e: Entry, out: Outcome)
    ensures Seen([Visit(e, out)]) == {e.key}
  {
    assert [Visit(e, out)][..0] == [];
  }

  lemma ElemsTwo(a: Key, b: Key)
    ensures Elems([a, b]) == {a, b}
  {
    assert [a, b][..1] == [a] && [a][..0] == [];
    assert Elems([a]) == {a};
  }
}
