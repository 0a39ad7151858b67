/**
 What runs of the mirror achieve: counts, exactness of a run without errors,
 idempotence, and healing after any history of failing and raising runs.
 */
module ConfluenceHealing {
  import opened Prelude
  import opened ConfluencePaths
  import opened ConfluenceMirror

  // ---- runs without errors ---------------------------------------------------

  // The visit of `e`, whose row was `item`, did what it set out to do.
  predicate CleanVisit(rule: PathRule, item: Option<Item>, e: Entry, out: Outcome) {
    && rule(e.key, e.title).Some?
    && var rel := rule(e.key, e.title).value;
    || UpToDate(item, e, rel)
    || (out.fetch.Some? && out.write.Written? && Dropped(item, rel, out))
  }

  ghost predicate AllClean(rule: PathRule, rows: map<Key, Item>, jobs: seq<Job>) {
    forall i :: 0 <= i < |jobs| ==>
      jobs[i].Visit? && CleanVisit(rule, Row(rows, jobs[i].entry.key), jobs[i].entry, jobs[i].out)
  }

  function Successes(c: Counts): nat {
    c.pagesWritten + c.attachmentsWritten + c.upToDate
  }

  // Each of `n` visits is counted once as a success, or at least once as an error.
  predicate Tallied(c: Counts, n: nat) {
    Successes(c) <= n <= Successes(c) + c.errors && c.deleted == 0
  }

  lemma VisitTally(rule: PathRule, item: Option<Item>, st: St, e: Entry, out: Outcome, n: nat)
    requires Tallied(st.counts, n) && !st.raised
    ensures var st' := VisitEntry(rule, item, st, e, out);
            !st'.raised ==>
              && Tallied(st'.counts, n + 1) && st.counts.errors <= st'.counts.errors
              && (st'.counts.errors == st.counts.errors ==> CleanVisit(rule, item, e, out))
  {
  }

  /** The counts of a run add up to the listed items, and no error means that
      every job succeeded. */
  lemma {:induction false} ProcessTally(rule: PathRule, owner: string -> Key, st: St, jobs: seq<Job>)
    requires WellListed(rule, owner, st.rows, jobs) && !st.raised && st.counts == ZERO
    ensures var st' := Process(rule, st.rows.Keys, st, jobs);
            !st'.raised ==>
              && Tallied(st'.counts, |Seen(jobs)|)
              && (st'.counts.errors == 0 ==> AllClean(rule, st.rows, jobs))
  {
    if jobs != [] {
      var init, job := jobs[..|jobs| - 1], jobs[|jobs| - 1];
      assert jobs == init + [job];
      ProcessTally(rule, owner, st, init);
      SeenSnoc(init, job);
      var mid := Process(rule, st.rows.Keys, st, init);
      if job.Visit? && !mid.raised {
        var e, out := job.entry, job.out;
        NewKey(init, e, out);
        assert Row(mid.rows, e.key) == Row(st.rows, e.key) by {
          ProcessOutcome(rule, owner, st, init);
          assert SameFor(owner, e.key, st, mid);
        }
        assert RunJob(rule, st.rows.Keys, mid, job) == VisitEntry(rule, Row(st.rows, e.key), mid, e, out);
        VisitTally(rule, Row(st.rows, e.key), mid, e, out, |Seen(init)|);
      }
    }
  }

  // Exactly the listed items are tracked, at their listed version and path, and
  // each one's file is a rendering of that version.
  ghost predicate Mirrors(rule: PathRule, store: Store, rows: map<Key, Item>, jobs: seq<Job>) {
    && rows.Keys == Seen(jobs)
    && forall i :: 0 <= i < |jobs| && jobs[i].Visit? ==> Holds(rule, store, rows, jobs[i].entry)
  }

  ghost predicate Holds(rule: PathRule, store: Store, rows: map<Key, Item>, e: Entry) {
    var path := rule(e.key, e.title);
    && path.Some?
    && Row(rows, e.key) == Some(Item(path.value, e.version, e.title))
    && path.value in store && IsRendering(store[path.value], e.key, e.version)
  }

  predicate IsRendering(c: Content, k: Key, version: nat) {
    c.Rendering? && c.key == k && c.version == version
  }

  // ---- what the remote space promises -----------------------------------------

  // For each item, a version number settles the title, versions never go back,
  // and a body fetched during a run is at least as new as the listed version.
  // `floor` and `floor'` bound the versions before and after the run.
  ghost predicate Faithful(titleOf: (Key, nat) -> string, floor: Key -> nat, floor': Key -> nat, jobs: seq<Job>) {
    && (forall k :: floor(k) <= floor'(k))
    && forall i :: 0 <= i < |jobs| && jobs[i].Visit? ==>
         var e := jobs[i].entry;
         && e.title == titleOf(e.key, e.version)
         && floor(e.key) <= e.version <= floor'(e.key)
         && (jobs[i].out.fetch.Some? ==>
               var c := jobs[i].out.fetch.value;
               c.Rendering? && c.key == e.key && e.version <= c.version <= floor'(e.key))
  }

  // The space did not change while the run was reading it.
  ghost predicate Quiet(jobs: seq<Job>) {
    forall i :: 0 <= i < |jobs| && jobs[i].Visit? && jobs[i].out.fetch.Some? ==>
      jobs[i].out.fetch.value.Rendering? && jobs[i].out.fetch.value.version == jobs[i].entry.version
  }

  // A tracked row is either out of date for good, or its file is right; where we are not
  // strict, its file may also be missing.
  ghost predicate RowSane(strict: bool, rule: PathRule, titleOf: (Key, nat) -> string, floor: Key -> nat,
                          store: Store, k: Key, row: Item) {
    && row.title == titleOf(k, row.version)
    && rule(k, row.title) == Some(row.rel)
    && row.version <= floor(k)
    && (row.version < floor(k) || (if row.rel in store then IsRendering(store[row.rel], k, row.version) else !strict))
  }

  ghost predicate Sane(strict: bool, rule: PathRule, owner: string -> Key, titleOf: (Key, nat) -> string,
                       floor: Key -> nat, store: Store, rows: map<Key, Item>)
  {
    && RowsOwned(owner, rows)
    && forall k :: k in rows ==> RowSane(strict, rule, titleOf, floor, store, k, rows[k])
  }

  // A row that is not up to date for a listed entry is older than it.
  lemma StaleRow(strict: bool, rule: PathRule, titleOf: (Key, nat) -> string, floor: Key -> nat, store: Store,
                 row: Item, e: Entry)
    requires RowSane(strict, rule, titleOf, floor, store, e.key, row)
    requires e.title == titleOf(e.key, e.version) && floor(e.key) <= e.version
    requires rule(e.key, e.title).Some? && !UpToDate(Some(row), e, rule(e.key, e.title).value)
    ensures row.version < e.version
  {
  }

  // One visited item, in a run of whatever outcome.
  lemma VisitedSane(strict: bool, rule: PathRule, owner: string -> Key, titleOf: (Key, nat) -> string,
                    floor: Key -> nat, floor': Key -> nat, st: St, st': St, jobs: seq<Job>, i: nat)
    requires Faithful(titleOf, floor, floor', jobs) && i < |jobs| && jobs[i].Visit?
    requires Sane(strict, rule, owner, titleOf, floor, st.store, st.rows)
    requires Visited(rule, owner, st, st', jobs[i].entry, jobs[i].out)
    ensures var k := jobs[i].entry.key;
            && (k in st'.rows ==> RowSane(strict, rule, titleOf, floor', st'.store, k, st'.rows[k]))
            && (k in st.rows ==> RowSane(strict, rule, titleOf, floor', st'.store, k, st.rows[k]))
  {
    var e := jobs[i].entry;
    if e.key in st.rows {
      var row := st.rows[e.key];
      if UpToDate(Some(row), e, rule(e.key, e.title).value) {
        assert owner(row.rel) == e.key;
      } else {
        StaleRow(strict, rule, titleOf, floor, st.store, row, e);
      }
    }
  }

  // A run that raised stopped at some job, and did what the jobs before it did.
  lemma {:induction false} RaisedPrefix(rule: PathRule, existing: set<Key>, st: St, jobs: seq<Job>) returns (n: nat)
    requires !st.raised && Process(rule, existing, st, jobs).raised
    ensures n <= |jobs| && !Process(rule, existing, st, jobs[..n]).raised
    ensures Process(rule, existing, st, jobs).store == Process(rule, existing, st, jobs[..n]).store
    ensures Process(rule, existing, st, jobs).rows == Process(rule, existing, st, jobs[..n]).rows
  {
    var init := jobs[..|jobs| - 1];
    if Process(rule, existing, st, init).raised {
      n := RaisedPrefix(rule, existing, st, init);
      assert init[..n] == jobs[..n];
    } else {
      n := |init|;
    }
  }

  // The rows as they were, over the files the jobs have left.
  lemma OldRowsSane(strict: bool, rule: PathRule, owner: string -> Key, titleOf: (Key, nat) -> string,
                    floor: Key -> nat, floor': Key -> nat, st: St, st': St, jobs: seq<Job>)
    requires Faithful(titleOf, floor, floor', jobs) && Sane(strict, rule, owner, titleOf, floor, st.store, st.rows)
    requires Progress(rule, owner, st, st', jobs) && !st'.raised
    ensures Sane(strict, rule, owner, titleOf, floor', st'.store, st.rows)
    ensures forall k :: k in Seen(jobs) && k in st'.rows ==>
              RowSane(strict, rule, titleOf, floor', st'.store, k, st'.rows[k])
  {
    forall k | k in st.rows ensures RowSane(strict, rule, titleOf, floor', st'.store, k, st.rows[k]) {
      if k in Seen(jobs) {
        var i := SeenAt(jobs, k);
        VisitedSane(strict, rule, owner, titleOf, floor, floor', st, st', jobs, i);
      } else {
        assert SameFor(owner, k, st, st');
        assert owner(st.rows[k].rel) == k;
      }
    }
    forall k | k in Seen(jobs) && k in st'.rows
      ensures RowSane(strict, rule, titleOf, floor', st'.store, k, st'.rows[k])
    {
      var i := SeenAt(jobs, k);
      VisitedSane(strict, rule, owner, titleOf, floor, floor', st, st', jobs, i);
    }
  }

  // The rows as the jobs have left them.
  lemma NewRowsSane(strict: bool, rule: PathRule, owner: string -> Key, titleOf: (Key, nat) -> string,
                    floor: Key -> nat, floor': Key -> nat, st: St, st': St, jobs: seq<Job>)
    requires Faithful(titleOf, floor, floor', jobs) && Sane(strict, rule, owner, titleOf, floor, st.store, st.rows)
    requires Progress(rule, owner, st, st', jobs) && !st'.raised
    ensures Sane(strict, rule, owner, titleOf, floor', st'.store, st'.rows)
  {
    OldRowsSane(strict, rule, owner, titleOf, floor, floor', st, st', jobs);
    forall k | k in st'.rows ensures RowSane(strict, rule, titleOf, floor', st'.store, k, st'.rows[k]) {
      if k !in Seen(jobs) {
        assert SameFor(owner, k, st, st');
        assert k in st.rows && st.rows[k] == st'.rows[k];
      }
    }
  }

  // Mirror delete touches no file of an item it keeps.
  lemma DeleteKeepsFiles(owner: string -> Key, st: St, end: St, gone: set<Key>, stuck: set<Key>, k: Key)
    requires Deleted(owner, st, end, gone, stuck) && k !in gone
    ensures SameFiles(owner, k, st.store, end.store)
  {
  }

  // The states of a run that did not raise: before and after the mirror delete.
  ghost predicate Ran(rule: PathRule, owner: string -> Key, store: Store, rows: map<Key, Item>, jobs: seq<Job>,
                      stuck: set<Key>, st': St, end: St)
  {
    && !st'.raised
    && Progress(rule, owner, St(store, rows, ZERO, false), st', jobs)
    && rows.Keys <= st'.rows.Keys
    && Deleted(owner, st', end, rows.Keys - Seen(jobs), stuck)
  }

  lemma FinishedRun(rule: PathRule, owner: string -> Key, store: Store, rows: map<Key, Item>, jobs: seq<Job>,
                    order: seq<Key>, stuck: set<Key>, close: Close)
    returns (st': St, end: St)
    requires WellListed(rule, owner, rows, jobs) && Lists(order, rows)
    requires !Process(rule, rows.Keys, St(store, rows, ZERO, false), jobs).raised
    ensures st' == Process(rule, rows.Keys, St(store, rows, ZERO, false), jobs)
    ensures Ran(rule, owner, store, rows, jobs, stuck, st', end)
    ensures Sync(rule, store, rows, jobs, order, stuck, close)
            == if close.Fails? then Run(end.store, rows, None) else Run(end.store, end.rows, Some(end.counts))
  {
    var st := St(store, rows, ZERO, false);
    st' := Process(rule, rows.Keys, st, jobs);
    end := MirrorDelete(st', Seen(jobs), stuck, order);
    ProcessOutcome(rule, owner, st, jobs);
    ProcessKeepsRows(rule, rows.Keys, st, jobs);
    DeleteOutcome(owner, st', Seen(jobs), stuck, order);
  }

  // Every surviving row is that of a listed item.
  lemma SurvivorsListed(rule: PathRule, owner: string -> Key, store: Store, rows: map<Key, Item>, jobs: seq<Job>,
                        stuck: set<Key>, st': St, end: St)
    requires Ran(rule, owner, store, rows, jobs, stuck, st', end)
    ensures forall k :: k in end.rows ==> k in Seen(jobs) && k in st'.rows && end.rows[k] == st'.rows[k]
    ensures forall k :: k in st'.rows && k in Seen(jobs) ==> k in end.rows
  {
    forall k | k in end.rows ensures k in Seen(jobs) {
      assert k !in Seen(jobs) ==> SameFor(owner, k, St(store, rows, ZERO, false), st');
    }
  }

  // The rows as they were, over the files after the mirror delete: those of unlisted
  // items are missing, unless their delete failed.
  lemma LateRowsSane(rule: PathRule, owner: string -> Key, titleOf: (Key, nat) -> string, floor: Key -> nat,
                     store: Store, rows: map<Key, Item>, jobs: seq<Job>, stuck: set<Key>, st': St, end: St)
    requires Ran(rule, owner, store, rows, jobs, stuck, st', end)
    requires Sane(false, rule, owner, titleOf, floor, st'.store, rows)
    ensures Sane(false, rule, owner, titleOf, floor, end.store, rows)
  {
    forall k | k in rows ensures RowSane(false, rule, titleOf, floor, end.store, k, rows[k]) {
      assert RowSane(false, rule, titleOf, floor, st'.store, k, rows[k]) && owner(rows[k].rel) == k;
    }
  }

  /** Whatever fails in a run, whether or not it raises, and whether its caller then
      commits or rolls back, every row stays either right or recognisably out of date;
      where the session itself fails at the end, its file may also be missing. */
  lemma SyncKeepsSane(strict: bool, rule: PathRule, owner: string -> Key, titleOf: (Key, nat) -> string,
                      floor: Key -> nat, floor': Key -> nat,
                      store: Store, rows: map<Key, Item>, jobs: seq<Job>, order: seq<Key>, stuck: set<Key>,
                      close: Close)
    requires WellListed(rule, owner, rows, jobs) && Faithful(titleOf, floor, floor', jobs) && Lists(order, rows)
    requires Sane(strict, rule, owner, titleOf, floor, store, rows) && (strict ==> !close.Fails?)
    ensures var r := Sync(rule, store, rows, jobs, order, stuck, close);
            Sane(strict, rule, owner, titleOf, floor', r.store, r.rows)
  {
    var st := St(store, rows, ZERO, false);
    var st' := Process(rule, rows.Keys, st, jobs);
    if st'.raised {
      var n := RaisedPrefix(rule, rows.Keys, st, jobs);
      var some := jobs[..n];
      assert Distinct(some) && PathsOwned(rule, owner, some) && Faithful(titleOf, floor, floor', some);
      ProcessOutcome(rule, owner, st, some);
      OldRowsSane(strict, rule, owner, titleOf, floor, floor', st, Process(rule, rows.Keys, st, some), some);
      NewRowsSane(strict, rule, owner, titleOf, floor, floor', st, Process(rule, rows.Keys, st, some), some);
    } else {
      var _, end := FinishedRun(rule, owner, store, rows, jobs, order, stuck, close);
      OldRowsSane(strict, rule, owner, titleOf, floor, floor', st, st', jobs);
      if close.Fails? {
        LateRowsSane(rule, owner, titleOf, floor', store, rows, jobs, stuck, st', end);
      }
      SurvivorsListed(rule, owner, store, rows, jobs, stuck, st', end);
      forall k | k in end.rows ensures RowSane(strict, rule, titleOf, floor', end.store, k, end.rows[k]) {
        DeleteKeepsFiles(owner, st', end, rows.Keys - Seen(jobs), stuck, k);
      }
    }
  }

  // No listed item is taken for up to date although the file of its row is missing.
  ghost predicate NoneMissing(rule: PathRule, store: Store, rows: map<Key, Item>, jobs: seq<Job>) {
    forall i :: 0 <= i < |jobs| && jobs[i].Visit? ==> NotMissing(rule, store, rows, jobs[i].entry)
  }

  predicate NotMissing(rule: PathRule, store: Store, rows: map<Key, Item>, e: Entry) {
    rule(e.key, e.title).Some? && UpToDate(Row(rows, e.key), e, rule(e.key, e.title).value) ==>
      rule(e.key, e.title).value in store
  }

  lemma StrictIsSane(rule: PathRule, owner: string -> Key, titleOf: (Key, nat) -> string, floor: Key -> nat,
                     store: Store, rows: map<Key, Item>)
    requires Sane(true, rule, owner, titleOf, floor, store, rows)
    ensures Sane(false, rule, owner, titleOf, floor, store, rows)
  {
    forall k | k in rows ensures RowSane(false, rule, titleOf, floor, store, k, rows[k]) {
      assert RowSane(true, rule, titleOf, floor, store, k, rows[k]);
    }
  }

  // Rows that are strictly sane have their files.
  lemma SaneMissesNone(rule: PathRule, owner: string -> Key, titleOf: (Key, nat) -> string, floor: Key -> nat,
                       floor': Key -> nat, store: Store, rows: map<Key, Item>, jobs: seq<Job>)
    requires Sane(true, rule, owner, titleOf, floor, store, rows) && Faithful(titleOf, floor, floor', jobs)
    ensures NoneMissing(rule, store, rows, jobs)
  {
    forall i | 0 <= i < |jobs| && jobs[i].Visit? ensures NotMissing(rule, store, rows, jobs[i].entry) {
      var e := jobs[i].entry;
      assert e.key in rows ==> RowSane(true, rule, titleOf, floor, store, e.key, rows[e.key]);
    }
  }

  /** A run that reports no error, over a space that holds still, mirrors the listing
      exactly, if and only if no listed item was taken for up to date although the file
      of its row was missing. */
  lemma ErrorFreeRunMirrors(rule: PathRule, owner: string -> Key, titleOf: (Key, nat) -> string, floor: Key -> nat,
                            floor': Key -> nat, store: Store, rows: map<Key, Item>, jobs: seq<Job>, order: seq<Key>,
                            stuck: set<Key>, close: Close)
    requires WellListed(rule, owner, rows, jobs) && Faithful(titleOf, floor, floor', jobs) && Quiet(jobs)
             && Lists(order, rows)
    requires Sane(false, rule, owner, titleOf, floor, store, rows)
    requires var r := Sync(rule, store, rows, jobs, order, stuck, close); r.counts.Some? && r.counts.value.errors == 0
    ensures var r := Sync(rule, store, rows, jobs, order, stuck, close);
            Mirrors(rule, r.store, r.rows, jobs) <==> NoneMissing(rule, store, rows, jobs)
  {
    var st := St(store, rows, ZERO, false);
    var st', end := FinishedRun(rule, owner, store, rows, jobs, order, stuck, close);
    ProcessTally(rule, owner, st, jobs);
    if NoneMissing(rule, store, rows, jobs) {
      AllHold(rule, owner, titleOf, floor, floor', st, st', jobs);
      HoldsAfterDelete(rule, owner, store, rows, jobs, stuck, st', end);
    } else {
      MissingStaysMissing(rule, owner, store, rows, jobs, stuck, st', end);
    }
  }

  // A file that is missing for an item taken for up to date is missing after the run.
  lemma MissingStaysMissing(rule: PathRule, owner: string -> Key, store: Store, rows: map<Key, Item>, jobs: seq<Job>,
                            stuck: set<Key>, st': St, end: St)
    requires PathsOwned(rule, owner, jobs) && Ran(rule, owner, store, rows, jobs, stuck, st', end)
    requires !NoneMissing(rule, store, rows, jobs)
    ensures !Mirrors(rule, end.store, end.rows, jobs)
  {
    var i :| 0 <= i < |jobs| && jobs[i].Visit? && !NotMissing(rule, store, rows, jobs[i].entry);
    var e := jobs[i].entry;
    SeenHas(jobs, i);
    assert Visited(rule, owner, St(store, rows, ZERO, false), st', e, jobs[i].out);
    DeleteKeepsFiles(owner, st', end, rows.Keys - Seen(jobs), stuck, e.key);
    assert !Holds(rule, end.store, end.rows, e);
  }

  lemma AllHold(rule: PathRule, owner: string -> Key, titleOf: (Key, nat) -> string, floor: Key -> nat,
                floor': Key -> nat, st: St, st': St, jobs: seq<Job>)
    requires WellListed(rule, owner, st.rows, jobs) && Faithful(titleOf, floor, floor', jobs) && Quiet(jobs)
    requires Sane(false, rule, owner, titleOf, floor, st.store, st.rows) && NoneMissing(rule, st.store, st.rows, jobs)
    requires AllClean(rule, st.rows, jobs) && AllVisited(rule, owner, st, st', jobs)
    ensures forall i :: 0 <= i < |jobs| ==> Holds(rule, st'.store, st'.rows, jobs[i].entry)
  {
    forall i | 0 <= i < |jobs| ensures Holds(rule, st'.store, st'.rows, jobs[i].entry) {
      CleanVisitHolds(rule, owner, titleOf, floor, floor', st, st', jobs, i);
    }
  }

  lemma HoldsAfterDelete(rule: PathRule, owner: string -> Key, store: Store, rows: map<Key, Item>, jobs: seq<Job>,
                         stuck: set<Key>, st': St, end: St)
    requires PathsOwned(rule, owner, jobs) && Ran(rule, owner, store, rows, jobs, stuck, st', end)
    requires forall i :: 0 <= i < |jobs| ==> jobs[i].Visit? && Holds(rule, st'.store, st'.rows, jobs[i].entry)
    ensures Mirrors(rule, end.store, end.rows, jobs)
  {
    SurvivorsListed(rule, owner, store, rows, jobs, stuck, st', end);
    forall i | 0 <= i < |jobs| ensures Holds(rule, end.store, end.rows, jobs[i].entry) {
      SeenHas(jobs, i);
      DeleteKeepsFiles(owner, st', end, rows.Keys - Seen(jobs), stuck, jobs[i].entry.key);
      OneHoldsAfterDelete(rule, owner, st', end, jobs[i].entry);
    }
    TrackedAreSeen(rule, end.store, end.rows, jobs);
  }

  lemma OneHoldsAfterDelete(rule: PathRule, owner: string -> Key, st': St, end: St, e: Entry)
    requires Holds(rule, st'.store, st'.rows, e) && owner(rule(e.key, e.title).value) == e.key
    requires SameFiles(owner, e.key, st'.store, end.store)
    requires e.key in st'.rows ==> e.key in end.rows && end.rows[e.key] == st'.rows[e.key]
    ensures Holds(rule, end.store, end.rows, e)
  {
  }

  lemma TrackedAreSeen(rule: PathRule, store: Store, rows: map<Key, Item>, jobs: seq<Job>)
    requires forall k :: k in rows ==> k in Seen(jobs)
    requires forall i :: 0 <= i < |jobs| ==> jobs[i].Visit? && Holds(rule, store, rows, jobs[i].entry)
    ensures rows.Keys == Seen(jobs)
  {
    forall k | k in Seen(jobs) ensures k in rows {
      var i := SeenAt(jobs, k);
      assert Holds(rule, store, rows, jobs[i].entry);
    }
  }

  lemma CleanVisitHolds(rule: PathRule, owner: string -> Key, titleOf: (Key, nat) -> string, floor: Key -> nat,
                        floor': Key -> nat, st: St, st': St, jobs: seq<Job>, i: nat)
    requires PathsOwned(rule, owner, jobs) && Faithful(titleOf, floor, floor', jobs) && Quiet(jobs)
    requires Sane(false, rule, owner, titleOf, floor, st.store, st.rows) && i < |jobs| && jobs[i].Visit?
    requires NotMissing(rule, st.store, st.rows, jobs[i].entry)
    requires CleanVisit(rule, Row(st.rows, jobs[i].entry.key), jobs[i].entry, jobs[i].out)
    requires Visited(rule, owner, st, st', jobs[i].entry, jobs[i].out)
    ensures Holds(rule, st'.store, st'.rows, jobs[i].entry)
    ensures owner(rule(jobs[i].entry.key, jobs[i].entry.title).value) == jobs[i].entry.key
  {
    var e := jobs[i].entry;
    if e.key in st.rows {
      assert RowSane(false, rule, titleOf, floor, st.store, e.key, st.rows[e.key]);
    }
  }

  /** Counts of a finished run: `deleted` is always the number of tracked items
      that were not listed, and without errors the three success counters add up
      to the listed items. */
  lemma RunCounts(rule: PathRule, owner: string -> Key, store: Store, rows: map<Key, Item>, jobs: seq<Job>,
                  order: seq<Key>, stuck: set<Key>, close: Close)
    requires WellListed(rule, owner, rows, jobs) && Lists(order, rows)
    requires Sync(rule, store, rows, jobs, order, stuck, close).counts.Some?
    ensures var c := Sync(rule, store, rows, jobs, order, stuck, close).counts.value;
            && c.deleted == |rows.Keys - Seen(jobs)|
            && c.pagesWritten + c.attachmentsWritten + c.upToDate <= |Seen(jobs)|
            && (c.errors == 0 ==> c.pagesWritten + c.attachmentsWritten + c.upToDate == |Seen(jobs)|)
  {
    var st', end := FinishedRun(rule, owner, store, rows, jobs, order, stuck, close);
    ProcessTally(rule, owner, St(store, rows, ZERO, false), jobs);
  }

  // ---- idempotence ------------------------------------------------------------

  ghost predicate AllCurrent(rule: PathRule, rows: map<Key, Item>, jobs: seq<Job>) {
    forall i :: 0 <= i < |jobs| ==>
      && jobs[i].Visit?
      && var e := jobs[i].entry;
         rule(e.key, e.title).Some? && UpToDate(Row(rows, e.key), e, rule(e.key, e.title).value)
  }

  lemma {:induction false} CurrentProcess(rule: PathRule, st: St, jobs: seq<Job>)
    requires AllCurrent(rule, st.rows, jobs) && !st.raised
    ensures Process(rule, st.rows.Keys, st, jobs) ==
            st.(counts := st.counts.(upToDate := st.counts.upToDate + |jobs|))
  {
    if jobs != [] {
      var init := jobs[..|jobs| - 1];
      assert forall i :: 0 <= i < |init| ==> init[i] == jobs[i];
      CurrentProcess(rule, st, init);
    }
  }

  // The two runs list the same items at the same titles and versions.
  ghost predicate SameListing(jobs: seq<Job>, again: seq<Job>) {
    && |again| == |jobs|
    && forall i :: 0 <= i < |jobs| ==> again[i].Visit? && jobs[i].Visit? && again[i].entry == jobs[i].entry
  }

  lemma {:induction false} SameListingSeen(jobs: seq<Job>, again: seq<Job>)
    requires SameListing(jobs, again)
    ensures Seen(jobs) == Seen(again)
  {
    if jobs != [] {
      SameListingSeen(jobs[..|jobs| - 1], again[..|again| - 1]);
    }
  }

  /** Once the listing is mirrored, a second run over the same listing changes
      nothing, however its foreign calls would have turned out. */
  lemma SecondRunChangesNothing(rule: PathRule, store: Store, rows: map<Key, Item>, jobs: seq<Job>, again: seq<Job>,
                                order: seq<Key>, stuck: set<Key>, close: Close)
    requires Mirrors(rule, store, rows, jobs) && SameListing(jobs, again) && Lists(order, rows)
    ensures Sync(rule, store, rows, again, order, stuck, close)
            == Run(store, rows, if close.Fails? then None else Some(ZERO.(upToDate := |again|)))
    ensures Changed(ZERO.(upToDate := |again|)) == 0
  {
    MirroredIsCurrent(rule, store, rows, jobs, again);
    var st := St(store, rows, ZERO, false);
    CurrentProcess(rule, st, again);
    SameListingSeen(jobs, again);
    DeleteNothing(Process(rule, rows.Keys, st, again), Seen(again), stuck, order);
  }

  lemma MirroredIsCurrent(rule: PathRule, store: Store, rows: map<Key, Item>, jobs: seq<Job>, again: seq<Job>)
    requires Mirrors(rule, store, rows, jobs) && SameListing(jobs, again)
    ensures AllCurrent(rule, rows, again)
  {
    forall i | 0 <= i < |again|
      ensures again[i].Visit?
      ensures var e := again[i].entry;
              rule(e.key, e.title).Some? && UpToDate(Row(rows, e.key), e, rule(e.key, e.title).value)
    {
      assert Holds(rule, store, rows, jobs[i].entry);
    }
  }

  lemma {:induction false} DeleteNothing(st: St, seen: set<Key>, stuck: set<Key>, order: seq<Key>)
    requires Elems(order) <= seen
    ensures MirrorDelete(st, seen, stuck, order) == st
  {
    if order != [] {
      DeleteNothing(st, seen, stuck, order[..|order| - 1]);
    }
  }

  // ---- the files of a run without errors ---------------------------------------

  function Rels(rows: map<Key, Item>): set<string> {
    set k | k in rows :: rows[k].rel
  }

  // The paths that the rule gives to the listed items.
  function ListedPaths(rule: PathRule, jobs: seq<Job>): set<string> {
    if jobs == [] then {}
    else
      var job := jobs[|jobs| - 1];
      ListedPaths(rule, jobs[..|jobs| - 1])
      + if job.Visit? && rule(job.entry.key, job.entry.title).Some?
        then {rule(job.entry.key, job.entry.title).value} else {}
  }

  lemma {:induction false} ListedPathAt(rule: PathRule, jobs: seq<Job>, p: string) returns (i: nat)
    requires p in ListedPaths(rule, jobs)
    ensures i < |jobs| && jobs[i].Visit? && rule(jobs[i].entry.key, jobs[i].entry.title) == Some(p)
  {
    var job := jobs[|jobs| - 1];
    if job.Visit? && rule(job.entry.key, job.entry.title) == Some(p) {
      i := |jobs| - 1;
    } else {
      i := ListedPathAt(rule, jobs[..|jobs| - 1], p);
    }
  }

  lemma {:induction false} ListedPathHas(rule: PathRule, jobs: seq<Job>, i: nat)
    requires i < |jobs| && jobs[i].Visit? && rule(jobs[i].entry.key, jobs[i].entry.title).Some?
    ensures rule(jobs[i].entry.key, jobs[i].entry.title).value in ListedPaths(rule, jobs)
  {
    if i < |jobs| - 1 {
      ListedPathHas(rule, jobs[..|jobs| - 1], i);
    }
  }

  // The rows of a mirror point at the listed paths.
  lemma MirrorPaths(rule: PathRule, store: Store, rows: map<Key, Item>, jobs: seq<Job>)
    requires Mirrors(rule, store, rows, jobs)
    ensures Rels(rows) == ListedPaths(rule, jobs)
  {
    forall p | p in Rels(rows) ensures p in ListedPaths(rule, jobs) {
      var k :| k in rows && rows[k].rel == p;
      var i := SeenAt(jobs, k);
      assert Holds(rule, store, rows, jobs[i].entry);
      ListedPathHas(rule, jobs, i);
    }
    forall p | p in ListedPaths(rule, jobs) ensures p in Rels(rows) {
      var i := ListedPathAt(rule, jobs, p);
      assert Holds(rule, store, rows, jobs[i].entry);
    }
  }

  // `p` is a file of the new mirror, or was there before and belonged to no row.
  ghost predicate Expected(store: Store, rows: map<Key, Item>, rows': map<Key, Item>, p: string) {
    (p in store && p !in Rels(rows)) || p in Rels(rows')
  }

  /** A run without errors removes exactly the files of the rows it started from
      and adds exactly those at the listed paths; files that belonged to no row
      before are still there.  So the store is an exact mirror afterwards if and
      only if, before the run, each file belonged to a row or lay at a listed path. */
  lemma ErrorFreeRunFiles(rule: PathRule, owner: string -> Key, titleOf: (Key, nat) -> string, floor: Key -> nat,
                          floor': Key -> nat,
                          store: Store, rows: map<Key, Item>, jobs: seq<Job>, order: seq<Key>, stuck: set<Key>,
                          close: Close)
    requires WellListed(rule, owner, rows, jobs) && Faithful(titleOf, floor, floor', jobs) && Quiet(jobs)
             && Lists(order, rows)
    requires Sane(true, rule, owner, titleOf, floor, store, rows)
    requires var r := Sync(rule, store, rows, jobs, order, stuck, close); r.counts.Some? && r.counts.value.errors == 0
    ensures var files := Sync(rule, store, rows, jobs, order, stuck, close).store.Keys;
            && files == (store.Keys - Rels(rows)) + ListedPaths(rule, jobs)
            && (files == ListedPaths(rule, jobs) <==> store.Keys <= Rels(rows) + ListedPaths(rule, jobs))
  {
    SaneMissesNone(rule, owner, titleOf, floor, floor', store, rows, jobs);
    StrictIsSane(rule, owner, titleOf, floor, store, rows);
    ErrorFreeRunMirrors(rule, owner, titleOf, floor, floor', store, rows, jobs, order, stuck, close);
    var st', end := FinishedRun(rule, owner, store, rows, jobs, order, stuck, close);
    ProcessTally(rule, owner, St(store, rows, ZERO, false), jobs);
    forall p: string ensures p in end.store <==> Expected(store, rows, end.rows, p) {
      FileExpected(rule, owner, titleOf, floor, floor', store, rows, jobs, stuck, st', end, p);
    }
    MirrorPaths(rule, end.store, end.rows, jobs);
    KeysExpected(store, rows, end.store, end.rows);
  }

  lemma KeysExpected(store: Store, rows: map<Key, Item>, store': Store, rows': map<Key, Item>)
    requires forall p :: p in store' <==> Expected(store, rows, rows', p)
    ensures store'.Keys == (store.Keys - Rels(rows)) + Rels(rows')
    ensures store'.Keys == Rels(rows') <==> store.Keys <= Rels(rows) + Rels(rows')
  {
    assert store'.Keys == (store.Keys - Rels(rows)) + Rels(rows');
  }

  lemma InRels(owner: string -> Key, rows: map<Key, Item>, p: string)
    requires RowsOwned(owner, rows)
    ensures p in Rels(rows) <==> owner(p) in rows && rows[owner(p)].rel == p
  {
  }

  lemma FileExpected(rule: PathRule, owner: string -> Key, titleOf: (Key, nat) -> string, floor: Key -> nat,
                     floor': Key -> nat,
                     store: Store, rows: map<Key, Item>, jobs: seq<Job>, stuck: set<Key>, st': St, end: St, p: string)
    requires Faithful(titleOf, floor, floor', jobs) && Sane(true, rule, owner, titleOf, floor, store, rows)
    requires Ran(rule, owner, store, rows, jobs, stuck, st', end) && AllClean(rule, rows, jobs)
    requires |(rows.Keys - Seen(jobs)) * stuck| == 0 && Mirrors(rule, end.store, end.rows, jobs)
    ensures p in end.store <==> Expected(store, rows, end.rows, p)
  {
    InRels(owner, rows, p);
    InRels(owner, end.rows, p);
    if owner(p) in Seen(jobs) {
      ListedFile(rule, owner, titleOf, floor, floor', store, rows, jobs, stuck, st', end, p);
    } else {
      var k := owner(p);
      assert SameFor(owner, k, St(store, rows, ZERO, false), st');
      assert k !in (rows.Keys - Seen(jobs)) * stuck;
    }
  }

  lemma ListedFile(rule: PathRule, owner: string -> Key, titleOf: (Key, nat) -> string, floor: Key -> nat,
                   floor': Key -> nat,
                   store: Store, rows: map<Key, Item>, jobs: seq<Job>, stuck: set<Key>, st': St, end: St, p: string)
    requires Faithful(titleOf, floor, floor', jobs) && Sane(true, rule, owner, titleOf, floor, store, rows)
    requires Ran(rule, owner, store, rows, jobs, stuck, st', end) && AllClean(rule, rows, jobs)
    requires Mirrors(rule, end.store, end.rows, jobs) && owner(p) in Seen(jobs)
    ensures p in end.store <==>
              (p in store && !(owner(p) in rows && rows[owner(p)].rel == p))
                  || (owner(p) in end.rows && end.rows[owner(p)].rel == p)
  {
    var k := owner(p);
    var i := SeenAt(jobs, k);
    assert Holds(rule, end.store, end.rows, jobs[i].entry);
    DeleteKeepsFiles(owner, st', end, rows.Keys - Seen(jobs), stuck, k);
    assert k in rows ==> RowSane(true, rule, titleOf, floor, store, k, rows[k]);
    VisitedFile(rule, owner, St(store, rows, ZERO, false), st', jobs[i].entry, jobs[i].out, p);
  }

  lemma VisitedFile(rule: PathRule, owner: string -> Key, st: St, st': St, e: Entry, out: Outcome, p: string)
    requires Visited(rule, owner, st, st', e, out) && CleanVisit(rule, Row(st.rows, e.key), e, out) && owner(p) == e.key
    requires UpToDate(Row(st.rows, e.key), e, rule(e.key, e.title).value) ==> st.rows[e.key].rel in st.store
    ensures p in st'.store <==>
            (p in st.store && !(e.key in st.rows && st.rows[e.key].rel == p)) || p == rule(e.key, e.title).value
  {
  }

  // ---- whole histories -----------------------------------------------------------

  // One run: its jobs, the order of its delete loop, the deletes that fail, how its
  // session closes, and the versions reached when it ends.
  datatype Pass = Pass(jobs: seq<Job>, order: seq<Key>, stuck: set<Key>, close: Close, floor: Key -> nat)

  ghost function After(rule: PathRule, store: Store, passes: seq<Pass>): Run {
    if passes == [] then Run(store, map[], None)
    else
      var r := After(rule, store, passes[..|passes| - 1]);
      var p := passes[|passes| - 1];
      Sync(rule, r.store, r.rows, p.jobs, p.order, p.stuck, p.close)
  }

  ghost function FloorAfter(passes: seq<Pass>): Key -> nat {
    if passes == [] then (k: Key) => 0 else passes[|passes| - 1].floor
  }

  // Distinct separator-free ids, and versions that never go back.
  ghost predicate GoodPass(titleOf: (Key, nat) -> string, floor: Key -> nat, p: Pass, rows: map<Key, Item>) {
    && Distinct(p.jobs)
    && (forall i :: 0 <= i < |p.jobs| && p.jobs[i].Visit? ==> PlainId(p.jobs[i].entry.key.id))
    && Faithful(titleOf, floor, p.floor, p.jobs)
    && Lists(p.order, rows)
  }

  ghost predicate GoodHistory(rule: PathRule, titleOf: (Key, nat) -> string, store: Store, passes: seq<Pass>) {
    forall i :: 0 <= i < |passes| ==>
      GoodPass(titleOf, FloorAfter(passes[..i]), passes[i], After(rule, store, passes[..i]).rows)
  }

  function RuleFor(ns: string, slug: string -> string): PathRule {
    (k: Key, title: string) => SafeRel(RawPath(ns, slug, k, title))
  }

  function OwnerFor(ns: string): string -> Key {
    (p: string) => Owner(ns, p)
  }

  lemma PlainIdsOwned(ns: string, slug: string -> string, jobs: seq<Job>)
    requires PlainPart(ns) && SlugsPlain(slug)
    requires forall i :: 0 <= i < |jobs| && jobs[i].Visit? ==> PlainId(jobs[i].entry.key.id)
    ensures PathsOwned(RuleFor(ns, slug), OwnerFor(ns), jobs)
  {
    forall i | 0 <= i < |jobs| && jobs[i].Visit?
      ensures var e := jobs[i].entry;
              RuleFor(ns, slug)(e.key, e.title).Some? ==> OwnerFor(ns)(RuleFor(ns, slug)(e.key, e.title).value) == e.key
    {
      var e := jobs[i].entry;
      if RuleFor(ns, slug)(e.key, e.title).Some? {
        PathOwner(ns, slug, e.key, e.title, SafeRel(RawPath(ns, slug, e.key, e.title)).value);
      }
    }
  }

  // A good history ends in a good pass over the table its earlier passes leave.
  lemma HistoryEnds(rule: PathRule, titleOf: (Key, nat) -> string, store: Store, passes: seq<Pass>)
    requires GoodHistory(rule, titleOf, store, passes) && passes != []
    ensures var init := passes[..|passes| - 1];
            && GoodHistory(rule, titleOf, store, init)
            && GoodPass(titleOf, FloorAfter(init), passes[|passes| - 1], After(rule, store, init).rows)
  {
    var init := passes[..|passes| - 1];
    forall i | 0 <= i < |init|
      ensures GoodPass(titleOf, FloorAfter(init[..i]), init[i], After(rule, store, init[..i]).rows)
    {
      assert init[..i] == passes[..i];
    }
  }

  // No session of the history fails to write its rows at the end.
  predicate NoneFails(passes: seq<Pass>) {
    forall i :: 0 <= i < |passes| ==> !passes[i].close.Fails?
  }

  lemma {:induction false} HistorySane(strict: bool, ns: string, slug: string -> string, titleOf: (Key, nat) -> string,
                                       store: Store, passes: seq<Pass>)
    requires PlainPart(ns) && SlugsPlain(slug) && GoodHistory(RuleFor(ns, slug), titleOf, store, passes)
    requires strict ==> NoneFails(passes)
    ensures var r := After(RuleFor(ns, slug), store, passes);
            Sane(strict, RuleFor(ns, slug), OwnerFor(ns), titleOf, FloorAfter(passes), r.store, r.rows)
  {
    if passes != [] {
      var init, p := passes[..|passes| - 1], passes[|passes| - 1];
      var rule, owner := RuleFor(ns, slug), OwnerFor(ns);
      HistoryEnds(rule, titleOf, store, passes);
      assert forall i :: 0 <= i < |init| ==> init[i] == passes[i];
      HistorySane(strict, ns, slug, titleOf, store, init);
      var r := After(rule, store, init);
      PlainIdsOwned(ns, slug, p.jobs);
      SyncKeepsSane(strict, rule, owner, titleOf, FloorAfter(init), p.floor,
                    r.store, r.rows, p.jobs, p.order, p.stuck, p.close);
    }
  }

  /** Self-healing: from an empty table over any store, after any history of runs with
      whatever failures, one run that reports no error while the space holds still
      leaves exactly the listed items tracked, each with a file that renders its listed
      version, if and only if it took no item for up to date whose file was missing.
      That is so in particular where no session of the history failed to write its rows
      at the end; runs that raise earlier are included, whether their rows are committed
      or rolled back. */
  lemma SelfHealing(ns: string, slug: string -> string, titleOf: (Key, nat) -> string, store: Store, passes: seq<Pass>)
    requires PlainPart(ns) && SlugsPlain(slug) && GoodHistory(RuleFor(ns, slug), titleOf, store, passes) && passes != []
    requires Quiet(passes[|passes| - 1].jobs)
    requires var r := After(RuleFor(ns, slug), store, passes); r.counts.Some? && r.counts.value.errors == 0
    ensures var rule, last := RuleFor(ns, slug), passes[|passes| - 1];
            var before, r := After(rule, store, passes[..|passes| - 1]), After(rule, store, passes);
            && (Mirrors(rule, r.store, r.rows, last.jobs) <==> NoneMissing(rule, before.store, before.rows, last.jobs))
            && (NoneFails(passes) ==> Mirrors(rule, r.store, r.rows, last.jobs))
  {
    var init, p := passes[..|passes| - 1], passes[|passes| - 1];
    var r := After(RuleFor(ns, slug), store, init);
    HistoryEnds(RuleFor(ns, slug), titleOf, store, passes);
    HistorySane(false, ns, slug, titleOf, store, init);
    LastRunMirrors(ns, slug, titleOf, FloorAfter(init), r.store, r.rows, p);
    if NoneFails(passes) { WrittenHistory(ns, slug, titleOf, store, passes); }
  }

  // Where every session wrote its rows, no file is missing.
  lemma WrittenHistory(ns: string, slug: string -> string, titleOf: (Key, nat) -> string, store: Store,
                       passes: seq<Pass>)
    requires PlainPart(ns) && SlugsPlain(slug) && GoodHistory(RuleFor(ns, slug), titleOf, store, passes) && passes != []
    requires NoneFails(passes)
    ensures var before := After(RuleFor(ns, slug), store, passes[..|passes| - 1]);
            NoneMissing(RuleFor(ns, slug), before.store, before.rows, passes[|passes| - 1].jobs)
  {
    var init, p := passes[..|passes| - 1], passes[|passes| - 1];
    var r := After(RuleFor(ns, slug), store, init);
    HistoryEnds(RuleFor(ns, slug), titleOf, store, passes);
    assert forall i :: 0 <= i < |init| ==> init[i] == passes[i];
    HistorySane(true, ns, slug, titleOf, store, init);
    SaneMissesNone(RuleFor(ns, slug), OwnerFor(ns), titleOf, FloorAfter(init), p.floor, r.store, r.rows, p.jobs);
  }

  lemma LastRunMirrors(ns: string, slug: string -> string, titleOf: (Key, nat) -> string, floor: Key -> nat,
                       store: Store, rows: map<Key, Item>, p: Pass)
    requires PlainPart(ns) && SlugsPlain(slug) && GoodPass(titleOf, floor, p, rows) && Quiet(p.jobs)
    requires Sane(false, RuleFor(ns, slug), OwnerFor(ns), titleOf, floor, store, rows)
    requires var r := Sync(RuleFor(ns, slug), store, rows, p.jobs, p.order, p.stuck, p.close);
             r.counts.Some? && r.counts.value.errors == 0
    ensures var r := Sync(RuleFor(ns, slug), store, rows, p.jobs, p.order, p.stuck, p.close);
            Mirrors(RuleFor(ns, slug), r.store, r.rows, p.jobs) <==> NoneMissing(RuleFor(ns, slug), store, rows, p.jobs)
  {
    PlainIdsOwned(ns, slug, p.jobs);
    ErrorFreeRunMirrors(RuleFor(ns, slug), OwnerFor(ns), titleOf, floor, p.floor,
                        store, rows, p.jobs, p.order, p.stuck, p.close);
  }
}
