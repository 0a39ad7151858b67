/**
 What one run does to each single item, and what it counts, from the listing and the
 foreign outcomes alone, whatever happens to the other items.
 */
module ConfluenceItems {
  import opened Prelude
  import opened ConfluencePaths
  import opened ConfluenceMirror
  import opened ConfluenceHealing

  function Start(store: Store, rows: map<Key, Item>): St {
    St(store, rows, ZERO, false)
  }

  // ---- one listed item -----------------------------------------------------------

  // The visits before the one of a run that raised.
  lemma UpToRaise(rule: PathRule, owner: string -> Key, store: Store, rows: map<Key, Item>, jobs: seq<Job>, i: nat)
    requires WellListed(rule, owner, rows, jobs) && i < |jobs| && jobs[i].Visit?
    requires Process(rule, rows.Keys, Start(store, rows), jobs).raised
    ensures var st' := Process(rule, rows.Keys, Start(store, rows), jobs);
            || Visited(rule, owner, Start(store, rows), st', jobs[i].entry, jobs[i].out)
            || SameFor(owner, jobs[i].entry.key, Start(store, rows), st')
  {
    var st, e := Start(store, rows), jobs[i].entry;
    var n := RaisedPrefix(rule, rows.Keys, st, jobs);
    var some := jobs[..n];
    assert WellListed(rule, owner, rows, some);
    ProcessOutcome(rule, owner, st, some);
    var mid, st' := Process(rule, rows.Keys, st, some), Process(rule, rows.Keys, st, jobs);
    if i < n {
      assert some[i] == jobs[i];
      SameVisited(rule, owner, st, mid, st', e, jobs[i].out);
    } else {
      LaterKey(jobs, n, i);
      assert SameFor(owner, e.key, st, mid);
    }
  }

  lemma LaterKey(jobs: seq<Job>, n: nat, i: nat)
    requires Distinct(jobs) && n <= i < |jobs| && jobs[i].Visit?
    ensures jobs[i].entry.key !in Seen(jobs[..n])
  {
    if jobs[i].entry.key in Seen(jobs[..n]) {
      var m := SeenAt(jobs[..n], jobs[i].entry.key);
    }
  }

  lemma SameVisited(rule: PathRule, owner: string -> Key, st: St, mid: St, st': St, e: Entry, out: Outcome)
    requires Visited(rule, owner, st, mid, e, out) && st'.store == mid.store && st'.rows == mid.rows
    ensures Visited(rule, owner, st, st', e, out)
  {
  }

  // Some state that the item's visit leaves, or that has not reached it, has the files that
  // the run ends with; its row is that or the one from before.
  lemma ListedOutcome(rule: PathRule, owner: string -> Key, store: Store, rows: map<Key, Item>, jobs: seq<Job>,
                      order: seq<Key>, stuck: set<Key>, close: Close, i: nat) returns (st': St)
    requires WellListed(rule, owner, rows, jobs) && Lists(order, rows) && i < |jobs| && jobs[i].Visit?
    ensures var r, k := Sync(rule, store, rows, jobs, order, stuck, close), jobs[i].entry.key;
            && SameFiles(owner, k, st'.store, r.store)
            && (Row(r.rows, k) == Row(st'.rows, k) || Row(r.rows, k) == Row(rows, k))
    ensures || Visited(rule, owner, Start(store, rows), st', jobs[i].entry, jobs[i].out)
            || SameFor(owner, jobs[i].entry.key, Start(store, rows), st')
  {
    st' := Process(rule, rows.Keys, Start(store, rows), jobs);
    if st'.raised {
      UpToRaise(rule, owner, store, rows, jobs, i);
      assert Sync(rule, store, rows, jobs, order, stuck, close).store == st'.store;
    } else {
      var _, end := FinishedRun(rule, owner, store, rows, jobs, order, stuck, close);
      RanVisited(rule, owner, store, rows, jobs, stuck, st', end, i);
    }
  }

  lemma RanVisited(rule: PathRule, owner: string -> Key, store: Store, rows: map<Key, Item>, jobs: seq<Job>,
                   stuck: set<Key>, st': St, end: St, i: nat)
    requires Ran(rule, owner, store, rows, jobs, stuck, st', end) && i < |jobs| && jobs[i].Visit?
    ensures Visited(rule, owner, Start(store, rows), st', jobs[i].entry, jobs[i].out)
    ensures SameFor(owner, jobs[i].entry.key, st', end)
  {
    SeenHas(jobs, i);
    DeleteKeepsFiles(owner, st', end, rows.Keys - Seen(jobs), stuck, jobs[i].entry.key);
  }

  /** A listed item ends a run that does not raise as its own visit leaves it: nothing is
      changed if it is up to date or its fetch fails; otherwise the target path holds what
      was written, the row follows a write that works, and of the item's other files only
      the one at its old path goes, exactly if it moved and that delete works. */
  lemma ItemOutcome(rule: PathRule, owner: string -> Key, store: Store, rows: map<Key, Item>, jobs: seq<Job>,
                    order: seq<Key>, stuck: set<Key>, close: Close, i: nat)
    requires WellListed(rule, owner, rows, jobs) && Lists(order, rows) && i < |jobs| && jobs[i].Visit?
    requires Sync(rule, store, rows, jobs, order, stuck, close).counts.Some?
    ensures var r := Sync(rule, store, rows, jobs, order, stuck, close);
            Visited(rule, owner, Start(store, rows), Start(r.store, r.rows), jobs[i].entry, jobs[i].out)
  {
    var e := jobs[i].entry;
    var st', end := FinishedRun(rule, owner, store, rows, jobs, order, stuck, close);
    SeenHas(jobs, i);
    DeleteKeepsFiles(owner, st', end, rows.Keys - Seen(jobs), stuck, e.key);
    assert Visited(rule, owner, Start(store, rows), st', e, jobs[i].out);
    CarryAfter(rule, owner, Start(store, rows), st', end, e, jobs[i].out);
    SameVisited(rule, owner, Start(store, rows), end, Start(end.store, end.rows), e, jobs[i].out);
  }

  /** A run that raises has left each listed item as its own visit leaves it or not at all
      touched; a caller that commits keeps these rows, any other has the rows from before. */
  lemma RaisedOutcome(rule: PathRule, owner: string -> Key, store: Store, rows: map<Key, Item>, jobs: seq<Job>,
                      order: seq<Key>, stuck: set<Key>, close: Close, i: nat)
    requires WellListed(rule, owner, rows, jobs) && Lists(order, rows) && i < |jobs| && jobs[i].Visit?
    requires Sync(rule, store, rows, jobs, order, stuck, close).counts.None?
    ensures var r, st := Sync(rule, store, rows, jobs, order, stuck, close), Start(store, rows);
            if close.Commits? then
              || Visited(rule, owner, st, Start(r.store, r.rows), jobs[i].entry, jobs[i].out)
              || SameFor(owner, jobs[i].entry.key, st, Start(r.store, r.rows))
            else r.rows == rows
  {
    if close.Commits? {
      var st' := Process(rule, rows.Keys, Start(store, rows), jobs);
      UpToRaise(rule, owner, store, rows, jobs, i);
      if Visited(rule, owner, Start(store, rows), st', jobs[i].entry, jobs[i].out) {
        SameVisited(rule, owner, Start(store, rows), st', Start(st'.store, st'.rows), jobs[i].entry, jobs[i].out);
      }
    }
  }

  /** However a run ends, also when it raises or its session fails: a listed item whose
      fetch fails keeps its row and every one of its files as they were. */
  lemma FailedFetchKeeps(rule: PathRule, owner: string -> Key, store: Store, rows: map<Key, Item>, jobs: seq<Job>,
                         order: seq<Key>, stuck: set<Key>, close: Close, i: nat)
    requires WellListed(rule, owner, rows, jobs) && Lists(order, rows) && i < |jobs| && jobs[i].Visit?
    requires jobs[i].out.fetch.None?
    ensures var r := Sync(rule, store, rows, jobs, order, stuck, close); var k := jobs[i].entry.key;
            Row(r.rows, k) == Row(rows, k) && SameFiles(owner, k, store, r.store)
  {
    var st' := ListedOutcome(rule, owner, store, rows, jobs, order, stuck, close, i);
    SameFilesTrans(owner, jobs[i].entry.key, store, st'.store,
                   Sync(rule, store, rows, jobs, order, stuck, close).store);
  }

  lemma SameFilesTrans(owner: string -> Key, k: Key, a: Store, b: Store, c: Store)
    requires SameFiles(owner, k, a, b) && SameFiles(owner, k, b, c)
    ensures SameFiles(owner, k, a, c)
  {
  }

  // What a visit may do to the file at `p`.
  predicate MayChange(rule: PathRule, rows: map<Key, Item>, e: Entry, out: Outcome, p: string) {
    && rule(e.key, e.title).Some? && out.fetch.Some?
    && !UpToDate(Row(rows, e.key), e, rule(e.key, e.title).value)
    && (p == rule(e.key, e.title).value || (e.key in rows && p == rows[e.key].rel && out.dropOk))
  }

  lemma VisitedFileKept(rule: PathRule, owner: string -> Key, st: St, st': St, e: Entry, out: Outcome, p: string)
    requires Visited(rule, owner, st, st', e, out) && owner(p) == e.key
    ensures FileAt(st'.store, p) == FileAt(st.store, p) || MayChange(rule, st.rows, e, out, p)
  {
  }

  /** However a run ends, a file of a listed item keeps its content unless its fetch
      worked and it is either at the path the item is written to or at the old path of a
      moved item whose delete worked. */
  lemma ListedFileKept(rule: PathRule, owner: string -> Key, store: Store, rows: map<Key, Item>, jobs: seq<Job>,
                       order: seq<Key>, stuck: set<Key>, close: Close, i: nat, p: string)
    requires WellListed(rule, owner, rows, jobs) && Lists(order, rows) && i < |jobs| && jobs[i].Visit?
    requires owner(p) == jobs[i].entry.key
    ensures || FileAt(Sync(rule, store, rows, jobs, order, stuck, close).store, p) == FileAt(store, p)
            || MayChange(rule, rows, jobs[i].entry, jobs[i].out, p)
  {
    var st' := ListedOutcome(rule, owner, store, rows, jobs, order, stuck, close, i);
    if Visited(rule, owner, Start(store, rows), st', jobs[i].entry, jobs[i].out) {
      VisitedFileKept(rule, owner, Start(store, rows), st', jobs[i].entry, jobs[i].out, p);
    }
  }

  // ---- the counts ------------------------------------------------------------------

  // The item of a listed entry is out of date, and its content could be fetched.
  predicate Fetched(rule: PathRule, rows: map<Key, Item>, e: Entry, out: Outcome) {
    && rule(e.key, e.title).Some? && !UpToDate(Row(rows, e.key), e, rule(e.key, e.title).value)
    && out.fetch.Some?
  }

  predicate IsCurrent(rule: PathRule, rows: map<Key, Item>, job: Job) {
    && job.Visit? && rule(job.entry.key, job.entry.title).Some?
    && UpToDate(Row(rows, job.entry.key), job.entry, rule(job.entry.key, job.entry.title).value)
  }

  predicate IsWritten(rule: PathRule, rows: map<Key, Item>, kind: Kind, job: Job) {
    && job.Visit? && Fetched(rule, rows, job.entry, job.out)
    && job.out.write.Written? && job.entry.key.kind == kind
  }

  // A listing, a fetch or a write failed.
  predicate IsFailed(rule: PathRule, rows: map<Key, Item>, job: Job) {
    job.Visit? ==> !IsCurrent(rule, rows, job) && (job.out.fetch.None? || job.out.write.Failed?)
  }

  // The file at the old path of a moved item could not be deleted.
  predicate IsLeftOver(rule: PathRule, rows: map<Key, Item>, job: Job) {
    && job.Visit? && Fetched(rule, rows, job.entry, job.out)
    && !Dropped(Row(rows, job.entry.key), rule(job.entry.key, job.entry.title).value, job.out)
  }

  ghost function Number(jobs: seq<Job>, p: Job -> bool): nat {
    |set i | 0 <= i < |jobs| && p(jobs[i])|
  }

  lemma NumberSnoc(init: seq<Job>, job: Job, p: Job -> bool)
    ensures Number(init + [job], p) == Number(init, p) + if p(job) then 1 else 0
  {
    var jobs := init + [job];
    var before := set i | 0 <= i < |init| && p(init[i]);
    var after := set i | 0 <= i < |jobs| && p(jobs[i]);
    assert after == before + (if p(job) then {|init|} else {});
  }

  // The counters before the mirror delete, each one the number of jobs that turned out so.
  ghost predicate Counted(rule: PathRule, rows: map<Key, Item>, jobs: seq<Job>, c: Counts) {
    && c.pagesWritten == Number(jobs, job => IsWritten(rule, rows, Page, job))
    && c.attachmentsWritten == Number(jobs, job => IsWritten(rule, rows, Attachment, job))
    && c.upToDate == Number(jobs, job => IsCurrent(rule, rows, job))
    && c.errors == Number(jobs, job => IsFailed(rule, rows, job)) + Number(jobs, job => IsLeftOver(rule, rows, job))
    && c.deleted == 0
  }

  // What one job adds to the counters, its item's row being that of the start.
  lemma JobCounts(rule: PathRule, rows: map<Key, Item>, st: St, job: Job)
    requires !st.raised && !RunJob(rule, rows.Keys, st, job).raised
    requires job.Visit? ==> Row(st.rows, job.entry.key) == Row(rows, job.entry.key)
    ensures var c, c' := st.counts, RunJob(rule, rows.Keys, st, job).counts;
            && c'.pagesWritten == c.pagesWritten + (if IsWritten(rule, rows, Page, job) then 1 else 0)
            && c'.attachmentsWritten ==
                c.attachmentsWritten + (if IsWritten(rule, rows, Attachment, job) then 1 else 0)
            && c'.upToDate == c.upToDate + (if IsCurrent(rule, rows, job) then 1 else 0)
            && c'.errors == c.errors + (if IsFailed(rule, rows, job) then 1 else 0)
                + (if IsLeftOver(rule, rows, job) then 1 else 0)
            && c'.deleted == c.deleted
  {
  }

  lemma CountedSnoc(rule: PathRule, rows: map<Key, Item>, st: St, init: seq<Job>, job: Job)
    requires !st.raised && !RunJob(rule, rows.Keys, st, job).raised && Counted(rule, rows, init, st.counts)
    requires job.Visit? ==> Row(st.rows, job.entry.key) == Row(rows, job.entry.key)
    ensures Counted(rule, rows, init + [job], RunJob(rule, rows.Keys, st, job).counts)
  {
    JobCounts(rule, rows, st, job);
    NumberSnoc(init, job, job => IsWritten(rule, rows, Page, job));
    NumberSnoc(init, job, job => IsWritten(rule, rows, Attachment, job));
    NumberSnoc(init, job, job => IsCurrent(rule, rows, job));
    NumberSnoc(init, job, job => IsFailed(rule, rows, job));
    NumberSnoc(init, job, job => IsLeftOver(rule, rows, job));
  }

  lemma {:induction false} ProcessCounted(rule: PathRule, owner: string -> Key, store: Store, rows: map<Key, Item>,
                                          jobs: seq<Job>)
    requires WellListed(rule, owner, rows, jobs)
    requires !Process(rule, rows.Keys, Start(store, rows), jobs).raised
    ensures Counted(rule, rows, jobs, Process(rule, rows.Keys, Start(store, rows), jobs).counts)
  {
    if jobs != [] {
      var init, job := jobs[..|jobs| - 1], jobs[|jobs| - 1];
      assert jobs == init + [job];
      WellListedInit(rule, owner, rows, jobs);
      ProcessCounted(rule, owner, store, rows, init);
      var mid := Process(rule, rows.Keys, Start(store, rows), init);
      if job.Visit? {
        NewKey(init, job.entry, job.out);
        ProcessOutcome(rule, owner, Start(store, rows), init);
        assert SameFor(owner, job.entry.key, Start(store, rows), mid);
      }
      CountedSnoc(rule, rows, mid, init, job);
    }
  }

  // The counters of a run that deleted the files of `gone`, unless stuck.
  ghost predicate RunCounted(rule: PathRule, rows: map<Key, Item>, jobs: seq<Job>, gone: set<Key>, stuck: set<Key>,
                             c: Counts) {
    && c.pagesWritten == Number(jobs, job => IsWritten(rule, rows, Page, job))
    && c.attachmentsWritten == Number(jobs, job => IsWritten(rule, rows, Attachment, job))
    && c.upToDate == Number(jobs, job => IsCurrent(rule, rows, job))
    && c.deleted == |gone|
    && c.errors == Number(jobs, job => IsFailed(rule, rows, job)) + Number(jobs, job => IsLeftOver(rule, rows, job))
                   + |gone * stuck|
  }

  lemma DeleteCounted(rule: PathRule, owner: string -> Key, rows: map<Key, Item>, jobs: seq<Job>, st': St, end: St,
                      gone: set<Key>, stuck: set<Key>)
    requires Counted(rule, rows, jobs, st'.counts) && Deleted(owner, st', end, gone, stuck)
    ensures RunCounted(rule, rows, jobs, gone, stuck, end.counts)
  {
  }

  /** The counts that a run returns, one by one: the pages and the attachments that were
      out of date, fetched and written; those that were up to date; the tracked items that
      were not listed; and one error for each failed listing, fetch, write and delete. */
  lemma RunCountsExactly(rule: PathRule, owner: string -> Key, store: Store, rows: map<Key, Item>, jobs: seq<Job>,
                         order: seq<Key>, stuck: set<Key>, close: Close)
    requires WellListed(rule, owner, rows, jobs) && Lists(order, rows)
    requires Sync(rule, store, rows, jobs, order, stuck, close).counts.Some?
    ensures RunCounted(rule, rows, jobs, rows.Keys - Seen(jobs), stuck,
                       Sync(rule, store, rows, jobs, order, stuck, close).counts.value)
  {
    var st', end := FinishedRun(rule, owner, store, rows, jobs, order, stuck, close);
    ProcessCounted(rule, owner, store, rows, jobs);
    DeleteCounted(rule, owner, rows, jobs, st', end, rows.Keys - Seen(jobs), stuck);
  }
}
