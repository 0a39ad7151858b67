/**
 One reconciliation of a Confluence listing into the docs store and the item
 table: change detection by version and path, renames, mirror delete, and every
 way a fetch, a delete or a write may fail.  A run is a list of jobs in the
 order the loops reach them; the foreign outcomes are part of the jobs.
 */
module ConfluenceMirror {
  import opened Prelude
  import opened ConfluencePaths

  // What a file holds: a rendering of some version of an item, or anything else.
  datatype Content = Rendering(key: Key, version: nat, stamp: int) | Junk(n: int)

  type Store = map<string, Content>

  datatype Item = Item(rel: string, version: nat, title: string)

  datatype Entry = Entry(key: Key, title: string, version: nat)

  // A failed write leaves the path as the store happens to leave it.
  datatype Write = Written | Failed(left: Option<Content>)

  // How the calls for one entry turn out, should they be made.
  datatype Outcome = Outcome(fetch: Option<Content>, dropOk: bool, write: Write)

  datatype Job = Visit(entry: Entry, out: Outcome) | ListFailed

  datatype Counts = Counts(pagesWritten: nat, attachmentsWritten: nat, deleted: nat, upToDate: nat, errors: nat)

  datatype St = St(store: Store, rows: map<Key, Item>, counts: Counts, raised: bool)

  // The path rule of the listener: None where the store refuses the path.
  type PathRule = (Key, string) -> Option<string>

  const ZERO := Counts(0, 0, 0, 0, 0)

  function Changed(c: Counts): nat {
    c.pagesWritten + c.attachmentsWritten + c.deleted
  }

  function Row(rows: map<Key, Item>, k: Key): Option<Item> {
    if k in rows then Some(rows[k]) else None
  }

  predicate UpToDate(item: Option<Item>, e: Entry, rel: string) {
    item.Some? && item.value.version == e.version && item.value.rel == rel
  }

  function Put(store: Store, rel: string, c: Option<Content>): Store {
    if c.Some? then store[rel := c.value] else store - {rel}
  }

  /** One turn of the page loop or of the attachment loop, for a row read as `item`. */
  function VisitEntry(rule: PathRule, item: Option<Item>, st: St, e: Entry, out: Outcome): St {
    var path := rule(e.key, e.title);
    if path.None? then st.(raised := true)
    else
      var rel := path.value;
      if UpToDate(item, e, rel) then st.(counts := st.counts.(upToDate := st.counts.upToDate + 1))
      else if out.fetch.None? then st.(counts := st.counts.(errors := st.counts.errors + 1))
      else
        var moved := item.Some? && item.value.rel != rel;
        var store1 := if moved && out.dropOk then st.store - {item.value.rel} else st.store;
        var counts1 := if moved && !out.dropOk then st.counts.(errors := st.counts.errors + 1) else st.counts;
        match out.write
        case Failed(left) =>
          st.(store := Put(store1, rel, left), counts := counts1.(errors := counts1.errors + 1))
        case Written =>
          st.(store := store1[rel := out.fetch.value],
              rows := st.rows[e.key := Item(rel, e.version, e.title)],
              counts := if e.key.kind.Page? then counts1.(pagesWritten := counts1.pagesWritten + 1)
                        else counts1.(attachmentsWritten := counts1.attachmentsWritten + 1))
  }

  function RunJob(rule: PathRule, existing: set<Key>, st: St, job: Job): St {
    if st.raised then st
    else match job
      case Visit(e, out) =>
        VisitEntry(rule, if e.key in existing then Row(st.rows, e.key) else None, st, e, out)
      case ListFailed => st.(counts := st.counts.(errors := st.counts.errors + 1))
  }

  function Process(rule: PathRule, existing: set<Key>, st: St, jobs: seq<Job>): St {
    if jobs == [] then st
    else RunJob(rule, existing, Process(rule, existing, st, jobs[..|jobs| - 1]), jobs[|jobs| - 1])
  }

  // The items a run has seen.
  function Seen(jobs: seq<Job>): set<Key> {
    if jobs == [] then {}
    else Seen(jobs[..|jobs| - 1]) + if jobs[|jobs| - 1].Visit? then {jobs[|jobs| - 1].entry.key} else {}
  }

  // One turn of the mirror delete loop; deleting the file fails for items in `stuck`.
  function DeleteOne(st: St, seen: set<Key>, stuck: set<Key>, k: Key): St {
    if k in seen || k !in st.rows then st
    else
      st.(store := if k in stuck then st.store else st.store - {st.rows[k].rel},
          rows := st.rows - {k},
          counts := st.counts.(deleted := st.counts.deleted + 1,
                               errors := st.counts.errors + if k in stuck then 1 else 0))
  }

  // The loop over the rows of the start, in the order the table lists them.
  function MirrorDelete(st: St, seen: set<Key>, stuck: set<Key>, order: seq<Key>): St {
    if order == [] then st
    else DeleteOne(MirrorDelete(st, seen, stuck, order[..|order| - 1]), seen, stuck, order[|order| - 1])
  }

  function Elems(order: seq<Key>): set<Key> {
    if order == [] then {} else Elems(order[..|order| - 1]) + {order[|order| - 1]}
  }

  // `order` lists the rows once each.
  ghost predicate Lists(order: seq<Key>, rows: map<Key, Item>) {
    Elems(order) == rows.Keys && forall i, j :: 0 <= i < j < |order| ==> order[i] != order[j]
  }

  // What a run leaves: the store, the committed rows, and its counts unless it raised.
  datatype Run = Run(store: Store, rows: map<Key, Item>, counts: Option<Counts>)

  // How the caller's session closes: it rolls back if the run raised, it commits also
  // then, having caught the exception, or the last flush or the commit itself fails.
  datatype Close = RollsBack | Commits | Fails

  /** `sync_listener` after the listing, and what becomes of its rows. */
  function Sync(rule: PathRule, store: Store, rows: map<Key, Item>, jobs: seq<Job>, order: seq<Key>, stuck: set<Key>,
                close: Close): Run {
    var st := Process(rule, rows.Keys, St(store, rows, ZERO, false), jobs);
    if st.raised then Run(st.store, if close.Commits? then st.rows else rows, None)
    else
      var end := MirrorDelete(st, Seen(jobs), stuck, order);
      if close.Fails? then Run(end.store, rows, None) else Run(end.store, end.rows, Some(end.counts))
  }

  lemma {:induction false} ProcessKeepsRows(rule: PathRule, existing: set<Key>, st: St, jobs: seq<Job>)
    ensures st.rows.Keys <= Process(rule, existing, st, jobs).rows.Keys
  {
    if jobs != [] {
      ProcessKeepsRows(rule, existing, st, jobs[..|jobs| - 1]);
    }
  }

  // ---- one visit per item ---------------------------------------------------

  ghost predicate Distinct(jobs: seq<Job>) {
    forall i, j :: 0 <= i < j < |jobs| && jobs[i].Visit? && jobs[j].Visit? ==> jobs[i].entry.key != jobs[j].entry.key
  }

  // Every path the rule gives to a listed item belongs to that item.
  ghost predicate PathsOwned(rule: PathRule, owner: string -> Key, jobs: seq<Job>) {
    forall i :: 0 <= i < |jobs| && jobs[i].Visit? ==>
      var e := jobs[i].entry;
      rule(e.key, e.title).Some? ==> owner(rule(e.key, e.title).value) == e.key
  }

  ghost predicate RowsOwned(owner: string -> Key, rows: map<Key, Item>) {
    forall k :: k in rows ==> owner(rows[k].rel) == k
  }

  // The row and the files of item `k` are the same in both states.
  ghost predicate SameFor(owner: string -> Key, k: Key, st: St, st': St) {
    && Row(st.rows, k) == Row(st'.rows, k)
    && SameFiles(owner, k, st.store, st'.store)
  }

  ghost predicate SameFiles(owner: string -> Key, k: Key, s: Store, s': Store) {
    forall p :: owner(p) == k ==> (p in s <==> p in s') && (p in s ==> s[p] == s'[p])
  }

  // What the visit of `e` has made of its item, from `st` to `st'`.
  ghost predicate Visited(rule: PathRule, owner: string -> Key, st: St, st': St, e: Entry, out: Outcome) {
    && rule(e.key, e.title).Some?
    && var rel := rule(e.key, e.title).value; var row := Row(st.rows, e.key);
    if UpToDate(row, e, rel) || out.fetch.None? then
      SameFor(owner, e.key, st, st')
    else
      && Row(st'.rows, e.key) == (if out.write.Written? then Some(Item(rel, e.version, e.title)) else row)
      && FileAt(st'.store, rel) == (if out.write.Written? then out.fetch else out.write.left)
      && OthersKept(owner, e.key, row, rel, out, st.store, st'.store)
  }

  function FileAt(store: Store, p: string): Option<Content> {
    if p in store then Some(store[p]) else None
  }

  // The visit leaves no file behind at the item's old path.
  predicate Dropped(row: Option<Item>, rel: string, out: Outcome) {
    row.None? || row.value.rel == rel || out.dropOk
  }

  // Apart from the target path, only the file at the old path of a moved item goes, and
  // that one exactly if its delete works.
  ghost predicate OthersKept(owner: string -> Key, k: Key, row: Option<Item>, rel: string, out: Outcome, s: Store,
                             s': Store) {
    forall p :: owner(p) == k && p != rel ==>
      FileAt(s', p) == if row.Some? && p == row.value.rel && out.dropOk then None else FileAt(s, p)
  }

  lemma VisitTouchesOwn(rule: PathRule, owner: string -> Key, item: Option<Item>, st: St, e: Entry, out: Outcome,
                        k: Key)
    requires rule(e.key, e.title).Some? ==> owner(rule(e.key, e.title).value) == e.key
    requires item.Some? ==> owner(item.value.rel) == e.key
    requires k != e.key
    ensures SameFor(owner, k, st, VisitEntry(rule, item, st, e, out))
  {
  }

  lemma VisitOutcome(rule: PathRule, owner: string -> Key, st: St, e: Entry, out: Outcome)
    requires rule(e.key, e.title).Some?
    ensures Visited(rule, owner, st, VisitEntry(rule, Row(st.rows, e.key), st, e, out), e, out)
  {
  }

  lemma CarryBefore(rule: PathRule, owner: string -> Key, st0: St, st: St, st': St, e: Entry, out: Outcome)
    requires SameFor(owner, e.key, st0, st) && Visited(rule, owner, st, st', e, out)
    requires owner(rule(e.key, e.title).value) == e.key
    ensures Visited(rule, owner, st0, st', e, out)
  {
  }

  lemma CarryAfter(rule: PathRule, owner: string -> Key, st: St, st': St, st'': St, e: Entry, out: Outcome)
    requires Visited(rule, owner, st, st', e, out) && SameFor(owner, e.key, st', st'')
    requires owner(rule(e.key, e.title).value) == e.key
    ensures Visited(rule, owner, st, st'', e, out)
  {
  }

  ghost predicate AllVisited(rule: PathRule, owner: string -> Key, st: St, st': St, jobs: seq<Job>) {
    forall i :: 0 <= i < |jobs| && jobs[i].Visit? ==> Visited(rule, owner, st, st', jobs[i].entry, jobs[i].out)
  }

  // The jobs of a run, and the rows it starts from.
  ghost predicate WellListed(rule: PathRule, owner: string -> Key, rows: map<Key, Item>, jobs: seq<Job>) {
    Distinct(jobs) && PathsOwned(rule, owner, jobs) && RowsOwned(owner, rows)
  }

  // Unlisted items keep their row and files, and each listed one is as its own visit left it.
  ghost predicate Progress(rule: PathRule, owner: string -> Key, st: St, st': St, jobs: seq<Job>) {
    && RowsOwned(owner, st'.rows)
    && (forall k :: k !in Seen(jobs) ==> SameFor(owner, k, st, st'))
    && (!st'.raised ==> AllVisited(rule, owner, st, st', jobs))
  }

  /** Items do not interfere. */
  lemma {:induction false} ProcessOutcome(rule: PathRule, owner: string -> Key, st: St, jobs: seq<Job>)
    requires WellListed(rule, owner, st.rows, jobs) && !st.raised
    ensures Progress(rule, owner, st, Process(rule, st.rows.Keys, st, jobs), jobs)
  {
    if jobs == [] {
      NoProgress(rule, owner, st);
    } else {
      var init, job := jobs[..|jobs| - 1], jobs[|jobs| - 1];
      WellListedInit(rule, owner, st.rows, jobs);
      ProcessOutcome(rule, owner, st, init);
      assert jobs == init + [job];
      JobProgress(rule, owner, st, Process(rule, st.rows.Keys, st, init), init, job);
    }
  }

  lemma NoProgress(rule: PathRule, owner: string -> Key, st: St)
    requires RowsOwned(owner, st.rows)
    ensures Progress(rule, owner, st, st, [])
  {
  }

  lemma WellListedInit(rule: PathRule, owner: string -> Key, rows: map<Key, Item>, jobs: seq<Job>)
    requires WellListed(rule, owner, rows, jobs) && jobs != []
    ensures WellListed(rule, owner, rows, jobs[..|jobs| - 1])
  {
    assert forall i :: 0 <= i < |jobs| - 1 ==> jobs[..|jobs| - 1][i] == jobs[i];
  }

  lemma JobProgress(rule: PathRule, owner: string -> Key, st: St, mid: St, init: seq<Job>, job: Job)
    requires WellListed(rule, owner, st.rows, init + [job]) && Progress(rule, owner, st, mid, init)
    ensures Progress(rule, owner, st, RunJob(rule, st.rows.Keys, mid, job), init + [job])
  {
    SeenSnoc(init, job);
    if !mid.raised {
      match job
      case Visit(e, out) => VisitProgress(rule, owner, st, mid, init, e, out);
      case ListFailed => ListFailedKeeps(rule, owner, st, mid, RunJob(rule, st.rows.Keys, mid, job), init, job);
    }
  }

  lemma VisitProgress(rule: PathRule, owner: string -> Key, st: St, mid: St, init: seq<Job>, e: Entry, out: Outcome)
    requires WellListed(rule, owner, st.rows, init + [Visit(e, out)]) && Progress(rule, owner, st, mid, init)
             && !mid.raised
    ensures Progress(rule, owner, st, RunJob(rule, st.rows.Keys, mid, Visit(e, out)), init + [Visit(e, out)])
  {
    NewKey(init, e, out);
    SeenSnoc(init, Visit(e, out));
    assert SameFor(owner, e.key, st, mid);
    var st' := VisitEntry(rule, Row(mid.rows, e.key), mid, e, out);
    assert RunJob(rule, st.rows.Keys, mid, Visit(e, out)) == st';
    LastJob(rule, owner, st, mid, init, e, out);
    forall k | k !in Seen(init + [Visit(e, out)]) ensures SameFor(owner, k, st, st') {
      SameForTrans(owner, k, st, mid, st');
    }
  }

  lemma SameForTrans(owner: string -> Key, k: Key, a: St, b: St, c: St)
    requires SameFor(owner, k, a, b) && SameFor(owner, k, b, c)
    ensures SameFor(owner, k, a, c)
  {
  }

  lemma NewKey(init: seq<Job>, e: Entry, out: Outcome)
    requires Distinct(init + [Visit(e, out)])
    ensures e.key !in Seen(init)
  {
    var jobs := init + [Visit(e, out)];
    assert jobs[|init|] == Visit(e, out) && forall i :: 0 <= i < |init| ==> jobs[i] == init[i];
    if e.key in Seen(init) {
      var i := SeenAt(init, e.key);
    }
  }

  lemma ListFailedKeeps(rule: PathRule, owner: string -> Key, st: St, mid: St, st': St, init: seq<Job>, job: Job)
    requires AllVisited(rule, owner, st, mid, init) && job.ListFailed?
    requires st'.store == mid.store && st'.rows == mid.rows
    ensures AllVisited(rule, owner, st, st', init + [job])
  {
    forall i | 0 <= i < |init + [job]| && (init + [job])[i].Visit?
      ensures Visited(rule, owner, st, st', (init + [job])[i].entry, (init + [job])[i].out)
    {
      assert Visited(rule, owner, st, mid, init[i].entry, init[i].out);
    }
  }

  lemma SeenSnoc(init: seq<Job>, job: Job)
    ensures Seen(init + [job]) == Seen(init) + if job.Visit? then {job.entry.key} else {}
  {
    assert (init + [job])[..|init|] == init;
  }

  lemma {:induction false} SeenHas(jobs: seq<Job>, i: nat)
    requires i < |jobs| && jobs[i].Visit?
    ensures jobs[i].entry.key in Seen(jobs)
  {
    if i < |jobs| - 1 {
      SeenHas(jobs[..|jobs| - 1], i);
    }
  }

  lemma {:induction false} SeenAt(jobs: seq<Job>, k: Key) returns (i: nat)
    requires k in Seen(jobs)
    ensures i < |jobs| && jobs[i].Visit? && jobs[i].entry.key == k
  {
    if jobs[|jobs| - 1].Visit? && jobs[|jobs| - 1].entry.key == k {
      i := |jobs| - 1;
    } else {
      i := SeenAt(jobs[..|jobs| - 1], k);
    }
  }

  lemma LastJob(rule: PathRule, owner: string -> Key, st: St, mid: St, init: seq<Job>, e: Entry, out: Outcome)
    requires PathsOwned(rule, owner, init + [Visit(e, out)]) && RowsOwned(owner, mid.rows)
    requires e.key !in Seen(init) && SameFor(owner, e.key, st, mid)
    requires AllVisited(rule, owner, st, mid, init)
    ensures var st' := VisitEntry(rule, Row(mid.rows, e.key), mid, e, out);
            && RowsOwned(owner, st'.rows)
            && (forall k :: k != e.key ==> SameFor(owner, k, mid, st'))
            && (rule(e.key, e.title).Some? ==> AllVisited(rule, owner, st, st', init + [Visit(e, out)]))
  {
    var jobs := init + [Visit(e, out)];
    var st' := VisitEntry(rule, Row(mid.rows, e.key), mid, e, out);
    assert jobs[|init|] == Visit(e, out);
    forall k | k != e.key ensures SameFor(owner, k, mid, st') {
      VisitTouchesOwn(rule, owner, Row(mid.rows, e.key), mid, e, out, k);
    }
    if rule(e.key, e.title).Some? {
      VisitOutcome(rule, owner, mid, e, out);
      CarryBefore(rule, owner, st, mid, st', e, out);
      forall i | 0 <= i < |init| && init[i].Visit?
        ensures Visited(rule, owner, st, st', init[i].entry, init[i].out)
      {
        assert jobs[i] == init[i];
        SeenHas(init, i);
        CarryAfter(rule, owner, st, mid, st', init[i].entry, init[i].out);
      }
    }
  }

  // ---- mirror delete ----------------------------------------------------------

  // The items in `gone` have lost their rows and, unless stuck, their files.
  ghost predicate Deleted(owner: string -> Key, st: St, st': St, gone: set<Key>, stuck: set<Key>) {
    && st'.rows == st.rows - gone
    && FilesDeleted(owner, st.rows, st.store, st'.store, gone, stuck)
    && st'.counts == st.counts.(deleted := st.counts.deleted + |gone|, errors := st.counts.errors + |gone * stuck|)
  }

  ghost predicate FilesDeleted(owner: string -> Key, rows: map<Key, Item>, s: Store, s': Store, gone: set<Key>,
                               stuck: set<Key>) {
    && (forall p :: p in s' <==> p in s && !LosesFile(owner, rows, gone, stuck, p))
    && (forall p :: p in s' ==> s'[p] == s[p])
  }

  predicate LosesFile(owner: string -> Key, rows: map<Key, Item>, gone: set<Key>, stuck: set<Key>, p: string) {
    owner(p) in gone && owner(p) !in stuck && owner(p) in rows && rows[owner(p)].rel == p
  }

  lemma {:induction false} ElemsAt(order: seq<Key>, k: Key) returns (i: nat)
    requires k in Elems(order)
    ensures i < |order| && order[i] == k
  {
    if order[|order| - 1] == k {
      i := |order| - 1;
    } else {
      i := ElemsAt(order[..|order| - 1], k);
    }
  }

  lemma FilesOneMore(owner: string -> Key, rows: map<Key, Item>, s: Store, s': Store, stuck: set<Key>, gone: set<Key>,
                     k: Key)
    requires RowsOwned(owner, rows) && FilesDeleted(owner, rows, s, s', gone, stuck) && k in rows
    ensures FilesDeleted(owner, rows, s, if k in stuck then s' else s' - {rows[k].rel}, gone + {k}, stuck)
  {
  }

  lemma CountOneMore(stuck: set<Key>, gone: set<Key>, k: Key)
    requires k !in gone
    ensures |gone + {k}| == |gone| + 1 && |(gone + {k}) * stuck| == |gone * stuck| + if k in stuck then 1 else 0
  {
    assert (gone + {k}) * stuck == gone * stuck + if k in stuck then {k} else {};
  }

  lemma DeleteOneMore(owner: string -> Key, st: St, mid: St, seen: set<Key>, stuck: set<Key>, gone: set<Key>, k: Key)
    requires RowsOwned(owner, st.rows) && Deleted(owner, st, mid, gone, stuck) && k !in gone && k in st.rows
             && k !in seen
    ensures Deleted(owner, st, DeleteOne(mid, seen, stuck, k), gone + {k}, stuck)
  {
    FilesOneMore(owner, st.rows, st.store, mid.store, stuck, gone, k);
    CountOneMore(stuck, gone, k);
    assert st.rows - (gone + {k}) == mid.rows - {k};
  }

  lemma UnseenSnoc(elems: set<Key>, k: Key, seen: set<Key>)
    ensures (elems + {k}) - seen == if k in seen then elems - seen else (elems - seen) + {k}
  {
  }

  lemma DeletedNone(owner: string -> Key, st: St, stuck: set<Key>)
    ensures Deleted(owner, st, st, {}, stuck)
  {
    assert {} * stuck == {};
  }

  /** The loop deletes exactly the unlisted rows, whatever the order. */
  lemma {:induction false} DeleteOutcome(owner: string -> Key, st: St, seen: set<Key>, stuck: set<Key>, order: seq<Key>)
    requires RowsOwned(owner, st.rows) && Elems(order) <= st.rows.Keys
    requires forall i, j :: 0 <= i < j < |order| ==> order[i] != order[j]
    ensures Deleted(owner, st, MirrorDelete(st, seen, stuck, order), Elems(order) - seen, stuck)
  {
    if order == [] {
      DeletedNone(owner, st, stuck);
      assert {} - seen == {};
    } else {
      var init, k := order[..|order| - 1], order[|order| - 1];
      FreshLast(order);
      DeleteOutcome(owner, st, seen, stuck, init);
      UnseenSnoc(Elems(init), k, seen);
      if k !in seen {
        DeleteOneMore(owner, st, MirrorDelete(st, seen, stuck, init), seen, stuck, Elems(init) - seen, k);
      }
    }
  }

  lemma FreshLast(order: seq<Key>)
    requires order != [] && forall i, j :: 0 <= i < j < |order| ==> order[i] != order[j]
    ensures order[|order| - 1] !in Elems(order[..|order| - 1])
  {
    var init, k := order[..|order| - 1], order[|order| - 1];
    assert forall i :: 0 <= i < |init| ==> order[i] == init[i];
    if k in Elems(init) { var i := ElemsAt(init, k); }
  }
}
