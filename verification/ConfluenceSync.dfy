/**
 `sync_listener` as the program runs it: nested loops over pages and attachments
 that rewrite the store, the item rows, the seen set and the counters in place.
 */
module ConfluenceSync {
  import opened Prelude
  import opened ConfluencePaths
  import opened ConfluenceMirror

  // A listed page, how its calls turn out, and its attachments (None when listing them fails).
  datatype PageListing = PageListing(page: Entry, out: Outcome, attachments: Option<seq<(Entry, Outcome)>>)

  function Visits(atts: seq<(Entry, Outcome)>): seq<Job> {
    seq(|atts|, i requires 0 <= i < |atts| => Visit(atts[i].0, atts[i].1))
  }

  function PageJobs(pages: bool, attachments: bool, p: PageListing): seq<Job> {
    (if pages then [Visit(p.page, p.out)] else [])
    + if !attachments then []
      else if p.attachments.None? then [ListFailed] else Visits(p.attachments.value)
  }

  // The jobs of a listing, in the order the loops reach them.
  function Jobs(pages: bool, attachments: bool, listing: seq<PageListing>): seq<Job> {
    if listing == [] then [] else PageJobs(pages, attachments, listing[0]) + Jobs(pages, attachments, listing[1..])
  }

  lemma {:induction false} ProcessConcat(rule: PathRule, existing: set<Key>, st: St, a: seq<Job>, b: seq<Job>)
    ensures Process(rule, existing, st, a + b) == Process(rule, existing, Process(rule, existing, st, a), b)
  {
    if b == [] {
      assert a + b == a;
    } else {
      var init := b[..|b| - 1];
      assert (a + b)[..|a + b| - 1] == a + init;
      ProcessConcat(rule, existing, st, a, init);
    }
  }

  lemma {:induction false} RaisedStays(rule: PathRule, existing: set<Key>, st: St, jobs: seq<Job>)
    requires st.raised
    ensures Process(rule, existing, st, jobs) == st
  {
    if jobs != [] {
      RaisedStays(rule, existing, st, jobs[..|jobs| - 1]);
    }
  }

  class Mirror {
    var store: Store
    var items: map<Key, Item>
    var counts: Counts

    ghost function Now(raised: bool): St
      reads this
    {
      St(store, items, counts, raised)
    }

    constructor ()
      ensures items == map[] && store == map[]
    {
      store, items, counts := map[], map[], ZERO;
    }

    /** The body of the page loop and of the attachment loop, for one entry. */
    method Reconcile(rule: PathRule, existing: set<Key>, e: Entry, out: Outcome) returns (raised: bool)
      modifies this
      ensures Now(raised) == RunJob(rule, existing, old(Now(false)), Visit(e, out))
    {
      var item := if e.key in existing && e.key in items then Some(items[e.key]) else None;
      var path := rule(e.key, e.title);
      if path.None? { return true; }
      var rel := path.value;
      raised := false;
      if item.Some? && item.value.version == e.version && item.value.rel == rel {
        counts := counts.(upToDate := counts.upToDate + 1);
        return;
      }
      if out.fetch.None? {
        counts := counts.(errors := counts.errors + 1);
        return;
      }
      if item.Some? && item.value.rel != rel {
        SafeDelete(item.value.rel, out.dropOk);
      }
      match out.write
      case Failed(left) =>
        store := Put(store, rel, left);
        counts := counts.(errors := counts.errors + 1);
      case Written =>
        store := store[rel := out.fetch.value];
        items := items[e.key := Item(rel, e.version, e.title)];
        if e.key.kind.Page? {
          counts := counts.(pagesWritten := counts.pagesWritten + 1);
        } else {
          counts := counts.(attachmentsWritten := counts.attachmentsWritten + 1);
        }
    }

    /** `_safe_delete`: a missing file is no error, any other failure is one. */
    method SafeDelete(rel: string, ok: bool)
      modifies this
      ensures store == (if ok then old(store) - {rel} else old(store)) && items == old(items)
      ensures counts == if ok then old(counts) else old(counts).(errors := old(counts).errors + 1)
    {
      if ok {
        store := store - {rel};
      } else {
        counts := counts.(errors := counts.errors + 1);
      }
    }

    // The attachment loop of one page.
    method VisitAttachments(rule: PathRule, existing: set<Key>, atts: seq<(Entry, Outcome)>)
        returns (raised: bool, seen: set<Key>)
      modifies this
      ensures Now(raised) == Process(rule, existing, old(Now(false)), Visits(atts))
      ensures !raised ==> seen == Seen(Visits(atts))
    {
      seen, raised := {}, false;
      ghost var st0, jobs := Now(false), Visits(atts);
      for j := 0 to |atts|
        invariant !raised && Now(false) == Process(rule, existing, st0, jobs[..j]) && seen == Seen(jobs[..j])
      {
        var (e, out) := atts[j];
        seen := seen + {e.key};
        raised := Reconcile(rule, existing, e, out);
        StepDone(rule, existing, st0, jobs[..j], jobs[j]);
        assert jobs[..j + 1] == jobs[..j] + [jobs[j]];
        if raised {
          Aborted(rule, existing, st0, jobs[..j + 1], jobs);
          return;
        }
      }
      assert jobs[..|atts|] == jobs;
    }

    // One turn of the page loop.
    method VisitPage(rule: PathRule, existing: set<Key>, pages: bool, attachments: bool, p: PageListing)
        returns (raised: bool, seen: set<Key>)
      modifies this
      ensures Now(raised) == Process(rule, existing, old(Now(false)), PageJobs(pages, attachments, p))
      ensures !raised ==> seen == Seen(PageJobs(pages, attachments, p))
    {
      seen, raised := {}, false;
      ghost var st0 := Now(false);
      ghost var first := if pages then [Visit(p.page, p.out)] else [];
      ghost var second := if !attachments then [] else if p.attachments.None? then [ListFailed]
          else Visits(p.attachments.value);
      ProcessConcat(rule, existing, st0, first, second);
      SeenConcat(first, second);
      assert [] + [Visit(p.page, p.out)] == [Visit(p.page, p.out)];
      assert [] + [ListFailed] == [ListFailed];
      if pages {
        seen := seen + {p.page.key};
        raised := Reconcile(rule, existing, p.page, p.out);
        StepDone(rule, existing, st0, [], Visit(p.page, p.out));
        if raised {
          RaisedStays(rule, existing, Now(true), second);
          return;
        }
      }
      ghost var mid := Now(false);
      if attachments {
        if p.attachments.None? {
          counts := counts.(errors := counts.errors + 1);
          StepDone(rule, existing, mid, [], ListFailed);
        } else {
          var more;
          raised, more := VisitAttachments(rule, existing, p.attachments.value);
          seen := seen + more;
        }
      }
    }

    // The page loop.
    method VisitPages(rule: PathRule, existing: set<Key>, pages: bool, attachments: bool, listing: seq<PageListing>)
      returns (raised: bool, seen: set<Key>)
      modifies this
      ensures Now(raised) == Process(rule, existing, old(Now(false)), Jobs(pages, attachments, listing))
      ensures !raised ==> seen == Seen(Jobs(pages, attachments, listing))
    {
      seen, raised := {}, false;
      ghost var st0 := Now(false);
      for i := 0 to |listing|
        invariant !raised && Now(false) == Process(rule, existing, st0, Jobs(pages, attachments, listing[..i]))
        invariant seen == Seen(Jobs(pages, attachments, listing[..i]))
      {
        var more;
        raised, more := VisitPage(rule, existing, pages, attachments, listing[i]);
        seen := seen + more;
        OnePage(rule, existing, st0, pages, attachments, listing, i);
        if raised { return; }
      }
      assert listing[..|listing|] == listing;
    }

    // The mirror delete loop.
    method DeleteUnseen(seen: set<Key>, order: seq<Key>, stuck: set<Key>)
      modifies this
      ensures Now(false) == MirrorDelete(old(Now(false)), seen, stuck, order)
    {
      ghost var st0 := Now(false);
      for i := 0 to |order|
        invariant Now(false) == MirrorDelete(st0, seen, stuck, order[..i])
      {
        var key := order[i];
        assert order[..i + 1][..i] == order[..i];
        if key !in seen && key in items {
          SafeDelete(items[key].rel, key !in stuck);
          items := items - {key};
          counts := counts.(deleted := counts.deleted + 1);
        }
      }
      assert order[..|order|] == order;
    }

    /** `sync_listener`: the loops compute `Sync` of the flattened listing; when the
        path check raises, or the session fails to write the rows at the end, the store
        keeps what it has, and the rows are rolled back or committed. */
    method SyncListener(rule: PathRule, pages: bool, attachments: bool, listing: seq<PageListing>,
                        order: seq<Key>, stuck: set<Key>, close: Close) returns (result: Option<Counts>)
      requires Lists(order, items)
      modifies this
      ensures Run(store, items, result) ==
              Sync(rule, old(store), old(items), Jobs(pages, attachments, listing), order, stuck, close)
    {
      counts := ZERO;
      var saved := items;
      var raised, seen := VisitPages(rule, items.Keys, pages, attachments, listing);
      if raised {
        if !close.Commits? { items := saved; }
        return None;
      }
      DeleteUnseen(seen, order, stuck);
      if close.Fails? {
        items := saved;
        return None;
      }
      result := Some(counts);
    }
  }

  lemma StepDone(rule: PathRule, existing: set<Key>, st: St, done: seq<Job>, job: Job)
    ensures Process(rule, existing, st, done + [job]) == RunJob(rule, existing, Process(rule, existing, st, done), job)
    ensures Seen(done + [job]) == Seen(done) + if job.Visit? then {job.entry.key} else {}
  {
    assert (done + [job])[..|done|] == done;
  }

  lemma Aborted(rule: PathRule, existing: set<Key>, st: St, done: seq<Job>, all: seq<Job>)
    requires done <= all && Process(rule, existing, st, done).raised
    ensures Process(rule, existing, st, all) == Process(rule, existing, st, done)
  {
    assert all == done + all[|done|..];
    ProcessConcat(rule, existing, st, done, all[|done|..]);
    RaisedStays(rule, existing, Process(rule, existing, st, done), all[|done|..]);
  }

  lemma {:induction false} SeenConcat(a: seq<Job>, b: seq<Job>)
    ensures Seen(a + b) == Seen(a) + Seen(b)
  {
    if b == [] {
      assert a + b == a;
    } else {
      assert (a + b)[..|a + b| - 1] == a + b[..|b| - 1];
      SeenConcat(a, b[..|b| - 1]);
    }
  }

  lemma {:induction false} JobsConcat(pages: bool, attachments: bool, a: seq<PageListing>, b: seq<PageListing>)
    ensures Jobs(pages, attachments, a + b) == Jobs(pages, attachments, a) + Jobs(pages, attachments, b)
  {
    if a == [] {
      assert a + b == b;
    } else {
      assert (a + b)[1..] == a[1..] + b;
      JobsConcat(pages, attachments, a[1..], b);
    }
  }

  lemma JobsSnoc(pages: bool, attachments: bool, listing: seq<PageListing>, i: nat)
    requires i < |listing|
    ensures var sofar := Jobs(pages, attachments, listing[..i]) + PageJobs(pages, attachments, listing[i]);
            Jobs(pages, attachments, listing[..i + 1]) == sofar && sofar <= Jobs(pages, attachments, listing)
  {
    assert listing[..i + 1] == listing[..i] + [listing[i]];
    JobsConcat(pages, attachments, listing[..i], [listing[i]]);
    assert Jobs(pages, attachments, [listing[i]]) == PageJobs(pages, attachments, listing[i]) by {
      assert [listing[i]][1..] == [];
    }
    assert listing == listing[..i + 1] + listing[i + 1..];
    JobsConcat(pages, attachments, listing[..i + 1], listing[i + 1..]);
  }

  // One more page, and what it means for the whole listing when it raises.
  lemma OnePage(rule: PathRule, existing: set<Key>, st: St, pages: bool, attachments: bool, listing: seq<PageListing>,
                i: nat)
    requires i < |listing|
    ensures var page := PageJobs(pages, attachments, listing[i]);
            var mid := Process(rule, existing, st, Jobs(pages, attachments, listing[..i]));
            var st' := Process(rule, existing, mid, page);
            && Process(rule, existing, st, Jobs(pages, attachments, listing[..i + 1])) == st'
            && Seen(Jobs(pages, attachments, listing[..i + 1])) ==
                Seen(Jobs(pages, attachments, listing[..i])) + Seen(page)
            && (st'.raised ==> Process(rule, existing, st, Jobs(pages, attachments, listing)) == st')
  {
    var sofar, page := Jobs(pages, attachments, listing[..i]), PageJobs(pages, attachments, listing[i]);
    JobsSnoc(pages, attachments, listing, i);
    ProcessConcat(rule, existing, st, sofar, page);
    SeenConcat(sofar, page);
    if Process(rule, existing, st, sofar + page).raised {
      Aborted(rule, existing, st, sofar + page, Jobs(pages, attachments, listing));
    }
  }
}
