/**
 The shared status record of the indexer under its lock, with any number of
 threads calling `reindex` and `get_index_status`.  Each locked section is one
 step.  A second caller of `reindex` asks for the status while it still holds the
 lock, which is not reentrant, so from then on the lock is never free again.
 */
module IndexStatus {
  import opened Prelude
  import opened DocsIndex

  datatype Stats = Stats(running: bool, totalFiles: nat, processed: nat, indexed: nat, skipped: nat, errors: nat)

  // Where a thread is inside `reindex`: before the listing, in the scan loop with
  // this many files still to do, or out of it again.
  datatype Stage = Listing | Scanning(left: nat) | Finished

  // `stuck` names the thread that holds the lock for good.
  datatype World = World(stats: Stats, threads: map<nat, Stage>, stuck: Option<nat>, snapshots: seq<Stats>)

  datatype Event =
    | Call(thread: nat)                      // a new thread enters `reindex`
    | Listed(thread: nat, files: nat)        // it has listed its files
    | FileDone(thread: nat, outcome: Outcome)
    | Leave(thread: nat)                     // the `finally` block: normal end or an exception
    | Snapshot                               // any thread reads the status

  const START := World(Stats(false, 0, 0, 0, 0, 0), map[], None, [])

  function Count(s: Stats, o: Outcome): Stats {
    var s1 := s.(processed := s.processed + 1);
    match o
    case DidIndex => s1.(indexed := s1.indexed + 1)
    case DidSkip => s1.(skipped := s1.skipped + 1)
    case DidFail => s1.(errors := s1.errors + 1)
  }

  function Step(w: World, e: Event): World {
    if w.stuck.Some? then w      // every section needs the lock
    else match e
      case Call(t) =>
        if t in w.threads then w
        else if w.stats.running then w.(stuck := Some(t))
        else w.(stats := Stats(true, 0, 0, 0, 0, 0), threads := w.threads[t := Listing])
      case Listed(t, n) =>
        if t in w.threads && w.threads[t].Listing?
        then w.(stats := w.stats.(totalFiles := n), threads := w.threads[t := Scanning(n)]) else w
      case FileDone(t, o) =>
        if t in w.threads && w.threads[t].Scanning? && w.threads[t].left > 0
        then w.(stats := Count(w.stats, o), threads := w.threads[t := Scanning(w.threads[t].left - 1)]) else w
      case Leave(t) =>
        if t in w.threads && !w.threads[t].Finished?
        then w.(stats := w.stats.(running := false), threads := w.threads[t := Finished]) else w
      case Snapshot => w.(snapshots := w.snapshots + [w.stats])
  }

  function Exec(es: seq<Event>): World {
    if es == [] then START else Step(Exec(es[..|es| - 1]), es[|es| - 1])
  }

  predicate Balanced(s: Stats) {
    s.processed == s.indexed + s.skipped + s.errors && s.processed <= s.totalFiles
  }

  predicate Active(st: Stage) { !st.Finished? }

  // `who` is the one thread inside `reindex`, if there is one.
  ghost predicate Inv(w: World, who: Option<nat>) {
    && Balanced(w.stats)
    && (forall i :: 0 <= i < |w.snapshots| ==> Balanced(w.snapshots[i]))
    && (forall t :: t in w.threads && Some(t) != who ==> w.threads[t].Finished?)
    && w.stats.running == who.Some?
    && (who.Some? ==> who.value in w.threads && Consistent(w.threads[who.value], w.stats))
  }

  predicate Consistent(st: Stage, s: Stats) {
    match st
    case Listing => s.totalFiles == 0
    case Scanning(left) => s.processed + left == s.totalFiles
    case Finished => false
  }

  lemma StepKeepsInv(w: World, e: Event, who: Option<nat>) returns (who': Option<nat>)
    requires Inv(w, who)
    ensures Inv(Step(w, e), who')
  {
    who' := who;
    if w.stuck.None? {
      match e
      case Call(t) =>
        if t !in w.threads && !w.stats.running { who' := Some(t); }
      case Leave(t) =>
        if t in w.threads && !w.threads[t].Finished? { who' := None; }
      case _ =>
    }
  }

  lemma {:induction false} RunInvariant(es: seq<Event>) returns (who: Option<nat>)
    ensures Inv(Exec(es), who)
  {
    if es == [] {
      who := None;
    } else {
      who := RunInvariant(es[..|es| - 1]);
      who := StepKeepsInv(Exec(es[..|es| - 1]), es[|es| - 1], who);
    }
  }

  /** In every run at most one scan is under way, and `running` says whether one is. */
  lemma OneScanAtATime(es: seq<Event>, t: nat, u: nat)
    requires var w := Exec(es);
             t in w.threads && u in w.threads && Active(w.threads[t]) && Active(w.threads[u])
    ensures t == u && Exec(es).stats.running
  {
    var _ := RunInvariant(es);
  }

  /** Every status snapshot ever taken is balanced and never overshoots. */
  lemma SnapshotsBalance(es: seq<Event>, i: nat)
    requires i < |Exec(es).snapshots|
    ensures var s := Exec(es).snapshots[i];
            s.processed == s.indexed + s.skipped + s.errors && s.processed <= s.totalFiles
  {
    var _ := RunInvariant(es);
  }

  /** A scan that has gone through its files has processed all of them, and still
      has when the status says it is over. */
  lemma FullScanCounts(es: seq<Event>, t: nat)
    requires t in Exec(es).threads && Exec(es).threads[t] == Scanning(0) && Exec(es).stuck.None?
    ensures var s := Step(Exec(es), Leave(t)).stats;
            s.processed == s.totalFiles && s.indexed + s.skipped + s.errors == s.totalFiles && !s.running
  {
    var _ := RunInvariant(es);
  }

  // How many files the latest scan has finished with that outcome.
  ghost function Outcomes(es: seq<Event>, o: Outcome): nat {
    if es == [] then 0
    else
      var init, e := es[..|es| - 1], es[|es| - 1];
      var w := Exec(init);
      if w.stuck.Some? then Outcomes(init, o)
      else if e.Call? && e.thread !in w.threads && !w.stats.running then 0
      else if e.FileDone? && e.outcome == o && e.thread in w.threads && w.threads[e.thread].Scanning?
              && w.threads[e.thread].left > 0 then Outcomes(init, o) + 1
      else Outcomes(init, o)
  }

  /** In every run each of the three counters is the number of files that the latest scan
      has finished with its outcome. */
  lemma {:induction false} CountersAreOutcomes(es: seq<Event>)
    ensures var s := Exec(es).stats;
            && s.indexed == Outcomes(es, DidIndex)
            && s.skipped == Outcomes(es, DidSkip)
            && s.errors == Outcomes(es, DidFail)
  {
    if es != [] {
      CountersAreOutcomes(es[..|es| - 1]);
    }
  }

  /** A second caller while a scan runs starts no scan, and no step of any thread,
      reading the status included, ever happens after it. */
  lemma {:induction false} SecondCallerStopsEverything(es: seq<Event>, t: nat, more: seq<Event>)
    requires var w := Exec(es); w.stuck.None? && w.stats.running && t !in w.threads
    ensures Exec(es + [Call(t)] + more) == Exec(es).(stuck := Some(t))
  {
    if more == [] {
      assert es + [Call(t)] + more == es + [Call(t)];
      assert (es + [Call(t)])[..|es|] == es;
    } else {
      var all := es + [Call(t)] + more;
      assert all[..|all| - 1] == es + [Call(t)] + more[..|more| - 1];
      SecondCallerStopsEverything(es, t, more[..|more| - 1]);
    }
  }

  // Event `i` is a call of `reindex` by a new thread while a scan is under way.
  ghost predicate SecondCall(es: seq<Event>, i: nat)
    requires i < |es|
  {
    var w := Exec(es[..i]);
    w.stuck.None? && es[i].Call? && es[i].thread !in w.threads && w.stats.running
  }

  /** The lock is held for good exactly when a new thread has called `reindex` while a
      scan was under way. */
  lemma {:induction false} StuckExactly(es: seq<Event>)
    ensures Exec(es).stuck.Some? <==> exists i: nat :: i < |es| && SecondCall(es, i)
  {
    if es != [] {
      var init, n := es[..|es| - 1], |es| - 1;
      StuckExactly(init);
      assert SecondCall(es, n) <==> Exec(init).stuck.None? && Exec(es).stuck.Some?;
      forall i: nat | i < n ensures SecondCall(es, i) <==> SecondCall(init, i) {
        assert init[..i] == es[..i];
      }
    }
  }
}
