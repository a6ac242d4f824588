/** What goes wrong when a call outlives its lease: two runs of the protocol on an export of two records,
    with a second call on the operation. */
module ProtocolOverrun {
  import opened RawItems
  import opened ImportRun
  import opened Protocol
  import opened ProtocolSafety
  import opened ProtocolInTime
  import opened ProtocolResults

  lemma Extend(feeds: Feeds, w0: World, es: seq<Event>, e: Event)
    requires Legal(feeds, w0, es) && Enabled(feeds, Exec(feeds, w0, es), e)
    ensures Legal(feeds, w0, es + [e]) && Exec(feeds, w0, es + [e]) == Apply(feeds, Exec(feeds, w0, es), e)
  {
    hide Enabled, Apply;
    assert (es + [e])[..|es + [e]| - 1] == es;
  }

  /** Operation 0 is the only one, and still importing. */
  predicate Alone(w: World) {
    w.db.ops.Keys == {0} && w.db.ops[0].state in {Published, CentralImporting}
  }

  /** Call `k` on operation 0, with the object it read, and its run row. */
  predicate Calls(w: World, k: WorkerId, pc: Pc, size: nat, offset: nat) {
    && RunFound(w, k) && w.workers[k].op == 0 && w.workers[k].pc == pc && w.workers[k].size == size
    && Mine(w, k).offset == offset && Mine(w, k).priority == 0 && Mine(w, k).counts == ZERO
  }

  /** The row after `Adopt`, or after a batch of another call. */
  predicate Claimable(w: World) {
    && Alone(w) && Available(w.db.ops[0], w.now, true) && RunPlaced(w.db, 0, w.db.ops[0])
    && w.db.ops[0].priority == 0 && w.db.ops[0].counts == ZERO
  }

  lemma ClaimEnabled(feeds: Feeds, w: World, k: WorkerId)
    requires Claimable(w) && k !in w.workers
    ensures Enabled(feeds, w, Claim(k, 0, true, 60))
    ensures Apply(feeds, w, Claim(k, 0, true, 60)) == AfterClaim(w, k, 0, w.now + 60)
  {
    assert IsNext(w.db.ops, w.now, true, 0);
  }

  lemma TakeClaim(feeds: Feeds, w0: World, es: seq<Event>, k: WorkerId)
    requires Legal(feeds, w0, es) && Claimable(Exec(feeds, w0, es)) && k !in Exec(feeds, w0, es).workers
    ensures var w, e := Exec(feeds, w0, es), Claim(k, 0, true, 60);
            Legal(feeds, w0, es + [e]) && Exec(feeds, w0, es + [e]) == AfterClaim(w, k, 0, w.now + 60)
  {
    hide Apply, Enabled, Claimable;
    ClaimEnabled(feeds, Exec(feeds, w0, es), k);
    Extend(feeds, w0, es, Claim(k, 0, true, 60));
  }

  lemma TakeImport(feeds: Feeds, w: World, k: WorkerId)
    requires At(w, k) && w.workers[k].op == 0 && w.workers[k].size == 1 && w.workers[k].pc.Begin? && Alone(w)
    requires Mine(w, k) == w.db.ops[0] && RunPlaced(w.db, 0, Mine(w, k))
    requires Mine(w, k).priority == 0 && Mine(w, k).counts == ZERO
    ensures Enabled(feeds, w, StartImport(k))
    ensures var w' := Apply(feeds, w, StartImport(k));
            && Alone(w') && Calls(w', k, Fetching, 1, w.db.ops[0].offset) && w'.now == w.now
            && w'.db.ops[0] == Mine(w', k) == Importing(Mine(w, k), |RunsOf(w.db, 0)|)
            && w'.workers == w.workers[k := w'.workers[k]]
            && (Mine(w, k).run.Some? ==> RunsOf(w'.db, 0) == RunsOf(w.db, 0))
            && (Mine(w, k).run.None? ==> RunsOf(w'.db, 0) == RunsOf(w.db, 0) + [Run(Running, ZERO, 0, 0, None)])
  {
    hide Merge;
    MergeSelf(Mine(w, k), Importing(Mine(w, k), |RunsOf(w.db, 0)|));
  }

  /** Claim and start of the import by a new call. */
  lemma Take(feeds: Feeds, w0: World, es: seq<Event>, k: WorkerId) returns (es': seq<Event>)
    requires Legal(feeds, w0, es) && Claimable(Exec(feeds, w0, es)) && k !in Exec(feeds, w0, es).workers
    ensures Legal(feeds, w0, es')
    ensures var w, w' := Exec(feeds, w0, es), Exec(feeds, w0, es');
            && Alone(w') && Calls(w', k, Fetching, 1, w.db.ops[0].offset) && w'.now == w.now
            && w'.db.ops[0] == Mine(w', k) == Importing(Claimed(w.db.ops[0], k, w.now + 60), |RunsOf(w.db, 0)|)
            && w'.workers == w.workers[k := w'.workers[k]]
            && (w.db.ops[0].run.Some? ==> RunsOf(w'.db, 0) == RunsOf(w.db, 0))
            && (w.db.ops[0].run.None? ==> RunsOf(w'.db, 0) == RunsOf(w.db, 0) + [Run(Running, ZERO, 0, 0, None)])
  {
    hide Enabled, Apply, Legal, Exec, Available;
    var w, claim := Exec(feeds, w0, es), Claim(k, 0, true, 60);
    TakeClaim(feeds, w0, es, k);
    TakeImport(feeds, AfterClaim(w, k, 0, w.now + 60), k);
    Extend(feeds, w0, es + [claim], StartImport(k));
    es' := es + [claim] + [StartImport(k)];
  }

  /** A call reads the run and scans its first batch. */
  lemma Load(feeds: Feeds, w0: World, es: seq<Event>, k: WorkerId, size: nat) returns (es': seq<Event>)
    requires Legal(feeds, w0, es) && 1 <= size <= 1000
    requires var w := Exec(feeds, w0, es); 0 in w.db.ops && Calls(w, k, Fetching, 1, 0) && 0 < |feeds(0)|
    ensures Legal(feeds, w0, es')
    ensures var w, w' := Exec(feeds, w0, es), Exec(feeds, w0, es');
            && k in w.workers && k in w'.workers && Scanning(w', k, size, RunAt(w, k).tally)
            && Mine(w', k) == Mine(w, k)
            && w'.db.ops == w.db.ops && w'.now == w.now && w'.workers == w.workers[k := w'.workers[k]]
            && |RunsOf(w'.db, 0)| == |RunsOf(w.db, 0)|
            && (forall i :: 0 <= i < |RunsOf(w.db, 0)| ==> RunsOf(w'.db, 0)[i].tally == RunsOf(w.db, 0)[i].tally)
  {
    hide Changed, Scanned, Judge, Available;
    Extend(feeds, w0, es, LoadRun(k, size));
    Extend(feeds, w0, es + [LoadRun(k, size)], ScanBatch(k));
    es' := es + [LoadRun(k, size)] + [ScanBatch(k)];
  }

  /** Call `k` has scanned the first batch, and its totals so far are `tally`. */
  predicate Scanning(w: World, k: WorkerId, size: nat, tally: Tally) {
    && k in w.workers && w.workers[k].pc.Compared?
    && Calls(w, k, w.workers[k].pc, size, 0)
    && w.workers[k].pc.locals.offset == 0 && w.workers[k].pc.locals.tally == tally
  }

  /** Call `k` committed its first batch, which ends at `upto`. */
  predicate CommitsFirst(w: World, w': World, k: WorkerId, fails: RawRecord -> bool, upto: nat)
    requires RunFound(w, k) && w.workers[k].pc.Compared?
  {
    var pc := w.workers[k].pc;
    var t := BatchResult(w.db.store, pc.locals, pc.processable, pc.skipped, fails).1;
    && w'.db.ops == w.db.ops[w.workers[k].op := Merge(OpAt(w, k), Mine(w, k), Progressed(Mine(w, k), upto, t))]
    && k in w'.workers && w'.workers == w.workers[k := w'.workers[k]]
    && |RunsOf(w'.db, w.workers[k].op)| == |RunsOf(w.db, w.workers[k].op)|
    && RunsOf(w'.db, w.workers[k].op)[Mine(w, k).run.value].tally == t
    && w'.now == w.now
  }

  function OpAt(w: World, k: WorkerId): Operation
    requires At(w, k)
  {
    w.db.ops[w.workers[k].op]
  }

  lemma Commits(feeds: Feeds, w0: World, es: seq<Event>, k: WorkerId, fails: RawRecord -> bool, size: nat, tally: Tally)
    requires Legal(feeds, w0, es) && Scanning(Exec(feeds, w0, es), k, size, tally) && 1 <= size <= |feeds(0)|
    ensures Legal(feeds, w0, es + [PersistBatch(k, fails)])
    ensures CommitsFirst(Exec(feeds, w0, es), Exec(feeds, w0, es + [PersistBatch(k, fails)]), k, fails, size)
  {
    hide BatchResult, Merge, RowsOf;
    Extend(feeds, w0, es, PersistBatch(k, fails));
  }

  /** Nobody works on the operation that was just adopted. */
  predicate JustAdopted(w: World) {
    Claimable(w) && w.workers == map[] && RunsOf(w.db, 0) == [] && w.db.ops[0].run.None? && w.db.ops[0].offset == 0
  }

  lemma Adopted(feeds: Feeds, w0: World)
    requires Initial(w0)
    ensures Legal(feeds, w0, [Adopt(0, 0, 2, "c")]) && JustAdopted(Exec(feeds, w0, [Adopt(0, 0, 2, "c")]))
  {
    Extend(feeds, w0, [], Adopt(0, 0, 2, "c"));
    assert [] + [Adopt(0, 0, 2, "c")] == [Adopt(0, 0, 2, "c")];
  }

  /** Call 0 has scanned one record, and the lease of its claim is over. */
  predicate Overdue(w: World) {
    && Alone(w) && w.workers.Keys == {0} && Scanning(w, 0, 1, ZERO) && w.db.ops[0] == Mine(w, 0)
    && Mine(w, 0).run == Some(0) && Mine(w, 0).lease == Some(w.now)
    && |RunsOf(w.db, 0)| == 1 && RunsOf(w.db, 0)[0].tally == ZERO
  }

  /** The start of both runs: an operation with two records is adopted, call 0 scans a first batch of one
      record, and its lease runs out. */
  lemma Stale(feeds: Feeds, w0: World) returns (es: seq<Event>)
    requires Initial(w0) && |feeds(0)| == 2
    ensures Legal(feeds, w0, es) && Overdue(Exec(feeds, w0, es))
  {
    hide Initial, Enabled, Apply, Available;
    Adopted(feeds, w0);
    var es1 := Take(feeds, w0, [Adopt(0, 0, 2, "c")], 0);
    var es2 := Load(feeds, w0, es1, 0, 1);
    es := Wait(feeds, w0, es2, 60);
  }

  lemma Wait(feeds: Feeds, w0: World, es: seq<Event>, seconds: nat) returns (es': seq<Event>)
    requires Legal(feeds, w0, es)
    ensures Legal(feeds, w0, es')
    ensures var w := Exec(feeds, w0, es); Exec(feeds, w0, es') == w.(now := w.now + seconds)
  {
    var e := Tick(Exec(feeds, w0, es).now + seconds);
    Extend(feeds, w0, es, e);
    es' := es + [e];
  }

  /** A second call takes the operation over; the first one is still at its batch. */
  predicate TakenOver(w: World) {
    && Alone(w) && w.workers.Keys == {0, 1} && Scanning(w, 0, 1, ZERO) && Mine(w, 0).run == Some(0)
    && Calls(w, 1, Fetching, 1, 0) && Mine(w, 1).run == Some(0) && w.db.ops[0] == Mine(w, 1)
    && |RunsOf(w.db, 0)| == 1 && RunsOf(w.db, 0)[0].tally == ZERO
  }

  lemma TakeOver(feeds: Feeds, w0: World) returns (es: seq<Event>)
    requires Initial(w0) && |feeds(0)| == 2
    ensures Legal(feeds, w0, es) && TakenOver(Exec(feeds, w0, es))
  {
    hide Initial, Enabled, Apply;
    var es1 := Stale(feeds, w0);
    es := Take(feeds, w0, es1, 1);
  }

  /** Main result. Without `InTime` the offset can go back: the second call imports both records, then the
      first one commits its batch. */
  lemma OffsetGoesBack(feeds: Feeds, w0: World, fails: RawRecord -> bool) returns (es: seq<Event>, n: nat)
    requires Initial(w0) && |feeds(0)| == 2
    ensures Legal(feeds, w0, es) && n <= |es| && Legal(feeds, w0, es[..n])
    ensures var w, w' := Exec(feeds, w0, es[..n]), Exec(feeds, w0, es);
            0 in w.db.ops && 0 in w'.db.ops && w.db.ops[0].offset == 2 && w'.db.ops[0].offset == 1
  {
    hide Initial, Enabled, Apply, BatchResult;
    var es1 := TakeOver(feeds, w0);
    var es2 := Load(feeds, w0, es1, 1, 2);
    Commits(feeds, w0, es2, 1, fails, 2, ZERO);
    var es3 := es2 + [PersistBatch(1, fails)];
    Commits(feeds, w0, es3, 0, fails, 1, ZERO);
    es, n := es3 + [PersistBatch(0, fails)], |es3|;
    assert es[..n] == es3;
  }

  function Total(t: Tally): nat {
    t.same + t.stored + t.failed
  }

  /** A batch adds its records to the totals of its call. */
  lemma BatchTotals(feeds: Feeds, w: World, k: WorkerId, fails: RawRecord -> bool)
    requires k in w.workers && w.workers[k].pc.Compared? && ScanFull(feeds, w.workers[k])
    ensures var pc := w.workers[k].pc;
            var t := BatchResult(w.db.store, pc.locals, pc.processable, pc.skipped, fails).1;
            && Total(t) + pc.locals.offset == Total(pc.locals.tally) + NextUpto(feeds(w.workers[k].op), w.workers[k])
            && MergeCounts(pc.locals.tally, ZERO, t) == t
  {
    hide WriteAll, Keep, NoteSources;
    var pc := w.workers[k].pc;
    var noted := Scanned(w.db.store, pc.processable);
    WriteAllAccounts(Judge(noted), Persisted(noted.rows, ZERO), pc.processable, fails);
  }

  /** The first call has committed its record, and the second one starts from the offset of its claim. */
  predicate Behind(w: World, t: Tally) {
    && w.db.ops.Keys == {0} && w.db.ops[0].counts == t && Total(t) == 1
    && Calls(w, 1, Fetching, 1, 0) && RunAt(w, 1).tally == t
  }

  lemma BehindAfter(feeds: Feeds, w: World, w': World, fails: RawRecord -> bool)
    requires TakenOver(w) && CommitsFirst(w, w', 0, fails, 1) && ScanFull(feeds, w.workers[0]) && |feeds(0)| == 2
    ensures |RunsOf(w'.db, 0)| == 1 && Behind(w', RunsOf(w'.db, 0)[0].tally)
  {
    hide BatchResult;
    BatchTotals(feeds, w, 0, fails);
  }

  lemma FirstCommits(feeds: Feeds, w0: World, fails: RawRecord -> bool) returns (es: seq<Event>, t: Tally)
    requires Initial(w0) && |feeds(0)| == 2
    ensures Legal(feeds, w0, es) && Behind(Exec(feeds, w0, es), t)
  {
    hide Initial, Legal, Exec, CommitsFirst, Behind, Calls, ScanFull;
    var es1 := TakeOver(feeds, w0);
    RunKeepsScans(feeds, w0, es1);
    Commits(feeds, w0, es1, 0, fails, 1, ZERO);
    es := es1 + [PersistBatch(0, fails)];
    BehindAfter(feeds, Exec(feeds, w0, es1), Exec(feeds, w0, es), fails);
    t := RunsOf(Exec(feeds, w0, es).db, 0)[0].tally;
  }

  lemma ThreeOfTwo(feeds: Feeds, w: World, w': World, fails: RawRecord -> bool, t: Tally)
    requires 0 in w.db.ops && w.db.ops[0].counts == t && Total(t) == 1 && Scanning(w, 1, 2, t)
    requires CommitsFirst(w, w', 1, fails, 2) && ScanFull(feeds, w.workers[1]) && |feeds(0)| == 2
    ensures 0 in w'.db.ops && w'.db.ops[0].offset == 2 && Total(w'.db.ops[0].counts) == 3
  {
    hide BatchResult;
    BatchTotals(feeds, w, 1, fails);
  }

  /** Main result. Without `InTime` records can be counted twice: the first call commits its record between
      the second one's claim and its reading of the run, which then starts from offset 0 with one record
      counted. Three records are counted for an export of two. */
  lemma RecordsCountedTwice(feeds: Feeds, w0: World, fails: RawRecord -> bool) returns (es: seq<Event>)
    requires Initial(w0) && |feeds(0)| == 2
    ensures Legal(feeds, w0, es)
    ensures var w := Exec(feeds, w0, es); 0 in w.db.ops && w.db.ops[0].offset == 2 && Total(w.db.ops[0].counts) == 3
  {
    hide Initial, Legal, Exec, CommitsFirst, ScanFull;
    var es1, t := FirstCommits(feeds, w0, fails);
    var es2 := Load(feeds, w0, es1, 1, 2);
    RunKeepsScans(feeds, w0, es2);
    Commits(feeds, w0, es2, 1, fails, 2, t);
    es := es2 + [PersistBatch(1, fails)];
    ThreeOfTwo(feeds, Exec(feeds, w0, es2), Exec(feeds, w0, es), fails, t);
  }
}
