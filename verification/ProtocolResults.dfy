/** The promises of the ingestion protocol, over all its runs. A result that needs every call to finish
    within its lease says so with `InTime`. */
module ProtocolResults {
  import opened RawItems
  import opened ImportRun
  import opened Protocol
  import opened ProtocolSafety
  import opened ProtocolInTime

  // ---------------------------------------------------------------- acknowledged means imported

  /** Every record of the export has a row under its source and external id now, and some committed row there
      carried its content. */
  ghost predicate WholeExportPersisted(w: World, feed: seq<RawRecord>) {
    forall r :: r in feed ==> Key(r.source, r.externalId) in w.db.store.rows && Settled(w.seen, r)
  }

  lemma SettledIsStored(w: World, feed: seq<RawRecord>)
    requires History(w) && SettledUpTo(w.seen, feed, |feed|)
    ensures WholeExportPersisted(w, feed)
  {
    forall r | r in feed
      ensures KeyOf(r) in w.db.store.rows && Settled(w.seen, r)
    {
      var i :| 0 <= i < |feed| && feed[i] == r;
      assert Settled(w.seen, feed[i]);
      var item :| (KeyOf(r), item) in w.seen && SameContent(item, r);
      assert (KeyOf(r), item).0 in w.db.store.rows;
    }
  }

  /** Main result. In every run, with any interleaving of calls, also several on one operation, and with
      failures, crashes, expired leases and retries: an interactive operation that the Gateway was told
      about has its whole export persisted. */
  lemma AcknowledgedMeansPersisted(feeds: Feeds, w0: World, es: seq<Event>, id: OpId)
    requires Initial(w0) && WellFormedFeeds(feeds) && Legal(feeds, w0, es)
    requires id in Exec(feeds, w0, es).acks
    ensures var w := Exec(feeds, w0, es);
            id in w.db.ops && (w.db.ops[id].priority > 0 ==> WholeExportPersisted(w, feeds(id)))
  {
    RunKeepsInv(feeds, w0, es);
    var w := Exec(feeds, w0, es);
    assert OpOk(feeds, w, id);
    if w.db.ops[id].priority > 0 {
      SettledIsStored(w, feeds(id));
    }
  }

  /** `_run_external_records` puts "processing_complete": false into its return value only; the durable
      run details never carry it, so the branch of `process` that would requeue is never taken. */
  lemma RequeueBranchUnreachable(feeds: Feeds, w0: World, es: seq<Event>, k: WorkerId)
    requires Initial(w0) && WellFormedFeeds(feeds) && Legal(feeds, w0, es)
    requires Enabled(feeds, Exec(feeds, w0, es), MarkCommitted(k))
    ensures var w' := Apply(feeds, Exec(feeds, w0, es), MarkCommitted(k));
            k in w'.workers && Mine(w', k).state == Committed
  {
    RunKeepsInv(feeds, w0, es);
    var w := Exec(feeds, w0, es);
    WorkersOwn(feeds, w, k);
    MarkCommittedOk(feeds, w, k);
  }

  /** The check "committed_operation_identity_invalid" never fires. */
  lemma AckIdentityAlwaysValid(feeds: Feeds, w0: World, es: seq<Event>, k: WorkerId)
    requires Initial(w0) && WellFormedFeeds(feeds) && Legal(feeds, w0, es)
    requires var w := Exec(feeds, w0, es); k in w.workers && w.workers[k].pc.Acking?
    ensures Enabled(feeds, Exec(feeds, w0, es), GatewayAck(k))
  {
    RunKeepsInv(feeds, w0, es);
    assert WorkerOk(feeds, Exec(feeds, w0, es), k);
  }

  // ---------------------------------------------------------------- accounting

  /** unchanged + stored + failed = offset, and created + updated = stored + failed. */
  predicate Accounted(t: Tally, offset: nat) {
    t.same + t.stored + t.failed == offset && t.created + t.updated == t.stored + t.failed
  }

  lemma {:induction false} WriteAllAccounts(v: RawRecord -> Verdict, p: Persisted, records: seq<RawRecord>,
                                            fails: RawRecord -> bool)
    ensures var t, t' := p.tally, WriteAll(v, p, records, fails).tally;
            && t'.same + t'.stored + t'.failed == t.same + t.stored + t.failed + |records|
            && t'.created + t'.updated - t.created - t.updated == t'.stored + t'.failed - t.stored - t.failed
  {
    if records != [] {
      WriteAllAccounts(v, p, records[..|records| - 1], fails);
    }
  }

  lemma {:induction false} SkippedPlusKept(v: RawRecord -> Verdict, batch: seq<RawRecord>)
    ensures SkipCount(v, batch) + |Keep(v, batch)| == |batch|
  {
    if batch != [] {
      SkippedPlusKept(v, batch[..|batch| - 1]);
    }
  }

  /** A scan's two halves make up its batch. */
  predicate ScanFull(feeds: Feeds, wk: Worker) {
    wk.pc.Compared? ==>
      wk.pc.locals.offset + wk.pc.skipped + |wk.pc.processable| == NextUpto(feeds(wk.op), wk)
  }

  ghost predicate Scans(feeds: Feeds, w: World) {
    forall k :: k in w.workers ==> ScanFull(feeds, w.workers[k])
  }

  lemma ScanIsFull(feeds: Feeds, w: World, k: WorkerId)
    requires Enabled(feeds, w, ScanBatch(k))
    ensures ScanFull(feeds, Apply(feeds, w, ScanBatch(k)).workers[k])
  {
    var feed, l := feeds(w.workers[k].op), w.workers[k].pc.locals;
    var batch := feed[l.offset..NextUpto(feed, w.workers[k])];
    SkippedPlusKept(Judge(Scanned(w.db.store, batch)), batch);
  }

  lemma OtherPcsNotCompared(feeds: Feeds, w: World, e: Event, k: WorkerId)
    requires Enabled(feeds, w, e) && k in Apply(feeds, w, e).workers && !(e.ScanBatch? && e.worker == k)
    ensures Apply(feeds, w, e).workers[k].pc.Compared? ==>
              k in w.workers && Apply(feeds, w, e).workers[k] == w.workers[k]
  {
    hide Merge, BatchResult, Judge, Scanned, Changed, RowsOf, Clamp, Failed, AfterImport, IsNext;
  }

  lemma {:induction false} RunKeepsScans(feeds: Feeds, w0: World, es: seq<Event>)
    requires Initial(w0) && Legal(feeds, w0, es)
    ensures Scans(feeds, Exec(feeds, w0, es))
  {
    hide Enabled, Apply, ScanFull, Initial;
    if es == [] {
      NoWorkersYet(w0);
    } else {
      var front, e := es[..|es| - 1], es[|es| - 1];
      RunKeepsScans(feeds, w0, front);
      var w, w' := Exec(feeds, w0, front), Exec(feeds, w0, es);
      forall k | k in w'.workers
        ensures ScanFull(feeds, w'.workers[k])
      {
        if e.ScanBatch? && e.worker == k {
          ScanIsFull(feeds, w, k);
        } else {
          OtherPcsNotCompared(feeds, w, e, k);
          OtherwiseFull(feeds, w'.workers[k]);
        }
      }
    }
  }

  lemma NoWorkersYet(w0: World)
    requires Initial(w0)
    ensures w0.workers == map[]
  {
  }

  lemma OtherwiseFull(feeds: Feeds, wk: Worker)
    ensures !wk.pc.Compared? ==> ScanFull(feeds, wk)
  {
  }

  lemma TallyAdds(t: Tally, u: Tally, offset: nat, skipped: nat, records: nat, upto: nat)
    requires u.same + u.stored + u.failed == records && u.created + u.updated == u.stored + u.failed
    requires offset + skipped + records == upto
    ensures Accounted(t.Plus(u.(same := u.same + skipped)), upto) <==> Accounted(t, offset)
  {
  }

  lemma BatchAccounts(feeds: Feeds, w: World, k: WorkerId)
    requires k in w.workers && w.workers[k].pc.Compared? && ScanFull(feeds, w.workers[k])
    ensures forall fails ::
              var pc := w.workers[k].pc;
              Accounted(BatchResult(w.db.store, pc.locals, pc.processable, pc.skipped, fails).1,
                        NextUpto(feeds(w.workers[k].op), w.workers[k]))
              <==> Accounted(pc.locals.tally, pc.locals.offset)
  {
    var pc := w.workers[k].pc;
    var noted := Scanned(w.db.store, pc.processable);
    forall fails
      ensures Accounted(BatchResult(w.db.store, pc.locals, pc.processable, pc.skipped, fails).1,
                        NextUpto(feeds(w.workers[k].op), w.workers[k]))
              <==> Accounted(pc.locals.tally, pc.locals.offset)
    {
      WriteAllAccounts(Judge(noted), Persisted(noted.rows, ZERO), pc.processable, fails);
      TallyAdds(pc.locals.tally, Persist(noted, pc.processable, fails).tally, pc.locals.offset, pc.skipped,
                |pc.processable|, NextUpto(feeds(w.workers[k].op), w.workers[k]));
    }
  }

  /** What a batch commit makes of the call's own object. */
  lemma PersistedCopy(feeds: Feeds, w: World, k: WorkerId, fails: RawRecord -> bool)
    requires Enabled(feeds, w, PersistBatch(k, fails))
    ensures var w', wk := Apply(feeds, w, PersistBatch(k, fails)), w.workers[k];
            && k in w'.workers
            && Mine(w', k) == Progressed(wk.copy, NextUpto(feeds(wk.op), wk),
                                         BatchResult(w.db.store, wk.pc.locals, wk.pc.processable, wk.pc.skipped,
                                                     fails).1)
            && wk.op in w'.db.ops && w'.db.ops[wk.op] == Merge(w.db.ops[wk.op], wk.copy, Mine(w', k))
  {
    hide BatchResult, Merge, RowsOf;
  }

  predicate InLoop(pc: Pc) {
    pc.Looping? || pc.Compared?
  }

  /** In the batch loop a call goes on from its own counts and offset, or has just read them. */
  lemma LoopGoesOn(feeds: Feeds, w: World, e: Event, k: WorkerId)
    requires Enabled(feeds, w, e) && k in Apply(feeds, w, e).workers && InLoop(Apply(feeds, w, e).workers[k].pc)
    requires !(e.LoadRun? && e.worker == k)
    ensures k in w.workers && InLoop(w.workers[k].pc)
    ensures var l, l' := w.workers[k].pc.locals, Apply(feeds, w, e).workers[k].pc.locals;
            if e.PersistBatch? && e.worker == k then
              && w.workers[k].pc.Compared? && l'.offset == NextUpto(feeds(w.workers[k].op), w.workers[k])
              && l'.tally == BatchResult(w.db.store, l, w.workers[k].pc.processable, w.workers[k].pc.skipped, e.fails).1
            else l' == l
  {
    hide Merge, BatchResult, Judge, Scanned, Changed, RowsOf, Clamp, Failed, AfterImport, IsNext;
  }

  lemma LoadReads(feeds: Feeds, w: World, k: WorkerId, setting: int)
    requires Enabled(feeds, w, LoadRun(k, setting))
    ensures RunFound(w, k)
    ensures var pc := Apply(feeds, w, LoadRun(k, setting)).workers[k].pc;
            InLoop(pc) && pc.locals.offset == Mine(w, k).offset && pc.locals.tally == RunAt(w, k).tally
  {
  }

  /** Event `m` is the last one in which the call of worker `k` read its run row; the counts found there add
      up to the offset the call had from its claim. */
  ghost predicate LoadedRight(feeds: Feeds, w0: World, es: seq<Event>, k: WorkerId, m: nat)
    requires LoadedAt(feeds, w0, es, k, m)
  {
    var w := Exec(feeds, w0, es[..m]);
    Accounted(RunAt(w, k).tally, Mine(w, k).offset)
  }

  ghost predicate LoadedAt(feeds: Feeds, w0: World, es: seq<Event>, k: WorkerId, m: nat) {
    && m < |es| && es[m].LoadRun? && es[m].worker == k
    && Legal(feeds, w0, es[..m]) && RunFound(Exec(feeds, w0, es[..m]), k)
    && forall n :: m < n < |es| ==> !(es[n].LoadRun? && es[n].worker == k)
  }

  lemma LoadedEarlier(feeds: Feeds, w0: World, es: seq<Event>, k: WorkerId, m: nat)
    requires es != [] && LoadedAt(feeds, w0, es[..|es| - 1], k, m)
    requires !(es[|es| - 1].LoadRun? && es[|es| - 1].worker == k)
    ensures LoadedAt(feeds, w0, es, k, m)
    ensures LoadedRight(feeds, w0, es, k, m) <==> LoadedRight(feeds, w0, es[..|es| - 1], k, m)
  {
    assert es[..|es| - 1][..m] == es[..m];
  }

  /** A call in the loop read its run row once, and its counts are right exactly if they were right then. */
  lemma {:induction false} CountsSinceLoad(feeds: Feeds, w0: World, es: seq<Event>, k: WorkerId) returns (m: nat)
    requires Initial(w0) && Legal(feeds, w0, es)
    requires k in Exec(feeds, w0, es).workers && InLoop(Exec(feeds, w0, es).workers[k].pc)
    ensures LoadedAt(feeds, w0, es, k, m)
    ensures var l := Exec(feeds, w0, es).workers[k].pc.locals;
            Accounted(l.tally, l.offset) <==> LoadedRight(feeds, w0, es, k, m)
  {
    hide Enabled, Apply, Accounted, Initial, BatchResult, ScanFull, RunFound, LoadedAt, LoadedRight;
    if es == [] {
      NoWorkersYet(w0);
      assert false;
    } else {
      var front, e := es[..|es| - 1], es[|es| - 1];
      var w := Exec(feeds, w0, front);
      if e.LoadRun? && e.worker == k {
        m := |es| - 1;
        JustLoaded(feeds, w0, es, k);
      } else {
        LoopGoesOn(feeds, w, e, k);
        m := CountsSinceLoad(feeds, w0, front, k);
        LoadedEarlier(feeds, w0, es, k, m);
        if e.PersistBatch? && e.worker == k {
          RunKeepsScans(feeds, w0, front);
          BatchAccounts(feeds, w, k);
        }
      }
    }
  }

  lemma JustLoaded(feeds: Feeds, w0: World, es: seq<Event>, k: WorkerId)
    requires Legal(feeds, w0, es) && es != [] && es[|es| - 1].LoadRun? && es[|es| - 1].worker == k
    requires k in Exec(feeds, w0, es).workers && InLoop(Exec(feeds, w0, es).workers[k].pc)
    ensures LoadedAt(feeds, w0, es, k, |es| - 1)
    ensures var l := Exec(feeds, w0, es).workers[k].pc.locals;
            Accounted(l.tally, l.offset) <==> LoadedRight(feeds, w0, es, k, |es| - 1)
  {
    hide Enabled, Apply, Accounted;
    LoadReads(feeds, Exec(feeds, w0, es[..|es| - 1]), k, es[|es| - 1].batchSetting);
  }

  /** Main result. In every run, also with several calls on one operation: the counts a call commits
      with a batch add up to its offset exactly when the counts it found in the run row added up to the
      offset it had from its claim. */
  lemma CallCountsRightIff(feeds: Feeds, w0: World, es: seq<Event>, k: WorkerId, fails: RawRecord -> bool)
    returns (m: nat)
    requires Initial(w0) && Legal(feeds, w0, es) && Enabled(feeds, Exec(feeds, w0, es), PersistBatch(k, fails))
    ensures LoadedAt(feeds, w0, es, k, m)
    ensures var w' := Apply(feeds, Exec(feeds, w0, es), PersistBatch(k, fails));
            && k in w'.workers
            && (Accounted(Mine(w', k).counts, Mine(w', k).offset) <==> LoadedRight(feeds, w0, es, k, m))
  {
    var w := Exec(feeds, w0, es);
    assert k in w.workers && w.workers[k].pc.Compared?;
    hide Initial, BatchResult, Accounted, ScanFull, LoadedAt, LoadedRight, Apply;
    m := CountsSinceLoad(feeds, w0, es, k);
    RunKeepsScans(feeds, w0, es);
    PersistedCopy(feeds, w, k, fails);
    BatchAccounts(feeds, w, k);
  }

  ghost predicate Books(w: World) {
    forall id :: id in w.db.ops ==> Accounted(w.db.ops[id].counts, w.db.ops[id].offset)
  }

  ghost predicate CountsStay(w: World, w': World, j: OpId)
    requires j in w'.db.ops
  {
    if j in w.db.ops then w'.db.ops[j].counts == w.db.ops[j].counts && w'.db.ops[j].offset == w.db.ops[j].offset
    else w'.db.ops[j].counts == ZERO && w'.db.ops[j].offset == 0
  }

  /** The summary copied after the import holds the counts the batches left. */
  lemma SummaryCountsStay(feeds: Feeds, w: World, k: WorkerId, j: OpId)
    requires Sole(w) && Enabled(feeds, w, MarkCommitted(k)) && j in Apply(feeds, w, MarkCommitted(k)).db.ops
    ensures CountsStay(w, Apply(feeds, w, MarkCommitted(k)), j)
  {
    assert Holder(w, k) && Ledger(w.db, w.workers[k].op);
  }

  /** Apart from batch commits and the summary, no event writes counts or offset of any operation. */
  lemma OtherCountsStay(feeds: Feeds, w: World, e: Event, j: OpId)
    requires Enabled(feeds, w, e) && !e.MarkCommitted? && j in Apply(feeds, w, e).db.ops
    requires e.PersistBatch? ==> j != w.workers[e.worker].op
    ensures CountsStay(w, Apply(feeds, w, e), j)
  {
    hide Apply, Enabled, CountsStay;
    if OfWorker(e) {
      WorkerCountsStay(feeds, w, e, j);
    } else {
      OutsideCountsStay(feeds, w, e, j);
    }
  }

  lemma WorkerCountsStay(feeds: Feeds, w: World, e: Event, j: OpId)
    requires OfWorker(e) && Enabled(feeds, w, e) && !e.MarkCommitted? && j in Apply(feeds, w, e).db.ops
    requires e.PersistBatch? ==> j != w.workers[e.worker].op
    ensures CountsStay(w, Apply(feeds, w, e), j)
  {
    hide Available, Clamp, Judge, Scanned, BatchResult, RowsOf, Classify;
    if e.worker in w.workers && w.workers[e.worker].op == j {
      assert MergeCounts(w.db.ops[j].counts, Mine(w, e.worker).counts, Mine(w, e.worker).counts) == w.db.ops[j].counts;
    }
  }

  lemma OutsideCountsStay(feeds: Feeds, w: World, e: Event, j: OpId)
    requires !OfWorker(e) && Enabled(feeds, w, e) && j in Apply(feeds, w, e).db.ops
    ensures CountsStay(w, Apply(feeds, w, e), j)
  {
    hide Available, Clamp, Before;
  }

  lemma StayingIsAccounted(w: World, w': World, j: OpId)
    requires Books(w) && j in w'.db.ops && CountsStay(w, w', j)
    ensures Accounted(w'.db.ops[j].counts, w'.db.ops[j].offset)
  {
  }

  /** A sole call in the loop knows the row's counts and offset. */
  lemma LocalsAccounted(feeds: Feeds, w: World, k: WorkerId)
    requires Inv(feeds, w) && Sole(w) && Books(w) && k in w.workers && w.workers[k].pc.Compared?
    ensures At(w, k) && w.db.ops[w.workers[k].op] == Mine(w, k)
    ensures Accounted(w.workers[k].pc.locals.tally, w.workers[k].pc.locals.offset)
  {
    hide Accounted;
    assert Holder(w, k) && WorkerOk(feeds, w, k);
  }

  lemma BatchRowAccounted(feeds: Feeds, w: World, k: WorkerId, fails: RawRecord -> bool)
    requires Inv(feeds, w) && Sole(w) && Books(w) && Scans(feeds, w) && Enabled(feeds, w, PersistBatch(k, fails))
    ensures var w' := Apply(feeds, w, PersistBatch(k, fails));
            && w.workers[k].op in w'.db.ops
            && Accounted(w'.db.ops[w.workers[k].op].counts, w'.db.ops[w.workers[k].op].offset)
  {
    hide BatchResult, Apply, Merge, Inv, ScanFull, Sole, Books, Accounted;
    LocalsAccounted(feeds, w, k);
    PersistedCopy(feeds, w, k, fails);
    BatchAccounts(feeds, w, k);
    MergeSelf(w.workers[k].copy, Mine(Apply(feeds, w, PersistBatch(k, fails)), k));
  }

  lemma BooksKept(feeds: Feeds, w: World, e: Event)
    requires Inv(feeds, w) && Sole(w) && Scans(feeds, w) && Books(w) && Enabled(feeds, w, e)
    ensures Books(Apply(feeds, w, e))
  {
    hide Inv, Sole, Enabled, Apply, Scans, CountsStay, Accounted;
    var w' := Apply(feeds, w, e);
    if e.PersistBatch? {
      ActsOnWorker(feeds, w, e);
      BatchRowAccounted(feeds, w, e.worker, e.fails);
    }
    forall j | j in w'.db.ops
      ensures Accounted(w'.db.ops[j].counts, w'.db.ops[j].offset)
    {
      if e.MarkCommitted? {
        SummaryCountsStay(feeds, w, e.worker, j);
        StayingIsAccounted(w, w', j);
      } else if !e.PersistBatch? || j != w.workers[e.worker].op {
        OtherCountsStay(feeds, w, e, j);
        StayingIsAccounted(w, w', j);
      }
    }
  }

  lemma {:induction false} RunKeepsBooks(feeds: Feeds, w0: World, es: seq<Event>)
    requires Initial(w0) && WellFormedFeeds(feeds) && Legal(feeds, w0, es) && InTime(feeds, w0, es)
    ensures Books(Exec(feeds, w0, es))
  {
    if es != [] {
      var front, e := es[..|es| - 1], es[|es| - 1];
      RunKeepsBooks(feeds, w0, front);
      RunKeepsInv(feeds, w0, front);
      InTimeMeansSole(feeds, w0, front);
      RunKeepsScans(feeds, w0, front);
      BooksKept(feeds, Exec(feeds, w0, front), e);
    }
  }

  /** Main result. In every reachable state the resume offset lies within the export and the records
      before it are persisted. If no call outlives its lease, the counts also add up to the offset and
      the operation agrees with its run. */
  lemma AccountingHolds(feeds: Feeds, w0: World, es: seq<Event>, id: OpId)
    requires Initial(w0) && WellFormedFeeds(feeds) && Legal(feeds, w0, es)
    requires id in Exec(feeds, w0, es).db.ops
    ensures var w := Exec(feeds, w0, es); var op := w.db.ops[id];
            && op.offset <= |feeds(id)| && SettledUpTo(w.seen, feeds(id), op.offset)
            && (InTime(feeds, w0, es) ==>
                  && Accounted(op.counts, op.offset)
                  && (op.run.Some? ==> RunsOf(w.db, id) != [] && RunsOf(w.db, id)[0].tally == op.counts))
  {
    hide Initial, Legal, Exec, Inv, Sole, Books, Accounted;
    RunKeepsInv(feeds, w0, es);
    OffsetSettled(feeds, Exec(feeds, w0, es), id);
    if InTime(feeds, w0, es) {
      InTimeMeansSole(feeds, w0, es);
      RunKeepsBooks(feeds, w0, es);
      BooksAgree(Exec(feeds, w0, es), id);
    }
  }

  lemma OffsetSettled(feeds: Feeds, w: World, id: OpId)
    requires Inv(feeds, w) && id in w.db.ops
    ensures w.db.ops[id].offset <= |feeds(id)| && SettledUpTo(w.seen, feeds(id), w.db.ops[id].offset)
  {
    assert OpOk(feeds, w, id);
  }

  lemma BooksAgree(w: World, id: OpId)
    requires Sole(w) && Books(w) && id in w.db.ops
    ensures Accounted(w.db.ops[id].counts, w.db.ops[id].offset)
    ensures w.db.ops[id].run.Some? ==>
              RunsOf(w.db, id) != [] && RunsOf(w.db, id)[0].tally == w.db.ops[id].counts
  {
    assert Ledger(w.db, id);
  }

  // ---------------------------------------------------------------- the resume offset

  lemma OtherOffsetsStay(feeds: Feeds, w: World, e: Event, j: OpId)
    requires Enabled(feeds, w, e) && j in w.db.ops
    requires e.PersistBatch? ==> j != w.workers[e.worker].op
    ensures j in Apply(feeds, w, e).db.ops && Apply(feeds, w, e).db.ops[j].offset == w.db.ops[j].offset
  {
    hide Enabled, Apply;
    if OfWorker(e) {
      WorkerRow(feeds, w, e, j);
    } else {
      OtherRow(feeds, w, e, j);
    }
  }

  /** What an event of a call leaves of a row. */
  lemma WorkerRow(feeds: Feeds, w: World, e: Event, j: OpId)
    requires OfWorker(e) && Enabled(feeds, w, e) && j in w.db.ops
    ensures var w' := Apply(feeds, w, e);
            && j in w'.db.ops && w'.db.ops[j].priority == w.db.ops[j].priority
            && (!e.PersistBatch? || j != w.workers[e.worker].op ==> w'.db.ops[j].offset == w.db.ops[j].offset)
  {
    hide Available, Clamp, Judge, Scanned, BatchResult, RowsOf, Classify;
  }

  lemma OtherRow(feeds: Feeds, w: World, e: Event, j: OpId)
    requires !OfWorker(e) && Enabled(feeds, w, e) && j in w.db.ops
    ensures var w' := Apply(feeds, w, e);
            && j in w'.db.ops && w'.db.ops[j].priority == w.db.ops[j].priority
            && w'.db.ops[j].offset == w.db.ops[j].offset
  {
    hide Available, Clamp, Before;
  }

  lemma BatchWritesOffset(feeds: Feeds, w: World, k: WorkerId, fails: RawRecord -> bool)
    requires Inv(feeds, w) && Enabled(feeds, w, PersistBatch(k, fails))
    ensures var w', id := Apply(feeds, w, PersistBatch(k, fails)), w.workers[k].op;
            id in w'.db.ops && w'.db.ops[id].offset == NextUpto(feeds(id), w.workers[k]) > Mine(w, k).offset
  {
    hide BatchResult, Apply;
    PersistedCopy(feeds, w, k, fails);
    assert WorkerOk(feeds, w, k);
  }

  /** Main result. The resume offset of an operation goes back in an event exactly when the event is a
      batch commit of a call that has not come as far as the row: nothing in the commit looks at the
      claim or at the row's offset. */
  lemma OffsetGoesBackIff(feeds: Feeds, w0: World, es: seq<Event>, e: Event, id: OpId)
    requires Initial(w0) && WellFormedFeeds(feeds) && Legal(feeds, w0, es)
    requires Enabled(feeds, Exec(feeds, w0, es), e) && id in Exec(feeds, w0, es).db.ops
    ensures var w := Exec(feeds, w0, es); var w' := Apply(feeds, w, e);
            && id in w'.db.ops
            && (w'.db.ops[id].offset < w.db.ops[id].offset <==>
                  && e.PersistBatch? && w.workers[e.worker].op == id
                  && NextUpto(feeds(id), w.workers[e.worker]) < w.db.ops[id].offset)
  {
    hide Apply;
    var w := Exec(feeds, w0, es);
    RunKeepsInv(feeds, w0, es);
    if e.PersistBatch? && w.workers[e.worker].op == id {
      BatchWritesOffset(feeds, w, e.worker, e.fails);
    } else {
      OtherOffsetsStay(feeds, w, e, id);
    }
  }

  lemma EventKeepsOffset(feeds: Feeds, w: World, e: Event, id: OpId)
    requires Inv(feeds, w) && Sole(w) && Enabled(feeds, w, e) && id in w.db.ops
    ensures var w' := Apply(feeds, w, e); id in w'.db.ops && w'.db.ops[id].offset >= w.db.ops[id].offset
  {
    hide Apply;
    if e.PersistBatch? && w.workers[e.worker].op == id {
      BatchWritesOffset(feeds, w, e.worker, e.fails);
      assert Holder(w, e.worker);
    } else {
      OtherOffsetsStay(feeds, w, e, id);
    }
  }

  lemma LegalPrefix(feeds: Feeds, w0: World, es: seq<Event>, n: nat)
    requires Legal(feeds, w0, es) && n <= |es|
    ensures Legal(feeds, w0, es[..n])
  {
    if n < |es| {
      LegalPrefix(feeds, w0, es[..|es| - 1], n);
      assert es[..|es| - 1][..n] == es[..n];
    } else {
      assert es[..n] == es;
    }
  }

  /** Main result. Along every run in which no call outlives its lease, also across failures, crashes and
      retries, the resume offset of an operation never decreases. */
  lemma {:induction false} OffsetNeverDecreases(feeds: Feeds, w0: World, es: seq<Event>, n: nat, id: OpId)
    requires Initial(w0) && WellFormedFeeds(feeds) && Legal(feeds, w0, es) && InTime(feeds, w0, es) && n <= |es|
    requires Legal(feeds, w0, es[..n]) && id in Exec(feeds, w0, es[..n]).db.ops
    ensures id in Exec(feeds, w0, es).db.ops
    ensures Exec(feeds, w0, es[..n]).db.ops[id].offset <= Exec(feeds, w0, es).db.ops[id].offset
  {
    hide Apply, Enabled, Punctual, Inv, Sole, Initial;
    if n == |es| {
      assert es[..n] == es;
    } else {
      var front := es[..|es| - 1];
      assert front[..n] == es[..n];
      OffsetNeverDecreases(feeds, w0, front, n, id);
      RunKeepsInv(feeds, w0, front);
      InTimeMeansSole(feeds, w0, front);
      EventKeepsOffset(feeds, Exec(feeds, w0, front), es[|es| - 1], id);
    }
  }

  // ---------------------------------------------------------------- retry

  /** The operation was durably in state `s` at some point of the run. */
  ghost predicate WasIn(feeds: Feeds, w0: World, es: seq<Event>, id: OpId, s: State)
    requires Legal(feeds, w0, es)
  {
    exists n: nat :: n <= |es| && WasInAt(feeds, w0, es, id, s, n)
  }

  ghost predicate WasInAt(feeds: Feeds, w0: World, es: seq<Event>, id: OpId, s: State, n: nat)
    requires Legal(feeds, w0, es) && n <= |es|
  {
    && Legal(feeds, w0, es[..n])
    && id in Exec(feeds, w0, es[..n]).db.ops
    && Exec(feeds, w0, es[..n]).db.ops[id].state == s
  }

  lemma WasInNow(feeds: Feeds, w0: World, es: seq<Event>, id: OpId)
    requires Legal(feeds, w0, es) && id in Exec(feeds, w0, es).db.ops
    ensures WasIn(feeds, w0, es, id, Exec(feeds, w0, es).db.ops[id].state)
  {
    assert es[..|es|] == es;
    assert WasInAt(feeds, w0, es, id, Exec(feeds, w0, es).db.ops[id].state, |es|);
  }

  lemma WasInExtends(feeds: Feeds, w0: World, es: seq<Event>, id: OpId, s: State)
    requires Legal(feeds, w0, es) && es != []
    requires Legal(feeds, w0, es[..|es| - 1]) && WasIn(feeds, w0, es[..|es| - 1], id, s)
    ensures WasIn(feeds, w0, es, id, s)
  {
    var front := es[..|es| - 1];
    var n: nat :| n <= |front| && WasInAt(feeds, w0, front, id, s, n);
    assert front[..n] == es[..n];
    assert WasInAt(feeds, w0, es, id, s, n);
  }

  /** The state in a call's object was in the row once: it was read there, or written there. */
  lemma CopyStateFromRow(feeds: Feeds, w: World, e: Event, k: WorkerId)
    requires Inv(feeds, w) && Enabled(feeds, w, e) && k in Apply(feeds, w, e).workers
    ensures var w' := Apply(feeds, w, e); var id := w'.workers[k].op;
            || (k in w.workers && w.workers[k].op == id && Mine(w', k).state == Mine(w, k).state)
            || (id in w'.db.ops && Mine(w', k).state == w'.db.ops[id].state)
  {
    hide Inv, Judge, Scanned, BatchResult, RowsOf, IsNext;
    if e.MarkCommitted? {
      CommitsState(feeds, w, e.worker);
    }
  }

  lemma CommitsState(feeds: Feeds, w: World, k: WorkerId)
    requires Inv(feeds, w) && Enabled(feeds, w, MarkCommitted(k))
    ensures RunAt(w, k).complete != Some(false)
  {
    WorkersOwn(feeds, w, k);
    MarkCommittedOk(feeds, w, k);
  }

  lemma {:induction false} CopyStateWasIn(feeds: Feeds, w0: World, es: seq<Event>, k: WorkerId)
    requires Initial(w0) && WellFormedFeeds(feeds) && Legal(feeds, w0, es) && k in Exec(feeds, w0, es).workers
    ensures WasIn(feeds, w0, es, Exec(feeds, w0, es).workers[k].op, Mine(Exec(feeds, w0, es), k).state)
  {
    if es == [] {
      NoWorkersYet(w0);
    } else {
      hide Apply, Enabled, WasIn, Inv, Initial;
      var front, e, w := es[..|es| - 1], es[|es| - 1], Exec(feeds, w0, es[..|es| - 1]);
      RunKeepsInv(feeds, w0, front);
      CopyStateFromRow(feeds, w, e, k);
      var w' := Exec(feeds, w0, es);
      if k in w.workers && w.workers[k].op == w'.workers[k].op && Mine(w', k).state == Mine(w, k).state {
        CopyStateWasIn(feeds, w0, front, k);
        WasInExtends(feeds, w0, es, w'.workers[k].op, Mine(w, k).state);
      } else {
        WasInNow(feeds, w0, es, w'.workers[k].op);
      }
    }
  }

  /** An event that writes a stage writes one whose retry state is "queued", the row's state, or the state
      the writing call knows. */
  lemma StageComesWithState(feeds: Feeds, w: World, e: Event, id: OpId)
    requires Inv(feeds, w) && Enabled(feeds, w, e) && id in Apply(feeds, w, e).db.ops
    ensures var w' := Apply(feeds, w, e); var s := RetryState(w'.db.ops[id].stage);
            || s == Queued || s == w'.db.ops[id].state
            || (id in w.db.ops && w.db.ops[id].stage == w'.db.ops[id].stage)
            || (OfWorker(e) && e.worker in w'.workers && w'.workers[e.worker].op == id && Mine(w', e.worker).state == s)
  {
    hide Inv, Enabled, Apply;
    if e.MarkCommitted? {
      CommitsState(feeds, w, e.worker);
      CommittedStage(feeds, w, e.worker, id);
    } else if OfWorker(e) {
      WorkerStage(feeds, w, e, id);
    } else {
      OtherStage(feeds, w, e, id);
    }
  }

  lemma CommittedStage(feeds: Feeds, w: World, k: WorkerId, id: OpId)
    requires Enabled(feeds, w, MarkCommitted(k)) && RunAt(w, k).complete != Some(false)
    requires id in Apply(feeds, w, MarkCommitted(k)).db.ops
    ensures var w' := Apply(feeds, w, MarkCommitted(k));
            || (id in w.db.ops && w.db.ops[id].stage == w'.db.ops[id].stage)
            || (k in w'.workers && w'.workers[k].op == id && Mine(w', k).state == RetryState(w'.db.ops[id].stage))
  {
  }

  lemma WorkerStage(feeds: Feeds, w: World, e: Event, id: OpId)
    requires OfWorker(e) && !e.MarkCommitted? && Enabled(feeds, w, e) && id in Apply(feeds, w, e).db.ops
    ensures var w' := Apply(feeds, w, e); var s := RetryState(w'.db.ops[id].stage);
            || s == Queued || (id in w.db.ops && w.db.ops[id].stage == w'.db.ops[id].stage)
            || (e.worker in w'.workers && w'.workers[e.worker].op == id && Mine(w', e.worker).state == s)
  {
    hide Available, Clamp, Judge, Scanned, BatchResult, RowsOf, Classify;
  }

  lemma OtherStage(feeds: Feeds, w: World, e: Event, id: OpId)
    requires !OfWorker(e) && Enabled(feeds, w, e) && id in Apply(feeds, w, e).db.ops
    ensures var w' := Apply(feeds, w, e); var s := RetryState(w'.db.ops[id].stage);
            || s == Queued || s == w'.db.ops[id].state
            || (id in w.db.ops && w.db.ops[id].stage == w'.db.ops[id].stage)
  {
    hide Available, Clamp, Before;
  }

  /** Main result. Retry sends an operation back to the queue, or to a state it had durably reached. */
  lemma {:induction false} RetryNeverAdvances(feeds: Feeds, w0: World, es: seq<Event>, id: OpId)
    requires Initial(w0) && WellFormedFeeds(feeds) && Legal(feeds, w0, es)
    requires id in Exec(feeds, w0, es).db.ops
    ensures var s := RetryState(Exec(feeds, w0, es).db.ops[id].stage);
            s == Queued || WasIn(feeds, w0, es, id, s)
  {
    var w := Exec(feeds, w0, es);
    var s := RetryState(w.db.ops[id].stage);
    if es != [] && s != Queued {
      hide Apply, Enabled, WasIn, Inv;
      var front, e := es[..|es| - 1], es[|es| - 1];
      RunKeepsInv(feeds, w0, front);
      StageComesWithState(feeds, Exec(feeds, w0, front), e, id);
      if w.db.ops[id].state == s {
        WasInNow(feeds, w0, es, id);
      } else if OfWorker(e) && e.worker in w.workers && w.workers[e.worker].op == id && Mine(w, e.worker).state == s {
        CopyStateWasIn(feeds, w0, es, e.worker);
      } else {
        RetryNeverAdvances(feeds, w0, front, id);
        WasInExtends(feeds, w0, es, id, s);
      }
    }
  }

  // ---------------------------------------------------------------- scheduling

  /** The operation is neither finished nor failed, no claim with a running lease holds it, and backlog
      operations count only if they are enabled. */
  predicate Waiting(op: Operation, now: int, backlog: bool) {
    && op.state !in {Completed, Partial, FailedRetryable, FailedTerminal}
    && !(op.claim.Some? && op.lease.Some? && op.lease.value > now)
    && (op.priority > 0 || backlog)
  }

  /** Operation `id` waits, and no waiting operation has a larger priority, none of its priority was created
      earlier, and none of its priority and creation time has a smaller id. */
  ghost predicate FirstInLine(ops: map<OpId, Operation>, now: int, backlog: bool, id: OpId) {
    && id in ops && Waiting(ops[id], now, backlog)
    && forall j :: j in ops && Waiting(ops[j], now, backlog) ==>
         && ops[j].priority <= ops[id].priority
         && (ops[j].priority == ops[id].priority ==> ops[id].createdAt <= ops[j].createdAt)
         && (ops[j].priority == ops[id].priority && ops[j].createdAt == ops[id].createdAt ==> id <= j)
  }

  lemma AvailableIsWaiting(op: Operation, now: int, backlog: bool)
    ensures Available(op, now, backlog) <==> Waiting(op, now, backlog)
  {
    match op.state
    case Queued =>
    case Published =>
    case CentralImporting =>
    case Committed =>
    case Acknowledging =>
    case Completed =>
    case Partial =>
    case FailedRetryable =>
    case FailedTerminal =>
  }

  lemma NextIsFirst(ops: map<OpId, Operation>, now: int, backlog: bool, id: OpId)
    ensures IsNext(ops, now, backlog, id) <==> FirstInLine(ops, now, backlog, id)
  {
    hide Available, Waiting;
    forall j | j in ops
      ensures Available(ops[j], now, backlog) <==> Waiting(ops[j], now, backlog)
    {
      AvailableIsWaiting(ops[j], now, backlog);
    }
  }

  /** Main result. In every run a claim takes the operation that is first in line, gives it the worker's
      claim and a lease of 60 seconds to a day from now, and leaves the others alone. */
  lemma ClaimsInOrder(feeds: Feeds, w: World, k: WorkerId, id: OpId, backlog: bool, seconds: int)
    requires Enabled(feeds, w, Claim(k, id, backlog, seconds))
    ensures FirstInLine(w.db.ops, w.now, backlog, id)
    ensures var w' := Apply(feeds, w, Claim(k, id, backlog, seconds));
            && id in w'.db.ops && w'.db.ops == w.db.ops[id := w'.db.ops[id]]
            && w'.db.ops[id].claim == Some(k) && w'.db.ops[id].lease.Some?
            && 60 <= w'.db.ops[id].lease.value - w.now <= 86400
            && (60 <= seconds <= 86400 ==> w'.db.ops[id].lease.value == w.now + seconds)
            && w'.db.ops[id].attempts == w.db.ops[id].attempts + 1
            && w'.db.ops[id].state == w.db.ops[id].state && w'.db.ops[id].stage == w.db.ops[id].stage
  {
    NextIsFirst(w.db.ops, w.now, backlog, id);
  }

  // ---------------------------------------------------------------- failure and retry of one operation

  /** What a failure leaves: it can be retried after a lost transport, a pending checkpoint, an error of the
      server, or any error that is not about the contract, and the row keeps its stage and loses its claim. */
  lemma FailureMeans(op: Operation, exn: Exn)
    ensures var f := Failed(op, exn);
            && (f.state == FailedRetryable <==>
                  exn.Transport? || exn.Other? || (exn.Http? && (exn.status == 409 || exn.status >= 500)))
            && (f.state != FailedRetryable ==> f.state == FailedTerminal)
            && (f.retryable <==> f.state == FailedRetryable)
            && f.stage == op.stage && f.claim == None && f.lease == None
            && f.offset == op.offset && f.counts == op.counts && f.run == op.run && f.checkpoint == op.checkpoint
  {
  }

  /** The code of a failure tells what was going on. */
  lemma FailureCode(op: Operation, exn: Exn)
    ensures var code := Failed(op, exn).error;
            && (code == Some(UpstreamUnavailable) <==> exn.Transport?)
            && (code == Some(GatewayCheckpointPending) <==> exn == Http(409))
            && (code == Some(UpstreamHttpFailure) <==> exn.Http? && exn.status != 409)
            && (code == Some(InvalidExternalContract) <==> exn.Contract?)
            && (code == Some(GatewayPublishFailed) <==> exn.Other? && op.stage == AtPublished)
            && (code == Some(GatewayAckFailed) <==> exn.Other? && op.stage == AtAcknowledging)
            && (code == Some(CentralProcessingFailed) <==> exn.Other? && op.stage in {AtImporting, AtCommitted})
            && (code == Some(ExternalIngestionFailed) <==>
                  exn.Other? && op.stage in {ExportReady, Persisting, AtCompleted})
  {
  }

  /** An operation that fails right after it entered a state is back in that state after a retry; one that
      fails in between, before publishing or after a batch, starts from the queue. */
  lemma RetryResumes(feeds: Feeds, w: World, k: WorkerId, exn: Exn)
    requires Enabled(feeds, w, FailOperation(k, exn))
    requires exn.Transport? || exn.Other?
    ensures var id, w1 := w.workers[k].op, Apply(feeds, w, FailOperation(k, exn));
            && Enabled(feeds, w1, Retry(id))
            && var before, after := w.db.ops[id], Apply(feeds, w1, Retry(id)).db.ops[id];
               && ((before.state, before.stage) in {(Published, AtPublished), (CentralImporting, AtImporting),
                                                    (Committed, AtCommitted), (Acknowledging, AtAcknowledging)} ==>
                     after.state == before.state)
               && (before.stage in {ExportReady, Persisting, AtCompleted} ==> after.state == Queued)
               && after.stage == before.stage && after.error == None
  {
  }

  /** The status of a run that reached its end: failed when every object failed, partial when some did. */
  lemma RunEnds(feeds: Feeds, w: World, k: WorkerId)
    requires Enabled(feeds, w, FinishRun(k))
    ensures var w', id := Apply(feeds, w, FinishRun(k)), w.workers[k].op;
            && RunFound(w', k)
            && var run := RunAt(w', k);
               && run.collected == |feeds(id)| && run.complete == Some(true)
               && run.tally == w.workers[k].pc.locals.tally
               && (run.status == RunCompleted <==> run.tally.failed == 0)
               && (run.status == RunFailed <==> run.tally.failed > 0 && run.tally.stored == 0)
               && (run.status == RunPartial <==> run.tally.failed > 0 && run.tally.stored > 0)
  {
  }

  /** With every batch the run row reports the offset and the counts of the call, and one batch more. */
  lemma RunReportsBatch(feeds: Feeds, w: World, k: WorkerId, fails: RawRecord -> bool)
    requires Enabled(feeds, w, PersistBatch(k, fails))
    ensures var w' := Apply(feeds, w, PersistBatch(k, fails));
            && RunFound(w', k)
            && RunAt(w', k).collected == Mine(w', k).offset && RunAt(w', k).tally == Mine(w', k).counts
            && RunAt(w', k).batches == w.workers[k].pc.locals.committed + 1 && RunAt(w', k).status == RunAt(w, k).status
            && Mine(w', k).stage == Persisting && Mine(w', k).state == Mine(w, k).state
  {
    hide BatchResult, Merge, RowsOf;
  }

  /** A run that is broken off keeps the counts of its last batch, is failed, and reports the whole batches
      committed, at most the export. */
  lemma RunBreaksOff(feeds: Feeds, w: World, k: WorkerId)
    requires Enabled(feeds, w, FailRun(k))
    ensures var w', wk := Apply(feeds, w, FailRun(k)), w.workers[k];
            && RunFound(w', k)
            && var run, whole := RunAt(w', k), wk.pc.locals.committed * wk.size;
               && run.status == RunFailed && run.tally == wk.pc.locals.tally && run.complete == RunAt(w, k).complete
               && run.collected == (if whole < |feeds(wk.op)| then whole else |feeds(wk.op)|)
               && w'.db.ops == w.db.ops && w'.db.store == w.db.store
  {
  }

  /** If no call outlives its lease, two calls never hold one operation. */
  lemma OneWorkerPerOperation(feeds: Feeds, w0: World, es: seq<Event>, j: WorkerId, k: WorkerId)
    requires Initial(w0) && WellFormedFeeds(feeds) && Legal(feeds, w0, es) && InTime(feeds, w0, es)
    requires var w := Exec(feeds, w0, es);
             j in w.workers && k in w.workers && w.workers[j].op == w.workers[k].op
    ensures j == k
  {
    InTimeMeansSole(feeds, w0, es);
    HoldersDiffer(Exec(feeds, w0, es), j, k);
  }

  /** The call of worker `k`, if it runs, has no batch left to spend. */
  predicate BatchSpent(feeds: Feeds, w: World, k: WorkerId) {
    k in w.workers ==>
      match w.workers[k].pc
      case Begin => PastImport(Mine(w, k).state)
      case Exported => false
      case Fetching => false
      case Looping(l) => l.offset == |feeds(w.workers[k].op)|
      case Compared(_, _, _) => false
      case _ => true
  }

  lemma BacklogBatchSpends(feeds: Feeds, w: World, k: WorkerId, fails: RawRecord -> bool)
    requires Enabled(feeds, w, PersistBatch(k, fails)) && Mine(w, k).priority <= 0
    ensures BatchSpent(feeds, Apply(feeds, w, PersistBatch(k, fails)), k)
  {
    hide BatchResult, RowsOf, Merge;
  }

  lemma SpentStays(feeds: Feeds, w: World, e: Event, k: WorkerId)
    requires Enabled(feeds, w, e) && BatchSpent(feeds, w, k) && !(e.Claim? && e.worker == k)
    ensures BatchSpent(feeds, Apply(feeds, w, e), k)
  {
    hide BatchResult, RowsOf, Merge, Judge, Scanned, Clamp, Failed, IsNext;
  }

  lemma {:induction false} SpentUntilClaim(feeds: Feeds, w0: World, es: seq<Event>, i: nat, k: WorkerId)
    requires Legal(feeds, w0, es) && i <= |es|
    requires Legal(feeds, w0, es[..i]) && BatchSpent(feeds, Exec(feeds, w0, es[..i]), k)
    requires forall m :: i <= m < |es| ==> !(es[m].Claim? && es[m].worker == k)
    ensures BatchSpent(feeds, Exec(feeds, w0, es), k)
  {
    hide Apply, Enabled, BatchSpent;
    if i == |es| {
      assert es[..i] == es;
    } else {
      var front := es[..|es| - 1];
      assert front[..i] == es[..i];
      SpentUntilClaim(feeds, w0, front, i, k);
      SpentStays(feeds, Exec(feeds, w0, front), es[|es| - 1], k);
    }
  }

  lemma SpentCannotPersist(feeds: Feeds, w: World, k: WorkerId, g: RawRecord -> bool)
    requires Enabled(feeds, w, PersistBatch(k, g))
    ensures !BatchSpent(feeds, w, k)
  {
  }

  /** Main result. In every run: between two batches that one worker persists for backlog operations lies
      a new claim of that worker. */
  lemma OneBacklogBatchPerClaim(feeds: Feeds, w0: World, es: seq<Event>, i: nat, k: WorkerId, f: RawRecord -> bool,
                                g: RawRecord -> bool)
    requires Initial(w0) && WellFormedFeeds(feeds) && Legal(feeds, w0, es) && i < |es|
    requires Legal(feeds, w0, es[..i]) && es[i] == PersistBatch(k, f)
    requires var w := Exec(feeds, w0, es[..i]); At(w, k) && w.db.ops[w.workers[k].op].priority <= 0
    requires Enabled(feeds, Exec(feeds, w0, es), PersistBatch(k, g))
    ensures exists m :: i < m < |es| && es[m].Claim? && es[m].worker == k
  {
    hide Apply, Enabled, BatchSpent, Inv, Initial;
    var before, upTo := es[..i], es[..i + 1];
    LegalPrefix(feeds, w0, es, i + 1);
    assert upTo[..|upTo| - 1] == before;
    RunKeepsInv(feeds, w0, before);
    CopyHasPriority(feeds, Exec(feeds, w0, before), k);
    BacklogBatchSpends(feeds, Exec(feeds, w0, before), k, f);
    if forall m :: i < m < |es| ==> !(es[m].Claim? && es[m].worker == k) {
      SpentUntilClaim(feeds, w0, es, i + 1, k);
      SpentCannotPersist(feeds, Exec(feeds, w0, es), k, g);
      assert false;
    }
  }

  lemma CopyHasPriority(feeds: Feeds, w: World, k: WorkerId)
    requires Inv(feeds, w) && k in w.workers
    ensures At(w, k) && w.db.ops[w.workers[k].op].priority == Mine(w, k).priority
  {
    assert WorkerOk(feeds, w, k);
  }

  lemma PriorityStays(feeds: Feeds, w: World, e: Event, id: OpId)
    requires Enabled(feeds, w, e) && id in w.db.ops
    ensures id in Apply(feeds, w, e).db.ops && Apply(feeds, w, e).db.ops[id].priority == w.db.ops[id].priority
  {
    hide Enabled, Apply;
    if OfWorker(e) {
      WorkerRow(feeds, w, e, id);
    } else {
      OtherRow(feeds, w, e, id);
    }
  }

  lemma {:induction false} PriorityFixed(feeds: Feeds, w0: World, es: seq<Event>, n: nat, id: OpId)
    requires Legal(feeds, w0, es) && n <= |es| && Legal(feeds, w0, es[..n]) && id in Exec(feeds, w0, es[..n]).db.ops
    ensures id in Exec(feeds, w0, es).db.ops
    ensures Exec(feeds, w0, es).db.ops[id].priority == Exec(feeds, w0, es[..n]).db.ops[id].priority
  {
    hide Apply, Enabled;
    if n == |es| {
      assert es[..n] == es;
    } else {
      var front := es[..|es| - 1];
      assert front[..n] == es[..n];
      PriorityFixed(feeds, w0, front, n, id);
      PriorityStays(feeds, Exec(feeds, w0, front), es[|es| - 1], id);
    }
  }

  lemma CallStays(feeds: Feeds, w: World, e: Event, k: WorkerId)
    requires Enabled(feeds, w, e) && k in Apply(feeds, w, e).workers && !(e.Claim? && e.worker == k)
    ensures k in w.workers && w.workers[k].op == Apply(feeds, w, e).workers[k].op
  {
    hide BatchResult, RowsOf, Merge, Judge, Scanned, Clamp, Failed, IsNext;
  }

  /** A running call began with a claim, the last one of its worker. */
  lemma {:induction false} LastClaim(feeds: Feeds, w0: World, es: seq<Event>, k: WorkerId) returns (m: nat)
    requires Initial(w0) && Legal(feeds, w0, es) && k in Exec(feeds, w0, es).workers
    ensures m < |es| && es[m].Claim? && es[m].worker == k && es[m].id == Exec(feeds, w0, es).workers[k].op
    ensures forall n :: m < n < |es| ==> !(es[n].Claim? && es[n].worker == k)
  {
    hide Enabled, Initial, Clamp;
    if es == [] {
      NoWorkersYet(w0);
      assert false;
    } else if es[|es| - 1].Claim? && es[|es| - 1].worker == k {
      m := |es| - 1;
    } else {
      CallStays(feeds, Exec(feeds, w0, es[..|es| - 1]), es[|es| - 1], k);
      m := LastClaim(feeds, w0, es[..|es| - 1], k);
    }
  }

  /** No interactive operation could be claimed. */
  ghost predicate NoInteractive(w: World) {
    forall j :: j in w.db.ops && w.db.ops[j].priority > 0 ==> !Available(w.db.ops[j], w.now, true)
  }

  lemma BacklogClaimedLast(feeds: Feeds, w: World, e: Event)
    requires e.Claim? && Enabled(feeds, w, e) && w.db.ops[e.id].priority <= 0
    ensures NoInteractive(w)
  {
    forall j | j in w.db.ops && w.db.ops[j].priority > 0
      ensures !Available(w.db.ops[j], w.now, true)
    {
      assert Available(w.db.ops[j], w.now, e.backlog) ==> Before(w.db.ops[e.id], e.id, w.db.ops[j], j);
    }
  }

  /** Event `m` is a claim of operation `id` by worker `k`, made when no interactive operation could be
      claimed, and the worker has committed no batch since. */
  ghost predicate BacklogTurn(feeds: Feeds, w0: World, es: seq<Event>, k: WorkerId, id: OpId, m: nat)
    requires m < |es|
  {
    && es[m].Claim? && es[m].worker == k && es[m].id == id
    && Legal(feeds, w0, es[..m]) && NoInteractive(Exec(feeds, w0, es[..m]))
    && forall n :: m < n < |es| ==> !(es[n].PersistBatch? && es[n].worker == k)
  }

  lemma StepAt(feeds: Feeds, w0: World, es: seq<Event>, n: nat)
    requires Legal(feeds, w0, es) && n < |es|
    ensures Legal(feeds, w0, es[..n]) && Enabled(feeds, Exec(feeds, w0, es[..n]), es[n])
  {
    LegalPrefix(feeds, w0, es, n + 1);
    assert es[..n + 1][..n] == es[..n];
  }

  /** Main result. In every run: before a worker commits a batch of a backlog operation it claimed that
      operation at a moment when no interactive one could be claimed, and has committed nothing since. */
  lemma InteractiveFirst(feeds: Feeds, w0: World, es: seq<Event>, k: WorkerId, f: RawRecord -> bool)
    requires Initial(w0) && WellFormedFeeds(feeds) && Legal(feeds, w0, es)
    requires Enabled(feeds, Exec(feeds, w0, es), PersistBatch(k, f))
    requires var w := Exec(feeds, w0, es); w.db.ops[w.workers[k].op].priority <= 0
    ensures exists m: nat :: m < |es| && BacklogTurn(feeds, w0, es, k, Exec(feeds, w0, es).workers[k].op, m)
  {
    var id := Exec(feeds, w0, es).workers[k].op;
    hide Apply, Initial, Inv, IsNext;
    var m := LastClaim(feeds, w0, es, k);
    StepAt(feeds, w0, es, m);
    PriorityFixed(feeds, w0, es, m, id);
    BacklogClaimedLast(feeds, Exec(feeds, w0, es[..m]), es[m]);
    forall n | m < n < |es|
      ensures !(es[n].PersistBatch? && es[n].worker == k)
    {
      OneBatchSinceClaim(feeds, w0, es, k, m, n, f);
    }
    assert BacklogTurn(feeds, w0, es, k, id, m);
  }

  lemma OneBatchSinceClaim(feeds: Feeds, w0: World, es: seq<Event>, k: WorkerId, m: nat, n: nat, f: RawRecord -> bool)
    requires Initial(w0) && WellFormedFeeds(feeds) && Legal(feeds, w0, es)
    requires Enabled(feeds, Exec(feeds, w0, es), PersistBatch(k, f))
    requires m < n < |es| && es[m].Claim? && es[m].worker == k && es[m].id == Exec(feeds, w0, es).workers[k].op
    requires Exec(feeds, w0, es).db.ops[es[m].id].priority <= 0
    requires forall i :: m < i < |es| ==> !(es[i].Claim? && es[i].worker == k)
    ensures !(es[n].PersistBatch? && es[n].worker == k)
  {
    if es[n].PersistBatch? && es[n].worker == k {
      StepAt(feeds, w0, es, n);
      PersistsItsClaim(feeds, w0, es, k, m, n);
      PriorityFixed(feeds, w0, es, n, es[m].id);
      OneBacklogBatchPerClaim(feeds, w0, es, n, k, es[n].fails, f);
      assert false;
    }
  }

  /** A commit works on the operation its call claimed. */
  lemma PersistsItsClaim(feeds: Feeds, w0: World, es: seq<Event>, k: WorkerId, m: nat, n: nat)
    requires Initial(w0) && Legal(feeds, w0, es) && m < n < |es| && es[m].Claim? && es[m].worker == k
    requires forall i :: m < i < |es| ==> !(es[i].Claim? && es[i].worker == k)
    requires Legal(feeds, w0, es[..n]) && Enabled(feeds, Exec(feeds, w0, es[..n]), es[n])
    requires es[n].PersistBatch? && es[n].worker == k
    ensures At(Exec(feeds, w0, es[..n]), k) && Exec(feeds, w0, es[..n]).workers[k].op == es[m].id
  {
    assert At(Exec(feeds, w0, es[..n]), k);
    var m' := LastClaim(feeds, w0, es[..n], k);
    assert es[..n][m] == es[m] && es[..n][m'] == es[m'];
    assert m' == m;
  }
}
