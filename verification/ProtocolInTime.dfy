/** What holds in addition while no call outlives its lease: every call works alone on its operation, so
    its own object is the row. */
module ProtocolInTime {
  import opened RawItems
  import opened ImportRun
  import opened Protocol
  import opened ProtocolSafety

  /** The call holds its operation: its claim is on the row, its lease runs, and what it knows is true. */
  predicate Holder(w: World, k: WorkerId)
    requires k in w.workers
  {
    var wk := w.workers[k];
    && wk.op in w.db.ops && w.db.ops[wk.op] == wk.copy
    && wk.copy.claim == Some(k) && wk.copy.lease == Some(wk.lease) && w.now < wk.lease
    && (wk.pc.Looping? || wk.pc.Compared? ==> wk.pc.locals.tally == wk.copy.counts)
  }

  /** The operation has at most one run, and the two agree. */
  predicate Ledger(db: Durable, id: OpId)
    requires id in db.ops
  {
    match db.ops[id].run
    case None => RunsOf(db, id) == [] && db.ops[id].counts == ZERO && db.ops[id].offset == 0
    case Some(run) => run == 0 && |RunsOf(db, id)| == 1 && RunsOf(db, id)[0].tally == db.ops[id].counts
  }

  ghost predicate Sole(w: World) {
    && (forall id :: id in w.db.ops ==> Ledger(w.db, id))
    && (forall k :: k in w.workers ==> Holder(w, k))
  }

  /** The claim names its holder. */
  lemma HoldersDiffer(w: World, j: WorkerId, k: WorkerId)
    requires Sole(w) && j in w.workers && k in w.workers && w.workers[j].op == w.workers[k].op
    ensures j == k
  {
    assert Holder(w, j) && Holder(w, k);
  }

  /** An available operation is in nobody's hands. */
  lemma NoHolderOf(w: World, id: OpId, backlog: bool, k: WorkerId)
    requires Sole(w) && id in w.db.ops && Available(w.db.ops[id], w.now, backlog) && k in w.workers
    ensures w.workers[k].op != id
  {
    assert Holder(w, k);
  }

  /** What the call changed in its object is what it changes in the row. */
  lemma MergeSelf(row: Operation, after: Operation)
    ensures Merge(row, row, after) == after
  {
  }

  ghost predicate HeldAfter(w': World, k: WorkerId, id: OpId) {
    id in w'.db.ops && Ledger(w'.db, id) && (k in w'.workers ==> Holder(w', k))
  }

  ghost predicate Held(w: World, k: WorkerId) {
    k in w.workers && Holder(w, k) && Ledger(w.db, w.workers[k].op)
  }

  predicate SavesOnly(e: Event) {
    || e.PublishExport? || e.MarkPublished? || e.StartAck? || e.GatewayAck? || e.RecordComplete? || e.Release?
    || e.FailOperation? || e.Crash? || e.ScanBatch?
  }

  lemma SavesKeepSole(feeds: Feeds, w: World, e: Event)
    requires SavesOnly(e) && Enabled(feeds, w, e) && Held(w, e.worker)
    ensures HeldAfter(Apply(feeds, w, e), e.worker, w.workers[e.worker].op)
  {
    hide Merge, Judge, Scanned, Changed, Available;
    forall after
      ensures Merge(Mine(w, e.worker), Mine(w, e.worker), after) == after
    {
      MergeSelf(Mine(w, e.worker), after);
    }
  }

  lemma RunsKeepSole(feeds: Feeds, w: World, e: Event)
    requires e.StartImport? || e.LoadRun? || e.FinishRun? || e.FailRun? || e.MarkCommitted?
    requires Enabled(feeds, w, e) && Held(w, e.worker)
    ensures HeldAfter(Apply(feeds, w, e), e.worker, w.workers[e.worker].op)
  {
    hide Merge, Available;
    forall after
      ensures Merge(Mine(w, e.worker), Mine(w, e.worker), after) == after
    {
      MergeSelf(Mine(w, e.worker), after);
    }
  }

  lemma BatchKeepsSole(feeds: Feeds, w: World, k: WorkerId, fails: RawRecord -> bool)
    requires Enabled(feeds, w, PersistBatch(k, fails)) && Held(w, k)
    ensures HeldAfter(Apply(feeds, w, PersistBatch(k, fails)), k, w.workers[k].op)
  {
    hide Merge, Available, BatchResult, RowsOf;
    var wk := w.workers[k];
    var (store, tally) := BatchResult(w.db.store, wk.pc.locals, wk.pc.processable, wk.pc.skipped, fails);
    MergeSelf(wk.copy, Progressed(wk.copy, NextUpto(feeds(wk.op), wk), tally));
  }

  lemma WorkerEventKeepsHeld(feeds: Feeds, w: World, e: Event)
    requires OfWorker(e) && Enabled(feeds, w, e) && Held(w, e.worker)
    ensures HeldAfter(Apply(feeds, w, e), e.worker, w.workers[e.worker].op)
  {
    hide Enabled, Apply, HeldAfter, Held;
    if SavesOnly(e) {
      SavesKeepSole(feeds, w, e);
    } else if e.PersistBatch? {
      BatchKeepsSole(feeds, w, e.worker, e.fails);
    } else {
      RunsKeepSole(feeds, w, e);
    }
  }

  lemma LocalKeepsSole(w: World, w': World, k: WorkerId, id: OpId)
    requires Sole(w) && k in w.workers && w.workers[k].op == id && Local(w, w', k, id) && w'.now == w.now
    requires HeldAfter(w', k, id)
    ensures Sole(w')
  {
    forall j | j in w'.db.ops && j != id
      ensures Ledger(w'.db, j)
    {
      assert Ledger(w.db, j);
    }
    forall j | j in w'.workers && j != k
      ensures Holder(w', j)
    {
      assert Holder(w, j) && Holder(w, k);
    }
  }

  lemma WorkerEventsTakeNoTime(feeds: Feeds, w: World, e: Event)
    requires OfWorker(e) && Enabled(feeds, w, e)
    ensures Apply(feeds, w, e).now == w.now
  {
    hide Merge, BatchResult, Judge, Scanned, Changed, RowsOf, Clamp, Failed, AfterImport;
  }

  lemma WorkerEventKeepsSole(feeds: Feeds, w: World, e: Event)
    requires Sole(w) && OfWorker(e) && Enabled(feeds, w, e)
    ensures Sole(Apply(feeds, w, e))
  {
    ActsOnWorker(feeds, w, e);
    assert Holder(w, e.worker) && Ledger(w.db, w.workers[e.worker].op);
    hide Enabled, Apply, HeldAfter, Local;
    WorkerEventKeepsHeld(feeds, w, e);
    WorkerEventsAreLocal(feeds, w, e);
    WorkerEventsTakeNoTime(feeds, w, e);
    LocalKeepsSole(w, Apply(feeds, w, e), e.worker, w.workers[e.worker].op);
  }

  lemma ClampPositive(seconds: int)
    ensures Clamp(60, seconds, 86400) > 0
  {
  }

  lemma ClaimKeepsSole(feeds: Feeds, w: World, e: Event)
    requires Sole(w) && e.Claim? && Enabled(feeds, w, e)
    ensures Sole(Apply(feeds, w, e))
  {
    ClaimTakes(feeds, w, e);
    hide Apply, Enabled, Available, Clamp;
    ClampPositive(e.seconds);
    forall k | k in w.workers
      ensures w.workers[k].op != e.id
    {
      NoHolderOf(w, e.id, e.backlog, k);
    }
    FreshClaim(w, e.worker, e.id, w.now + Clamp(60, e.seconds, 86400));
  }

  lemma FreshClaim(w: World, k: WorkerId, id: OpId, lease: int)
    requires Sole(w) && id in w.db.ops && k !in w.workers && w.now < lease
    requires forall j :: j in w.workers ==> w.workers[j].op != id
    ensures Sole(AfterClaim(w, k, id, lease))
  {
    var w' := AfterClaim(w, k, id, lease);
    forall j | j in w'.workers && j != k
      ensures Holder(w', j)
    {
      assert Holder(w, j);
    }
    forall j | j in w'.db.ops
      ensures Ledger(w'.db, j)
    {
      assert Ledger(w.db, j);
    }
  }

  /** Retry touches a failed operation, and nobody works on one. */
  lemma RetryKeepsSole(feeds: Feeds, w: World, id: OpId)
    requires Inv(feeds, w) && Sole(w) && Enabled(feeds, w, Retry(id))
    ensures Sole(Apply(feeds, w, Retry(id)))
  {
    var w' := Apply(feeds, w, Retry(id));
    forall k | k in w'.workers
      ensures Holder(w', k)
    {
      assert WorkerOk(feeds, w, k) && Holder(w, k);
    }
    forall j | j in w'.db.ops
      ensures Ledger(w'.db, j)
    {
      assert Ledger(w.db, j);
    }
  }

  lemma OtherEventsKeepSole(feeds: Feeds, w: World, e: Event)
    requires Inv(feeds, w) && Sole(w) && Enabled(feeds, w, e) && Punctual(w, e)
    requires e.Create? || e.Adopt? || e.Tick?
    ensures Sole(Apply(feeds, w, e))
  {
    var w' := Apply(feeds, w, e);
    forall k | k in w'.workers
      ensures Holder(w', k)
    {
      assert Holder(w, k);
    }
    forall j | j in w'.db.ops
      ensures Ledger(w'.db, j)
    {
      assert j in w.db.ops ==> Ledger(w.db, j);
    }
  }

  lemma EventKeepsSole(feeds: Feeds, w: World, e: Event)
    requires Inv(feeds, w) && Sole(w) && Enabled(feeds, w, e) && Punctual(w, e)
    ensures Sole(Apply(feeds, w, e))
  {
    hide Inv, Sole, Enabled, Apply, Punctual;
    if OfWorker(e) {
      WorkerEventKeepsSole(feeds, w, e);
    } else if e.Claim? {
      ClaimKeepsSole(feeds, w, e);
    } else if e.Retry? {
      RetryKeepsSole(feeds, w, e.id);
    } else {
      OtherEventsKeepSole(feeds, w, e);
    }
  }

  /** Main result. If no call outlives its lease, every call is the only one on its operation and knows
      its row, in every reachable state. */
  lemma {:induction false} InTimeMeansSole(feeds: Feeds, w0: World, es: seq<Event>)
    requires Initial(w0) && WellFormedFeeds(feeds) && Legal(feeds, w0, es) && InTime(feeds, w0, es)
    ensures Sole(Exec(feeds, w0, es))
  {
    if es != [] {
      var front := es[..|es| - 1];
      InTimeMeansSole(feeds, w0, front);
      RunKeepsInv(feeds, w0, front);
      EventKeepsSole(feeds, Exec(feeds, w0, front), es[|es| - 1]);
    }
  }
}
