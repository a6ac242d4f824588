/** What holds in every reachable state of the ingestion protocol, however many calls work on one
    operation. */
module ProtocolSafety {
  import opened RawItems
  import opened ImportRun
  import opened Protocol

  /** Some committed row under the record's source and external id carried what the record carries. */
  ghost predicate Settled(seen: set<(Key, RawItem)>, r: RawRecord) {
    exists item :: (Key(r.source, r.externalId), item) in seen && SameContent(item, r)
  }

  /** Title, content, category, tags and score are the record's, and the address and the date are those of
      the record or of its document. */
  predicate SameContent(item: RawItem, r: RawRecord) {
    && item.title == r.title && item.content == r.content
    && item.raw.category == r.raw.category && item.raw.tags == r.raw.tags && item.raw.cvss == r.raw.cvss
    && FirstText([item.raw.url, item.raw.link])
         in {FirstText([r.raw.url, r.raw.link]), FirstText([r.url, r.raw.url, r.raw.link])}
    && FirstText([item.raw.publishedAt, item.raw.published])
         in {FirstText([r.raw.publishedAt, r.raw.published]), r.publishedAt}
  }

  lemma WrittenIsSame(r: RawRecord)
    ensures SameContent(Upserted(r), r)
  {
  }

  lemma UnchangedIsSame(item: RawItem, sourceType: string, r: RawRecord)
    requires Unchanged(item, sourceType, r)
    ensures SameContent(item, r)
  {
    UnchangedIff(item, sourceType, r);
  }

  ghost predicate SettledUpTo(seen: set<(Key, RawItem)>, feed: seq<RawRecord>, n: nat)
    requires n <= |feed|
  {
    forall i :: 0 <= i < n ==> Settled(seen, feed[i])
  }

  predicate HasExport(s: State) {
    s in {Published, CentralImporting, Committed, Acknowledging, Completed, Partial}
  }

  predicate PastImport(s: State) {
    s in {Committed, Acknowledging, Completed, Partial}
  }

  predicate LateStage(s: Stage) {
    s in {AtCommitted, AtAcknowledging, AtCompleted}
  }

  /** The import of the operation is over: its whole export is in, or it is backlog. */
  ghost predicate Through(feeds: Feeds, seen: set<(Key, RawItem)>, op: Operation, id: OpId) {
    op.run.Some? && (op.priority <= 0 || SettledUpTo(seen, feeds(id), |feeds(id)|))
  }

  /** Offset, state and stage, in the row or in a call's copy of it, claim no more than was reached. */
  ghost predicate Earned(feeds: Feeds, seen: set<(Key, RawItem)>, op: Operation, id: OpId) {
    && op.offset <= |feeds(id)| && SettledUpTo(seen, feeds(id), op.offset)
    && (HasExport(op.state) || op.stage != ExportReady ==> op.checkpoint.Some?)
    && (PastImport(op.state) || LateStage(op.stage) ==> Through(feeds, seen, op, id))
  }

  predicate RunPlaced(db: Durable, id: OpId, op: Operation) {
    op.run.Some? ==> HasRun(db, id, op.run)
  }

  /** No durable run says that its processing is incomplete. */
  predicate RunsOk(runs: seq<Run>) {
    forall i :: 0 <= i < |runs| ==> runs[i].complete != Some(false)
  }

  ghost predicate OpOk(feeds: Feeds, w: World, id: OpId)
    requires id in w.db.ops
  {
    && Earned(feeds, w.seen, w.db.ops[id], id) && RunPlaced(w.db, id, w.db.ops[id])
    && RunsOk(RunsOf(w.db, id))
    && (id in w.acks ==> Through(feeds, w.seen, w.db.ops[id], id))
  }

  /** What is set in `before` is still set in `after`, and the priority is the same. */
  predicate Kept(before: Operation, after: Operation) {
    && after.priority == before.priority
    && (before.checkpoint.Some? ==> after.checkpoint.Some?)
    && (before.run.Some? ==> after.run.Some?)
  }

  ghost predicate WorkerOk(feeds: Feeds, w: World, k: WorkerId)
    requires k in w.workers
  {
    var wk := w.workers[k];
    && wk.op in w.db.ops && wk.size >= 1
    && Earned(feeds, w.seen, wk.copy, wk.op) && RunPlaced(w.db, wk.op, wk.copy)
    && Kept(wk.copy, w.db.ops[wk.op])
    && PcOk(feeds, w.seen, wk)
  }

  ghost predicate PcOk(feeds: Feeds, seen: set<(Key, RawItem)>, wk: Worker) {
    match wk.pc
    case Begin => Resumable(wk.copy.state)
    case Exported => Resumable(wk.copy.state) && wk.copy.checkpoint.Some?
    case Fetching => wk.copy.state == CentralImporting && wk.copy.run.Some?
    case Looping(l) => InImport(wk, l)
    case Compared(l, processable, _) =>
      && InImport(wk, l) && l.offset < |feeds(wk.op)|
      && ScanOk(seen, feeds(wk.op)[l.offset..Min(l.offset + wk.size, |feeds(wk.op)|)], processable)
    case Imported => wk.copy.state == CentralImporting && Through(feeds, seen, wk.copy, wk.op)
    case Broken => wk.copy.state == CentralImporting
    case Acking => wk.copy.state == Acknowledging
    case Acked => wk.copy.state == Acknowledging
    case Done => PastImport(wk.copy.state)
  }

  /** The loop is at the offset the call committed last. */
  predicate InImport(wk: Worker, l: Locals) {
    && wk.copy.state == CentralImporting && wk.copy.run.Some? && l.offset == wk.copy.offset
  }

  ghost predicate ScanOk(seen: set<(Key, RawItem)>, batch: seq<RawRecord>, processable: seq<RawRecord>) {
    && (forall r :: r in processable ==> r in batch)
    && (forall r :: r in batch ==> r in processable || Settled(seen, r))
    && DistinctKeys(processable)
  }

  /** Committed rows are remembered, and a key once committed stays. */
  ghost predicate History(w: World) {
    && (forall k :: k in w.db.store.rows ==> (k, w.db.store.rows[k]) in w.seen)
    && (forall p :: p in w.seen ==> p.0 in w.db.store.rows)
  }

  ghost predicate AllOps(feeds: Feeds, w: World) {
    forall id :: id in w.db.ops ==> OpOk(feeds, w, id)
  }

  ghost predicate AllWorkers(feeds: Feeds, w: World) {
    forall k :: k in w.workers ==> WorkerOk(feeds, w, k)
  }

  ghost predicate Known(w: World) {
    forall id :: id in w.db.runs || id in w.acks ==> id in w.db.ops
  }

  ghost predicate Inv(feeds: Feeds, w: World) {
    AllOps(feeds, w) && AllWorkers(feeds, w) && Known(w) && History(w)
  }

  ghost predicate WellFormedFeeds(feeds: Feeds) {
    forall id :: DistinctKeys(feeds(id))
  }

  // ---------------------------------------------------------------- what only grows

  /** Committed content, run lists and identities of operations are never lost. */
  ghost predicate Later(w: World, w': World) {
    && w.seen <= w'.seen
    && (forall id :: id in w.db.ops ==> id in w'.db.ops && Kept(w.db.ops[id], w'.db.ops[id]))
    && (forall id :: |RunsOf(w.db, id)| <= |RunsOf(w'.db, id)|)
  }

  lemma SettledMonotone(a: set<(Key, RawItem)>, b: set<(Key, RawItem)>)
    requires a <= b
    ensures forall r :: Settled(a, r) ==> Settled(b, r)
  {
  }

  lemma EarnedMonotone(feeds: Feeds, a: set<(Key, RawItem)>, b: set<(Key, RawItem)>, op: Operation, id: OpId)
    requires a <= b
    ensures Earned(feeds, a, op, id) ==> Earned(feeds, b, op, id)
    ensures Through(feeds, a, op, id) ==> Through(feeds, b, op, id)
  {
    SettledMonotone(a, b);
  }

  lemma PcMonotone(feeds: Feeds, a: set<(Key, RawItem)>, b: set<(Key, RawItem)>, wk: Worker)
    requires a <= b && PcOk(feeds, a, wk)
    ensures PcOk(feeds, b, wk)
  {
    SettledMonotone(a, b);
  }

  lemma WorkerStaysOk(feeds: Feeds, w: World, w': World, k: WorkerId)
    requires k in w.workers && WorkerOk(feeds, w, k) && Later(w, w')
    requires k in w'.workers && w'.workers[k] == w.workers[k]
    ensures WorkerOk(feeds, w', k)
  {
    hide Earned, PcOk;
    var wk := w.workers[k];
    EarnedMonotone(feeds, w.seen, w'.seen, wk.copy, wk.op);
    PcMonotone(feeds, w.seen, w'.seen, wk);
  }

  lemma OpStaysOk(feeds: Feeds, w: World, w': World, id: OpId)
    requires id in w.db.ops && OpOk(feeds, w, id) && Later(w, w')
    requires w'.db.ops[id] == w.db.ops[id] && RunsOk(RunsOf(w'.db, id)) && (id in w'.acks ==> id in w.acks)
    ensures OpOk(feeds, w', id)
  {
    hide Earned, Through, Kept, RunsOk;
    EarnedMonotone(feeds, w.seen, w'.seen, w.db.ops[id], id);
  }

  // ---------------------------------------------------------------- one commit of a call

  /** Whatever other calls wrote to the row meanwhile: a commit that leaves the call's own object
      earned leaves the row earned. */
  lemma MergeEarned(feeds: Feeds, seen: set<(Key, RawItem)>, row: Operation, before: Operation, after: Operation,
                    id: OpId)
    requires Earned(feeds, seen, row, id) && Earned(feeds, seen, after, id)
    requires Kept(before, row) && Kept(before, after)
    ensures Earned(feeds, seen, Merge(row, before, after), id)
    ensures Kept(row, Merge(row, before, after)) && Kept(after, Merge(row, before, after))
  {
    hide SettledUpTo;
  }

  lemma MergePlaced(db: Durable, id: OpId, row: Operation, before: Operation, after: Operation)
    requires RunPlaced(db, id, row) && RunPlaced(db, id, after)
    ensures RunPlaced(db, id, Merge(row, before, after))
  {
  }

  lemma MergeThrough(feeds: Feeds, seen: set<(Key, RawItem)>, row: Operation, merged: Operation, id: OpId)
    requires Through(feeds, seen, row, id) && Kept(row, merged)
    ensures Through(feeds, seen, merged, id)
  {
    hide SettledUpTo;
  }

  lemma SaveOk(feeds: Feeds, w: World, k: WorkerId, copy: Operation, pc: Pc)
    requires k in w.workers && WorkerOk(feeds, w, k) && OpOk(feeds, w, w.workers[k].op)
    requires Kept(Mine(w, k), copy) && Earned(feeds, w.seen, copy, w.workers[k].op)
    requires RunPlaced(w.db, w.workers[k].op, copy) && PcOk(feeds, w.seen, w.workers[k].(copy := copy, pc := pc))
    ensures Later(w, Save(w, k, copy, pc))
    ensures OpOk(feeds, Save(w, k, copy, pc), w.workers[k].op) && WorkerOk(feeds, Save(w, k, copy, pc), k)
  {
    hide Earned, PcOk, Merge, Through, RunsOk;
    var id := w.workers[k].op;
    MergeEarned(feeds, w.seen, w.db.ops[id], Mine(w, k), copy, id);
    MergePlaced(w.db, id, w.db.ops[id], Mine(w, k), copy);
    if id in w.acks {
      MergeThrough(feeds, w.seen, w.db.ops[id], Merge(w.db.ops[id], Mine(w, k), copy), id);
    }
  }

  // ---------------------------------------------------------------- one lemma per kind of event

  /** What an event of worker `k` leaves of its operation and of the call. */
  ghost predicate StepOk(feeds: Feeds, w: World, w': World, k: WorkerId, id: OpId) {
    && Later(w, w') && id in w'.db.ops && OpOk(feeds, w', id)
    && (k in w'.workers ==> WorkerOk(feeds, w', k)) && History(w')
  }

  ghost predicate OwnOk(feeds: Feeds, w: World, k: WorkerId) {
    k in w.workers && WorkerOk(feeds, w, k) && OpOk(feeds, w, w.workers[k].op) && History(w)
  }

  lemma SaveStep(feeds: Feeds, w: World, k: WorkerId, copy: Operation, pc: Pc)
    requires OwnOk(feeds, w, k)
    requires Kept(Mine(w, k), copy) && Earned(feeds, w.seen, copy, w.workers[k].op)
    requires RunPlaced(w.db, w.workers[k].op, copy) && PcOk(feeds, w.seen, w.workers[k].(copy := copy, pc := pc))
    ensures StepOk(feeds, w, Save(w, k, copy, pc), k, w.workers[k].op)
    ensures StepOk(feeds, w, Leave(Save(w, k, copy, pc), k), k, w.workers[k].op)
  {
    SaveOk(feeds, w, k, copy, pc);
    hide Earned, PcOk, Merge, Through, RunsOk, Kept;
  }

  lemma ExportEventsOk(feeds: Feeds, w: World, e: Event)
    requires e.PublishExport? || e.MarkPublished?
    requires Enabled(feeds, w, e) && OwnOk(feeds, w, e.worker)
    ensures StepOk(feeds, w, Apply(feeds, w, e), e.worker, w.workers[e.worker].op)
  {
    hide SettledUpTo, Merge, StepOk, History;
    var copy := Mine(w, e.worker);
    if e.PublishExport? {
      SaveStep(feeds, w, e.worker, copy.(exported := e.total, checkpoint := Some(e.checkpoint)), Exported);
    } else {
      SaveStep(feeds, w, e.worker, copy.(state := Published, stage := AtPublished), Begin);
    }
  }

  lemma AckEventsOk(feeds: Feeds, w: World, e: Event)
    requires e.StartAck? || e.RecordComplete? || e.Release?
    requires Enabled(feeds, w, e) && OwnOk(feeds, w, e.worker)
    ensures StepOk(feeds, w, Apply(feeds, w, e), e.worker, w.workers[e.worker].op)
  {
    hide SettledUpTo, Merge, StepOk, History;
    var copy := Mine(w, e.worker);
    if e.StartAck? {
      SaveStep(feeds, w, e.worker, copy.(state := Acknowledging, stage := AtAcknowledging), Acking);
    } else if e.RecordComplete? {
      SaveStep(feeds, w, e.worker, AfterComplete(copy), Done);
    } else {
      SaveStep(feeds, w, e.worker, copy.(claim := None, lease := None), Done);
    }
  }

  /** The Gateway hears of an operation whose import a call has seen through. */
  lemma GatewayAckOk(feeds: Feeds, w: World, k: WorkerId)
    requires Enabled(feeds, w, GatewayAck(k)) && OwnOk(feeds, w, k)
    ensures StepOk(feeds, w, Apply(feeds, w, GatewayAck(k)), k, w.workers[k].op)
  {
    hide SettledUpTo, Merge;
  }

  lemma MarkCommittedOk(feeds: Feeds, w: World, k: WorkerId)
    requires Enabled(feeds, w, MarkCommitted(k)) && OwnOk(feeds, w, k)
    ensures StepOk(feeds, w, Apply(feeds, w, MarkCommitted(k)), k, w.workers[k].op)
    ensures RunAt(w, k).complete != Some(false)
  {
    hide SettledUpTo, Merge, StepOk, History;
    SaveStep(feeds, w, k, AfterImport(Mine(w, k), RunAt(w, k)), Begin);
  }

  lemma LeavingOk(feeds: Feeds, w: World, e: Event)
    requires e.FailOperation? || e.Crash?
    requires Enabled(feeds, w, e) && OwnOk(feeds, w, e.worker)
    ensures StepOk(feeds, w, Apply(feeds, w, e), e.worker, w.workers[e.worker].op)
  {
    hide SettledUpTo, Classify, PcOk;
  }

  /** Writing a run row of an operation. */
  lemma RunRowOk(feeds: Feeds, w: World, k: WorkerId, run: Run)
    requires OwnOk(feeds, w, k) && RunFound(w, k) && run.complete != Some(false)
    ensures var w' := w.(db := SetRun(w.db, w.workers[k].op, Mine(w, k).run.value, run));
            Later(w, w') && OwnOk(feeds, w', k)
  {
    hide Earned, PcOk, Through;
    var id := w.workers[k].op;
    var w' := w.(db := SetRun(w.db, id, Mine(w, k).run.value, run));
    OpStaysOk(feeds, w, w', id);
    WorkerStaysOk(feeds, w, w', k);
  }

  lemma PcStep(feeds: Feeds, w: World, k: WorkerId, size: nat, pc: Pc)
    requires OwnOk(feeds, w, k) && size >= 1 && PcOk(feeds, w.seen, w.workers[k].(size := size, pc := pc))
    ensures StepOk(feeds, w, w.(workers := w.workers[k := w.workers[k].(size := size, pc := pc)]), k, w.workers[k].op)
  {
    hide Earned, PcOk, Through;
  }

  lemma StepAfter(feeds: Feeds, w: World, w1: World, w': World, k: WorkerId, id: OpId)
    requires Later(w, w1) && StepOk(feeds, w1, w', k, id)
    ensures StepOk(feeds, w, w', k, id)
  {
    hide OpOk, WorkerOk, History;
  }

  lemma RunEventsOk(feeds: Feeds, w: World, e: Event)
    requires e.LoadRun? || e.FinishRun? || e.FailRun?
    requires Enabled(feeds, w, e) && OwnOk(feeds, w, e.worker)
    ensures StepOk(feeds, w, Apply(feeds, w, e), e.worker, w.workers[e.worker].op)
  {
    hide SettledUpTo, StepOk, History, Later;
    var k, w' := e.worker, Apply(feeds, w, e);
    var id := w.workers[k].op;
    var run := RunsOf(w'.db, id)[Mine(w, k).run.value];
    assert RunsOk(RunsOf(w.db, id));
    RunRowOk(feeds, w, k, run);
    var w1 := w.(db := SetRun(w.db, id, Mine(w, k).run.value, run));
    PcStep(feeds, w1, k, w'.workers[k].size, w'.workers[k].pc);
    StepAfter(feeds, w, w1, w', k, id);
  }

  lemma StartImportOk(feeds: Feeds, w: World, k: WorkerId)
    requires Enabled(feeds, w, StartImport(k)) && OwnOk(feeds, w, k)
    ensures StepOk(feeds, w, Apply(feeds, w, StartImport(k)), k, w.workers[k].op)
  {
    hide SettledUpTo, StepOk, History;
    var id := w.workers[k].op;
    var w1 := if Mine(w, k).run.Some? then w else w.(db := AddRun(w.db, id));
    OpStaysOk(feeds, w, w1, id);
    WorkerStaysOk(feeds, w, w1, k);
    HistoryOf(w, w1);
    SaveStep(feeds, w1, k, Importing(Mine(w, k), |RunsOf(w.db, id)|), Fetching);
    StepAfter(feeds, w, w1, Apply(feeds, w, StartImport(k)), k, id);
  }

  // ---------------------------------------------------------------- the two steps of a batch

  lemma {:induction false} KeepDistinct(v: RawRecord -> Verdict, batch: seq<RawRecord>)
    requires DistinctKeys(batch)
    ensures DistinctKeys(Keep(v, batch))
    ensures forall r :: r in Keep(v, batch) ==> r in batch
    ensures forall r :: r in batch && !v(r).Same? ==> r in Keep(v, batch)
  {
    if batch != [] {
      var front, z := batch[..|batch| - 1], batch[|batch| - 1];
      assert batch == front + [z];
      KeepDistinct(v, front);
      LastHasOwnKey(front, z);
    }
  }

  /** What the scan keeps back is settled already. */
  lemma ScanSettles(seen: set<(Key, RawItem)>, s: Store, batch: seq<RawRecord>)
    requires forall k :: k in s.rows ==> (k, s.rows[k]) in seen
    requires DistinctKeys(batch)
    ensures ScanOk(seen, batch, Changed(s, batch))
  {
    KeepDistinct(Judge(s), batch);
    forall r | r in batch && r !in Changed(s, batch)
      ensures Settled(seen, r)
    {
      assert Judge(s)(r).Same?;
      UnchangedIsSame(s.rows[KeyOf(r)], s.types[r.source], r);
      assert (KeyOf(r), s.rows[KeyOf(r)]) in seen;
    }
  }

  lemma ScanBatchOk(feeds: Feeds, w: World, k: WorkerId)
    requires Enabled(feeds, w, ScanBatch(k)) && OwnOk(feeds, w, k) && DistinctKeys(feeds(w.workers[k].op))
    ensures StepOk(feeds, w, Apply(feeds, w, ScanBatch(k)), k, w.workers[k].op)
  {
    hide Earned, Through, StepOk, RunsOk, RunPlaced, PcOk, Changed, DistinctKeys;
    var feed, wk := feeds(w.workers[k].op), w.workers[k];
    var batch := feed[wk.pc.locals.offset..NextUpto(feed, wk)];
    var w1 := w.(db := w.db.(store := Scanned(w.db.store, batch)));
    ScanPcOk(feeds, w, k);
    OpStaysOk(feeds, w, w1, wk.op);
    WorkerStaysOk(feeds, w, w1, k);
    PcStep(feeds, w1, k, wk.size, Apply(feeds, w, ScanBatch(k)).workers[k].pc);
    StepAfter(feeds, w, w1, Apply(feeds, w, ScanBatch(k)), k, wk.op);
  }

  lemma ScanPcOk(feeds: Feeds, w: World, k: WorkerId)
    requires Enabled(feeds, w, ScanBatch(k)) && OwnOk(feeds, w, k) && DistinctKeys(feeds(w.workers[k].op))
    ensures PcOk(feeds, w.seen, w.workers[k].(pc := Apply(feeds, w, ScanBatch(k)).workers[k].pc))
  {
    hide Earned, Through, RunsOk, RunPlaced, OpOk, Changed, DistinctKeys, Settled, Judge, SkipCount, ScanOk;
    var feed, wk := feeds(w.workers[k].op), w.workers[k];
    var batch := feed[wk.pc.locals.offset..NextUpto(feed, wk)];
    SliceDistinct(feed, wk.pc.locals.offset, NextUpto(feed, wk));
    ScanSettles(w.seen, Scanned(w.db.store, batch), batch);
  }

  lemma SliceDistinct(feed: seq<RawRecord>, lo: nat, hi: nat)
    requires DistinctKeys(feed) && lo <= hi <= |feed|
    ensures DistinctKeys(feed[lo..hi])
  {
  }

  lemma PersistSettles(seen: set<(Key, RawItem)>, s: Store, records: seq<RawRecord>, fails: RawRecord -> bool)
    requires forall k :: k in s.rows ==> (k, s.rows[k]) in seen
    requires DistinctKeys(records)
    ensures var rows := Persist(s, records, fails).rows;
            && (forall k :: k in s.rows ==> k in rows)
            && forall r :: r in records ==> Settled(seen + RowsOf(s.(rows := rows)), r)
  {
    var rows := Persist(s, records, fails).rows;
    var seen' := seen + RowsOf(s.(rows := rows));
    WriteAllStores(Judge(s), Persisted(s.rows, ZERO), records, fails);
    forall r | r in records
      ensures Settled(seen', r)
    {
      if Judge(s)(r).Same? {
        UnchangedIsSame(s.rows[KeyOf(r)], s.types[r.source], r);
        assert (KeyOf(r), s.rows[KeyOf(r)]) in seen';
      } else {
        assert (KeyOf(r), rows[KeyOf(r)]) in RowsOf(s.(rows := rows));
        WrittenIsSame(r);
      }
    }
  }

  lemma SliceDone(seen: set<(Key, RawItem)>, feed: seq<RawRecord>, lo: nat, hi: nat)
    requires lo <= hi <= |feed| && SettledUpTo(seen, feed, lo)
    requires forall r :: r in feed[lo..hi] ==> Settled(seen, r)
    ensures SettledUpTo(seen, feed, hi)
  {
    forall i | lo <= i < hi
      ensures Settled(seen, feed[i])
    {
      assert feed[lo..hi][i - lo] == feed[i];
    }
  }

  /** One batch commit settles the export up to the batch's end, whoever else works on the operation. */
  lemma PersistBatchSettles(feeds: Feeds, w: World, k: WorkerId, fails: RawRecord -> bool)
    requires Enabled(feeds, w, PersistBatch(k, fails)) && OwnOk(feeds, w, k)
    ensures var w', id := Apply(feeds, w, PersistBatch(k, fails)), w.workers[k].op;
            && w.workers[k].pc.locals.offset < NextUpto(feeds(id), w.workers[k])
            && w.seen <= w'.seen && SettledUpTo(w'.seen, feeds(id), NextUpto(feeds(id), w.workers[k])) && History(w')
  {
    var w', id := Apply(feeds, w, PersistBatch(k, fails)), w.workers[k].op;
    var feed, l, processable := feeds(id), w.workers[k].pc.locals, w.workers[k].pc.processable;
    PersistSettles(w.seen, Scanned(w.db.store, processable), processable, fails);
    SettledMonotone(w.seen, w'.seen);
    SliceDone(w'.seen, feed, l.offset, NextUpto(feed, w.workers[k]));
  }

  /** What a batch commit writes besides the operation row. */
  ghost function BatchRows(feeds: Feeds, w: World, k: WorkerId, store: Store, tally: Tally): World
    requires RunFound(w, k) && w.workers[k].pc.Compared?
  {
    var id, l := w.workers[k].op, w.workers[k].pc.locals;
    var run := RunProgressed(RunAt(w, k), tally, NextUpto(feeds(id), w.workers[k]), l.committed + 1);
    w.(db := SetRun(w.db, id, Mine(w, k).run.value, run).(store := store), seen := w.seen + RowsOf(store))
  }

  lemma PersistIsSave(feeds: Feeds, w: World, k: WorkerId, fails: RawRecord -> bool, store: Store, tally: Tally)
    requires Enabled(feeds, w, PersistBatch(k, fails))
    requires (store, tally) ==
             BatchResult(w.db.store, w.workers[k].pc.locals, w.workers[k].pc.processable, w.workers[k].pc.skipped,
                         fails)
    ensures var w', wk := Apply(feeds, w, PersistBatch(k, fails)), w.workers[k];
            var upto := NextUpto(feeds(wk.op), wk);
            && k in w'.workers
            && w' == Save(BatchRows(feeds, w, k, store, tally), k, Progressed(wk.copy, upto, tally), w'.workers[k].pc)
            && (w'.workers[k].pc.Imported? ==> upto == |feeds(wk.op)| || wk.copy.priority <= 0)
            && (!w'.workers[k].pc.Imported? ==>
                  w'.workers[k].pc.Looping? && w'.workers[k].pc.locals.offset == upto)
  {
    hide BatchResult, Merge, RowsOf;
  }

  lemma ProgressedOk(feeds: Feeds, seen: set<(Key, RawItem)>, wk: Worker, upto: nat, tally: Tally, pc: Pc)
    requires wk.pc.Compared? && Earned(feeds, seen, wk.copy, wk.op) && InImport(wk, wk.pc.locals)
    requires upto <= |feeds(wk.op)| && SettledUpTo(seen, feeds(wk.op), upto)
    requires pc.Imported? ==> upto == |feeds(wk.op)| || wk.copy.priority <= 0
    requires !pc.Imported? ==> pc.Looping? && pc.locals.offset == upto
    ensures Kept(wk.copy, Progressed(wk.copy, upto, tally))
    ensures Earned(feeds, seen, Progressed(wk.copy, upto, tally), wk.op)
    ensures PcOk(feeds, seen, wk.(copy := Progressed(wk.copy, upto, tally), pc := pc))
  {
    hide SettledUpTo;
  }

  lemma PersistBatchOk(feeds: Feeds, w: World, k: WorkerId, fails: RawRecord -> bool)
    requires Enabled(feeds, w, PersistBatch(k, fails)) && OwnOk(feeds, w, k)
    ensures StepOk(feeds, w, Apply(feeds, w, PersistBatch(k, fails)), k, w.workers[k].op)
  {
    PersistBatchSettles(feeds, w, k, fails);
    hide SettledUpTo, StepOk, History, BatchResult, Merge, Earned, Apply, Later, OpOk, RowsOf, Kept;
    var w', wk := Apply(feeds, w, PersistBatch(k, fails)), w.workers[k];
    var (store, tally) := BatchResult(w.db.store, wk.pc.locals, wk.pc.processable, wk.pc.skipped, fails);
    var upto, w1 := NextUpto(feeds(wk.op), wk), BatchRows(feeds, w, k, store, tally);
    PersistIsSave(feeds, w, k, fails, store, tally);
    HistoryOf(w', w1);
    BatchRowsOk(feeds, w, k, store, tally);
    EarnedMonotone(feeds, w.seen, w1.seen, wk.copy, wk.op);
    ProgressedOk(feeds, w1.seen, wk, upto, tally, w'.workers[k].pc);
    SaveStep(feeds, w1, k, Progressed(wk.copy, upto, tally), w'.workers[k].pc);
    StepAfter(feeds, w, w1, w', k, wk.op);
  }

  lemma HistoryOf(w: World, w': World)
    requires History(w) && w'.db.store == w.db.store && w'.seen == w.seen
    ensures History(w')
  {
  }

  lemma BatchRowsOk(feeds: Feeds, w: World, k: WorkerId, store: Store, tally: Tally)
    requires OwnOk(feeds, w, k) && RunFound(w, k) && w.workers[k].pc.Compared?
    requires History(BatchRows(feeds, w, k, store, tally))
    ensures Later(w, BatchRows(feeds, w, k, store, tally)) && OwnOk(feeds, BatchRows(feeds, w, k, store, tally), k)
  {
    hide Earned, PcOk, Through, History;
    var w1 := BatchRows(feeds, w, k, store, tally);
    OpStaysOk(feeds, w, w1, w.workers[k].op);
    WorkerStaysOk(feeds, w, w1, k);
  }

  // ---------------------------------------------------------------- every event, every run

  predicate OfWorker(e: Event) {
    !e.Create? && !e.Adopt? && !e.Claim? && !e.Tick? && !e.Retry?
  }

  /** An event of worker `k` on operation `id` touches no other operation and no other call. */
  ghost predicate Local(w: World, w': World, k: WorkerId, id: OpId) {
    && w'.db.ops.Keys == w.db.ops.Keys
    && (forall j :: j in w.db.ops && j != id ==> w'.db.ops[j] == w.db.ops[j])
    && (forall j :: j in w'.db.runs ==> j in w.db.runs || j == id)
    && (forall j :: j != id ==> RunsOf(w'.db, j) == RunsOf(w.db, j))
    && (forall j :: j in w'.acks ==> j in w.acks || j == id)
    && (forall j :: j != k ==> (j in w'.workers <==> j in w.workers))
    && (forall j :: j != k && j in w.workers ==> w'.workers[j] == w.workers[j])
  }

  lemma WorkerEventsAreLocal(feeds: Feeds, w: World, e: Event)
    requires OfWorker(e) && Enabled(feeds, w, e) && At(w, e.worker)
    ensures Local(w, Apply(feeds, w, e), e.worker, w.workers[e.worker].op)
  {
    hide Merge, BatchResult, Judge, Scanned, Persist, Changed, RowsOf, Clamp, Failed, AfterImport;
  }

  lemma WorkerEventOk(feeds: Feeds, w: World, e: Event)
    requires OfWorker(e) && Enabled(feeds, w, e) && OwnOk(feeds, w, e.worker) && WellFormedFeeds(feeds)
    ensures StepOk(feeds, w, Apply(feeds, w, e), e.worker, w.workers[e.worker].op)
  {
    assert DistinctKeys(feeds(w.workers[e.worker].op));
    hide Enabled, Apply, OwnOk, StepOk;
    match e
    case PublishExport(_, _, _) => ExportEventsOk(feeds, w, e);
    case MarkPublished(_) => ExportEventsOk(feeds, w, e);
    case ScanBatch(k) => ScanBatchOk(feeds, w, k);
    case PersistBatch(k, fails) => PersistBatchOk(feeds, w, k, fails);
    case StartImport(k) => StartImportOk(feeds, w, k);
    case LoadRun(_, _) => RunEventsOk(feeds, w, e);
    case FinishRun(_) => RunEventsOk(feeds, w, e);
    case FailRun(_) => RunEventsOk(feeds, w, e);
    case MarkCommitted(k) => MarkCommittedOk(feeds, w, k);
    case StartAck(_) => AckEventsOk(feeds, w, e);
    case GatewayAck(k) => GatewayAckOk(feeds, w, k);
    case RecordComplete(_) => AckEventsOk(feeds, w, e);
    case Release(_) => AckEventsOk(feeds, w, e);
    case FailOperation(_, _) => LeavingOk(feeds, w, e);
    case Crash(_) => LeavingOk(feeds, w, e);
  }

  lemma LocalStep(feeds: Feeds, w: World, w': World, k: WorkerId, id: OpId)
    requires Inv(feeds, w) && id in w.db.ops && Local(w, w', k, id) && StepOk(feeds, w, w', k, id)
    ensures Inv(feeds, w')
  {
    hide OpOk, WorkerOk;
    forall j | j in w'.db.ops && j != id
      ensures OpOk(feeds, w', j)
    {
      assert OpOk(feeds, w, j);
      RunsStayOk(feeds, w, j);
      OpStaysOk(feeds, w, w', j);
    }
    forall j | j in w'.workers && j != k
      ensures WorkerOk(feeds, w', j)
    {
      assert WorkerOk(feeds, w, j);
      WorkerStaysOk(feeds, w, w', j);
    }
  }

  lemma RunsStayOk(feeds: Feeds, w: World, j: OpId)
    requires j in w.db.ops && OpOk(feeds, w, j)
    ensures RunsOk(RunsOf(w.db, j))
  {
  }

  lemma WorkersOwn(feeds: Feeds, w: World, k: WorkerId)
    requires Inv(feeds, w) && k in w.workers
    ensures At(w, k) && OwnOk(feeds, w, k)
  {
    assert WorkerOk(feeds, w, k);
    assert OpOk(feeds, w, w.workers[k].op);
  }

  lemma ActsOnWorker(feeds: Feeds, w: World, e: Event)
    requires OfWorker(e) && Enabled(feeds, w, e)
    ensures e.worker in w.workers
  {
  }

  lemma WorkerEventKeepsInv(feeds: Feeds, w: World, e: Event)
    requires Inv(feeds, w) && WellFormedFeeds(feeds) && OfWorker(e) && Enabled(feeds, w, e)
    ensures Inv(feeds, Apply(feeds, w, e))
  {
    hide Enabled, Apply, Inv, OwnOk, StepOk, Local;
    ActsOnWorker(feeds, w, e);
    WorkersOwn(feeds, w, e.worker);
    WorkerEventOk(feeds, w, e);
    WorkerEventsAreLocal(feeds, w, e);
    LocalStep(feeds, w, Apply(feeds, w, e), e.worker, w.workers[e.worker].op);
  }

  /** A row written outside any call: a new one, or a retry. */
  ghost predicate OneRow(w: World, w': World, id: OpId) {
    id in w'.db.ops && w' == w.(db := SetOp(w.db, id, w'.db.ops[id]))
  }

  lemma OneRowLater(w: World, w': World, id: OpId)
    requires OneRow(w, w', id) && (id in w.db.ops ==> Kept(w.db.ops[id], w'.db.ops[id]))
    ensures Later(w, w')
  {
  }

  lemma OneRowStep(feeds: Feeds, w: World, w': World, id: OpId)
    requires Inv(feeds, w) && OneRow(w, w', id) && OpOk(feeds, w', id)
    requires id in w.db.ops ==> Kept(w.db.ops[id], w'.db.ops[id])
    ensures Inv(feeds, w')
  {
    hide OpOk, WorkerOk, Kept, History;
    OneRowLater(w, w', id);
    forall j | j in w'.db.ops && j != id
      ensures OpOk(feeds, w', j)
    {
      assert OpOk(feeds, w, j);
      RunsStayOk(feeds, w, j);
      OpStaysOk(feeds, w, w', j);
    }
    forall k | k in w'.workers
      ensures WorkerOk(feeds, w', k)
    {
      assert WorkerOk(feeds, w, k);
      WorkerStaysOk(feeds, w, w', k);
    }
    HistoryOf(w, w');
  }

  lemma ArrivalKeepsInv(feeds: Feeds, w: World, e: Event)
    requires Inv(feeds, w) && (e.Create? || e.Adopt?) && Enabled(feeds, w, e)
    ensures Inv(feeds, Apply(feeds, w, e))
  {
    OneRowStep(feeds, w, Apply(feeds, w, e), e.id);
  }

  /** Retry resumes at a state whose obligations the stage already met. */
  lemma RetryKeepsInv(feeds: Feeds, w: World, id: OpId)
    requires Inv(feeds, w) && Enabled(feeds, w, Retry(id))
    ensures Inv(feeds, Apply(feeds, w, Retry(id)))
  {
    RetryOk(feeds, w, id);
    OneRowStep(feeds, w, Apply(feeds, w, Retry(id)), id);
  }

  lemma RetryOk(feeds: Feeds, w: World, id: OpId)
    requires Inv(feeds, w) && Enabled(feeds, w, Retry(id))
    ensures OpOk(feeds, Apply(feeds, w, Retry(id)), id) && Kept(w.db.ops[id], Apply(feeds, w, Retry(id)).db.ops[id])
  {
    hide SettledUpTo, WorkerOk, History;
    assert OpOk(feeds, w, id);
  }

  lemma TickKeepsInv(feeds: Feeds, w: World, to: int)
    requires Inv(feeds, w)
    ensures Inv(feeds, w.(now := to))
  {
    hide Earned, PcOk, Through;
    var w' := w.(now := to);
    forall id | id in w'.db.ops
      ensures OpOk(feeds, w', id)
    {
      assert OpOk(feeds, w, id);
    }
    forall k | k in w'.workers
      ensures WorkerOk(feeds, w', k)
    {
      assert WorkerOk(feeds, w, k);
    }
  }

  /** A call takes over whatever the row says, also from a call that still runs. */
  lemma ClaimOk(feeds: Feeds, w: World, k: WorkerId, id: OpId, lease: int)
    requires id in w.db.ops && OpOk(feeds, w, id) && Resumable(w.db.ops[id].state)
    ensures OpOk(feeds, AfterClaim(w, k, id, lease), id) && WorkerOk(feeds, AfterClaim(w, k, id, lease), k)
    ensures Later(w, AfterClaim(w, k, id, lease))
  {
    hide SettledUpTo;
  }

  lemma ClaimKeepsInv(feeds: Feeds, w: World, k: WorkerId, id: OpId, lease: int)
    requires Inv(feeds, w) && id in w.db.ops && k !in w.workers && Resumable(w.db.ops[id].state)
    ensures Inv(feeds, AfterClaim(w, k, id, lease))
  {
    var w' := AfterClaim(w, k, id, lease);
    assert OpOk(feeds, w, id);
    ClaimOk(feeds, w, k, id, lease);
    hide OpOk, WorkerOk, Later;
    forall j | j in w'.db.ops && j != id
      ensures OpOk(feeds, w', j)
    {
      assert OpOk(feeds, w, j);
      RunsStayOk(feeds, w, j);
      OpStaysOk(feeds, w, w', j);
    }
    forall j | j in w'.workers && j != k
      ensures WorkerOk(feeds, w', j)
    {
      assert WorkerOk(feeds, w, j);
      WorkerStaysOk(feeds, w, w', j);
    }
    HistoryOf(w, w');
  }

  lemma ClaimTakes(feeds: Feeds, w: World, e: Event)
    requires Enabled(feeds, w, e) && e.Claim?
    ensures e.worker !in w.workers && e.id in w.db.ops && Available(w.db.ops[e.id], w.now, e.backlog)
    ensures Apply(feeds, w, e) == AfterClaim(w, e.worker, e.id, w.now + Clamp(60, e.seconds, 86400))
  {
  }

  lemma EventKeepsInv(feeds: Feeds, w: World, e: Event)
    requires Inv(feeds, w) && WellFormedFeeds(feeds) && Enabled(feeds, w, e)
    ensures Inv(feeds, Apply(feeds, w, e))
  {
    hide Inv, AfterClaim;
    if e.Create? || e.Adopt? {
      ArrivalKeepsInv(feeds, w, e);
    } else if e.Claim? {
      ClaimTakes(feeds, w, e);
      ClaimKeepsInv(feeds, w, e.worker, e.id, w.now + Clamp(60, e.seconds, 86400));
    } else if e.Tick? {
      TickKeepsInv(feeds, w, e.to);
    } else if e.Retry? {
      RetryKeepsInv(feeds, w, e.id);
    } else {
      WorkerEventKeepsInv(feeds, w, e);
    }
  }

  /** Main result. The invariant holds in every reachable state, with any number of live calls on one
      operation. */
  lemma {:induction false} RunKeepsInv(feeds: Feeds, w0: World, es: seq<Event>)
    requires Initial(w0) && WellFormedFeeds(feeds) && Legal(feeds, w0, es)
    ensures Inv(feeds, Exec(feeds, w0, es))
  {
    if es != [] {
      var front := es[..|es| - 1];
      RunKeepsInv(feeds, w0, front);
      EventKeepsInv(feeds, Exec(feeds, w0, front), es[|es| - 1]);
    }
  }
}
