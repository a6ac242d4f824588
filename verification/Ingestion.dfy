/** The worker's side of the protocol: `process`, `_run_external_records`, `_fail` and the worker
    loop, statement by statement, with every commit a step of the transition system. */
module Ingestion {
  import opened RawItems
  import opened ImportRun
  import opened Protocol
  import opened ProtocolSafety
  import opened ProtocolInTime
  import ExportPages
  import ProtocolResults

  /** The answer to the acknowledgement: accepted, refused, or recorded by the Gateway before the call
      failed, so that the caller does not know. */
  datatype AckAnswer = Accepted | Refused(exn: Exn) | Unheard(exn: Exn)

  /** What the outside does during one `process` call: the pages of the export and what else the
      publishing meets, what fetching the feed and closing the import raise, the configured batch size,
      which records the transformation fails, where a batch is interrupted, and the acknowledgement. */
  datatype Env = Env(
    pages: nat -> ExportPages.Page<RawRecord>,
    exportRun: string,
    digest: string,
    paging: Option<Exn>,
    post: Option<Exn>,
    checkpoint: string,
    fetch: Option<Exn>,
    batchSetting: int,
    fails: RawRecord -> bool,
    fault: nat -> Fault,
    closing: Option<Exn>,
    ack: AckAnswer)

  /** The priority of an operation a user asked for. */
  const DEFAULT_PRIORITY := 100

  // ---------------------------------------------------------------- what one call amounts to

  datatype Result = Result(op: Operation, store: Store, acked: bool)

  predicate NeedsPublish(op: Operation) {
    op.state in {Queued, FailedRetryable}
  }

  predicate NeedsImport(op: Operation) {
    op.state in {Published, CentralImporting}
  }

  /** The export as the paging loop collects it. */
  function CollectedExport(env: Env): ExportPages.Outcome<RawRecord> {
    ExportPages.CollectFrom(env.pages, env.exportRun, env.digest, [], 0, true)
  }

  /** An identity mismatch is a contract error; an answer without an etag breaks the publish contract. */
  function PublishFault(env: Env): Option<Exn> {
    if env.paging.Some? then env.paging
    else
      match CollectedExport(env)
      case IdentityMismatch => Some(Contract)
      case ExportChanged => Some(Other)
      case PaginationInvalid => Some(Other)
      case Collected(_, _) =>
        if env.post.Some? then env.post else if env.checkpoint == "" then Some(Other) else None
  }

  function AfterPublish(op: Operation, env: Env): Operation
    requires PublishFault(env).None?
  {
    op.(exported := CollectedExport(env).total, checkpoint := Some(env.checkpoint),
        state := Published, stage := AtPublished)
  }

  /** The first run of an operation has number 0. */
  function Started(op: Operation): Operation {
    Importing(op, 0)
  }

  function CallOf(op: Operation, env: Env): (c: Call)
    ensures c.size >= 1
  {
    Call(Clamp(1, env.batchSetting, 1000), MaxBatches(op), env.fails, env.fault)
  }

  function AfterBatches(op: Operation, o: Outcome): Operation {
    op.(offset := o.progress.offset, counts := o.progress.tally,
        stage := if o.batches > 0 then Persisting else op.stage)
  }

  function AcknowledgeAndComplete(op: Operation, store: Store, env: Env): Result {
    var acking := op.(state := Acknowledging, stage := AtAcknowledging);
    match env.ack
    case Refused(exn) => Result(Failed(acking, exn), store, false)
    case Unheard(exn) => Result(Failed(acking, exn), store, true)
    case Accepted => Result(AfterComplete(acking).(claim := None, lease := None), store, true)
  }

  function ImportAndComplete(feed: seq<RawRecord>, op: Operation, store: Store, env: Env): Result
    requires op.offset <= |feed|
  {
    if env.fetch.Some? then Result(Failed(Started(op), env.fetch.value), store, false)
    else
      var o := RunCall(feed, Progress(store, op.counts, op.offset), CallOf(op, env), 0);
      var op' := AfterBatches(Started(op), o);
      if o.exit.Interrupted? then Result(Failed(op', Other), o.progress.store, false)
      else if env.closing.Some? then Result(Failed(op', env.closing.value), o.progress.store, false)
      else AcknowledgeAndComplete(op'.(state := Committed, stage := AtCommitted), o.progress.store, env)
  }

  /** The row, the store and the acknowledgement that one call leaves behind. */
  function Processed(feed: seq<RawRecord>, op: Operation, store: Store, env: Env): Result
    requires op.offset <= |feed|
  {
    if NeedsPublish(op) then
      if PublishFault(env).Some? then Result(Failed(op, PublishFault(env).value), store, false)
      else ImportAndComplete(feed, AfterPublish(op, env), store, env)
    else if NeedsImport(op) then ImportAndComplete(feed, op, store, env)
    else AcknowledgeAndComplete(op, store, env)
  }

  /** When publishing fails: pages of another export end the operation, pages that change or run out of
      bounds and an answer without an etag leave it to a retry; nothing is acknowledged or imported. */
  lemma PublishFails(feed: seq<RawRecord>, op: Operation, store: Store, env: Env)
    requires op.offset <= |feed| && NeedsPublish(op) && env.paging.None?
    ensures var r, collected := Processed(feed, op, store, env), CollectedExport(env);
            && (collected.IdentityMismatch? ==>
                  r.op.state == FailedTerminal && r.op.error == Some(InvalidExternalContract))
            && (collected.ExportChanged? || collected.PaginationInvalid?
                || (collected.Collected? && env.post.None? && env.checkpoint == "") ==>
                  r.op.state == FailedRetryable)
            && (PublishFault(env).Some? ==> !r.acked && r.store == store && r.op.offset == op.offset
                                            && r.op.stage == op.stage && r.op.checkpoint == op.checkpoint)
            && (PublishFault(env).None? <==>
                  collected.Collected? && env.post.None? && env.checkpoint != "")
  {
    hide RunCall;
  }

  // ---------------------------------------------------------------- whole export before the acknowledgement?

  /** An environment in which nothing goes wrong. */
  ghost predicate Fair(env: Env) {
    && PublishFault(env).None? && env.fetch.None? && env.closing.None? && env.ack.Accepted?
    && forall o :: env.fault(o).NoFault?
  }

  /** How far one undisturbed call imports: everything, or one batch for backlog. */
  lemma FairCallReaches(feed: seq<RawRecord>, p: Progress, op: Operation, env: Env)
    requires p.offset <= |feed| && Fair(env)
    ensures var o := RunCall(feed, p, CallOf(op, env), 0);
            && !o.exit.Interrupted?
            && o.progress.offset == if op.priority > 0 || p.offset == |feed| then |feed|
                                    else Upto(feed, p.offset, CallOf(op, env).size)
  {
    var call := CallOf(op, env);
    if op.priority > 0 {
      assert Uninterrupted(call);
    } else if p.offset < |feed| {
      assert call.fault(p.offset).NoFault?;
      var upto := Upto(feed, p.offset, call.size);
      var p' := ImportBatch(feed, p, upto, call.fails);
      assert Spent(call, 1);
      if upto == |feed| {
        assert RunCall(feed, p', call, 1) == Outcome(p', Finished, 1);
      }
    }
  }

  /** Main result. A fair call on an operation that still imports always acknowledges the export to
      the Gateway, and it has imported the whole export exactly when the operation is interactive
      or the rest of the export fits into one batch. */
  lemma WholeExportIff(feed: seq<RawRecord>, op: Operation, store: Store, env: Env)
    requires op.offset <= |feed| && Fair(env) && (NeedsPublish(op) || NeedsImport(op))
    ensures var r := Processed(feed, op, store, env);
            && r.acked
            && (r.op.offset == |feed| <==>
                  op.priority > 0 || op.offset + CallOf(op, env).size >= |feed|)
  {
    var op1 := if NeedsPublish(op) then AfterPublish(op, env) else op;
    FairCallReaches(feed, Progress(store, op.counts, op.offset), op1, env);
  }

  /** Nothing goes wrong, and the batch size is one. */
  function SmallBatches(fails: RawRecord -> bool): Env {
    Env(o => ExportPages.Page("", "", 0, []), "", "", None, None, "c", None, 1, fails, o => NoFault, None, Accepted)
  }

  /** A two-record export adopted from the Gateway, batch size one: the operation ends completed (or
      partial, if the first record fails) and acknowledged, with the second record missing. */
  lemma BacklogExportAcknowledgedHalfImported(a: RawRecord, b: RawRecord, fails: RawRecord -> bool)
    requires KeyOf(a) != KeyOf(b)
    ensures var op := NewOperation(Published, AtPublished, 0, 0, 2, Some("c"));
            var r := Processed([a, b], op, Store(map[], map[]), SmallBatches(fails));
            && r.acked && r.op.offset == 1 && KeyOf(b) !in r.store.rows
            && r.op.state in {Completed, Partial} && r.op.acknowledged == 2
  {
    var feed, store, env := [a, b], Store(map[], map[]), SmallBatches(fails);
    var op := NewOperation(Published, AtPublished, 0, 0, 2, Some("c"));
    var p := Progress(store, ZERO, 0);
    assert Fair(env);
    WholeExportIff(feed, op, store, env);
    FairCallReaches(feed, p, op, env);
    FairCallCompletes(feed, op, store, env);
    var call := CallOf(op, env);
    assert call.fault(0).NoFault? && Spent(call, 1);
    assert RunCall(feed, p, call, 0).progress == ImportBatch(feed, p, 1, fails);
    assert feed[0..1] == [a];
    OneRecordBatch(feed, p, fails);
  }

  lemma OneRecordBatch(feed: seq<RawRecord>, p: Progress, fails: RawRecord -> bool)
    requires p.offset < |feed|
    ensures forall k :: k in ImportBatch(feed, p, p.offset + 1, fails).store.rows ==>
              k in p.store.rows || k == KeyOf(feed[p.offset])
  {
    var r := feed[p.offset];
    var s := Scanned(p.store, [r]);
    assert feed[p.offset..p.offset + 1] == [r];
    NoteOne(p.store.types, r);
    BatchWrites(feed, p, p.offset + 1, fails);
    WriteOneMore(Judge(s), Persisted(p.store.rows, p.tally), [], r, fails);
    assert [] + [r] == [r];
  }

  /** One turn of the batch loop. */
  lemma RunCallTurn(feed: seq<RawRecord>, p: Progress, call: Call, batches: nat)
    requires p.offset < |feed| && call.size >= 1
    ensures var upto := Upto(feed, p.offset, call.size); var o := RunCall(feed, p, call, batches);
            match call.fault(p.offset)
            case BeforeScan => o == Outcome(p, Interrupted, batches)
            case AfterScan => o == Outcome(p.(store := Scanned(p.store, feed[p.offset..upto])), Interrupted, batches)
            case NoFault =>
              var p' := ImportBatch(feed, p, upto, call.fails);
              if Spent(call, batches + 1) && upto < |feed| then o == Outcome(p', Bounded, batches + 1)
              else o == RunCall(feed, p', call, batches + 1)
  {
  }

  /** The counters added one by one are the credited tally. */
  lemma CountersAdd(t: Tally, u: Tally, skipped: nat)
    ensures Tally(t.same + (skipped + u.same), t.created + u.created, t.updated + u.updated,
                  t.stored + u.stored, t.failed + u.failed) == t.Plus(u.(same := u.same + skipped))
  {
  }

  predicate LastOfCall(op: Operation, batches: nat, upto: nat, total: nat) {
    MaxBatches(op).Some? && batches >= MaxBatches(op).value && upto < total
  }

  /** Call `k` is at a scanned batch of operation `id`, alone on it, with its run row at hand. */
  predicate AtBatch(feeds: Feeds, w: World, k: WorkerId, id: OpId, l: Locals, processable: seq<RawRecord>, same: nat,
                    upto: nat) {
    && RunFound(w, k) && w.workers[k].op == id && w.workers[k].pc == Compared(l, processable, same)
    && w.db.ops[id] == Mine(w, k) && w.workers[k].size >= 1
    && l.offset < |feeds(id)| && upto == Upto(feeds(id), l.offset, w.workers[k].size)
  }

  /** Operation row, run row and raw items of a batch commit. */
  function BatchWritten(db: Durable, id: OpId, upto: nat, store: Store, tally: Tally, batches: nat): Durable
    requires id in db.ops && HasRun(db, id, db.ops[id].run)
  {
    var number := db.ops[id].run.value;
    var run := RunProgressed(RunsOf(db, id)[number], tally, upto, batches);
    Durable(db.ops[id := Progressed(db.ops[id], upto, tally)], SetRun(db, id, number, run).runs, store)
  }

  /** The effect of a batch commit, spelled out. */
  lemma PersistEffect(feeds: Feeds, w: World, k: WorkerId, id: OpId, l: Locals, processable: seq<RawRecord>, same: nat,
                      upto: nat, fails: RawRecord -> bool)
    requires AtBatch(feeds, w, k, id, l, processable, same, upto)
    ensures Enabled(feeds, w, PersistBatch(k, fails))
    ensures var w', op := Apply(feeds, w, PersistBatch(k, fails)), w.db.ops[id];
            var (store, tally) := BatchResult(w.db.store, l, processable, same, fails);
            && w'.db == BatchWritten(w.db, id, upto, store, tally, l.committed + 1)
            && w'.acks == w.acks && w'.now == w.now
            && k in w'.workers && w'.workers[k].op == id && w'.workers[k].size == w.workers[k].size
            && w'.workers[k].pc == if LastOfCall(op, l.batches + 1, upto, |feeds(id)|) then Imported
                                   else Looping(Locals(upto, tally, l.batches + 1, l.committed + 1))
  {
    hide BatchResult, Merge, RowsOf;
    var t := BatchResult(w.db.store, l, processable, same, fails).1;
    MergeSelf(w.db.ops[id], Progressed(w.db.ops[id], upto, t));
  }

  /** The statements of the persist step add up to the batch result. */
  lemma StatementsMakeResult(store0: Store, l: Locals, processable: seq<RawRecord>, same: nat,
                             fails: RawRecord -> bool, store: Store, result: Tally, tally: Tally)
    requires var noted := Scanned(store0, processable); var p := Persist(noted, processable, fails);
             store == noted.(rows := p.rows) && result == p.tally
    requires tally == Tally(l.tally.same + (same + result.same), l.tally.created + result.created,
                            l.tally.updated + result.updated, l.tally.stored + result.stored,
                            l.tally.failed + result.failed)
    ensures BatchResult(store0, l, processable, same, fails) == (store, tally)
  {
    CountersAdd(l.tally, result, same);
  }

  /** Scan commit and batch commit of one batch are one step of the batch-level import. */
  lemma TwoCommitsAreOneBatch(feed: seq<RawRecord>, store: Store, l: Locals, upto: nat, fails: RawRecord -> bool)
    requires l.offset <= upto <= |feed|
    ensures var batch := feed[l.offset..upto]; var s := Scanned(store, batch);
            var (store', tally) := BatchResult(s, l, Changed(s, batch), SkipCount(Judge(s), batch), fails);
            var p' := ImportBatch(feed, Progress(store, l.tally, l.offset), upto, fails);
            store' == p'.store && tally == p'.tally && p'.offset == upto
  {
  }

  /** Mid-call: what is durable and what is left to do still amount to the whole call. */
  ghost predicate OnCourse(feed: seq<RawRecord>, op0: Operation, o: Outcome, call: Call,
                           store: Store, op: Operation, l: Locals) {
    && l.offset <= |feed| && call.size >= 1
    && RunCall(feed, Progress(store, l.tally, l.offset), call, l.batches) == o
    && op == op0.(offset := l.offset, counts := l.tally, stage := if l.batches > 0 then Persisting else op0.stage)
  }

  /** One turn of the loop, seen from `OnCourse`. */
  lemma TurnStaysOnCourse(feed: seq<RawRecord>, op0: Operation, o: Outcome, call: Call, store: Store, op: Operation,
                          l: Locals)
    requires OnCourse(feed, op0, o, call, store, op, l) && l.offset < |feed| && call.maxBatches == MaxBatches(op0)
    ensures var upto := Upto(feed, l.offset, call.size);
            match call.fault(l.offset)
            case BeforeScan => o.exit == Interrupted && o.progress.store == store && op == AfterBatches(op0, o)
            case AfterScan =>
              && o.exit == Interrupted && op == AfterBatches(op0, o)
              && o.progress.store == Scanned(store, feed[l.offset..upto])
            case NoFault =>
              var p' := ImportBatch(feed, Progress(store, l.tally, l.offset), upto, call.fails);
              var op' := op.(offset := upto, counts := p'.tally, stage := Persisting);
              if LastOfCall(op, l.batches + 1, upto, |feed|) then
                o.exit == Bounded && o.progress.store == p'.store && op' == AfterBatches(op0, o)
              else OnCourse(feed, op0, o, call, p'.store, op', Locals(upto, p'.tally, l.batches + 1, l.committed + 1))
  {
    RunCallTurn(feed, Progress(store, l.tally, l.offset), call, l.batches);
  }

  lemma EndOfCourse(feed: seq<RawRecord>, op0: Operation, o: Outcome, call: Call, store: Store, op: Operation,
                    l: Locals)
    requires OnCourse(feed, op0, o, call, store, op, l) && l.offset == |feed|
    ensures o.exit == Finished && o.progress.store == store && op == AfterBatches(op0, o)
  {
  }

  // ---------------------------------------------------------------- the next operation

  /** Among operations there is a least one in claim order. */
  lemma {:induction false} LeastOf(ops: map<OpId, Operation>, ids: set<OpId>) returns (id: OpId)
    requires ids != {} && forall j :: j in ids ==> j in ops
    ensures id in ids && forall j :: j in ids && j != id ==> Before(ops[id], id, ops[j], j)
    decreases |ids|
  {
    var any :| any in ids;
    var rest := ids - {any};
    if rest == {} {
      id := any;
      assert forall j :: j in ids ==> j == any || j in rest;
    } else {
      var best := LeastOf(ops, rest);
      id := if Before(ops[any], any, ops[best], best) then any else best;
      assert forall j :: j in ids ==> j == any || j in rest;
    }
  }

  ghost predicate Drained(ops: map<OpId, Operation>, now: int, backlog: bool) {
    forall j :: j in ops ==> !Available(ops[j], now, backlog)
  }

  lemma NextExists(ops: map<OpId, Operation>, now: int, backlog: bool)
    requires !Drained(ops, now, backlog)
    ensures exists id :: IsNext(ops, now, backlog, id)
  {
    var ids := set j | j in ops && Available(ops[j], now, backlog);
    var any :| any in ops && Available(ops[any], now, backlog);
    assert any in ids;
    var id := LeastOf(ops, ids);
    assert IsNext(ops, now, backlog, id);
  }

  /** Mid-drain: operations in `waiting` are as they were, those in `busy` are being processed, the
      others that were available are done, and the rest was never touched. */
  ghost predicate Draining(ops0: map<OpId, Operation>, ops: map<OpId, Operation>, waiting: set<OpId>, busy: set<OpId>,
                           now: int, backlog: bool) {
    && ops.Keys == ops0.Keys
    && (forall id :: id in ops0 && (id in waiting || !Available(ops0[id], now, backlog)) ==> ops[id] == ops0[id])
    && (forall id :: id in ops0 && id !in waiting && id !in busy && Available(ops0[id], now, backlog) ==>
          ops[id].state in {Completed, Partial})
  }

  lemma ClaimWhileDraining(ops0: map<OpId, Operation>, ops: map<OpId, Operation>, waiting: set<OpId>, now: int,
                           backlog: bool, id: OpId, op': Operation)
    requires Draining(ops0, ops, waiting, {}, now, backlog) && id in ops && Available(ops[id], now, backlog)
    ensures id in waiting && Draining(ops0, ops[id := op'], waiting - {id}, {id}, now, backlog)
  {
  }

  lemma CompletedWhileDraining(ops0: map<OpId, Operation>, ops: map<OpId, Operation>, waiting: set<OpId>, now: int,
                               backlog: bool, id: OpId, op': Operation)
    requires Draining(ops0, ops, waiting, {id}, now, backlog) && id in ops && id !in waiting
    requires id in ops0 && Available(ops0[id], now, backlog) && op'.state in {Completed, Partial}
    ensures Draining(ops0, ops[id := op'], waiting, {}, now, backlog)
  {
  }

  /** When nothing is available any more, nothing is waiting. */
  lemma DrainedMeansDone(ops0: map<OpId, Operation>, ops: map<OpId, Operation>, waiting: set<OpId>, now: int,
                         backlog: bool)
    requires Draining(ops0, ops, waiting, {}, now, backlog) && Drained(ops, now, backlog)
    ensures Draining(ops0, ops, {}, {}, now, backlog)
  {
    forall id | id in ops0 && Available(ops0[id], now, backlog)
      ensures ops[id].state in {Completed, Partial}
    {
      assert id in ops;
    }
  }

  /** A fair call on a claimed operation acknowledges it and ends in a terminal state: partial when a record
      failed, else completed. */
  lemma FairCallCompletes(feed: seq<RawRecord>, op: Operation, store: Store, env: Env)
    requires op.offset <= |feed| && Resumable(op.state) && Fair(env)
    ensures var r := Processed(feed, op, store, env);
            && r.acked && r.op.state == (if r.op.counts.failed > 0 then Partial else Completed)
            && r.op.stage == AtCompleted && !r.op.retryable && r.op.acknowledged == r.op.exported
            && r.op.claim == None && r.op.lease == None && r.op.priority == op.priority
            && (NeedsPublish(op) ==>
                  r.op.exported == CollectedExport(env).total && r.op.checkpoint == Some(env.checkpoint))
            && (!NeedsPublish(op) ==> r.op.exported == op.exported && r.op.checkpoint == op.checkpoint)
  {
    if NeedsPublish(op) || NeedsImport(op) {
      var published := if NeedsPublish(op) then AfterPublish(op, env) else op;
      FairCallReaches(feed, Progress(store, op.counts, op.offset), published, env);
    }
  }

  lemma NobodyWaits(ops: map<OpId, Operation>, now: int, backlog: bool)
    requires Drained(ops, now, backlog)
    ensures forall j :: j in ops ==> !ProtocolResults.Waiting(ops[j], now, backlog)
  {
    forall j | j in ops
      ensures !ProtocolResults.Waiting(ops[j], now, backlog)
    {
      ProtocolResults.AvailableIsWaiting(ops[j], now, backlog);
    }
  }

  lemma ClaimIs(feeds: Feeds, w: World, k: WorkerId, id: OpId, backlog: bool, seconds: int)
    requires k !in w.workers && IsNext(w.db.ops, w.now, backlog, id)
    ensures Enabled(feeds, w, Claim(k, id, backlog, seconds))
    ensures Apply(feeds, w, Claim(k, id, backlog, seconds)) == AfterClaim(w, k, id, w.now + Clamp(60, seconds, 86400))
  {
  }

  // ---------------------------------------------------------------- the service

  /** One database session with its committed and its pending state, and the Gateway's acknowledgements. */
  class ExternalIngestionService {
    const feeds: Feeds
    ghost const origin: World
    var db: Durable
    var tx: Durable
    var acks: set<OpId>
    ghost var world: World
    ghost var history: seq<Event>

    constructor (feeds: Feeds, store: Store)
      requires WellFormedFeeds(feeds)
      ensures Valid() && this.feeds == feeds && history == []
      ensures db == Durable(map[], map[], store) && acks == {}
    {
      this.feeds := feeds;
      db := Durable(map[], map[], store);
      tx := Durable(map[], map[], store);
      acks := {};
      world := World(Durable(map[], map[], store), {}, RowsOf(store), map[], 0);
      origin := World(Durable(map[], map[], store), {}, RowsOf(store), map[], 0);
      history := [];
    }

    /** What is committed is what a run of the protocol reaches. */
    ghost predicate Synced()
      reads this`world, this`history
    {
      && WellFormedFeeds(feeds) && Initial(origin)
      && Legal(feeds, origin, history) && Exec(feeds, origin, history) == world
      && InTime(feeds, origin, history) && Sole(world)
    }

    /** Between transactions nothing is pending. */
    ghost predicate Valid()
      reads this
    {
      Synced() && world.db == db && tx == db && world.acks == acks
    }

    /** `session.commit()`: the pending changes since the last commit are exactly event `e`. */
    method Commit(ghost e: Event)
      requires Synced() && world.db == db && Enabled(feeds, world, e) && Punctual(world, e)
      requires Apply(feeds, world, e).db == tx && Apply(feeds, world, e).acks == acks
      modifies this`db, this`world, this`history
      ensures Valid() && db == tx
      ensures world == Apply(feeds, old(world), e) && history == old(history) + [e]
    {
      hide Apply, Enabled, Punctual, Sole;
      Extends(e);
      db := tx;
      history := history + [e];
      world := Apply(feeds, world, e);
    }

    lemma Extends(e: Event)
      requires Synced() && Enabled(feeds, world, e) && Punctual(world, e)
      ensures Legal(feeds, origin, history + [e]) && Exec(feeds, origin, history + [e]) == Apply(feeds, world, e)
      ensures InTime(feeds, origin, history + [e]) && Sole(Apply(feeds, world, e))
    {
      hide Apply, Enabled, Punctual, Sole;
      assert (history + [e])[..|history + [e]| - 1] == history;
      RunKeepsInv(feeds, origin, history);
      EventKeepsSole(feeds, world, e);
    }

    /** The session is the only one at work, so what a call knows is the row. */
    lemma KnowsRow(k: WorkerId)
      requires Valid() && k in world.workers
      ensures At(world, k) && Mine(world, k) == db.ops[world.workers[k].op]
      ensures var op := db.ops[world.workers[k].op];
              forall after :: Merge(op, op, after) == after
      ensures Ledger(db, world.workers[k].op)
    {
      assert Holder(world, k);
    }

    /** `session.rollback()` */
    method Rollback()
      modifies this`tx
      ensures tx == db
    {
      tx := db;
    }

    /** Worker `k` is inside `process` for operation `id`, at `pc`. */
    ghost predicate Working(k: WorkerId, id: OpId, pc: Pc)
      reads this
    {
      k in world.workers && world.workers[k].op == id && world.workers[k].pc == pc && id in db.ops
    }

    /** Operation `id` has its run row. */
    ghost predicate OnRun(id: OpId)
      reads this
    {
      id in db.ops && HasRun(db, id, db.ops[id].run)
    }

    /** `_fail`: the operation keeps its stage, loses its claim, and may be retried or not. */
    method Fail(k: WorkerId, id: OpId, exn: Exn)
      requires Valid() && At(world, k) && world.workers[k].op == id
      requires !world.workers[k].pc.Looping? && !world.workers[k].pc.Compared?
      requires world.workers[k].pc.Broken? ==> exn.Other?
      modifies this
      ensures world.now == old(world.now)
      ensures Valid() && k !in world.workers && history == old(history) + [FailOperation(k, exn)]
      ensures db == SetOp(old(db), id, Failed(old(db.ops[id]), exn)) && acks == old(acks)
    {
      hide Synced, Merge, Classify;
      Rollback();
      var operation := tx.ops[id];
      var (code, retryable) := Classify(exn, operation.stage);
      operation := operation.(state := if retryable then FailedRetryable else FailedTerminal);
      operation := operation.(retryable := retryable);
      operation := operation.(error := Some(code));
      operation := operation.(claim := None, lease := None);
      tx := SetOp(tx, id, operation);
      Commit(FailOperation(k, exn));
    }

    /** `_publish_exact_export`: the checkpoint is durable before the state says "published". */
    method PublishExactExport(k: WorkerId, id: OpId, env: Env) returns (fault: Option<Exn>)
      requires Valid() && Working(k, id, Begin) && NeedsPublish(db.ops[id])
      modifies this
      ensures world.now == old(world.now)
      ensures Valid() && fault == PublishFault(env) && acks == old(acks)
      ensures fault.Some? ==> db == old(db) && Working(k, id, Begin) && history == old(history)
      ensures fault.None? ==>
                && Working(k, id, Exported)
                && history == old(history) + [PublishExport(k, env.checkpoint, CollectedExport(env).total)]
                && db == SetOp(old(db), id, old(db.ops[id]).(exported := CollectedExport(env).total,
                                                            checkpoint := Some(env.checkpoint)))
    {
      if env.paging.Some? {
        return env.paging;
      }
      var collected := ExportPages.CollectExport(env.pages, env.exportRun, env.digest);
      match collected
      case IdentityMismatch => return Some(Contract);
      case ExportChanged => return Some(Other);
      case PaginationInvalid => return Some(Other);
      case Collected(_, total) =>
        if env.post.Some? {
          return env.post;
        }
        if env.checkpoint == "" {
          return Some(Other);
        }
        KnowsRow(k);
        tx := SetOp(tx, id, tx.ops[id].(exported := total, checkpoint := Some(env.checkpoint)));
        Commit(PublishExport(k, env.checkpoint, total));
        return None;
    }

    /** The scan of one batch, which commits the source rows it noted. */
    method CompareBatch(k: WorkerId, id: OpId, l: Locals, size: nat, upto: nat)
      returns (processable: seq<RawRecord>, same: nat)
      requires Valid() && Working(k, id, Looping(l)) && world.workers[k].size == size >= 1
      requires l.offset < |feeds(id)| && upto == Upto(feeds(id), l.offset, size)
      modifies this
      ensures world.now == old(world.now)
      ensures Valid() && acks == old(acks) && history == old(history) + [ScanBatch(k)]
      ensures db == old(db).(store := Scanned(old(db.store), feeds(id)[l.offset..upto]))
      ensures processable == Changed(db.store, feeds(id)[l.offset..upto])
      ensures same == SkipCount(Judge(db.store), feeds(id)[l.offset..upto])
      ensures Working(k, id, Compared(l, processable, same)) && world.workers[k].size == size
    {
      hide Synced, Changed, Scanned, Judge, SkipCount, Merge;
      var store: Store;
      KnowsRow(k);
      store, processable, same := ExternalBatchChanges(tx.store, feeds(id)[l.offset..upto]);
      tx := tx.(store := store);
      Commit(ScanBatch(k));
    }

    /** Rows, run counters and the operation's progress of one batch, in one commit. */
    method CommitBatch(k: WorkerId, id: OpId, l: Locals, processable: seq<RawRecord>, same: nat, size: nat, upto: nat,
                       fails: RawRecord -> bool) returns (tally: Tally)
      requires Valid() && Working(k, id, Compared(l, processable, same)) && world.workers[k].size == size >= 1
      requires l.offset < |feeds(id)| && upto == Upto(feeds(id), l.offset, size) && OnRun(id)
      modifies this
      ensures world.now == old(world.now)
      ensures Valid() && acks == old(acks) && history == old(history) + [PersistBatch(k, fails)]
      ensures (db.store, tally) == BatchResult(old(db.store), l, processable, same, fails)
      ensures db.ops == old(db.ops)[id := Progressed(old(db.ops[id]), upto, tally)] && OnRun(id)
      ensures k in world.workers && world.workers[k].op == id && world.workers[k].size == size
      ensures world.workers[k].pc ==
                if LastOfCall(old(db.ops[id]), l.batches + 1, upto, |feeds(id)|) then Imported
                else Looping(Locals(upto, tally, l.batches + 1, l.committed + 1))
    {
      hide Synced, BatchResult, Merge, Apply, RunProgressed, Enabled, Scanned, Persist;
      KnowsRow(k);
      PersistEffect(feeds, world, k, id, l, processable, same, upto, fails);
      var store, result := PersistExternalBatch(tx.store, processable, fails);
      tally := Tally(l.tally.same + (same + result.same), l.tally.created + result.created,
                     l.tally.updated + result.updated, l.tally.stored + result.stored, l.tally.failed + result.failed);
      StatementsMakeResult(tx.store, l, processable, same, fails, store, result, tally);
      tx := tx.(store := store);
      var number := tx.ops[id].run.value;
      tx := SetRun(tx, id, number, RunProgressed(RunsOf(tx, id)[number], tally, upto, l.committed + 1));
      var operation := tx.ops[id];
      operation := operation.(offset := upto);
      operation := operation.(counts := tally);
      operation := operation.(stage := Persisting);
      tx := SetOp(tx, id, operation);
      assert tx == BatchWritten(db, id, upto, store, tally, l.committed + 1);
      Commit(PersistBatch(k, fails));
    }

    /** The exception handler of the batch loop: the run is closed as failed with the last durable counts. */
    method FailRunRecord(k: WorkerId, id: OpId, l: Locals, size: nat)
      requires Valid() && At(world, k) && world.workers[k].op == id && world.workers[k].size == size && OnRun(id)
      requires world.workers[k].pc.Looping? || world.workers[k].pc.Compared?
      requires world.workers[k].pc.locals == l
      modifies this
      ensures world.now == old(world.now)
      ensures Valid() && acks == old(acks) && history == old(history) + [FailRun(k)] && Working(k, id, Broken)
      ensures db.ops == old(db.ops) && db.store == old(db.store)
    {
      Rollback();
      KnowsRow(k);
      var number := tx.ops[id].run.value;
      var collected := if l.committed * size <= |feeds(id)| then l.committed * size else |feeds(id)|;
      tx := SetRun(tx, id, number, RunsOf(tx, id)[number].(status := RunFailed, tally := l.tally,
                                                           collected := collected, batches := l.committed));
      Commit(FailRun(k));
    }

    /** The regular end of the batch loop. */
    method FinishRunRecord(k: WorkerId, id: OpId, l: Locals)
      requires Valid() && Working(k, id, Looping(l)) && l.offset == |feeds(id)| && OnRun(id)
      modifies this
      ensures world.now == old(world.now)
      ensures Valid() && acks == old(acks) && history == old(history) + [FinishRun(k)] && Working(k, id, Imported)
      ensures db.ops == old(db.ops) && db.store == old(db.store)
    {
      var status := if l.tally.failed > 0 && l.tally.stored > 0 then RunPartial
                    else if l.tally.failed > 0 then RunFailed else RunCompleted;
      KnowsRow(k);
      var number := tx.ops[id].run.value;
      tx := SetRun(tx, id, number, RunsOf(tx, id)[number].(status := status, tally := l.tally,
                                                           collected := |feeds(id)|, batches := l.committed,
                                                           complete := Some(true)));
      Commit(FinishRun(k));
    }

    /** One turn of the batch loop: nothing, the scan, or scan and persist become durable. */
    method OneBatch(k: WorkerId, id: OpId, l: Locals, size: nat, env: Env) returns (stop: Option<Exit>, l': Locals)
      requires Valid() && Working(k, id, Looping(l)) && world.workers[k].size == size >= 1
      requires l.offset < |feeds(id)| && OnRun(id)
      modifies this
      ensures world.now == old(world.now)
      ensures Valid() && acks == old(acks) && old(history) <= history
      ensures var upto := Upto(feeds(id), l.offset, size); var op := old(db.ops[id]);
              var p' := ImportBatch(feeds(id), Progress(old(db.store), l.tally, l.offset), upto, env.fails);
              match env.fault(l.offset)
              case BeforeScan =>
                && stop == Some(Interrupted) && l' == l && Working(k, id, Broken)
                && db.ops == old(db.ops) && db.store == old(db.store)
              case AfterScan =>
                && stop == Some(Interrupted) && l' == l && Working(k, id, Broken)
                && db.ops == old(db.ops) && db.store == Scanned(old(db.store), feeds(id)[l.offset..upto])
              case NoFault =>
                && l' == Locals(upto, p'.tally, l.batches + 1, l.committed + 1)
                && db.store == p'.store && OnRun(id)
                && db.ops == old(db.ops)[id := op.(offset := upto, counts := p'.tally, stage := Persisting)]
                && (if LastOfCall(op, l.batches + 1, upto, |feeds(id)|) then
                      stop == Some(Bounded) && Working(k, id, Imported)
                    else stop == None && Working(k, id, Looping(l')) && world.workers[k].size == size)
    {
      hide Synced, Clamp, Failed, ImportBatch, RunCall, PublishFault, AfterComplete;
      var feed := feeds(id);
      if env.fault(l.offset).BeforeScan? {
        FailRunRecord(k, id, l, size);
        return Some(Interrupted), l;
      }
      var maxBatches := MaxBatches(tx.ops[id]);
      var upto := if l.offset + size <= |feed| then l.offset + size else |feed|;
      TwoCommitsAreOneBatch(feed, db.store, l, upto, env.fails);
      var processable, same := CompareBatch(k, id, l, size, upto);
      if env.fault(l.offset).AfterScan? {
        FailRunRecord(k, id, l, size);
        return Some(Interrupted), l;
      }
      var tally := CommitBatch(k, id, l, processable, same, size, upto, env.fails);
      l' := Locals(upto, tally, l.batches + 1, l.committed + 1);
      stop := if maxBatches.Some? && l'.batches >= maxBatches.value && upto < |feed| then Some(Bounded) else None;
    }

    /** `_run_external_records` on the durable run, with the progress callback of `process`. */
    method RunExternalRecords(k: WorkerId, id: OpId, env: Env) returns (exit: Exit)
      requires Valid() && Working(k, id, Fetching)
      modifies this
      ensures world.now == old(world.now)
      ensures Valid() && acks == old(acks) && old(history) <= history
      ensures old(db.ops[id]).offset <= |feeds(id)|
      ensures var op := old(db.ops[id]);
              var o := RunCall(feeds(id), Progress(old(db.store), op.counts, op.offset), CallOf(op, env), 0);
              && exit == o.exit && db.store == o.progress.store
              && db.ops == old(db.ops)[id := AfterBatches(op, o)]
      ensures Working(k, id, if exit.Interrupted? then Broken else Imported)
    {
      hide Synced, Clamp, Failed, ImportBatch, RunCall, PublishFault, AfterComplete;
      ghost var op0 := db.ops[id];
      var l := LoadRunRecord(k, id, env);
      ghost var call := CallOf(op0, env);
      ghost var o := RunCall(feeds(id), Progress(db.store, l.tally, l.offset), call, 0);
      exit := ImportBatches(k, id, l, env, op0, o);
    }

    /** The batch loop. */
    method ImportBatches(k: WorkerId, id: OpId, start: Locals, env: Env, ghost op0: Operation, ghost o: Outcome)
      returns (exit: Exit)
      requires Valid() && InLoop(k, id, start, op0, o, env)
      modifies this
      ensures world.now == old(world.now)
      ensures Valid() && acks == old(acks) && old(history) <= history
      ensures exit == o.exit && db.store == o.progress.store
      ensures db.ops == old(db.ops)[id := AfterBatches(op0, o)]
      ensures Working(k, id, if exit.Interrupted? then Broken else Imported)
    {
      hide Synced, Clamp, AfterBatches, RunCall, ImportBatch;
      var l := start;
      while l.offset < |feeds(id)|
        invariant Valid() && acks == old(acks) && old(history) <= history && world.now == old(world.now)
        invariant InLoop(k, id, l, op0, o, env)
        invariant db.ops == old(db.ops)[id := db.ops[id]]
        decreases |feeds(id)| - l.offset
      {
        TurnStaysOnCourse(feeds(id), op0, o, CallOf(op0, env), db.store, db.ops[id], l);
        var stop: Option<Exit>;
        stop, l := OneBatch(k, id, l, Clamp(1, env.batchSetting, 1000), env);
        if stop.Some? {
          return stop.value;
        }
      }
      EndOfCourse(feeds(id), op0, o, CallOf(op0, env), db.store, db.ops[id], l);
      FinishRunRecord(k, id, l);
      return Finished;
    }

    ghost predicate InLoop(k: WorkerId, id: OpId, l: Locals, op0: Operation, o: Outcome, env: Env)
      reads this
    {
      && Working(k, id, Looping(l)) && world.workers[k].size == CallOf(op0, env).size && OnRun(id)
      && OnCourse(feeds(id), op0, o, CallOf(op0, env), db.store, db.ops[id], l)
    }

    /** The run is marked running and its durable counts become the call's locals. */
    method LoadRunRecord(k: WorkerId, id: OpId, env: Env) returns (l: Locals)
      requires Valid() && Working(k, id, Fetching)
      modifies this
      ensures world.now == old(world.now)
      ensures Valid() && acks == old(acks) && history == old(history) + [LoadRun(k, env.batchSetting)]
      ensures db.ops == old(db.ops) && db.store == old(db.store) && OnRun(id)
      ensures Working(k, id, Looping(l)) && world.workers[k].size == Clamp(1, env.batchSetting, 1000)
      ensures l.offset == db.ops[id].offset <= |feeds(id)| && l.tally == db.ops[id].counts && l.batches == 0
    {
      DurableCountsAgree(k, id);
      KnowsRow(k);
      var number := tx.ops[id].run.value;
      var run := RunsOf(tx, id)[number];
      l := Locals(tx.ops[id].offset, run.tally, 0, run.batches);
      tx := SetRun(tx, id, number, run.(status := Running));
      Commit(LoadRun(k, env.batchSetting));
    }

    /** The run row carries the operation's counts when the import starts. */
    lemma DurableCountsAgree(k: WorkerId, id: OpId)
      requires Valid() && Working(k, id, Fetching)
      ensures OnRun(id) && db.ops[id].run == Some(0) && RunsOf(db, id)[0].tally == db.ops[id].counts
      ensures db.ops[id].offset <= |feeds(id)|
    {
      KnowsRow(k);
      RunKeepsInv(feeds, origin, history);
      assert WorkerOk(feeds, world, k) && OpOk(feeds, world, id);
    }

    /** The import part of `process`; an operation that fails here has left the worker. */
    method Import(k: WorkerId, id: OpId, env: Env) returns (imported: bool)
      requires Valid() && Working(k, id, Begin) && NeedsImport(db.ops[id])
      modifies this
      ensures world.now == old(world.now)
      ensures Valid() && acks == old(acks) && old(history) <= history
      ensures old(db.ops[id]).offset <= |feeds(id)|
      ensures var op := old(db.ops[id]);
              var o := RunCall(feeds(id), Progress(old(db.store), op.counts, op.offset), CallOf(op, env), 0);
              var op' := AfterBatches(Started(op), o);
              if env.fetch.Some? then
                && !imported && k !in world.workers && db.store == old(db.store)
                && db.ops == old(db.ops)[id := Failed(Started(op), env.fetch.value)]
              else if o.exit.Interrupted? then
                && !imported && k !in world.workers && db.store == o.progress.store
                && db.ops == old(db.ops)[id := Failed(op', Other)]
              else if env.closing.Some? then
                && !imported && k !in world.workers && db.store == o.progress.store
                && db.ops == old(db.ops)[id := Failed(op', env.closing.value)]
              else
                && imported && Working(k, id, Begin) && db.store == o.progress.store
                && db.ops == old(db.ops)[id := op'.(state := Committed, stage := AtCommitted)]
    {
      hide Synced, Clamp, Failed, ImportBatch, RunCall, PublishFault, AfterComplete;
      OffsetInExport(k, id);
      StartImportRecord(k, id);
      if env.fetch.Some? {
        Fail(k, id, env.fetch.value);
        return false;
      }
      var exit := RunExternalRecords(k, id, env);
      if exit.Interrupted? {
        Fail(k, id, Other);
        return false;
      }
      if env.closing.Some? {
        Fail(k, id, env.closing.value);
        return false;
      }
      MarkCommittedRecord(k, id);
      return true;
    }

    lemma OffsetInExport(k: WorkerId, id: OpId)
      requires Valid() && id in db.ops
      ensures db.ops[id].offset <= |feeds(id)|
    {
      RunKeepsInv(feeds, origin, history);
      assert OpOk(feeds, world, id);
    }

    /** State "central_importing", with a run created on the first import. */
    method StartImportRecord(k: WorkerId, id: OpId)
      requires Valid() && Working(k, id, Begin) && NeedsImport(db.ops[id])
      modifies this
      ensures world.now == old(world.now)
      ensures Valid() && acks == old(acks) && history == old(history) + [StartImport(k)] && Working(k, id, Fetching)
      ensures db.ops == old(db.ops)[id := Started(old(db.ops[id]))] && db.store == old(db.store)
    {
      hide Synced, Merge;
      var operation := tx.ops[id];
      KnowsRow(k);
      operation := operation.(state := CentralImporting, stage := AtImporting);
      if operation.run.None? {
        operation := operation.(run := Some(|RunsOf(tx, id)|));
        tx := AddRun(tx, id);
      }
      tx := SetOp(tx, id, operation);
      Commit(StartImport(k));
    }

    /** The summary is copied; the durable run details decide between "committed" and a requeue. */
    method MarkCommittedRecord(k: WorkerId, id: OpId)
      requires Valid() && Working(k, id, Imported)
      modifies this
      ensures world.now == old(world.now)
      ensures Valid() && acks == old(acks) && history == old(history) + [MarkCommitted(k)] && Working(k, id, Begin)
      ensures db.ops == old(db.ops)[id := old(db.ops[id]).(state := Committed, stage := AtCommitted)]
      ensures db.store == old(db.store)
    {
      ImportedRun(k, id);
      KnowsRow(k);
      tx := SetOp(tx, id, AfterImport(tx.ops[id], RunsOf(tx, id)[tx.ops[id].run.value]));
      Commit(MarkCommitted(k));
    }

    lemma ImportedRun(k: WorkerId, id: OpId)
      requires Valid() && Working(k, id, Imported)
      ensures OnRun(id) && RunsOf(db, id)[db.ops[id].run.value].complete != Some(false)
      ensures RunsOf(db, id)[db.ops[id].run.value].tally == db.ops[id].counts
    {
      KnowsRow(k);
      RunKeepsInv(feeds, origin, history);
      assert WorkerOk(feeds, world, k) && OpOk(feeds, world, id);
    }

    /** State "acknowledging" is durable before the Gateway hears anything. */
    method StartAckRecord(k: WorkerId, id: OpId)
      requires Valid() && Working(k, id, Begin) && db.ops[id].state in {Committed, Acknowledging}
      modifies this
      ensures world.now == old(world.now)
      ensures Valid() && acks == old(acks) && history == old(history) + [StartAck(k)] && Working(k, id, Acking)
      ensures db.ops == old(db.ops)[id := old(db.ops[id]).(state := Acknowledging, stage := AtAcknowledging)]
      ensures db.store == old(db.store)
    {
      KnowsRow(k);
      tx := SetOp(tx, id, tx.ops[id].(state := Acknowledging, stage := AtAcknowledging));
      Commit(StartAck(k));
    }

    method AcknowledgeAtGateway(k: WorkerId, id: OpId)
      requires Valid() && Working(k, id, Acking)
      modifies this
      ensures world.now == old(world.now)
      ensures Valid() && acks == old(acks) + {id} && history == old(history) + [GatewayAck(k)]
      ensures Working(k, id, Acked) && db == old(db)
    {
      ProtocolResults.AckIdentityAlwaysValid(feeds, origin, history, k);
      acks := acks + {id};
      Commit(GatewayAck(k));
    }

    /** The acknowledgement is recorded on the operation row. */
    method RecordAcknowledged(k: WorkerId, id: OpId)
      requires Valid() && Working(k, id, Acked)
      modifies this
      ensures world.now == old(world.now)
      ensures Valid() && acks == old(acks) && history == old(history) + [RecordComplete(k)]
      ensures Working(k, id, Done) && db.store == old(db.store)
      ensures db.ops == old(db.ops)[id := AfterComplete(old(db.ops[id]))]
    {
      hide Synced, Merge;
      KnowsRow(k);
      var operation := tx.ops[id];
      operation := operation.(state := if operation.counts.failed > 0 then Partial else Completed);
      operation := operation.(stage := AtCompleted);
      operation := operation.(retryable := false);
      operation := operation.(acknowledged := operation.exported);
      tx := SetOp(tx, id, operation);
      Commit(RecordComplete(k));
    }

    /** `_release_claim` */
    method ReleaseClaim(k: WorkerId, id: OpId)
      requires Valid() && Working(k, id, Done)
      modifies this
      ensures world.now == old(world.now)
      ensures Valid() && acks == old(acks) && history == old(history) + [Release(k)]
      ensures k !in world.workers && db.store == old(db.store)
      ensures db.ops == old(db.ops)[id := old(db.ops[id]).(claim := None, lease := None)]
    {
      hide Synced, Merge;
      KnowsRow(k);
      tx := SetOp(tx, id, tx.ops[id].(claim := None, lease := None));
      Commit(Release(k));
    }

    method CompleteAndRelease(k: WorkerId, id: OpId)
      requires Valid() && Working(k, id, Acked)
      modifies this
      ensures world.now == old(world.now)
      ensures Valid() && acks == old(acks) && history == old(history) + [RecordComplete(k), Release(k)]
      ensures k !in world.workers && db.store == old(db.store)
      ensures db.ops == old(db.ops)[id := AfterComplete(old(db.ops[id])).(claim := None, lease := None)]
    {
      hide Synced, Clamp, Failed, ImportBatch, RunCall, PublishFault, AfterComplete;
      RecordAcknowledged(k, id);
      ReleaseClaim(k, id);
    }

    /** The acknowledgement part of `process`. */
    method Acknowledge(k: WorkerId, id: OpId, env: Env)
      requires Valid() && Working(k, id, Begin) && db.ops[id].state in {Committed, Acknowledging}
      modifies this
      ensures world.now == old(world.now)
      ensures Valid() && old(history) <= history && k !in world.workers
      ensures var r := AcknowledgeAndComplete(old(db.ops[id]), old(db.store), env);
              && db.ops == old(db.ops)[id := r.op] && db.store == r.store
              && acks == old(acks) + (if r.acked then {id} else {})
    {
      hide Synced, Clamp, Failed, ImportBatch, RunCall, PublishFault, AfterComplete;
      StartAckRecord(k, id);
      if env.ack.Refused? {
        Fail(k, id, env.ack.exn);
        return;
      }
      AcknowledgeAtGateway(k, id);
      if env.ack.Unheard? {
        Fail(k, id, env.ack.exn);
        return;
      }
      CompleteAndRelease(k, id);
    }

    /** The publishing part of `process`; an operation that fails here has left the worker. */
    method Publish(k: WorkerId, id: OpId, env: Env) returns (published: bool)
      requires Valid() && Working(k, id, Begin) && NeedsPublish(db.ops[id])
      modifies this
      ensures world.now == old(world.now)
      ensures Valid() && old(history) <= history && acks == old(acks) && db.store == old(db.store)
      ensures published == PublishFault(env).None?
      ensures if published then
                Working(k, id, Begin) && db.ops == old(db.ops)[id := AfterPublish(old(db.ops[id]), env)]
              else
                && k !in world.workers
                && db.ops == old(db.ops)[id := Failed(old(db.ops[id]), PublishFault(env).value)]
    {
      hide Synced, Clamp, Failed, ImportBatch, RunCall, PublishFault, AfterComplete;
      var fault := PublishExactExport(k, id, env);
      if fault.Some? {
        Fail(k, id, fault.value);
        return false;
      }
      KnowsRow(k);
      tx := SetOp(tx, id, tx.ops[id].(state := Published, stage := AtPublished));
      Commit(MarkPublished(k));
      return true;
    }

    /** `process` from the import on. */
    method ImportAndAcknowledge(k: WorkerId, id: OpId, env: Env)
      requires Valid() && Working(k, id, Begin) && Resumable(db.ops[id].state) && !NeedsPublish(db.ops[id])
      modifies this
      ensures world.now == old(world.now)
      ensures Valid() && old(history) <= history && k !in world.workers
      ensures old(db.ops[id]).offset <= |feeds(id)|
      ensures var r := Processed(feeds(id), old(db.ops[id]), old(db.store), env);
              && db.ops == old(db.ops)[id := r.op] && db.store == r.store
              && acks == old(acks) + (if r.acked then {id} else {})
    {
      hide Synced, Clamp, Failed, ImportBatch, RunCall, PublishFault, AfterComplete;
      OffsetInExport(k, id);
      if NeedsImport(db.ops[id]) {
        var imported := Import(k, id, env);
        if !imported {
          return;
        }
      }
      Acknowledge(k, id, env);
    }

    /** `process`: publish, import and acknowledge one claimed operation. */
    method Process(k: WorkerId, id: OpId, env: Env)
      requires Valid() && Working(k, id, Begin) && Resumable(db.ops[id].state)
      modifies this
      ensures world.now == old(world.now)
      ensures Valid() && old(history) <= history && k !in world.workers
      ensures old(db.ops[id]).offset <= |feeds(id)|
      ensures var r := Processed(feeds(id), old(db.ops[id]), old(db.store), env);
              && db.ops == old(db.ops)[id := r.op] && db.store == r.store
              && acks == old(acks) + (if r.acked then {id} else {})
    {
      hide Synced, Clamp, Failed, ImportBatch, RunCall, PublishFault, AfterComplete;
      OffsetInExport(k, id);
      if NeedsPublish(db.ops[id]) {
        var published := Publish(k, id, env);
        if !published {
          return;
        }
      }
      ImportAndAcknowledge(k, id, env);
    }

    /** A new operation for a finished job; `create_or_resume` found none with its identity. */
    method Enqueue(id: OpId, createdAt: int, exported: int)
      requires Valid() && id !in db.ops
      modifies this
      ensures Valid() && acks == old(acks)
              && history == old(history) + [Create(id, DEFAULT_PRIORITY, createdAt, exported)]
      ensures db == SetOp(old(db), id, NewOperation(Queued, ExportReady, DEFAULT_PRIORITY, createdAt, exported, None))
      ensures id in db.ops && db.ops[id].priority == 100 && ProtocolResults.Waiting(db.ops[id], world.now, false)
    {
      tx := SetOp(tx, id, NewOperation(Queued, ExportReady, DEFAULT_PRIORITY, createdAt, exported, None));
      Commit(Create(id, DEFAULT_PRIORITY, createdAt, exported));
    }

    /** `_ensure_gateway_operation`: an export the Gateway already has becomes a backlog operation. */
    method AdoptPublished(id: OpId, createdAt: int, exported: int, checkpoint: string)
      requires Valid() && id !in db.ops
      modifies this
      ensures Valid() && acks == old(acks)
      ensures checkpoint == "" ==> db == old(db) && history == old(history)
      ensures checkpoint != "" ==>
                && history == old(history) + [Adopt(id, createdAt, exported, checkpoint)]
                && db == SetOp(old(db), id,
                               NewOperation(Published, AtPublished, 0, createdAt, exported, Some(checkpoint)))
    {
      if checkpoint == "" {
        return;
      }
      tx := SetOp(tx, id, NewOperation(Published, AtPublished, 0, createdAt, exported, Some(checkpoint)));
      Commit(Adopt(id, createdAt, exported, checkpoint));
    }

    /** The retry endpoint: only an operation that failed retryably goes back, to the state of its stage. */
    method RetryFailed(id: OpId)
      requires Valid() && id in db.ops
      modifies this
      ensures Valid() && acks == old(acks)
      ensures db == if old(db.ops[id]).state == FailedRetryable then
                      SetOp(old(db), id, old(db.ops[id]).(state := RetryState(old(db.ops[id]).stage), error := None))
                    else old(db)
    {
      if tx.ops[id].state == FailedRetryable {
        tx := SetOp(tx, id, tx.ops[id].(state := RetryState(tx.ops[id].stage), error := None));
        Commit(Retry(id));
      }
    }

    /** Time passes, but no call outlives its lease. */
    method WaitUntil(to: int)
      requires Valid() && to >= world.now && forall k :: k in world.workers ==> to < world.workers[k].lease
      modifies this
      ensures Valid() && db == old(db) && acks == old(acks) && world.now == to
      ensures world.workers == old(world).workers && history == old(history) + [Tick(to)]
    {
      Commit(Tick(to));
    }

    /** `_claim_next`, which runs under a row lock: the least available operation gets a claim and a lease. */
    method ClaimNext(k: WorkerId, now: int, backlog: bool, seconds: int) returns (next: Option<OpId>)
      requires Valid() && k !in world.workers && now == world.now
      modifies this
      ensures Valid() && acks == old(acks) && old(history) <= history && world.now == now
      ensures next.None? ==> db == old(db) && Drained(db.ops, now, backlog) && k !in world.workers
      ensures next.None? ==> forall j :: j in db.ops ==> !ProtocolResults.Waiting(db.ops[j], now, backlog)
      ensures next.Some? ==> ProtocolResults.FirstInLine(old(db.ops), now, backlog, next.value)
      ensures next.Some? ==>
                && IsNext(old(db.ops), now, backlog, next.value) && Working(k, next.value, Begin)
                && db == SetOp(old(db), next.value,
                               Claimed(old(db.ops[next.value]), k, now + Clamp(60, seconds, 86400)))
    {
      hide Synced, Before, Available, Clamp, Apply, Enabled, ProtocolResults.FirstInLine, ProtocolResults.Waiting;
      if !exists id :: id in tx.ops && Available(tx.ops[id], now, backlog) {
        NobodyWaits(db.ops, now, backlog);
        return None;
      }
      NextExists(db.ops, now, backlog);
      var id :| id in tx.ops && Available(tx.ops[id], now, backlog) &&
                forall j | j in tx.ops :: j != id && Available(tx.ops[j], now, backlog) ==>
                  Before(tx.ops[id], id, tx.ops[j], j);
      ClaimIs(feeds, world, k, id, backlog, seconds);
      ProtocolResults.NextIsFirst(tx.ops, now, backlog, id);
      tx := SetOp(tx, id, Claimed(tx.ops[id], k, now + Clamp(60, seconds, 86400)));
      Commit(Claim(k, id, backlog, seconds));
      return Some(id);
    }

    /** The claim-and-process loop of `_worker` with nothing arriving and nothing failing: every
        available operation is processed once and ends in a terminal state. */
    method Drain(k: WorkerId, now: int, backlog: bool, seconds: int, env: OpId -> Env)
      requires Valid() && k !in world.workers && now == world.now
      requires forall id :: Fair(env(id))
      modifies this
      ensures world.now == old(world.now)
      ensures Valid() && old(history) <= history && k !in world.workers
      ensures Drained(db.ops, now, backlog) && Draining(old(db.ops), db.ops, {}, {}, now, backlog)
    {
      ghost var ops0 := db.ops;
      ghost var waiting := set id | id in db.ops && Available(db.ops[id], now, backlog);
      var next := ClaimWaiting(k, now, backlog, seconds, ops0, waiting);
      while next.Some?
        invariant Valid() && old(history) <= history && world.now == now
        invariant next.None? ==>
                    Drained(db.ops, now, backlog) && k !in world.workers
                      && Draining(ops0, db.ops, waiting, {}, now, backlog)
        invariant next.Some? ==> InHand(k, next.value, now, backlog, ops0, waiting)
        decreases if next.Some? then waiting else {}, next.Some?
      {
        var id := next.value;
        ghost var before := db.ops;
        ProcessFairly(k, id, env(id));
        waiting := waiting - {id};
        CompletedWhileDraining(ops0, before, waiting, now, backlog, id, db.ops[id]);
        next := ClaimWaiting(k, now, backlog, seconds, ops0, waiting);
      }
      DrainedMeansDone(ops0, db.ops, waiting, now, backlog);
    }

    /** Operation `id` was waiting and is now claimed by `k`. */
    ghost predicate InHand(k: WorkerId, id: OpId, now: int, backlog: bool, ops0: map<OpId, Operation>,
                           waiting: set<OpId>)
      reads this
    {
      && Working(k, id, Begin) && Resumable(db.ops[id].state) && id in waiting
      && id in ops0 && Available(ops0[id], now, backlog)
      && Draining(ops0, db.ops, waiting - {id}, {id}, now, backlog)
    }

    method ClaimWaiting(k: WorkerId, now: int, backlog: bool, seconds: int,
                        ghost ops0: map<OpId, Operation>, ghost waiting: set<OpId>) returns (next: Option<OpId>)
      requires Valid() && k !in world.workers && now == world.now
      requires Draining(ops0, db.ops, waiting, {}, now, backlog)
      modifies this
      ensures Valid() && old(history) <= history && world.now == now
      ensures next.None? ==>
                Drained(db.ops, now, backlog) && k !in world.workers
                  && Draining(ops0, db.ops, waiting, {}, now, backlog)
      ensures next.Some? ==> InHand(k, next.value, now, backlog, ops0, waiting)
    {
      ghost var before := db.ops;
      next := ClaimNext(k, now, backlog, seconds);
      if next.Some? {
        ClaimWhileDraining(ops0, before, waiting, now, backlog, next.value, db.ops[next.value]);
      }
    }

    method ProcessFairly(k: WorkerId, id: OpId, env: Env)
      requires Valid() && Working(k, id, Begin) && Resumable(db.ops[id].state) && Fair(env)
      modifies this
      ensures Valid() && old(history) <= history && k !in world.workers && world.now == old(world.now)
      ensures id in db.ops && db.ops == old(db.ops)[id := db.ops[id]] && db.ops[id].state in {Completed, Partial}
    {
      hide Synced, Clamp, Failed, ImportBatch, RunCall, PublishFault, AfterComplete;
      OffsetInExport(k, id);
      FairCallCompletes(feeds(id), db.ops[id], db.store, env);
      Process(k, id, env);
    }

    /** Main result. Whatever was called on the service: an acknowledged interactive operation is fully
        persisted, and every operation's counts add up to its offset within its export. */
    lemma ServiceKeepsPromises(id: OpId)
      requires Valid() && id in db.ops
      ensures id in acks && db.ops[id].priority > 0 ==> ProtocolResults.WholeExportPersisted(world, feeds(id))
      ensures ProtocolResults.Accounted(db.ops[id].counts, db.ops[id].offset) && db.ops[id].offset <= |feeds(id)|
    {
      hide Legal, Exec, Initial, Sole, InTime;
      ProtocolResults.AccountingHolds(feeds, origin, history, id);
      if id in acks {
        ProtocolResults.AcknowledgedMeansPersisted(feeds, origin, history, id);
      }
    }
  }
}
