/** The durable external-ingestion protocol as a transition system. Every event is one committed
    transaction of `process`, one effect at the Gateway, or something that happens to a worker. */
module Protocol {
  import opened RawItems
  import opened ImportRun

  type OpId = nat
  type WorkerId = nat

  datatype State =
    | Queued | Published | CentralImporting | Committed | Acknowledging
    | Completed | Partial | FailedRetryable | FailedTerminal

  datatype Stage =
    | ExportReady | AtPublished | AtImporting | Persisting | AtCommitted | AtAcknowledging | AtCompleted

  datatype ErrorCode =
    | UpstreamUnavailable | GatewayCheckpointPending | UpstreamHttpFailure | InvalidExternalContract
    | GatewayPublishFailed | GatewayAckFailed | CentralProcessingFailed | ExternalIngestionFailed

  /** What `process` can catch: lost transport, an HTTP status, ValueError or TypeError, the rest. */
  datatype Exn = Transport | Http(status: int) | Contract | Other

  datatype Operation = Operation(
    state: State,
    stage: Stage,
    retryable: bool,
    error: Option<ErrorCode>,
    priority: int,
    createdAt: int,
    attempts: nat,
    claim: Option<WorkerId>,
    lease: Option<int>,
    checkpoint: Option<string>,
    run: Option<nat>,
    exported: int,
    acknowledged: int,
    offset: nat,
    counts: Tally)

  datatype RunStatus = Running | RunCompleted | RunPartial | RunFailed

  /** A pipeline run. `complete` is the entry "processing_complete" of its durable details. */
  datatype Run = Run(status: RunStatus, tally: Tally, collected: nat, batches: nat, complete: Option<bool>)

  /** `runs` lists the runs created for an operation; the operation names the one it uses. */
  datatype Durable = Durable(ops: map<OpId, Operation>, runs: map<OpId, seq<Run>>, store: Store)

  /** What `_run_external_records` keeps in local variables between two batches. */
  datatype Locals = Locals(offset: nat, tally: Tally, batches: nat, committed: nat)

  /** Where a `process` call stands between two commits. */
  datatype Pc =
    | Begin
    | Exported
    | Fetching
    | Looping(locals: Locals)
    | Compared(locals: Locals, processable: seq<RawRecord>, skipped: nat)
    | Imported
    | Broken
    | Acking
    | Acked
    | Done

  /** A `process` call. `copy` is the call's own object of the operation row: it is read with the claim,
      survives commits, and does not see what other sessions write. */
  datatype Worker = Worker(op: OpId, lease: int, size: nat, copy: Operation, pc: Pc)

  /** `seen` records every raw-item row that was ever committed. */
  datatype World = World(
    db: Durable, acks: set<OpId>, seen: set<(Key, RawItem)>, workers: map<WorkerId, Worker>, now: int)

  type Feeds = OpId -> seq<RawRecord>

  datatype Event =
    | Create(id: OpId, priority: int, createdAt: int, exported: int)
    | Adopt(id: OpId, createdAt: int, exported: int, checkpoint: string)
    | Claim(worker: WorkerId, id: OpId, backlog: bool, seconds: int)
    | PublishExport(worker: WorkerId, checkpoint: string, total: int)
    | MarkPublished(worker: WorkerId)
    | StartImport(worker: WorkerId)
    | LoadRun(worker: WorkerId, batchSetting: int)
    | ScanBatch(worker: WorkerId)
    | PersistBatch(worker: WorkerId, fails: RawRecord -> bool)
    | FinishRun(worker: WorkerId)
    | MarkCommitted(worker: WorkerId)
    | StartAck(worker: WorkerId)
    | GatewayAck(worker: WorkerId)
    | RecordComplete(worker: WorkerId)
    | Release(worker: WorkerId)
    | FailRun(worker: WorkerId)
    | FailOperation(worker: WorkerId, exn: Exn)
    | Crash(worker: WorkerId)
    | Tick(to: int)
    | Retry(id: OpId)

  // ---------------------------------------------------------------- small decisions

  function Clamp(lo: int, value: int, hi: int): (r: int)
    ensures lo <= hi ==> lo <= r <= hi
    ensures lo <= value <= hi ==> r == value
    ensures lo <= hi && value < lo ==> r == lo
    ensures lo <= hi && value > hi ==> r == hi
  {
    if (if value <= hi then value else hi) >= lo then (if value <= hi then value else hi) else lo
  }

  predicate Resumable(s: State) {
    s in {Queued, Published, CentralImporting, Committed, Acknowledging}
  }

  function RetryState(stage: Stage): State {
    match stage
    case AtAcknowledging => Acknowledging
    case AtCommitted => Committed
    case AtImporting => CentralImporting
    case AtPublished => Published
    case _ => Queued
  }

  function SafeFailure(contract: bool, stage: Stage): (ErrorCode, bool) {
    if contract then (InvalidExternalContract, false)
    else if stage == AtPublished then (GatewayPublishFailed, true)
    else if stage == AtAcknowledging then (GatewayAckFailed, true)
    else if stage == AtImporting || stage == AtCommitted then (CentralProcessingFailed, true)
    else (ExternalIngestionFailed, true)
  }

  function Classify(exn: Exn, stage: Stage): (ErrorCode, bool) {
    match exn
    case Transport => (UpstreamUnavailable, true)
    case Http(status) =>
      (if status == 409 then GatewayCheckpointPending else UpstreamHttpFailure, status == 409 || status >= 500)
    case Contract => SafeFailure(true, stage)
    case Other => SafeFailure(false, stage)
  }

  /** `_fail` on the operation row. */
  function Failed(op: Operation, exn: Exn): Operation {
    var (code, retryable) := Classify(exn, op.stage);
    op.(state := if retryable then FailedRetryable else FailedTerminal,
        retryable := retryable, error := Some(code), claim := None, lease := None)
  }

  function RunVerdict(t: Tally): RunStatus {
    if t.failed > 0 && t.stored > 0 then RunPartial else if t.failed > 0 then RunFailed else RunCompleted
  }

  /** A failed run reports whole batches, counted with the batch size of the failing call. */
  function CollectedAtFailure(committed: nat, size: nat, total: nat): nat {
    Min(committed * size, total)
  }

  // ---------------------------------------------------------------- scheduling

  predicate Available(op: Operation, now: int, backlog: bool) {
    && Resumable(op.state)
    && (op.claim.None? || op.lease.None? || op.lease.value <= now)
    && (backlog || op.priority > 0)
  }

  /** Strict order of `_claim_next`: priority descending, then creation time, then id. */
  predicate Before(a: Operation, i: OpId, b: Operation, j: OpId) {
    || a.priority > b.priority
    || (a.priority == b.priority && a.createdAt < b.createdAt)
    || (a.priority == b.priority && a.createdAt == b.createdAt && i < j)
  }

  ghost predicate IsNext(ops: map<OpId, Operation>, now: int, backlog: bool, id: OpId) {
    && id in ops && Available(ops[id], now, backlog)
    && forall j :: j in ops && j != id && Available(ops[j], now, backlog) ==> Before(ops[id], id, ops[j], j)
  }

  // ---------------------------------------------------------------- events

  function MaxBatches(op: Operation): Option<int> {
    if op.priority <= 0 then Some(1) else None
  }

  predicate At(w: World, k: WorkerId) {
    k in w.workers && w.workers[k].op in w.db.ops
  }

  /** The operation as the call of worker `k` knows it. */
  function Mine(w: World, k: WorkerId): Operation
    requires k in w.workers
  {
    w.workers[k].copy
  }

  function RunsOf(db: Durable, id: OpId): seq<Run> {
    if id in db.runs then db.runs[id] else []
  }

  predicate HasRun(db: Durable, id: OpId, run: Option<nat>) {
    run.Some? && run.value < |RunsOf(db, id)|
  }

  /** The call of worker `k` finds its run row. */
  predicate RunFound(w: World, k: WorkerId) {
    At(w, k) && HasRun(w.db, w.workers[k].op, Mine(w, k).run)
  }

  function RunAt(w: World, k: WorkerId): Run
    requires RunFound(w, k)
  {
    RunsOf(w.db, w.workers[k].op)[Mine(w, k).run.value]
  }

  function NextUpto(feed: seq<RawRecord>, wk: Worker): nat
    requires wk.pc.Looping? || wk.pc.Compared?
  {
    Min(wk.pc.locals.offset + wk.size, |feed|)
  }

  ghost predicate Enabled(feeds: Feeds, w: World, e: Event) {
    match e
    case Create(id, _, _, _) => id !in w.db.ops
    case Adopt(id, _, _, checkpoint) => id !in w.db.ops && checkpoint != ""
    case Claim(k, id, backlog, _) => k !in w.workers && IsNext(w.db.ops, w.now, backlog, id)
    case PublishExport(k, checkpoint, _) =>
      At(w, k) && w.workers[k].pc.Begin? && Mine(w, k).state in {Queued, FailedRetryable} && checkpoint != ""
    case MarkPublished(k) => At(w, k) && w.workers[k].pc.Exported?
    case StartImport(k) =>
      At(w, k) && w.workers[k].pc.Begin? && Mine(w, k).state in {Published, CentralImporting}
    case LoadRun(k, _) =>
      RunFound(w, k) && w.workers[k].pc.Fetching? && Mine(w, k).offset <= |feeds(w.workers[k].op)|
    case ScanBatch(k) =>
      && At(w, k) && w.workers[k].pc.Looping? && w.workers[k].size >= 1
      && w.workers[k].pc.locals.offset < |feeds(w.workers[k].op)|
    case PersistBatch(k, _) => RunFound(w, k) && w.workers[k].pc.Compared?
    case FinishRun(k) =>
      && RunFound(w, k) && w.workers[k].pc.Looping?
      && w.workers[k].pc.locals.offset == |feeds(w.workers[k].op)|
    case MarkCommitted(k) => RunFound(w, k) && w.workers[k].pc.Imported?
    case StartAck(k) =>
      At(w, k) && w.workers[k].pc.Begin? && Mine(w, k).state in {Committed, Acknowledging}
    case GatewayAck(k) =>
      At(w, k) && w.workers[k].pc.Acking? && Mine(w, k).checkpoint.Some? && Mine(w, k).run.Some?
    case RecordComplete(k) => At(w, k) && w.workers[k].pc.Acked?
    case Release(k) => At(w, k) && w.workers[k].pc.Done?
    case FailRun(k) => RunFound(w, k) && (w.workers[k].pc.Looping? || w.workers[k].pc.Compared?)
    case FailOperation(k, exn) =>
      && At(w, k) && !w.workers[k].pc.Looping? && !w.workers[k].pc.Compared?
      && (w.workers[k].pc.Broken? ==> exn.Other?)
    case Crash(k) => k in w.workers
    case Tick(to) => to >= w.now
    case Retry(id) => id in w.db.ops && w.db.ops[id].state == FailedRetryable
  }

  function SetOp(db: Durable, id: OpId, op: Operation): Durable {
    db.(ops := db.ops[id := op])
  }

  function SetRun(db: Durable, id: OpId, number: nat, run: Run): Durable
    requires number < |RunsOf(db, id)|
  {
    db.(runs := db.runs[id := RunsOf(db, id)[number := run]])
  }

  function AddRun(db: Durable, id: OpId): Durable {
    db.(runs := db.runs[id := RunsOf(db, id) + [Run(Running, ZERO, 0, 0, None)]])
  }

  /** A column of a row is written when the call changed it in its own object. */
  function Pick<T(==)>(row: T, before: T, after: T): T {
    if after == before then row else after
  }

  /** A commit writes the columns in which the object now differs from what it was at the last commit. */
  function Merge(row: Operation, before: Operation, after: Operation): Operation {
    Operation(
      Pick(row.state, before.state, after.state),
      Pick(row.stage, before.stage, after.stage),
      Pick(row.retryable, before.retryable, after.retryable),
      Pick(row.error, before.error, after.error),
      Pick(row.priority, before.priority, after.priority),
      Pick(row.createdAt, before.createdAt, after.createdAt),
      Pick(row.attempts, before.attempts, after.attempts),
      Pick(row.claim, before.claim, after.claim),
      Pick(row.lease, before.lease, after.lease),
      Pick(row.checkpoint, before.checkpoint, after.checkpoint),
      Pick(row.run, before.run, after.run),
      Pick(row.exported, before.exported, after.exported),
      Pick(row.acknowledged, before.acknowledged, after.acknowledged),
      Pick(row.offset, before.offset, after.offset),
      MergeCounts(row.counts, before.counts, after.counts))
  }

  function MergeCounts(row: Tally, before: Tally, after: Tally): Tally {
    Tally(Pick(row.same, before.same, after.same), Pick(row.created, before.created, after.created),
          Pick(row.updated, before.updated, after.updated), Pick(row.stored, before.stored, after.stored),
          Pick(row.failed, before.failed, after.failed))
  }

  /** A commit of worker `k` that leaves its own object as `copy`. */
  function Save(w: World, k: WorkerId, copy: Operation, pc: Pc): World
    requires At(w, k)
  {
    var wk := w.workers[k];
    w.(db := SetOp(w.db, wk.op, Merge(w.db.ops[wk.op], wk.copy, copy)),
       workers := w.workers[k := wk.(copy := copy, pc := pc)])
  }

  function Go(w: World, k: WorkerId, pc: Pc): World
    requires k in w.workers
  {
    w.(workers := w.workers[k := w.workers[k].(pc := pc)])
  }

  function Leave(w: World, k: WorkerId): World {
    w.(workers := w.workers - {k})
  }

  function RowsOf(s: Store): set<(Key, RawItem)> {
    set k | k in s.rows :: (k, s.rows[k])
  }

  function NewOperation(state: State, stage: Stage, priority: int, createdAt: int, exported: int,
                        checkpoint: Option<string>): Operation {
    Operation(state, stage, true, None, priority, createdAt, 0, None, None, checkpoint, None, exported, 0, 0, ZERO)
  }

  /** The row update of `_claim_next`. */
  function Claimed(op: Operation, k: WorkerId, lease: int): Operation {
    op.(claim := Some(k), lease := Some(lease), attempts := op.attempts + 1)
  }

  function AfterClaim(w: World, k: WorkerId, id: OpId, lease: int): World
    requires id in w.db.ops
  {
    var op := Claimed(w.db.ops[id], k, lease);
    w.(db := SetOp(w.db, id, op), workers := w.workers[k := Worker(id, lease, 1, op, Begin)])
  }

  function Progressed(op: Operation, upto: nat, counts: Tally): Operation {
    op.(offset := upto, counts := counts, stage := Persisting)
  }

  function RunProgressed(run: Run, tally: Tally, upto: nat, batches: nat): Run {
    run.(tally := tally, collected := upto, batches := batches)
  }

  /** The rows and counters of one batch: the store after it and the totals of the call. */
  function BatchResult(store: Store, l: Locals, processable: seq<RawRecord>, skipped: nat,
                       fails: RawRecord -> bool): (Store, Tally) {
    var noted := Scanned(store, processable);
    var total := Credit(Persist(noted, processable, fails), l.tally, skipped);
    (noted.(rows := total.rows), total.tally)
  }

  /** After the import returned: the summary is copied to the operation, and only a durable
      "processing_complete" of false would send the operation back to the queue. */
  function AfterImport(op: Operation, run: Run): Operation {
    var op' := op.(counts := run.tally);
    if run.complete == Some(false) then
      op'.(state := CentralImporting, stage := Persisting, claim := None, lease := None)
    else
      op'.(state := Committed, stage := AtCommitted)
  }

  function Importing(op: Operation, number: nat): Operation {
    op.(state := CentralImporting, stage := AtImporting, run := if op.run.Some? then op.run else Some(number))
  }

  /** The row once the acknowledgement is recorded. */
  function AfterComplete(op: Operation): Operation {
    op.(state := if op.counts.failed > 0 then Partial else Completed, stage := AtCompleted,
        retryable := false, acknowledged := op.exported)
  }

  ghost function Apply(feeds: Feeds, w: World, e: Event): World
    requires Enabled(feeds, w, e)
  {
    match e
    case Create(id, priority, createdAt, exported) =>
      w.(db := SetOp(w.db, id, NewOperation(Queued, ExportReady, priority, createdAt, exported, None)))
    case Adopt(id, createdAt, exported, checkpoint) =>
      w.(db := SetOp(w.db, id, NewOperation(Published, AtPublished, 0, createdAt, exported, Some(checkpoint))))
    case Claim(k, id, _, seconds) => AfterClaim(w, k, id, w.now + Clamp(60, seconds, 86400))
    case PublishExport(k, checkpoint, total) =>
      Save(w, k, Mine(w, k).(exported := total, checkpoint := Some(checkpoint)), Exported)
    case MarkPublished(k) => Save(w, k, Mine(w, k).(state := Published, stage := AtPublished), Begin)
    case StartImport(k) =>
      var id := w.workers[k].op;
      var copy := Importing(Mine(w, k), |RunsOf(w.db, id)|);
      Save(if Mine(w, k).run.Some? then w else w.(db := AddRun(w.db, id)), k, copy, Fetching)
    case LoadRun(k, batchSetting) =>
      var id, run := w.workers[k].op, RunAt(w, k);
      w.(db := SetRun(w.db, id, Mine(w, k).run.value, run.(status := Running)),
         workers := w.workers[k := w.workers[k].(
           size := Clamp(1, batchSetting, 1000),
           pc := Looping(Locals(Mine(w, k).offset, run.tally, 0, run.batches)))])
    case ScanBatch(k) =>
      var feed := feeds(w.workers[k].op);
      var l := w.workers[k].pc.locals;
      var batch := feed[l.offset..NextUpto(feed, w.workers[k])];
      var store := Scanned(w.db.store, batch);
      var processable := Changed(store, batch);
      Go(w.(db := w.db.(store := store)), k, Compared(l, processable, SkipCount(Judge(store), batch)))
    case PersistBatch(k, fails) =>
      var id, feed, pc := w.workers[k].op, feeds(w.workers[k].op), w.workers[k].pc;
      var upto, l := NextUpto(feed, w.workers[k]), pc.locals;
      var (store, tally) := BatchResult(w.db.store, l, pc.processable, pc.skipped, fails);
      var db := SetRun(w.db, id, Mine(w, k).run.value, RunProgressed(RunAt(w, k), tally, upto, l.committed + 1));
      var maxBatches := MaxBatches(Mine(w, k));
      var bounded := maxBatches.Some? && l.batches + 1 >= maxBatches.value && upto < |feed|;
      Save(w.(db := db.(store := store), seen := w.seen + RowsOf(store)), k, Progressed(Mine(w, k), upto, tally),
           if bounded then Imported else Looping(Locals(upto, tally, l.batches + 1, l.committed + 1)))
    case FinishRun(k) =>
      var id, l := w.workers[k].op, w.workers[k].pc.locals;
      var run := RunAt(w, k).(status := RunVerdict(l.tally), tally := l.tally, collected := |feeds(id)|,
                              batches := l.committed, complete := Some(true));
      Go(w.(db := SetRun(w.db, id, Mine(w, k).run.value, run)), k, Imported)
    case MarkCommitted(k) =>
      var w' := Save(w, k, AfterImport(Mine(w, k), RunAt(w, k)), Begin);
      if RunAt(w, k).complete == Some(false) then Leave(w', k) else w'
    case StartAck(k) => Save(w, k, Mine(w, k).(state := Acknowledging, stage := AtAcknowledging), Acking)
    case GatewayAck(k) => Go(w.(acks := w.acks + {w.workers[k].op}), k, Acked)
    case RecordComplete(k) => Save(w, k, AfterComplete(Mine(w, k)), Done)
    case Release(k) => Leave(Save(w, k, Mine(w, k).(claim := None, lease := None), Done), k)
    case FailRun(k) =>
      var id, l := w.workers[k].op, w.workers[k].pc.locals;
      var run := RunAt(w, k).(status := RunFailed, tally := l.tally,
                              collected := CollectedAtFailure(l.committed, w.workers[k].size, |feeds(id)|),
                              batches := l.committed);
      Go(w.(db := SetRun(w.db, id, Mine(w, k).run.value, run)), k, Broken)
    case FailOperation(k, exn) =>
      Leave(w.(db := SetOp(w.db, w.workers[k].op, Failed(w.db.ops[w.workers[k].op], exn))), k)
    case Crash(k) => Leave(w, k)
    case Tick(to) => w.(now := to)
    case Retry(id) =>
      w.(db := SetOp(w.db, id, w.db.ops[id].(state := RetryState(w.db.ops[id].stage), error := None)))
  }

  // ---------------------------------------------------------------- runs

  ghost predicate Initial(w: World) {
    && w.db.ops == map[] && w.db.runs == map[] && w.acks == {} && w.workers == map[]
    && w.seen == RowsOf(w.db.store)
  }

  /** A run is a start and a sequence of events, each enabled where it happens. */
  ghost predicate Legal(feeds: Feeds, w0: World, es: seq<Event>)
    decreases |es|, 0
  {
    es == [] ||
    (Legal(feeds, w0, es[..|es| - 1]) &&
     Enabled(feeds, Exec(feeds, w0, es[..|es| - 1]), es[|es| - 1]))
  }

  ghost function Exec(feeds: Feeds, w0: World, es: seq<Event>): World
    requires Legal(feeds, w0, es)
    decreases |es|, 1
  {
    if es == [] then w0
    else Apply(feeds, Exec(feeds, w0, es[..|es| - 1]), es[|es| - 1])
  }

  /** No call outlives its lease: the clock passes no lease of a call that still runs. */
  ghost predicate InTime(feeds: Feeds, w0: World, es: seq<Event>)
    requires Legal(feeds, w0, es)
  {
    es == [] ||
    (InTime(feeds, w0, es[..|es| - 1]) && Punctual(Exec(feeds, w0, es[..|es| - 1]), es[|es| - 1]))
  }

  ghost predicate Punctual(w: World, e: Event) {
    e.Tick? ==> forall k :: k in w.workers ==> e.to < w.workers[k].lease
  }
}
