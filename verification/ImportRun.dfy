/** Batched import of a feed: the change scan, the persist step, and calls of
    `_run_external_records` that resume at a durable offset. */
module ImportRun {
  import opened RawItems

  datatype Tally = Tally(same: nat, created: nat, updated: nat, stored: nat, failed: nat) {
    function Plus(t: Tally): Tally {
      Tally(same + t.same, created + t.created, updated + t.updated,
            stored + t.stored, failed + t.failed)
    }

    /** The tally with the split between stored and failed forgotten. */
    function Coarse(): Tally {
      Tally(same, created, updated, stored + failed, 0)
    }
  }

  const ZERO := Tally(0, 0, 0, 0, 0)

  /** A batch's result `w` added to the totals so far, with `skipped` records the scan kept back. */
  function Credit(w: Persisted, tally: Tally, skipped: nat): Persisted {
    Persisted(w.rows, tally.Plus(w.tally.(same := w.tally.same + skipped)))
  }

  datatype Persisted = Persisted(rows: map<Key, RawItem>, tally: Tally)

  function SourcesOf(batch: seq<RawRecord>): set<string> {
    set r | r in batch :: r.source
  }

  /** Source rows after `get_or_create_source` ran for the first record of each source name. */
  function NoteSources(types: map<string, string>, batch: seq<RawRecord>): map<string, string> {
    if batch == [] then types
    else
      var front, r := batch[..|batch| - 1], batch[|batch| - 1];
      var noted := NoteSources(types, front);
      if r.source in SourcesOf(front) then noted else noted[r.source := r.sourceType]
  }

  datatype Verdict = Same | New | Altered

  function VerdictOf(same: bool, isNew: bool): Verdict {
    if same then Same else if isNew then New else Altered
  }

  /** How a record is judged against a snapshot of the source rows and raw-item rows. */
  function Judge(s: Store): RawRecord -> Verdict {
    r => VerdictOf(IsUnchanged(s, r), KeyOf(r) !in s.rows)
  }

  /** The records a judge does not skip, in order. */
  function Keep(v: RawRecord -> Verdict, batch: seq<RawRecord>): seq<RawRecord> {
    if batch == [] then []
    else
      var r := batch[|batch| - 1];
      Keep(v, batch[..|batch| - 1]) + (if v(r).Same? then [] else [r])
  }

  function SkipCount(v: RawRecord -> Verdict, batch: seq<RawRecord>): nat {
    if batch == [] then 0
    else SkipCount(v, batch[..|batch| - 1]) + (if v(batch[|batch| - 1]).Same? then 1 else 0)
  }

  /** One judged record: skipped and counted, or written and counted. */
  function Write(p: Persisted, v: Verdict, r: RawRecord, fails: bool): Persisted {
    if v.Same? then p.(tally := p.tally.(same := p.tally.same + 1))
    else
      Persisted(p.rows[KeyOf(r) := Upserted(r)],
                p.tally.Plus(Tally(0, if v.New? then 1 else 0, if v.New? then 0 else 1,
                                   if fails then 0 else 1, if fails then 1 else 0)))
  }

  function WriteAll(v: RawRecord -> Verdict, p: Persisted, records: seq<RawRecord>,
                    fails: RawRecord -> bool): Persisted {
    if records == [] then p
    else
      var r := records[|records| - 1];
      Write(WriteAll(v, p, records[..|records| - 1], fails), v(r), r, fails(r))
  }

  function Changed(s: Store, batch: seq<RawRecord>): seq<RawRecord> {
    Keep(Judge(s), batch)
  }

  function Persist(s: Store, records: seq<RawRecord>, fails: RawRecord -> bool): Persisted {
    WriteAll(Judge(s), Persisted(s.rows, ZERO), records, fails)
  }

  function Scanned(s: Store, batch: seq<RawRecord>): Store {
    s.(types := NoteSources(s.types, batch))
  }

  // ---------------------------------------------------------------- the two loops

  /** The source cache of both steps: `get_or_create_source` runs once per source name. */
  method GetOrCreateSources(types0: map<string, string>, batch: seq<RawRecord>) returns (types: map<string, string>)
    ensures types == NoteSources(types0, batch)
    ensures NotedByFirst(types0, types, batch)
  {
    hide NotedByFirst;
    types := types0;
    var cache: set<string> := {};
    for i := 0 to |batch|
      invariant cache == SourcesOf(batch[..i])
      invariant types == NoteSources(types0, batch[..i])
    {
      var r := batch[i];
      assert batch[..i + 1][..i] == batch[..i];
      assert batch[..i + 1] == batch[..i] + [r];
      if r.source !in cache {
        types := types[r.source := r.sourceType];
        cache := cache + {r.source};
      }
    }
    assert batch[..|batch|] == batch;
    NotesByFirst(types0, batch);
  }

  /** Every source of the batch has the type of its first record, and no other source is touched. */
  ghost predicate NotedByFirst(types0: map<string, string>, types: map<string, string>, batch: seq<RawRecord>) {
    && (forall i :: 0 <= i < |batch| && batch[i].source !in SourcesOf(batch[..i]) ==>
          batch[i].source in types && types[batch[i].source] == batch[i].sourceType)
    && (forall name :: name !in SourcesOf(batch) ==>
          (name in types <==> name in types0) && (name in types0 ==> types[name] == types0[name]))
  }

  lemma NotesByFirst(types: map<string, string>, batch: seq<RawRecord>)
    ensures NotedByFirst(types, NoteSources(types, batch), batch)
  {
    hide NoteSources;
    forall i | 0 <= i < |batch| && batch[i].source !in SourcesOf(batch[..i])
      ensures Typed(NoteSources(types, batch), batch[i])
    {
      FirstOccurrenceWins(types, batch, i);
    }
    OtherSourcesStay(types, batch);
  }

  lemma {:induction false} OtherSourcesStay(types: map<string, string>, batch: seq<RawRecord>)
    ensures forall name :: name !in SourcesOf(batch) ==>
              (name in NoteSources(types, batch) <==> name in types)
              && (name in types ==> NoteSources(types, batch)[name] == types[name])
  {
    if batch != [] {
      var front, z := batch[..|batch| - 1], batch[|batch| - 1];
      OtherSourcesStay(types, front);
      assert batch == front + [z] && z in batch;
      assert forall r :: r in front ==> r in batch;
    }
  }

  /** `_external_batch_changes`: note the sources, then compare against the rows read once. */
  method ExternalBatchChanges(store: Store, batch: seq<RawRecord>)
    returns (store': Store, processable: seq<RawRecord>, same: nat)
    ensures store' == Scanned(store, batch)
    ensures processable == Changed(store', batch)
    ensures same == SkipCount(Judge(store'), batch)
  {
    hide NotedByFirst, NoteSources, IsUnchanged;
    var types := GetOrCreateSources(store.types, batch);
    store' := store.(types := types);
    processable, same := [], 0;
    for i := 0 to |batch|
      invariant processable == Keep(Judge(store'), batch[..i])
      invariant same == SkipCount(Judge(store'), batch[..i])
    {
      assert batch[..i + 1][..i] == batch[..i];
      if IsUnchanged(store', batch[i]) {
        same := same + 1;
      } else {
        processable := processable + [batch[i]];
      }
    }
    assert batch[..|batch|] == batch;
  }

  /** `_persist_external_batch`: existing rows are read once, then every record is
      re-checked, written and counted. `fails(r)` says that the transformed object of
      `r` carries the status "failed". */
  method PersistExternalBatch(store: Store, records: seq<RawRecord>, fails: RawRecord -> bool)
    returns (store': Store, result: Tally)
    ensures var noted := Scanned(store, records); var p := Persist(noted, records, fails);
            store' == noted.(rows := p.rows) && result == p.tally
    ensures Counted(Scanned(store, records), result, records, fails)
    ensures DistinctKeys(records) ==> StoredByKey(Scanned(store, records), store'.rows, records)
  {
    hide WriteAll, NoteSources, Judge, Counted, StoredByKey, IsUnchanged, NotedByFirst, DistinctKeys;
    var types := GetOrCreateSources(store.types, records);
    var existing := store.(types := types);
    var rows := existing.rows;
    result := ZERO;
    ghost var v, p0 := Judge(existing), Persisted(existing.rows, ZERO);
    NothingWritten(v, p0, fails);
    assert records[..0] == [];
    for i := 0 to |records|
      invariant Persisted(rows, result) == WriteAll(v, p0, records[..i], fails)
    {
      var r := records[i];
      assert records[..i + 1] == records[..i] + [r];
      WriteOneMore(v, p0, records[..i], r, fails);
      JudgeDecides(existing, r);
      if IsUnchanged(existing, r) {
        result := result.(same := result.same + 1);
      } else {
        if KeyOf(r) in existing.rows {
          result := result.(updated := result.updated + 1);
        } else {
          result := result.(created := result.created + 1);
        }
        rows := rows[KeyOf(r) := Upserted(r)];
        if fails(r) {
          result := result.(failed := result.failed + 1);
        } else {
          result := result.(stored := result.stored + 1);
        }
      }
    }
    assert records[..|records|] == records;
    store' := existing.(rows := rows);
    PersistCounts(existing, records, fails);
    if DistinctKeys(records) {
      PersistStores(existing, records, fails);
    }
  }

  /** How many records of the list satisfy p. */
  function HowMany(records: seq<RawRecord>, p: RawRecord -> bool): nat {
    if records == [] then 0
    else HowMany(records[..|records| - 1], p) + if p(records[|records| - 1]) then 1 else 0
  }

  /** The counters of a batch: recognised, new, and the others by what the transformation made of them. */
  ghost predicate Counted(before: Store, t: Tally, records: seq<RawRecord>, fails: RawRecord -> bool) {
    && t.same == HowMany(records, r => IsUnchanged(before, r))
    && t.created == HowMany(records, (r: RawRecord) => Key(r.source, r.externalId) !in before.rows)
    && t.same + t.created + t.updated == |records|
    && t.failed == HowMany(records, r => !IsUnchanged(before, r) && fails(r))
    && t.stored == HowMany(records, r => !IsUnchanged(before, r) && !fails(r))
  }

  /** Every record not recognised has its row, with its title, content and document; all other rows are
      as they were. */
  ghost predicate StoredByKey(before: Store, rows: map<Key, RawItem>, records: seq<RawRecord>) {
    && (forall r :: r in records && !IsUnchanged(before, r) ==>
          var k := Key(r.source, r.externalId);
          k in rows && rows[k].title == r.title && rows[k].content == r.content && rows[k].raw == r.raw)
    && (forall k :: (forall r :: r in records && !IsUnchanged(before, r) ==> Key(r.source, r.externalId) != k) ==>
          (k in rows <==> k in before.rows) && (k in before.rows ==> rows[k] == before.rows[k]))
  }

  lemma {:induction false} WriteAllCounts(v: RawRecord -> Verdict, p: Persisted, records: seq<RawRecord>,
                                          fails: RawRecord -> bool)
    ensures var t, t' := p.tally, WriteAll(v, p, records, fails).tally;
            && t'.same == t.same + HowMany(records, r => v(r).Same?)
            && t'.created == t.created + HowMany(records, r => v(r).New?)
            && t'.updated == t.updated + HowMany(records, r => v(r).Altered?)
            && t'.failed == t.failed + HowMany(records, r => !v(r).Same? && fails(r))
            && t'.stored == t.stored + HowMany(records, r => !v(r).Same? && !fails(r))
  {
    if records != [] {
      WriteAllCounts(v, p, records[..|records| - 1], fails);
    }
  }

  lemma {:induction false} SameCount(records: seq<RawRecord>, p: RawRecord -> bool, q: RawRecord -> bool)
    requires forall r :: r in records ==> p(r) == q(r)
    ensures HowMany(records, p) == HowMany(records, q)
  {
    if records != [] {
      assert records[|records| - 1] in records;
      SameCount(records[..|records| - 1], p, q);
    }
  }

  lemma {:induction false} VerdictsAddUp(v: RawRecord -> Verdict, records: seq<RawRecord>)
    ensures HowMany(records, r => v(r).Same?) + HowMany(records, r => v(r).New?) + HowMany(records, r => v(r).Altered?)
            == |records|
  {
    if records != [] {
      VerdictsAddUp(v, records[..|records| - 1]);
    }
  }

  /** A record is new when its key has no row, and unchanged only when it has. */
  lemma JudgeMeans(s: Store, r: RawRecord)
    ensures Judge(s)(r).Same? <==> IsUnchanged(s, r)
    ensures Judge(s)(r).New? <==> Key(r.source, r.externalId) !in s.rows
  {
  }

  lemma PersistCounts(s: Store, records: seq<RawRecord>, fails: RawRecord -> bool)
    ensures Counted(s, Persist(s, records, fails).tally, records, fails)
  {
    hide HowMany, IsUnchanged, Judge, WriteAll;
    var v := Judge(s);
    WriteAllCounts(v, Persisted(s.rows, ZERO), records, fails);
    VerdictsAddUp(v, records);
    forall r
      ensures v(r).Same? <==> IsUnchanged(s, r)
      ensures v(r).New? <==> Key(r.source, r.externalId) !in s.rows
    {
      JudgeMeans(s, r);
    }
    SameCount(records, r => v(r).Same?, r => IsUnchanged(s, r));
    SameCount(records, r => v(r).New?, (r: RawRecord) => Key(r.source, r.externalId) !in s.rows);
    SameCount(records, r => !v(r).Same? && fails(r), r => !IsUnchanged(s, r) && fails(r));
    SameCount(records, r => !v(r).Same? && !fails(r), r => !IsUnchanged(s, r) && !fails(r));
  }

  /** With distinct keys every record that is not skipped ends in its own row. */
  lemma {:induction false} WriteAllStores(v: RawRecord -> Verdict, p: Persisted, records: seq<RawRecord>,
                                          fails: RawRecord -> bool)
    requires DistinctKeys(records)
    ensures var q := WriteAll(v, p, records, fails);
            && (forall r :: r in records && !v(r).Same? ==> KeyOf(r) in q.rows && q.rows[KeyOf(r)] == Upserted(r))
            && (forall k :: (forall r :: r in records && !v(r).Same? ==> KeyOf(r) != k) ==>
                  (k in q.rows <==> k in p.rows) && (k in p.rows ==> q.rows[k] == p.rows[k]))
  {
    hide Upserted, Write;
    if records != [] {
      var front, z := records[..|records| - 1], records[|records| - 1];
      assert records == front + [z];
      WriteAllStores(v, p, front, fails);
      LastHasOwnKey(front, z);
      WriteRow(WriteAll(v, p, front, fails), v(z), z, fails(z));
    }
  }

  lemma LastHasOwnKey(front: seq<RawRecord>, z: RawRecord)
    requires DistinctKeys(front + [z])
    ensures DistinctKeys(front) && forall r :: r in front ==> KeyOf(r) != KeyOf(z)
  {
    var records := front + [z];
    assert forall i :: 0 <= i < |front| ==> records[i] == front[i];
    assert records[|front|] == z;
  }

  lemma WriteRow(p: Persisted, v: Verdict, r: RawRecord, fails: bool)
    ensures Write(p, v, r, fails).rows == if v.Same? then p.rows else p.rows[KeyOf(r) := Upserted(r)]
  {
  }

  lemma PersistStores(s: Store, records: seq<RawRecord>, fails: RawRecord -> bool)
    requires DistinctKeys(records)
    ensures StoredByKey(s, Persist(s, records, fails).rows, records)
  {
    hide IsUnchanged, Judge, WriteAll;
    WriteAllStores(Judge(s), Persisted(s.rows, ZERO), records, fails);
    forall r
      ensures Judge(s)(r).Same? <==> IsUnchanged(s, r)
    {
      JudgeMeans(s, r);
    }
    forall r: RawRecord
      ensures KeyOf(r) == Key(r.source, r.externalId)
    {
    }
  }

  lemma NothingWritten(v: RawRecord -> Verdict, p: Persisted, fails: RawRecord -> bool)
    ensures WriteAll(v, p, [], fails) == p
  {
  }

  lemma JudgeDecides(s: Store, r: RawRecord)
    ensures Judge(s)(r) == VerdictOf(IsUnchanged(s, r), KeyOf(r) !in s.rows)
  {
  }

  // ---------------------------------------------------------------- one call, many calls

  /** What is durable between two batches of one run. */
  datatype Progress = Progress(store: Store, tally: Tally, offset: nat)

  datatype Fault = NoFault | BeforeScan | AfterScan

  /** One call: its batch size, its `max_batches`, the verdicts of its transformation, and
      where (by offset of the batch) it is interrupted. */
  datatype Call = Call(size: nat, maxBatches: Option<int>, fails: RawRecord -> bool, fault: nat -> Fault)

  datatype Exit = Finished | Bounded | Interrupted

  datatype Outcome = Outcome(progress: Progress, exit: Exit, batches: nat)

  function Min(a: nat, b: nat): nat { if a <= b then a else b }

  /** Scan and persist the records in [p.offset, upto) and record the new offset, as one commit. */
  function ImportBatch(feed: seq<RawRecord>, p: Progress, upto: nat, fails: RawRecord -> bool): Progress
    requires p.offset <= upto <= |feed|
  {
    var batch := feed[p.offset..upto];
    var scanned := Scanned(p.store, batch);
    var processable := Changed(scanned, batch);
    var noted := Scanned(scanned, processable);
    var written := Persist(noted, processable, fails);
    var total := Credit(written, p.tally, SkipCount(Judge(scanned), batch));
    Progress(noted.(rows := total.rows), total.tally, upto)
  }

  /** A call that nothing bounds and nothing interrupts. */
  ghost predicate Uninterrupted(call: Call) {
    call.size >= 1 && call.maxBatches.None? && forall o :: call.fault(o).NoFault?
  }

  /** Where the batch that starts at `offset` ends. */
  function Upto(feed: seq<RawRecord>, offset: nat, size: nat): (u: nat)
    requires offset < |feed| && size >= 1
    ensures offset < u <= |feed|
  {
    Min(offset + size, |feed|)
  }

  predicate Spent(call: Call, batches: nat) {
    call.maxBatches.Some? && batches >= call.maxBatches.value
  }

  function RunCall(feed: seq<RawRecord>, p: Progress, call: Call, batches: nat): (o: Outcome)
    requires p.offset <= |feed| && call.size >= 1
    ensures p.offset <= o.progress.offset <= |feed|
    ensures o.exit.Finished? ==> o.progress.offset == |feed|
    ensures o.exit.Bounded? ==> o.progress.offset < |feed|
    ensures Uninterrupted(call) ==> o.exit.Finished?
    decreases |feed| - p.offset
  {
    if p.offset == |feed| then Outcome(p, Finished, batches)
    else
      var upto := Upto(feed, p.offset, call.size);
      match call.fault(p.offset)
      case BeforeScan => Outcome(p, Interrupted, batches)
      case AfterScan => Outcome(p.(store := Scanned(p.store, feed[p.offset..upto])), Interrupted, batches)
      case NoFault =>
        var p' := ImportBatch(feed, p, upto, call.fails);
        if Spent(call, batches + 1) && upto < |feed| then Outcome(p', Bounded, batches + 1)
        else RunCall(feed, p', call, batches + 1)
  }

  function RunCalls(feed: seq<RawRecord>, p: Progress, calls: seq<Call>): (q: Progress)
    requires p.offset <= |feed|
    requires forall c :: c in calls ==> c.size >= 1
    ensures p.offset <= q.offset <= |feed|
    decreases |calls|
  {
    if calls == [] then p
    else RunCalls(feed, RunCall(feed, p, calls[0], 0).progress, calls[1..])
  }

  // ---------------------------------------------------------------- the batch-free meaning

  /** Records of a feed have distinct (source, external id) pairs. */
  ghost predicate DistinctKeys(feed: seq<RawRecord>) {
    forall i, j :: 0 <= i < j < |feed| ==> KeyOf(feed[i]) != KeyOf(feed[j])
  }

  /** All records of one source carry the same source type. */
  ghost predicate Homogeneous(feed: seq<RawRecord>) {
    forall a, b :: a in feed && b in feed && a.source == b.source ==> a.sourceType == b.sourceType
  }

  /** The judge of the batch-free meaning: the rows of before the import, and the record's own
      source type instead of the source table. */
  function JudgeAlone(rows: map<Key, RawItem>): RawRecord -> Verdict {
    r => VerdictOf(KeyOf(r) in rows && Unchanged(rows[KeyOf(r)], r.sourceType, r), KeyOf(r) !in rows)
  }

  lemma {:induction false} WriteAllAppend(v: RawRecord -> Verdict, p: Persisted, a: seq<RawRecord>, b: seq<RawRecord>,
                                          fails: RawRecord -> bool)
    ensures WriteAll(v, p, a + b, fails) == WriteAll(v, WriteAll(v, p, a, fails), b, fails)
  {
    if b == [] {
      assert a + b == a;
    } else {
      var front := b[..|b| - 1];
      assert (a + b)[..|a + b| - 1] == a + front;
      WriteAllAppend(v, p, a, front, fails);
    }
  }

  lemma {:induction false} WriteAllKeepsOtherRows(v: RawRecord -> Verdict, p: Persisted, records: seq<RawRecord>,
                                                  fails: RawRecord -> bool, k: Key)
    requires forall r :: r in records ==> KeyOf(r) != k
    ensures var q := WriteAll(v, p, records, fails);
            (k in q.rows <==> k in p.rows) && (k in p.rows ==> q.rows[k] == p.rows[k])
  {
    if records != [] {
      WriteAllKeepsOtherRows(v, p, records[..|records| - 1], fails, k);
      assert KeyOf(records[|records| - 1]) != k;
    }
  }

  /** Two transformations fail the same records of the feed. */
  ghost predicate SameOn(feed: seq<RawRecord>, f: RawRecord -> bool, g: RawRecord -> bool) {
    forall r :: r in feed ==> f(r) == g(r)
  }

  ghost predicate SameFailures(feed: seq<RawRecord>, calls: seq<Call>, fails: RawRecord -> bool) {
    forall c :: c in calls ==> SameOn(feed, c.fails, fails)
  }

  /** Which records the transformation fails moves counts between stored and failed, nothing else. */
  lemma {:induction false} WriteAllCongruence(v: RawRecord -> Verdict, u: RawRecord -> Verdict, p: Persisted,
                                              q: Persisted,
                                              records: seq<RawRecord>, f: RawRecord -> bool, g: RawRecord -> bool)
    requires forall r :: r in records ==> v(r) == u(r)
    requires p.rows == q.rows && p.tally.Coarse() == q.tally.Coarse()
    ensures var p', q' := WriteAll(v, p, records, f), WriteAll(u, q, records, g);
            p'.rows == q'.rows && p'.tally.Coarse() == q'.tally.Coarse()
    ensures p == q && SameOn(records, f, g) ==> WriteAll(v, p, records, f) == WriteAll(u, q, records, g)
  {
    if records != [] {
      WriteAllCongruence(v, u, p, q, records[..|records| - 1], f, g);
      assert records[|records| - 1] in records;
    }
  }

  /** Skipped records counted by the scan and kept records written by the persist step add up
      to writing the whole batch. */
  lemma {:induction false} KeepThenWrite(v: RawRecord -> Verdict, rows: map<Key, RawItem>, tally: Tally,
                                         batch: seq<RawRecord>, fails: RawRecord -> bool)
    ensures Credit(WriteAll(v, Persisted(rows, ZERO), Keep(v, batch), fails), tally, SkipCount(v, batch))
            == WriteAll(v, Persisted(rows, tally), batch, fails)
  {
    if batch != [] {
      var front, r := batch[..|batch| - 1], batch[|batch| - 1];
      KeepThenWrite(v, rows, tally, front, fails);
      var c := Keep(v, front);
      var w := WriteAll(v, Persisted(rows, ZERO), c, fails);
      CreditOne(w, tally, SkipCount(v, front), v(r), r, fails(r));
      if v(r).Same? {
        assert Keep(v, batch) == c;
      } else {
        assert Keep(v, batch) == c + [r];
        WriteOneMore(v, Persisted(rows, ZERO), c, r, fails);
      }
    }
  }

  lemma WriteOneMore(v: RawRecord -> Verdict, p: Persisted, records: seq<RawRecord>, r: RawRecord,
                     fails: RawRecord -> bool)
    ensures WriteAll(v, p, records + [r], fails) == Write(WriteAll(v, p, records, fails), v(r), r, fails(r))
  {
    assert (records + [r])[..|records|] == records;
  }

  lemma CreditOne(w: Persisted, tally: Tally, skipped: nat, v: Verdict, r: RawRecord, fails: bool)
    ensures Write(Credit(w, tally, skipped), v, r, fails)
            == if v.Same? then Credit(w, tally, skipped + 1) else Credit(Write(w, v, r, fails), tally, skipped)
  {
  }

  // ---------------------------------------------------------------- source rows

  /** Source rows after every record of `records` has set its source's type. */
  function Overlay(types: map<string, string>, records: seq<RawRecord>): map<string, string> {
    if records == [] then types
    else
      var r := records[|records| - 1];
      Overlay(types, records[..|records| - 1])[r.source := r.sourceType]
  }

  predicate Typed(types: map<string, string>, r: RawRecord) {
    r.source in types && types[r.source] == r.sourceType
  }

  lemma {:induction false} OverlayAppend(types: map<string, string>, a: seq<RawRecord>, b: seq<RawRecord>)
    ensures Overlay(types, a + b) == Overlay(Overlay(types, a), b)
  {
    if b == [] {
      assert a + b == a;
    } else {
      assert (a + b)[..|a + b| - 1] == a + b[..|b| - 1];
      OverlayAppend(types, a, b[..|b| - 1]);
    }
  }

  lemma {:induction false} OverlayTyped(types: map<string, string>, records: seq<RawRecord>, r: RawRecord)
    requires r in records && Homogeneous(records)
    ensures Typed(Overlay(types, records), r)
  {
    var front, z := records[..|records| - 1], records[|records| - 1];
    assert records == front + [z];
    if r in front {
      OverlayTyped(types, front, r);
    }
  }

  lemma {:induction false} OverlayStable(types: map<string, string>, records: seq<RawRecord>)
    requires forall r :: r in records ==> Typed(types, r)
    ensures Overlay(types, records) == types
  {
    if records != [] {
      var z := records[|records| - 1];
      assert z in records;
      OverlayStable(types, records[..|records| - 1]);
    }
  }

  /** When types agree within a source, noting the first record of each source is the same as
      noting every record. */
  lemma {:induction false} NoteSourcesIsOverlay(types: map<string, string>, batch: seq<RawRecord>)
    requires Homogeneous(batch)
    ensures NoteSources(types, batch) == Overlay(types, batch)
  {
    if batch != [] {
      var front, z := batch[..|batch| - 1], batch[|batch| - 1];
      assert batch == front + [z];
      NoteSourcesIsOverlay(types, front);
      if z.source in SourcesOf(front) {
        var e :| e in front && e.source == z.source;
        OverlayTyped(types, front, e);
      }
    }
  }

  lemma Slice(feed: seq<RawRecord>, lo: nat, hi: nat)
    requires lo <= hi <= |feed|
    ensures forall r :: r in feed[lo..hi] ==> r in feed
  {
  }

  lemma NotedStretchIsTyped(types: map<string, string>, feed: seq<RawRecord>, lo: nat, seen: nat, off: nat, mid: nat)
    requires lo <= off <= mid <= seen <= |feed| && Homogeneous(feed)
    ensures forall r :: r in feed[off..mid] ==> Typed(Overlay(types, feed[lo..seen]), r)
  {
    Slice(feed, lo, seen);
    forall r | r in feed[off..mid]
      ensures Typed(Overlay(types, feed[lo..seen]), r)
    {
      var i :| off <= i < mid && feed[i] == r;
      assert feed[lo..seen][i - lo] == r;
      OverlayTyped(types, feed[lo..seen], r);
    }
  }

  lemma SplitAt(feed: seq<RawRecord>, a: nat, b: nat, c: nat)
    requires a <= b <= c <= |feed|
    ensures feed[a..c] == feed[a..b] + feed[b..c]
  {
  }

  /** Noting records that were noted before changes nothing. */
  lemma OverlayAgain(types: map<string, string>, feed: seq<RawRecord>, lo: nat, seen: nat, off: nat, upto: nat)
    requires lo <= off <= upto <= seen <= |feed| && Homogeneous(feed)
    ensures Overlay(Overlay(types, feed[lo..seen]), feed[off..upto]) == Overlay(types, feed[lo..seen])
  {
    NotedStretchIsTyped(types, feed, lo, seen, off, upto);
    OverlayStable(Overlay(types, feed[lo..seen]), feed[off..upto]);
  }

  /** Noting feed[off..upto] extends the noted stretch feed[lo..seen] to feed[lo..upto]. */
  lemma OverlayExtends(types: map<string, string>, feed: seq<RawRecord>, lo: nat, seen: nat, off: nat, upto: nat)
    requires lo <= off <= seen <= upto <= |feed| && Homogeneous(feed)
    ensures Overlay(Overlay(types, feed[lo..seen]), feed[off..upto]) == Overlay(types, feed[lo..upto])
  {
    OverlayAgain(types, feed, lo, seen, off, seen);
    SplitAt(feed, off, seen, upto);
    SplitAt(feed, lo, seen, upto);
    OverlayAppend(Overlay(types, feed[lo..seen]), feed[off..seen], feed[seen..upto]);
    OverlayAppend(types, feed[lo..seen], feed[seen..upto]);
  }

  lemma HomogeneousSlice(feed: seq<RawRecord>, lo: nat, hi: nat)
    requires lo <= hi <= |feed| && Homogeneous(feed)
    ensures Homogeneous(feed[lo..hi])
  {
    Slice(feed, lo, hi);
  }

  // ---------------------------------------------------------------- batches do not matter

  /** Source rows know feed[lo..seen] for some `seen` at or past the offset: a batch that was
      scanned and then rolled back leaves its source rows behind. */
  ghost predicate TypesTrack(feed: seq<RawRecord>, types0: map<string, string>, lo: nat, off: nat,
                             types: map<string, string>)
    requires lo <= off <= |feed|
  {
    exists seen :: off <= seen <= |feed| && types == Overlay(types0, feed[lo..seen])
  }

  /** Everything durable in `p` is what settling feed[start.offset..p.offset] record by record gives. */
  ghost predicate Tracks(feed: seq<RawRecord>, start: Progress, fails: RawRecord -> bool, agree: bool, p: Progress) {
    && start.offset <= p.offset <= |feed|
    && var q := WriteAll(JudgeAlone(start.store.rows), Persisted(start.store.rows, start.tally),
                         feed[start.offset..p.offset], fails);
       && p.store.rows == q.rows
       && p.tally.Coarse() == q.tally.Coarse()
       && (agree ==> p.tally == q.tally)
       && TypesTrack(feed, start.store.types, start.offset, p.offset, p.store.types)
  }

  lemma ScanKeepsTypesTrack(feed: seq<RawRecord>, types0: map<string, string>, lo: nat, off: nat, upto: nat,
                            s: Store)
    requires Homogeneous(feed) && lo <= off <= upto <= |feed| && TypesTrack(feed, types0, lo, off, s.types)
    ensures TypesTrack(feed, types0, lo, upto, Scanned(s, feed[off..upto]).types)
    ensures forall r :: r in feed[off..upto] ==> Typed(Scanned(s, feed[off..upto]).types, r)
  {
    var seen :| off <= seen <= |feed| && s.types == Overlay(types0, feed[lo..seen]);
    var batch := feed[off..upto];
    HomogeneousSlice(feed, off, upto);
    NoteSourcesIsOverlay(s.types, batch);
    if upto <= seen {
      OverlayAgain(types0, feed, lo, seen, off, upto);
    } else {
      OverlayExtends(types0, feed, lo, seen, off, upto);
    }
    forall r | r in batch
      ensures Typed(Scanned(s, batch).types, r)
    {
      OverlayTyped(s.types, batch, r);
    }
  }

  lemma RescanIsStable(s: Store, batch: seq<RawRecord>)
    requires forall r :: r in batch ==> Typed(s.types, r)
    ensures Scanned(s, batch) == s
  {
    assert Homogeneous(batch);
    NoteSourcesIsOverlay(s.types, batch);
    OverlayStable(s.types, batch);
  }

  /** In a batch of distinct, typed records the judge of the batch is the batch-free judge. */
  lemma BatchVerdicts(feed: seq<RawRecord>, lo: nat, p: Progress, upto: nat, rows: map<Key, RawItem>, q: Persisted,
                      fails: RawRecord -> bool)
    requires DistinctKeys(feed) && lo <= p.offset <= upto <= |feed|
    requires q.rows == rows
    requires p.store.rows == WriteAll(JudgeAlone(rows), q, feed[lo..p.offset], fails).rows
    requires forall r :: r in feed[p.offset..upto] ==> Typed(Scanned(p.store, feed[p.offset..upto]).types, r)
    ensures forall r :: r in feed[p.offset..upto] ==>
              Judge(Scanned(p.store, feed[p.offset..upto]))(r) == JudgeAlone(rows)(r)
  {
    forall r | r in feed[p.offset..upto]
      ensures var k := KeyOf(r);
              (k in p.store.rows <==> k in rows) && (k in rows ==> p.store.rows[k] == rows[k])
    {
      var i :| p.offset <= i < upto && feed[i] == r;
      forall e | e in feed[lo..p.offset]
        ensures KeyOf(e) != KeyOf(r)
      {
        var j :| lo <= j < p.offset && feed[j] == e;
      }
      WriteAllKeepsOtherRows(JudgeAlone(rows), q, feed[lo..p.offset], fails, KeyOf(r));
    }
  }

  lemma {:induction false} KeepMembers(v: RawRecord -> Verdict, batch: seq<RawRecord>)
    ensures forall r :: r in Keep(v, batch) ==> r in batch
  {
    if batch != [] {
      assert batch == batch[..|batch| - 1] + [batch[|batch| - 1]];
      KeepMembers(v, batch[..|batch| - 1]);
    }
  }

  /** One committed batch writes its records judged by the scanned store. */
  lemma BatchWrites(feed: seq<RawRecord>, p: Progress, upto: nat, fails: RawRecord -> bool)
    requires p.offset <= upto <= |feed|
    requires forall r :: r in feed[p.offset..upto] ==> Typed(Scanned(p.store, feed[p.offset..upto]).types, r)
    ensures var s := Scanned(p.store, feed[p.offset..upto]); var p' := ImportBatch(feed, p, upto, fails);
            && p'.store.types == s.types
            && Persisted(p'.store.rows, p'.tally)
               == WriteAll(Judge(s), Persisted(p.store.rows, p.tally), feed[p.offset..upto], fails)
  {
    var batch := feed[p.offset..upto];
    var s := Scanned(p.store, batch);
    KeepMembers(Judge(s), batch);
    RescanIsStable(s, Changed(s, batch));
    KeepThenWrite(Judge(s), s.rows, p.tally, batch, fails);
  }

  /** Writing one more batch on top of what was written so far, under either transformation. */
  lemma WritesExtend(feed: seq<RawRecord>, lo: nat, off: nat, upto: nat, v: RawRecord -> Verdict,
                     u: RawRecord -> Verdict,
                     base: Persisted, fails: RawRecord -> bool, now: Persisted, own: RawRecord -> bool, agree: bool)
    requires lo <= off <= upto <= |feed|
    requires forall r :: r in feed[off..upto] ==> v(r) == u(r)
    requires agree ==> SameOn(feed, own, fails)
    requires var q := WriteAll(u, base, feed[lo..off], fails);
             now.rows == q.rows && now.tally.Coarse() == q.tally.Coarse() && (agree ==> now == q)
    ensures var now', q' := WriteAll(v, now, feed[off..upto], own), WriteAll(u, base, feed[lo..upto], fails);
            now'.rows == q'.rows && now'.tally.Coarse() == q'.tally.Coarse() && (agree ==> now' == q')
  {
    Slice(feed, off, upto);
    WriteAllCongruence(v, u, now, WriteAll(u, base, feed[lo..off], fails), feed[off..upto], own, fails);
    WriteAllAppend(u, base, feed[lo..off], feed[off..upto], fails);
    SplitAt(feed, lo, off, upto);
  }

  lemma BatchTracks(feed: seq<RawRecord>, start: Progress, fails: RawRecord -> bool, agree: bool,
                    p: Progress, upto: nat, own: RawRecord -> bool)
    requires DistinctKeys(feed) && Homogeneous(feed)
    requires Tracks(feed, start, fails, agree, p) && p.offset <= upto <= |feed|
    requires agree ==> SameOn(feed, own, fails)
    ensures Tracks(feed, start, fails, agree, ImportBatch(feed, p, upto, own))
  {
    var lo, off, rows := start.offset, p.offset, start.store.rows;
    var base := Persisted(rows, start.tally);
    ScanKeepsTypesTrack(feed, start.store.types, lo, off, upto, p.store);
    BatchWrites(feed, p, upto, own);
    BatchVerdicts(feed, lo, p, upto, rows, base, fails);
    WritesExtend(feed, lo, off, upto, Judge(Scanned(p.store, feed[off..upto])), JudgeAlone(rows), base, fails,
                 Persisted(p.store.rows, p.tally), own, agree);
  }

  lemma {:induction false} CallTracks(feed: seq<RawRecord>, start: Progress, fails: RawRecord -> bool, agree: bool,
                                      p: Progress, call: Call, batches: nat)
    requires DistinctKeys(feed) && Homogeneous(feed) && call.size >= 1
    requires Tracks(feed, start, fails, agree, p)
    requires agree ==> SameOn(feed, call.fails, fails)
    ensures Tracks(feed, start, fails, agree, RunCall(feed, p, call, batches).progress)
    decreases |feed| - p.offset
  {
    if p.offset < |feed| {
      var upto := Upto(feed, p.offset, call.size);
      match call.fault(p.offset)
      case BeforeScan =>
      case AfterScan =>
        ScanKeepsTypesTrack(feed, start.store.types, start.offset, p.offset, upto, p.store);
      case NoFault =>
        BatchTracks(feed, start, fails, agree, p, upto, call.fails);
        var p' := ImportBatch(feed, p, upto, call.fails);
        if !(Spent(call, batches + 1) && upto < |feed|) {
          CallTracks(feed, start, fails, agree, p', call, batches + 1);
        }
    }
  }

  lemma {:induction false} CallsTrack(feed: seq<RawRecord>, start: Progress, fails: RawRecord -> bool, agree: bool,
                                      p: Progress, calls: seq<Call>)
    requires DistinctKeys(feed) && Homogeneous(feed)
    requires forall c :: c in calls ==> c.size >= 1
    requires Tracks(feed, start, fails, agree, p)
    requires agree ==> SameFailures(feed, calls, fails)
    ensures Tracks(feed, start, fails, agree, RunCalls(feed, p, calls))
    decreases |calls|
  {
    if calls != [] {
      CallTracks(feed, start, fails, agree, p, calls[0], 0);
      CallsTrack(feed, start, fails, agree, RunCall(feed, p, calls[0], 0).progress, calls[1..]);
    }
  }

  lemma StartTracks(feed: seq<RawRecord>, start: Progress, fails: RawRecord -> bool, agree: bool)
    requires start.offset <= |feed|
    ensures Tracks(feed, start, fails, agree, start)
  {
    assert feed[start.offset..start.offset] == [];
  }

  /** Main result. However a feed is cut into calls (any batch sizes, any `max_batches`, batches
      rolled back before or after their scan, calls at offset = length), once the offset
      reaches the end the store, the offset and the totals are those of one uninterrupted call;
      if the transformation gives a record the same verdict in every call, the split between
      stored and failed agrees too. */
  lemma ResumeEqualsUninterrupted(feed: seq<RawRecord>, start: Progress, calls: seq<Call>, whole: Call)
    requires start.offset <= |feed| && DistinctKeys(feed) && Homogeneous(feed)
    requires forall c :: c in calls ==> c.size >= 1
    requires Uninterrupted(whole)
    requires RunCalls(feed, start, calls).offset == |feed|
    ensures var p, q := RunCalls(feed, start, calls), RunCall(feed, start, whole, 0).progress;
            && p.store == q.store && p.offset == q.offset
            && p.tally.Coarse() == q.tally.Coarse()
            && (SameFailures(feed, calls, whole.fails) ==> p == q)
  {
    StartTracks(feed, start, whole.fails, true);
    CallTracks(feed, start, whole.fails, true, start, whole, 0);
    var q := RunCall(feed, start, whole, 0).progress;
    var agree := SameFailures(feed, calls, whole.fails);
    StartTracks(feed, start, whole.fails, agree);
    CallsTrack(feed, start, whole.fails, agree, start, calls);
    TracksAtEnd(feed, start, whole.fails, agree, RunCalls(feed, start, calls), q);
  }

  lemma TracksAtEnd(feed: seq<RawRecord>, start: Progress, fails: RawRecord -> bool, agree: bool, p: Progress,
                    q: Progress)
    requires Tracks(feed, start, fails, agree, p) && Tracks(feed, start, fails, true, q)
    requires p.offset == q.offset == |feed|
    ensures p.store == q.store && p.tally.Coarse() == q.tally.Coarse() && (agree ==> p == q)
  {
  }

  // ---------------------------------------------------------------- one batch size, any feed

  /** In `types` every source of the batch has the type of its first record. */
  ghost predicate NotedIn(types: map<string, string>, batch: seq<RawRecord>) {
    forall i :: 0 <= i < |batch| && batch[i].source !in SourcesOf(batch[..i]) ==> Typed(types, batch[i])
  }

  lemma {:induction false} NotedStays(types: map<string, string>, batch: seq<RawRecord>)
    requires NotedIn(types, batch)
    ensures NoteSources(types, batch) == types
  {
    if batch != [] {
      var front := batch[..|batch| - 1];
      forall i | 0 <= i < |front| && front[i].source !in SourcesOf(front[..i])
        ensures Typed(types, front[i])
      {
        assert front[..i] == batch[..i] && front[i] == batch[i];
      }
      NotedStays(types, front);
      assert batch[|front|].source !in SourcesOf(front) ==> Typed(types, batch[|front|]);
    }
  }

  /** A batch that was scanned and rolled back can be scanned again without a trace. */
  lemma NoteAgain(types: map<string, string>, batch: seq<RawRecord>)
    ensures NoteSources(NoteSources(types, batch), batch) == NoteSources(types, batch)
  {
    forall i | 0 <= i < |batch| && batch[i].source !in SourcesOf(batch[..i])
      ensures Typed(NoteSources(types, batch), batch[i])
    {
      FirstOccurrenceWins(types, batch, i);
    }
    NotedStays(NoteSources(types, batch), batch);
  }

  lemma {:induction false} FirstOccurrenceWins(types: map<string, string>, batch: seq<RawRecord>, i: nat)
    requires i < |batch| && batch[i].source !in SourcesOf(batch[..i])
    ensures batch[i].source in NoteSources(types, batch)
    ensures NoteSources(types, batch)[batch[i].source] == batch[i].sourceType
  {
    var front := batch[..|batch| - 1];
    if i < |front| {
      assert front[..i] == batch[..i];
      FirstOccurrenceWins(types, front, i);
      assert front[i] in front;
    }
  }

  /** `p` has come as far as `q`; at most the sources of its next batch are noted already. */
  predicate InStep(feed: seq<RawRecord>, size: nat, p: Progress, q: Progress, agree: bool)
    requires size >= 1
  {
    && p.offset == q.offset <= |feed| && p.store.rows == q.store.rows
    && p.tally.Coarse() == q.tally.Coarse() && (agree ==> p.tally == q.tally)
    && (p.store.types == q.store.types
        || (p.offset < |feed|
            && p.store.types == NoteSources(q.store.types, feed[q.offset..Upto(feed, q.offset, size)])))
  }

  lemma ScanInStep(feed: seq<RawRecord>, size: nat, p: Progress, q: Progress, agree: bool)
    requires size >= 1 && InStep(feed, size, p, q, agree) && p.offset < |feed|
    ensures var batch := feed[p.offset..Upto(feed, p.offset, size)]; Scanned(p.store, batch) == Scanned(q.store, batch)
  {
    NoteAgain(q.store.types, feed[p.offset..Upto(feed, p.offset, size)]);
  }

  /** Two batch commits from one scanned store leave the same rows, whatever the transformations fail. */
  lemma SameScanSameRows(feed: seq<RawRecord>, p: Progress, q: Progress, upto: nat, f: RawRecord -> bool,
                         g: RawRecord -> bool, agree: bool)
    requires p.offset == q.offset <= upto <= |feed| && (agree ==> SameOn(feed, f, g))
    requires Scanned(p.store, feed[p.offset..upto]) == Scanned(q.store, feed[p.offset..upto])
    requires p.tally.Coarse() == q.tally.Coarse() && (agree ==> p.tally == q.tally)
    ensures var p', q' := ImportBatch(feed, p, upto, f), ImportBatch(feed, q, upto, g);
            && p'.offset == upto == q'.offset && p'.store == q'.store
            && p'.tally.Coarse() == q'.tally.Coarse() && (agree ==> p'.tally == q'.tally)
  {
    hide WriteAll, Keep, NoteSources, SkipCount, Judge;
    var batch := feed[p.offset..upto];
    var s := Scanned(p.store, batch);
    var processable := Changed(s, batch);
    KeepMembers(Judge(s), batch);
    Slice(feed, p.offset, upto);
    var noted := Scanned(s, processable);
    WriteAllCongruence(Judge(noted), Judge(noted), Persisted(noted.rows, ZERO), Persisted(noted.rows, ZERO),
                       processable, f, g);
  }

  lemma BatchInStep(feed: seq<RawRecord>, size: nat, p: Progress, q: Progress, agree: bool, f: RawRecord -> bool,
                    g: RawRecord -> bool)
    requires size >= 1 && InStep(feed, size, p, q, agree) && p.offset < |feed| && (agree ==> SameOn(feed, f, g))
    ensures var upto := Upto(feed, p.offset, size); var p' := ImportBatch(feed, p, upto, f);
            p'.offset == upto && InStep(feed, size, p', ImportBatch(feed, q, upto, g), agree)
  {
    hide ImportBatch, Scanned;
    ScanInStep(feed, size, p, q, agree);
    SameScanSameRows(feed, p, q, Upto(feed, p.offset, size), f, g, agree);
  }

  /** What an uninterrupted call reaches does not depend on the batches it made before. */
  lemma {:induction false} BatchesMadeIrrelevant(feed: seq<RawRecord>, q: Progress, whole: Call, i: nat, j: nat)
    requires q.offset <= |feed| && Uninterrupted(whole)
    ensures RunCall(feed, q, whole, i).progress == RunCall(feed, q, whole, j).progress
    decreases |feed| - q.offset
  {
    if q.offset < |feed| {
      RunStep(feed, q, whole, i);
      RunStep(feed, q, whole, j);
      BatchesMadeIrrelevant(feed, ImportBatch(feed, q, Upto(feed, q.offset, whole.size), whole.fails), whole, i + 1,
                            j + 1);
    }
  }

  /** The uninterrupted call has a state that a resumed call is in step with. */
  lemma {:induction false} CallInStep(feed: seq<RawRecord>, p: Progress, q: Progress, agree: bool, call: Call,
                                      whole: Call, batches: nat)
    returns (q': Progress)
    requires Uninterrupted(whole) && call.size == whole.size && InStep(feed, whole.size, p, q, agree)
    requires agree ==> SameOn(feed, call.fails, whole.fails)
    ensures InStep(feed, whole.size, RunCall(feed, p, call, batches).progress, q', agree)
    ensures RunCall(feed, q', whole, 0).progress == RunCall(feed, q, whole, 0).progress
    decreases |feed| - p.offset
  {
    hide InStep, ImportBatch;
    q' := q;
    Bounds(feed, whole.size, p, q, agree);
    if p.offset < |feed| {
      var upto := Upto(feed, p.offset, call.size);
      match call.fault(p.offset)
      case BeforeScan =>
      case AfterScan => RollBackInStep(feed, whole.size, p, q, agree);
      case NoFault =>
        BatchInStep(feed, whole.size, p, q, agree, call.fails, whole.fails);
        var p1, q1 := ImportBatch(feed, p, upto, call.fails), ImportBatch(feed, q, upto, whole.fails);
        RunStep(feed, q, whole, 0);
        BatchesMadeIrrelevant(feed, q1, whole, 1, 0);
        q' := q1;
        if !(Spent(call, batches + 1) && upto < |feed|) {
          Bounds(feed, whole.size, p1, q1, agree);
          q' := CallInStep(feed, p1, q1, agree, call, whole, batches + 1);
        }
    }
  }

  lemma Bounds(feed: seq<RawRecord>, size: nat, p: Progress, q: Progress, agree: bool)
    requires size >= 1 && InStep(feed, size, p, q, agree)
    ensures p.offset == q.offset <= |feed|
  {
  }

  lemma RollBackInStep(feed: seq<RawRecord>, size: nat, p: Progress, q: Progress, agree: bool)
    requires size >= 1 && InStep(feed, size, p, q, agree) && p.offset < |feed|
    ensures InStep(feed, size, p.(store := Scanned(p.store, feed[p.offset..Upto(feed, p.offset, size)])), q, agree)
  {
    ScanInStep(feed, size, p, q, agree);
  }

  lemma {:induction false} CallsInStep(feed: seq<RawRecord>, p: Progress, q: Progress, agree: bool, calls: seq<Call>,
                                       whole: Call)
    returns (q': Progress)
    requires Uninterrupted(whole) && InStep(feed, whole.size, p, q, agree)
    requires forall c :: c in calls ==> c.size == whole.size
    requires agree ==> SameFailures(feed, calls, whole.fails)
    ensures InStep(feed, whole.size, RunCalls(feed, p, calls), q', agree)
    ensures RunCall(feed, q', whole, 0).progress == RunCall(feed, q, whole, 0).progress
    decreases |calls|
  {
    hide InStep, RunCall;
    Bounds(feed, whole.size, p, q, agree);
    q' := q;
    if calls != [] {
      q' := CallInStep(feed, p, q, agree, calls[0], whole, 0);
      q' := CallsInStep(feed, RunCall(feed, p, calls[0], 0).progress, q', agree, calls[1..], whole);
    }
  }

  /** Main result. At one batch size, whatever the feed: however many calls, bounded or interrupted before
      or after a scan, once the offset reaches the end the store, the offset and the totals are those of
      one uninterrupted call. Sources may come with several types, and keys may repeat. */
  lemma ResumeAtOneBatchSize(feed: seq<RawRecord>, start: Progress, calls: seq<Call>, whole: Call)
    requires start.offset <= |feed| && Uninterrupted(whole)
    requires forall c :: c in calls ==> c.size == whole.size
    requires RunCalls(feed, start, calls).offset == |feed|
    ensures var p, q := RunCalls(feed, start, calls), RunCall(feed, start, whole, 0).progress;
            && p.store == q.store && p.offset == q.offset && p.tally.Coarse() == q.tally.Coarse()
            && (SameFailures(feed, calls, whole.fails) ==> p == q)
  {
    var agree := SameFailures(feed, calls, whole.fails);
    var q := CallsInStep(feed, start, start, agree, calls, whole);
  }

  // ---------------------------------------------------------------- and when they do

  lemma {:induction false} NothingSkipped(v: RawRecord -> Verdict, p: Persisted, records: seq<RawRecord>,
                                          fails: RawRecord -> bool)
    requires forall r :: r in records ==> !v(r).Same?
    ensures Keep(v, records) == records && SkipCount(v, records) == 0
    ensures WriteAll(v, p, records, fails).tally.same == p.tally.same
  {
    if records != [] {
      var front, z := records[..|records| - 1], records[|records| - 1];
      assert records == front + [z] && z in records;
      NothingSkipped(v, p, front, fails);
    }
  }

  lemma SkippedStays(feed: seq<RawRecord>, p: Progress, upto: nat, fails: RawRecord -> bool)
    requires p.offset <= upto <= |feed| && p.tally.same > 0
    ensures ImportBatch(feed, p, upto, fails).tally.same > 0
  {
  }

  lemma RunStep(feed: seq<RawRecord>, p: Progress, call: Call, batches: nat)
    requires p.offset < |feed| && Uninterrupted(call)
    ensures RunCall(feed, p, call, batches)
            == RunCall(feed, ImportBatch(feed, p, Upto(feed, p.offset, call.size), call.fails), call, batches + 1)
  {
    assert call.fault(p.offset).NoFault?;
  }

  lemma {:induction false} SkippedNeverDrops(feed: seq<RawRecord>, p: Progress, call: Call, batches: nat)
    requires p.offset <= |feed| && Uninterrupted(call) && p.tally.same > 0
    ensures RunCall(feed, p, call, batches).progress.tally.same > 0
    decreases |feed| - p.offset
  {
    if p.offset < |feed| {
      var upto := Upto(feed, p.offset, call.size);
      SkippedStays(feed, p, upto, call.fails);
      SkippedNeverDrops(feed, ImportBatch(feed, p, upto, call.fails), call, batches + 1);
      RunStep(feed, p, call, batches);
    }
  }

  /** The store that tells batch sizes apart: it holds `r` with no declared source type. */
  function Telltale(r: RawRecord): Store {
    Store(map[], map[KeyOf(r) := UndeclaredCopy(r)])
  }

  lemma NoteOne(types: map<string, string>, r: RawRecord)
    ensures NoteSources(types, [r]) == types[r.source := r.sourceType]
  {
    assert [r][..0] == [];
    assert NoteSources(types, [r][..0]) == types;
  }

  /** Imported alone, a record refreshes its source's type first, so its stored copy is recognised. */
  lemma SingleBatch(feed: seq<RawRecord>, p: Progress, fails: RawRecord -> bool, j: nat)
    requires DistinctKeys(feed) && p.offset <= j < |feed|
    requires KeyOf(feed[j]) in p.store.rows && p.store.rows[KeyOf(feed[j])] == UndeclaredCopy(feed[j])
    ensures var p' := ImportBatch(feed, p, p.offset + 1, fails);
            && (p.offset == j ==> p'.tally.same > 0)
            && (p.offset < j ==>
                  KeyOf(feed[j]) in p'.store.rows && p'.store.rows[KeyOf(feed[j])] == UndeclaredCopy(feed[j]))
  {
    var r := feed[p.offset];
    var s := Scanned(p.store, [r]);
    assert feed[p.offset..p.offset + 1] == [r];
    NoteOne(p.store.types, r);
    BatchWrites(feed, p, p.offset + 1, fails);
    WriteOneMore(Judge(s), Persisted(p.store.rows, p.tally), [], r, fails);
    assert [] + [r] == [r];
    SingleVerdict(s, r, feed[j], p.offset == j);
  }

  lemma SingleVerdict(s: Store, r: RawRecord, z: RawRecord, isZ: bool)
    requires Typed(s.types, r) && (if isZ then r == z else KeyOf(r) != KeyOf(z))
    requires KeyOf(z) in s.rows && s.rows[KeyOf(z)] == UndeclaredCopy(z)
    ensures isZ ==> Judge(s)(r).Same?
  {
    UndeclaredCopyFollowsSource(z, z.sourceType);
  }

  lemma {:induction false} SinglesRecognise(feed: seq<RawRecord>, p: Progress, call: Call, batches: nat, j: nat)
    requires DistinctKeys(feed) && Uninterrupted(call) && call.size == 1 && p.offset <= j < |feed|
    requires KeyOf(feed[j]) in p.store.rows && p.store.rows[KeyOf(feed[j])] == UndeclaredCopy(feed[j])
    ensures RunCall(feed, p, call, batches).progress.tally.same > 0
    decreases |feed| - p.offset
  {
    var p' := ImportBatch(feed, p, p.offset + 1, call.fails);
    SingleBatch(feed, p, call.fails, j);
    RunStep(feed, p, call, batches);
    if p.offset < j {
      SinglesRecognise(feed, p', call, batches + 1, j);
    } else {
      SkippedNeverDrops(feed, p', call, batches + 1);
    }
  }

  /** Judged by a table that gives its source another type, the stored copy is not recognised,
      and no other record of the feed is stored at all. */
  lemma TelltaleVerdicts(feed: seq<RawRecord>, j: nat, s: Store)
    requires DistinctKeys(feed) && j < |feed| && s.rows == Telltale(feed[j]).rows
    requires feed[j].source in s.types && s.types[feed[j].source] != feed[j].sourceType
    ensures forall r :: r in feed ==> !Judge(s)(r).Same?
  {
    UndeclaredCopyFollowsSource(feed[j], s.types[feed[j].source]);
    forall r | r in feed
      ensures !Judge(s)(r).Same?
    {
      var k :| 0 <= k < |feed| && feed[k] == r;
      assert KeyOf(r) in s.rows ==> k == j;
    }
  }

  /** In one batch the first record of the source decides the type, and a later record of another
      type is taken for changed. */
  lemma WholeBatchMisses(feed: seq<RawRecord>, i: nat, j: nat, fails: RawRecord -> bool)
    requires DistinctKeys(feed) && i < j < |feed| && feed[i].source == feed[j].source
    requires feed[i].source !in SourcesOf(feed[..i]) && feed[i].sourceType != feed[j].sourceType
    ensures ImportBatch(feed, Progress(Telltale(feed[j]), ZERO, 0), |feed|, fails).tally.same == 0
  {
    var s0 := Telltale(feed[j]);
    assert feed[0..|feed|] == feed;
    var s := Scanned(s0, feed);
    var noted := Scanned(s, feed);
    FirstOccurrenceWins(s0.types, feed, i);
    FirstOccurrenceWins(s.types, feed, i);
    TelltaleVerdicts(feed, j, s);
    TelltaleVerdicts(feed, j, noted);
    NothingSkipped(Judge(s), Persisted(s.rows, ZERO), feed, fails);
    NothingSkipped(Judge(noted), Persisted(s.rows, ZERO), feed, fails);
  }

  lemma WholeMisses(feed: seq<RawRecord>, i: nat, j: nat, call: Call)
    requires DistinctKeys(feed) && i < j < |feed| && feed[i].source == feed[j].source
    requires feed[i].source !in SourcesOf(feed[..i]) && feed[i].sourceType != feed[j].sourceType
    requires Uninterrupted(call) && call.size == |feed|
    ensures RunCall(feed, Progress(Telltale(feed[j]), ZERO, 0), call, 0).progress.tally.same == 0
  {
    RunStep(feed, Progress(Telltale(feed[j]), ZERO, 0), call, 0);
    WholeBatchMisses(feed, i, j, call.fails);
  }

  lemma FirstOfSource(feed: seq<RawRecord>, k: nat) returns (i: nat)
    requires k < |feed|
    ensures i <= k && feed[i].source == feed[k].source
    ensures forall m :: 0 <= m < i ==> feed[m].source != feed[k].source
  {
    i := 0;
    while feed[i].source != feed[k].source
      invariant i <= k
      invariant forall m :: 0 <= m < i ==> feed[m].source != feed[k].source
      decreases k - i
    {
      i := i + 1;
    }
  }

  /** Uninterrupted calls over `feed` agree on every count, whatever the store, the batch size
      and the transformation. */
  ghost predicate BatchSizeIrrelevant(feed: seq<RawRecord>) {
    forall s: Store, a: Call, b: Call :: Uninterrupted(a) && Uninterrupted(b) ==>
      RunCall(feed, Progress(s, ZERO, 0), a, 0).progress.tally.Coarse()
      == RunCall(feed, Progress(s, ZERO, 0), b, 0).progress.tally.Coarse()
  }

  lemma Offender(feed: seq<RawRecord>) returns (i: nat, j: nat)
    requires !Homogeneous(feed)
    ensures i < j < |feed| && feed[i].source == feed[j].source && feed[i].sourceType != feed[j].sourceType
    ensures feed[i].source !in SourcesOf(feed[..i])
  {
    var x, y :| x in feed && y in feed && x.source == y.source && x.sourceType != y.sourceType;
    var a :| 0 <= a < |feed| && feed[a] == x;
    var b :| 0 <= b < |feed| && feed[b] == y;
    i := FirstOfSource(feed, a);
    j := if feed[i].sourceType == x.sourceType then b else a;
  }

  lemma BatchSizeRelevant(feed: seq<RawRecord>)
    requires DistinctKeys(feed) && !Homogeneous(feed)
    ensures !BatchSizeIrrelevant(feed)
  {
    var i, j := Offender(feed);
    var s := Telltale(feed[j]);
    var one, all := Calm(1), Calm(|feed|);
    SinglesRecognise(feed, Progress(s, ZERO, 0), one, 0, j);
    WholeMisses(feed, i, j, all);
    CoarseDiffers(RunCall(feed, Progress(s, ZERO, 0), one, 0).progress.tally,
                  RunCall(feed, Progress(s, ZERO, 0), all, 0).progress.tally);
  }

  function Calm(size: nat): Call {
    Call(size, None, r => false, o => NoFault)
  }

  lemma CoarseDiffers(a: Tally, b: Tally)
    requires a.same != b.same
    ensures a.Coarse() != b.Coarse()
  {
  }

  /** Main result. Batch boundaries are invisible for exactly the feeds in which a source name
      comes with one source type. */
  lemma BatchSizeIrrelevantIff(feed: seq<RawRecord>)
    requires DistinctKeys(feed)
    ensures BatchSizeIrrelevant(feed) <==> Homogeneous(feed)
  {
    if Homogeneous(feed) {
      forall s: Store, a: Call, b: Call | Uninterrupted(a) && Uninterrupted(b)
        ensures RunCall(feed, Progress(s, ZERO, 0), a, 0).progress.tally.Coarse()
                == RunCall(feed, Progress(s, ZERO, 0), b, 0).progress.tally.Coarse()
      {
        var start := Progress(s, ZERO, 0);
        StartTracks(feed, start, b.fails, false);
        StartTracks(feed, start, b.fails, true);
        CallTracks(feed, start, b.fails, false, start, a, 0);
        CallTracks(feed, start, b.fails, true, start, b, 0);
        TracksAtEnd(feed, start, b.fails, false, RunCall(feed, start, a, 0).progress,
                    RunCall(feed, start, b, 0).progress);
      }
    } else {
      BatchSizeRelevant(feed);
    }
  }

  // ---------------------------------------------------------------- the same feed again

  /** Main result. A feed is imported into a store without any of its records, and then once more: the
      second import finds exactly the consistent records unchanged and updates the others, it creates
      nothing, and every row still holds its record. */
  lemma SecondImportRecognises(feed: seq<RawRecord>, store: Store, first: Call, second: Call)
    requires DistinctKeys(feed) && Homogeneous(feed) && Uninterrupted(first) && Uninterrupted(second)
    requires forall r :: r in feed ==> KeyOf(r) !in store.rows
    ensures var p := RunCall(feed, Progress(store, ZERO, 0), first, 0).progress;
            var q := RunCall(feed, Progress(p.store, ZERO, 0), second, 0).progress;
            && p.tally.created == |feed| && q.tally.created == 0
            && q.tally.same == HowMany(feed, Consistent) && q.tally.updated == |feed| - q.tally.same
            && forall r :: r in feed ==> KeyOf(r) in q.store.rows && q.store.rows[KeyOf(r)] == Upserted(r)
  {
    hide RunCall, WriteAll, HowMany, Upserted, Consistent, Unchanged, DistinctKeys, Homogeneous;
    var start := Progress(store, ZERO, 0);
    FirstImport(feed, start, first);
    var again := Progress(RunCall(feed, start, first, 0).progress.store, ZERO, 0);
    ImportIsWriteAll(feed, again, second);
    var v := JudgeAlone(again.store.rows);
    RecognisedIf(feed, again.store.rows);
    WriteAllCounts(v, Persisted(again.store.rows, ZERO), feed, second.fails);
    WriteAllStores(v, Persisted(again.store.rows, ZERO), feed, second.fails);
    VerdictsAddUp(v, feed);
    SameCount(feed, r => v(r).Same?, Consistent);
    SameCount(feed, r => v(r).New?, r => false);
    NoneOf(feed);
  }

  lemma {:induction false} NoneOf(records: seq<RawRecord>)
    ensures HowMany(records, r => false) == 0 && HowMany(records, r => true) == |records|
  {
    if records != [] {
      NoneOf(records[..|records| - 1]);
    }
  }

  lemma RecognisedIf(feed: seq<RawRecord>, rows: map<Key, RawItem>)
    requires forall r :: r in feed ==> KeyOf(r) in rows && rows[KeyOf(r)] == Upserted(r)
    ensures forall r :: r in feed ==>
              (JudgeAlone(rows)(r).Same? <==> Consistent(r)) && !JudgeAlone(rows)(r).New?
  {
    hide Upserted, Consistent, Unchanged;
    forall r | r in feed
      ensures (JudgeAlone(rows)(r).Same? <==> Consistent(r)) && !JudgeAlone(rows)(r).New?
    {
      StoredIsUnchangedIff(r);
    }
  }

  /** A whole import is one sequence of writes, judged by the rows before it. */
  lemma ImportIsWriteAll(feed: seq<RawRecord>, start: Progress, call: Call)
    requires DistinctKeys(feed) && Homogeneous(feed) && Uninterrupted(call) && start.offset == 0
    ensures var p := RunCall(feed, start, call, 0).progress;
            Persisted(p.store.rows, p.tally)
            == WriteAll(JudgeAlone(start.store.rows), Persisted(start.store.rows, start.tally), feed, call.fails)
  {
    hide RunCall, WriteAll, JudgeAlone, Homogeneous, DistinctKeys;
    StartTracks(feed, start, call.fails, true);
    CallTracks(feed, start, call.fails, true, start, call, 0);
    ReachesEnd(feed, start, call);
    assert feed[0..|feed|] == feed;
  }

  lemma ReachesEnd(feed: seq<RawRecord>, start: Progress, call: Call)
    requires Uninterrupted(call) && start.offset <= |feed|
    ensures RunCall(feed, start, call, 0).progress.offset == |feed|
  {
  }

  lemma FirstImport(feed: seq<RawRecord>, start: Progress, call: Call)
    requires DistinctKeys(feed) && Homogeneous(feed) && Uninterrupted(call) && start.offset == 0
    requires start.tally == ZERO && forall r :: r in feed ==> KeyOf(r) !in start.store.rows
    ensures var p := RunCall(feed, start, call, 0).progress;
            && p.tally.created == |feed|
            && forall r :: r in feed ==> KeyOf(r) in p.store.rows && p.store.rows[KeyOf(r)] == Upserted(r)
  {
    hide RunCall, WriteAll, HowMany, Upserted, Unchanged, DistinctKeys, Homogeneous;
    var v := JudgeAlone(start.store.rows);
    ImportIsWriteAll(feed, start, call);
    WriteAllCounts(v, Persisted(start.store.rows, ZERO), feed, call.fails);
    WriteAllStores(v, Persisted(start.store.rows, ZERO), feed, call.fails);
    SameCount(feed, r => v(r).New?, r => true);
    NoneOf(feed);
  }
}
