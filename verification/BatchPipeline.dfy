/** Batch processing of external records against processing them one by one. */
module BatchPipeline {
  import opened RawItems

  datatype Result<T> = Ok(value: T) | Raised(message: string)

  datatype Classification = Classification(name: string, confidence: real, backend: string)

  datatype Failure = Failure(stage: string, message: string, connector: string, record: string)

  datatype External = External(source: string, externalId: string, content: string)

  type Raw = seq<string>

  /** The object under construction, as far as the pipeline itself fills it. */
  datatype CtiObject = CtiObject(record: External, text: string, status: string, errors: seq<Failure>,
                                 classification: Option<Classification>, indicators: seq<string>, entities: seq<string>,
                                 relationships: seq<string>, confidence: real, severity: Option<string>,
                                 tags: seq<string>)

  datatype Prepared = Prepared(record: External, text: string, obj: CtiObject, classification: Classification,
                               indicators: seq<string>, needsNer: bool)

  datatype Step = Finished(obj: CtiObject) | Ready(prepared: Prepared)

  /** The parts the pipeline is assembled from; any of them may raise. D is the deduplicator's memory. */
  datatype Components<!D> = Components(
    normalize: External -> Result<string>,
    isDuplicate: (D, External, string) -> (D, Result<bool>),
    classify: (External, string) -> Result<Classification>,
    findIndicators: string -> Result<seq<string>>,
    extract: string -> Result<Raw>,
    extractBatch: Option<seq<string> -> Result<seq<Raw>>>,
    coerce: Raw -> Result<seq<string>>,
    relate: (string, seq<string>, seq<string>, string) -> Result<seq<string>>,
    severity: External -> Result<Option<string>>,
    tags: (External, Classification) -> Result<seq<string>>)

  function BaseObject(record: External, text: string): CtiObject {
    CtiObject(record, text, "collected", [], None, [], [], [], 0.0, None, [])
  }

  function FailedObject(record: External, stage: string, message: string): CtiObject {
    BaseObject(record, "").(status := "failed", errors := [Failure(stage, message, record.source, record.externalId)])
  }

  /** Everything after the duplicate check. */
  function Classify<D>(c: Components<D>, record: External, text: string, obj: CtiObject): Result<Step> {
    match c.classify(record, text)
    case Raised(m) => Raised(m)
    case Ok(classification) =>
      var classified := obj.(classification := Some(classification), status := "classified");
      if classification.name == "not_cybersecurity" then Ok(Finished(classified.(status := "ignored")))
      else match c.findIndicators(text)
        case Raised(m) => Raised(m)
        case Ok(indicators) => Ok(Ready(Prepared(record, text, classified, classification, indicators,
                                                 classification.name == "cti_related")))
  }

  function Prepare<D>(c: Components<D>, memory: D, record: External): (D, Result<Step>) {
    match c.normalize(record)
    case Raised(m) => (memory, Raised(m))
    case Ok(text) =>
      var obj := BaseObject(record, text);
      var (after, duplicate) := c.isDuplicate(memory, record, text);
      match duplicate
      case Raised(m) => (after, Raised(m))
      case Ok(true) =>
        var failure := Failure("deduplication", "duplicate external record", record.source, record.externalId);
        (after, Ok(Finished(obj.(status := "ignored", errors := [failure]))))
      case Ok(false) => (after, Classify(c, record, text, obj.(status := "normalized")))
  }

  function Confidence(c: Classification, entities: seq<string>, indicators: seq<string>): real {
    var sum := c.confidence + if entities != [] || indicators != [] then 0.05 else 0.0;
    if sum > 1.0 then 1.0 else sum
  }

  function Finalize<D>(c: Components<D>, p: Prepared, entities: seq<string>): Result<CtiObject> {
    match c.relate(p.text, entities, p.indicators, p.record.externalId)
    case Raised(m) => Raised(m)
    case Ok(relationships) =>
      match c.severity(p.record)
      case Raised(m) => Raised(m)
      case Ok(severity) =>
        match c.tags(p.record, p.classification)
        case Raised(m) => Raised(m)
        case Ok(tags) =>
          Ok(p.obj.(indicators := p.indicators, entities := entities, relationships := relationships,
                       confidence := Confidence(p.classification, entities, p.indicators), severity := severity,
                       tags := tags,
                       status := "transformed"))
  }

  /** Coercion and the final steps, from what an extractor returned or raised. */
  function Complete<D>(c: Components<D>, p: Prepared, raw: Result<Raw>): Result<CtiObject> {
    match raw
    case Raised(m) => Raised(m)
    case Ok(r) =>
      match c.coerce(r)
      case Raised(m) => Raised(m)
      case Ok(entities) => Finalize(c, p, entities)
  }

  /** `process_record` from a prepared step. */
  function Resume<D>(c: Components<D>, step: Result<Step>): Result<CtiObject> {
    match step
    case Raised(m) => Raised(m)
    case Ok(Finished(obj)) => Ok(obj)
    case Ok(Ready(p)) => if p.needsNer then Complete(c, p, c.extract(p.text)) else Finalize(c, p, [])
  }

  function ProcessRecord<D>(c: Components<D>, memory: D, record: External): (D, Result<CtiObject>) {
    (Prepare(c, memory, record).0, Resume(c, Prepare(c, memory, record).1))
  }

  /** A record that raises becomes a failed object. */
  function OrFailed(record: External, r: Result<CtiObject>): CtiObject {
    match r case Ok(obj) => obj case Raised(m) => FailedObject(record, "batch", m)
  }

  // ---------------------------------------------------------------- one by one

  function MemoryAfter<D>(c: Components<D>, memory: D, records: seq<External>): D {
    if records == [] then memory
    else ProcessRecord(c, MemoryAfter(c, memory, records[..|records| - 1]), records[|records| - 1]).0
  }

  /** Each record on the memory the records before it left. */
  function StepAt<D>(c: Components<D>, memory: D, records: seq<External>, k: nat): Result<Step>
    requires k < |records|
  {
    Prepare(c, MemoryAfter(c, memory, records[..k]), records[k]).1
  }

  function ObjectAt<D>(c: Components<D>, memory: D, records: seq<External>, k: nat): CtiObject
    requires k < |records|
  {
    OrFailed(records[k], ProcessRecord(c, MemoryAfter(c, memory, records[..k]), records[k]).1)
  }

  function OneByOne<D>(c: Components<D>, memory: D, records: seq<External>): (r: seq<CtiObject>)
    ensures |r| == |records| && forall k :: 0 <= k < |records| ==> r[k] == ObjectAt(c, memory, records, k)
  {
    seq(|records|, k requires 0 <= k < |records| => ObjectAt(c, memory, records, k))
  }

  // ---------------------------------------------------------------- what an object says, field by field

  /** The deduplicator's memory after some records: it is asked about every record that can be normalised. */
  function Remembered<D>(c: Components<D>, memory: D, records: seq<External>): D {
    if records == [] then memory
    else
      var before, z := Remembered(c, memory, records[..|records| - 1]), records[|records| - 1];
      if c.normalize(z).Raised? then before else c.isDuplicate(before, z, c.normalize(z).value).0
  }

  /** The record can be normalised, and the deduplicator answers. */
  predicate Answered<D>(c: Components<D>, before: D, r: External, answer: bool) {
    && c.normalize(r).Ok?
    && var said := c.isDuplicate(before, r, c.normalize(r).value).1;
       said.Ok? && said.value == answer
  }

  /** A duplicate is ignored with one error that says so; nothing was looked at. */
  predicate SaysDuplicate(r: External, o: CtiObject) {
    && o.record == r && o.status == "ignored" && o.classification == None
    && o.errors == [Failure("deduplication", "duplicate external record", r.source, r.externalId)]
    && o.indicators == [] && o.entities == [] && o.relationships == [] && o.tags == [] && o.severity == None
  }

  /** A new record is classified; outside cybersecurity it is ignored without an error. */
  predicate SaysIrrelevant(r: External, classification: Classification, o: CtiObject) {
    && o.record == r && o.status == "ignored" && o.errors == [] && o.classification == Some(classification)
    && o.indicators == [] && o.entities == [] && o.relationships == [] && o.tags == [] && o.severity == None
  }

  /** Any other new record ends with what each component gave for it. */
  predicate SaysTransformed<D>(c: Components<D>, r: External, text: string, classification: Classification,
                               entities: seq<string>, o: CtiObject) {
    && o.record == r && o.text == text && o.status == "transformed" && o.errors == []
    && o.classification == Some(classification) && o.entities == entities
    && Ok(o.indicators) == c.findIndicators(text)
    && Ok(o.relationships) == c.relate(text, entities, o.indicators, r.externalId)
    && Ok(o.severity) == c.severity(r) && Ok(o.tags) == c.tags(r, classification)
    && (var found := classification.confidence + (if entities == [] && o.indicators == [] then 0.0 else 0.05);
        o.confidence == if found < 1.0 then found else 1.0)
  }

  /** A record for which a component raised says so, with the component's message, and nothing else. */
  predicate SaysFailed(r: External, message: string, o: CtiObject) {
    && o.record == r && o.status == "failed" && o.classification == None && o.entities == [] && o.indicators == []
    && |o.errors| == 1 && o.errors[0].stage == "batch" && o.errors[0].message == message
    && o.errors[0].connector == r.source && o.errors[0].record == r.externalId
  }

  /** The entities of a text, when extraction and coercion succeed. */
  function EntitiesOf<D>(c: Components<D>, text: string): Result<seq<string>> {
    var raw := c.extract(text);
    if raw.Raised? then Raised(raw.message) else c.coerce(raw.value)
  }

  /** What the object of a new record says, given its text and its class. */
  predicate SaysOfNew<D>(c: Components<D>, r: External, text: string, classification: Classification, o: CtiObject) {
    if classification.name == "not_cybersecurity" then SaysIrrelevant(r, classification, o)
    else
      var entities := if classification.name == "cti_related" then EntitiesOf(c, text) else Ok([]);
      match FirstRaised(c, r, text, classification, entities)
      case Some(message) => SaysFailed(r, message, o)
      case None => SaysTransformed(c, r, text, classification, entities.value, o)
  }

  /** The message of the first component that raises for a relevant record: indicators, entities, relations,
      severity, tags. */
  function FirstRaised<D>(c: Components<D>, r: External, text: string, classification: Classification,
                          entities: Result<seq<string>>): (m: Option<string>)
    ensures m.None? ==> entities.Ok?
  {
    var indicators := c.findIndicators(text);
    if indicators.Raised? then Some(indicators.message)
    else if entities.Raised? then Some(entities.message)
    else
      var relations := c.relate(text, entities.value, indicators.value, r.externalId);
      if relations.Raised? then Some(relations.message)
      else if c.severity(r).Raised? then Some(c.severity(r).message)
      else if c.tags(r, classification).Raised? then Some(c.tags(r, classification).message) else None
  }

  /** The whole meaning of an object: duplicate, irrelevant, transformed or failed, and exactly when. */
  ghost predicate Says<D>(c: Components<D>, before: D, r: External, o: CtiObject) {
    && (Answered(c, before, r, true) ==> SaysDuplicate(r, o))
    && (Answered(c, before, r, false) ==>
          var text := c.normalize(r).value;
          && (forall i :: 0 <= i < |o.errors| ==> o.errors[i].stage != "deduplication")
          && (c.classify(r, text).Raised? ==> SaysFailed(r, c.classify(r, text).message, o))
          && (c.classify(r, text).Ok? ==> SaysOfNew(c, r, text, c.classify(r, text).value, o)))
    && (c.normalize(r).Raised? ==> SaysFailed(r, c.normalize(r).message, o))
    && (c.normalize(r).Ok? && c.isDuplicate(before, r, c.normalize(r).value).1.Raised? ==>
          SaysFailed(r, c.isDuplicate(before, r, c.normalize(r).value).1.message, o))
  }

  lemma {:induction false} MemoryIsRemembered<D>(c: Components<D>, memory: D, records: seq<External>)
    ensures MemoryAfter(c, memory, records) == Remembered(c, memory, records)
  {
    if records != [] {
      MemoryIsRemembered(c, memory, records[..|records| - 1]);
    }
  }

  lemma ProcessedSays<D>(c: Components<D>, before: D, r: External)
    ensures Says(c, before, r, OrFailed(r, ProcessRecord(c, before, r).1))
  {
    hide SaysOfNew, Classify, Resume, SaysFailed, SaysDuplicate;
    RaisedSays(r);
    if Answered(c, before, r, true) {
      DuplicateSays(c, before, r);
    } else if Answered(c, before, r, false) {
      NewSays(c, r, c.normalize(r).value);
      NewProcessed(c, before, r);
    } else {
      UnansweredSays(c, before, r);
    }
  }

  lemma RaisedSays(r: External)
    ensures forall m :: SaysFailed(r, m, FailedObject(r, "batch", m))
  {
  }

  lemma DuplicateSays<D>(c: Components<D>, before: D, r: External)
    requires Answered(c, before, r, true)
    ensures SaysDuplicate(r, OrFailed(r, ProcessRecord(c, before, r).1))
  {
    hide Classify;
  }

  lemma UnansweredSays<D>(c: Components<D>, before: D, r: External)
    requires !Answered(c, before, r, true) && !Answered(c, before, r, false)
    ensures c.normalize(r).Raised? ==> ProcessRecord(c, before, r).1 == Raised(c.normalize(r).message)
    ensures c.normalize(r).Ok? ==>
              var duplicate := c.isDuplicate(before, r, c.normalize(r).value).1;
              duplicate.Raised? && ProcessRecord(c, before, r).1 == Raised(duplicate.message)
  {
    hide Classify;
  }

  lemma NewProcessed<D>(c: Components<D>, before: D, r: External)
    requires Answered(c, before, r, false)
    ensures var text := c.normalize(r).value;
            ProcessRecord(c, before, r).1
            == Resume(c, Classify(c, r, text, BaseObject(r, text).(status := "normalized")))
  {
    hide Classify, Resume;
  }

  /** The final steps: every component's result in its own field, or the first that raises. */
  lemma FinalizeSays<D>(c: Components<D>, p: Prepared, entities: seq<string>)
    requires p.obj == BaseObject(p.record, p.text).(classification := Some(p.classification), status := "classified")
    requires c.findIndicators(p.text) == Ok(p.indicators)
    ensures var f := Finalize(c, p, entities);
            && (f.Ok? ==> SaysTransformed(c, p.record, p.text, p.classification, entities, f.value))
            && FirstRaised(c, p.record, p.text, p.classification, Ok(entities))
               == if f.Raised? then Some(f.message) else None
  {
  }

  lemma NewSays<D>(c: Components<D>, r: External, text: string)
    ensures var step := Classify(c, r, text, BaseObject(r, text).(status := "normalized"));
            var o := OrFailed(r, Resume(c, step));
            && (forall i :: 0 <= i < |o.errors| ==> o.errors[i].stage != "deduplication")
            && (c.classify(r, text).Raised? ==> SaysFailed(r, c.classify(r, text).message, o))
            && (c.classify(r, text).Ok? ==> SaysOfNew(c, r, text, c.classify(r, text).value, o))
  {
    hide Finalize;
    var step := Classify(c, r, text, BaseObject(r, text).(status := "normalized"));
    if step.Ok? && step.value.Ready? {
      var p := step.value.prepared;
      FinalizeSays(c, p, []);
      if EntitiesOf(c, text).Ok? {
        FinalizeSays(c, p, EntitiesOf(c, text).value);
      }
    }
  }

  lemma ObjectSays<D>(c: Components<D>, memory: D, records: seq<External>, k: nat)
    requires k < |records|
    ensures Says(c, Remembered(c, memory, records[..k]), records[k], ObjectAt(c, memory, records, k))
  {
    hide Says, ProcessRecord, OrFailed;
    MemoryIsRemembered(c, memory, records[..k]);
    ProcessedSays(c, MemoryAfter(c, memory, records[..k]), records[k]);
  }

  /** Where the batch extractor answers with the right number of results, it answers as the single one. */
  ghost predicate Agrees<D>(c: Components<D>) {
    c.extractBatch.Some? ==> forall texts :: AgreesOn(c, texts)
  }

  predicate AgreesOn<D>(c: Components<D>, texts: seq<string>)
    requires c.extractBatch.Some?
  {
    var r := c.extractBatch.value(texts);
    r.Ok? && |r.value| == |texts| ==> forall k :: 0 <= k < |texts| ==> c.extract(texts[k]) == Ok(r.value[k])
  }

  datatype Pending = Pending(index: nat, prepared: Prepared)

  /** A record waiting for entities, and nothing in the result yet. */
  ghost predicate Waits<D>(c: Components<D>, memory: D, records: seq<External>, objects: seq<Option<CtiObject>>,
                           p: Pending) {
    && p.index < |records| == |objects| && objects[p.index].None?
    && StepAt(c, memory, records, p.index) == Ok(Ready(p.prepared)) && p.prepared.needsNer
  }

  /** The first n results are there, or their records wait. */
  ghost predicate Collected<D>(c: Components<D>, memory: D, records: seq<External>, objects: seq<Option<CtiObject>>,
                               pending: seq<Pending>, n: nat)
    requires n <= |records|
  {
    && |objects| == |records|
    && (forall k :: n <= k < |records| ==> objects[k].None?)
    && (forall j :: 0 <= j < |pending| ==> pending[j].index < n && Waits(c, memory, records, objects, pending[j]))
    && (forall i, j :: 0 <= i < j < |pending| ==> pending[i].index < pending[j].index)
    && (forall k :: 0 <= k < n && objects[k].None? ==> exists j :: 0 <= j < |pending| && pending[j].index == k)
    && (forall k :: 0 <= k < n && objects[k].Some? ==> objects[k].value == ObjectAt(c, memory, records, k))
  }

  class ExternalCTIPipeline<!D> {
    const c: Components<D>
    var memory: D

    constructor (components: Components<D>, start: D)
      ensures c == components && memory == start
    {
      c, memory := components, start;
    }

    method PrepareRecord(record: External) returns (step: Result<Step>)
      modifies this
      ensures (memory, step) == Prepare(c, old(memory), record)
    {
      var normalized := c.normalize(record);
      if normalized.Raised? {
        return Raised(normalized.message);
      }
      var text := normalized.value;
      var obj := BaseObject(record, text);
      var (after, duplicate) := c.isDuplicate(memory, record, text);
      memory := after;
      if duplicate.Raised? {
        return Raised(duplicate.message);
      }
      if duplicate.value {
        var failure := Failure("deduplication", "duplicate external record", record.source, record.externalId);
        assert obj.errors + [failure] == [failure];
        obj := obj.(status := "ignored", errors := obj.errors + [failure]);
        return Ok(Finished(obj));
      }
      obj := obj.(status := "normalized");
      var classified := c.classify(record, text);
      if classified.Raised? {
        return Raised(classified.message);
      }
      obj := obj.(classification := Some(classified.value), status := "classified");
      if classified.value.name == "not_cybersecurity" {
        return Ok(Finished(obj.(status := "ignored")));
      }
      var indicators := c.findIndicators(text);
      if indicators.Raised? {
        return Raised(indicators.message);
      }
      step := Ok(Ready(Prepared(record, text, obj, classified.value, indicators.value,
                                classified.value.name == "cti_related")));
    }

    method FinalizeRecord(p: Prepared, entities: seq<string>) returns (r: Result<CtiObject>)
      ensures r == Finalize(c, p, entities)
    {
      var obj := p.obj.(status := if p.needsNer then "extracted" else "classified");
      obj := obj.(indicators := p.indicators, entities := entities);
      var relationships := c.relate(p.text, entities, p.indicators, p.record.externalId);
      if relationships.Raised? {
        return Raised(relationships.message);
      }
      obj := obj.(relationships := relationships.value,
                  confidence := Confidence(p.classification, entities, p.indicators));
      var severity := c.severity(p.record);
      if severity.Raised? {
        return Raised(severity.message);
      }
      var tags := c.tags(p.record, p.classification);
      if tags.Raised? {
        return Raised(tags.message);
      }
      obj := obj.(severity := severity.value, tags := tags.value);
      r := Ok(obj.(status := "transformed"));
    }

    method ProcessOne(record: External) returns (r: Result<CtiObject>)
      modifies this
      ensures (memory, r) == ProcessRecord(c, old(memory), record)
      ensures Says(c, old(memory), record, OrFailed(record, r))
    {
      hide Says;
      ProcessedSays(c, memory, record);
      var step := PrepareRecord(record);
      if step.Raised? {
        return Raised(step.message);
      }
      if step.value.Finished? {
        return Ok(step.value.obj);
      }
      var p := step.value.prepared;
      var entities := [];
      if p.needsNer {
        var raw := c.extract(p.text);
        if raw.Raised? {
          return Raised(raw.message);
        }
        var coerced := c.coerce(raw.value);
        if coerced.Raised? {
          return Raised(coerced.message);
        }
        entities := coerced.value;
      }
      r := FinalizeRecord(p, entities);
    }

    /** Entities for all waiting texts: in one call, or one call each after any failure of the first. */
    method ExtractAll(texts: seq<string>) returns (raws: seq<Result<Raw>>)
      ensures |raws| == |texts|
      ensures Agrees(c) ==> forall k :: 0 <= k < |texts| ==> raws[k] == c.extract(texts[k])
    {
      raws := [];
      var whole := false;
      if c.extractBatch.Some? {
        var batch := c.extractBatch.value(texts);
        if batch.Ok? && |batch.value| == |texts| {
          assert Agrees(c) ==> AgreesOn(c, texts);
          raws := seq(|texts|, k requires 0 <= k < |texts| => Ok(batch.value[k]));
          whole := true;
        }
      } else {
        whole := true;
        for k := 0 to |texts|
          invariant |raws| <= k && (whole ==> |raws| == k)
          invariant whole ==> forall i :: 0 <= i < k ==> raws[i] == c.extract(texts[i])
        {
          var raw := c.extract(texts[k]);
          whole := whole && raw.Ok?;
          if whole {
            raws := raws + [raw];
          }
        }
      }
      if !whole {
        raws := [];
        for k := 0 to |texts|
          invariant |raws| == k && forall i :: 0 <= i < k ==> raws[i] == c.extract(texts[i])
        {
          raws := raws + [c.extract(texts[k])];
        }
      }
    }

    /** One record of the first loop. */
    method CollectRecord(records: seq<External>, n: nat, ghost start: D, objects0: seq<Option<CtiObject>>,
                         pending0: seq<Pending>)
      returns (objects: seq<Option<CtiObject>>, pending: seq<Pending>)
      requires n < |records| && memory == MemoryAfter(c, start, records[..n])
      requires Collected(c, start, records, objects0, pending0, n)
      modifies this
      ensures memory == MemoryAfter(c, start, records[..n + 1])
      ensures Collected(c, start, records, objects, pending, n + 1)
    {
      hide Prepare, Resume;
      NextMemory(c, start, records, n);
      objects, pending := objects0, pending0;
      var step := PrepareRecord(records[n]);
      if step.Raised? {
        objects := objects[n := Some(FailedObject(records[n], "batch", step.message))];
        ResumeRaised(c, step);
        NextFilled(c, start, records, objects0, pending0, n, FailedObject(records[n], "batch", step.message));
      } else if step.value.Finished? {
        objects := objects[n := Some(step.value.obj)];
        ResumeFinished(c, step);
        NextFilled(c, start, records, objects0, pending0, n, step.value.obj);
      } else if step.value.prepared.needsNer {
        pending := pending + [Pending(n, step.value.prepared)];
        NextWaits(c, start, records, objects0, pending0, n, step.value.prepared);
      } else {
        var final := FinalizeRecord(step.value.prepared, []);
        objects := objects[n := Some(OrFailed(records[n], final))];
        ResumeReady(c, step);
        NextFilled(c, start, records, objects0, pending0, n, OrFailed(records[n], final));
      }
    }

    method CompleteRecord(p: Prepared, raw: Result<Raw>) returns (r: Result<CtiObject>)
      ensures r == Complete(c, p, raw)
    {
      if raw.Raised? {
        return Raised(raw.message);
      }
      var entities := c.coerce(raw.value);
      if entities.Raised? {
        return Raised(entities.message);
      }
      r := FinalizeRecord(p, entities.value);
    }

    /** The waiting records get their entities; a missing result would become a failed object. */
    method FinishPending(records: seq<External>, ghost start: D, objects0: seq<Option<CtiObject>>,
                         pending: seq<Pending>,
                         raws: seq<Result<Raw>>) returns (objects: seq<CtiObject>)
      requires Collected(c, start, records, objects0, pending, |records|) && |raws| == |pending|
      requires Agrees(c) ==> forall j :: 0 <= j < |pending| ==> raws[j] == c.extract(pending[j].prepared.text)
      ensures |objects| == |records| && (Agrees(c) ==> objects == OneByOne(c, start, records))
    {
      hide Complete, ObjectAt, StepAt, AgreesOn;
      var found := objects0;
      for j := 0 to |pending|
        invariant |found| == |records| && forall i :: j <= i < |pending| ==> Waits(c, start, records, found, pending[i])
        invariant forall k :: 0 <= k < |records| && found[k].None? ==> exists i ::
                    j <= i < |pending| && pending[i].index == k
        invariant Agrees(c) ==> forall k :: 0 <= k < |records| && found[k].Some? ==>
                    found[k].value == ObjectAt(c, start, records, k)
      {
        var index, p := pending[j].index, pending[j].prepared;
        var final := CompleteRecord(p, raws[j]);
        WaitingObject(c, start, records, found, pending[j]);
        assert Waits(c, start, records, found, pending[j]);
        found := found[index := Some(OrFailed(p.record, final))];
      }
      assert forall k :: 0 <= k < |records| ==> found[k].Some?;
      objects := seq(|records|, k requires 0 <= k < |records| =>
        if found[k].Some? then found[k].value else FailedObject(records[k], "batch", "missing pipeline result"));
    }

    /** Main result. If the batch extractor agrees with the single one, a batch gives in input order what
        each record gives on the same evolving duplicate memory; the memory is always the same. */
    method ProcessBatch(records: seq<External>) returns (objects: seq<CtiObject>)
      modifies this
      ensures memory == MemoryAfter(c, old(memory), records)
      ensures |objects| == |records|
      ensures Agrees(c) ==> objects == OneByOne(c, old(memory), records)
      ensures memory == Remembered(c, old(memory), records)
      ensures Agrees(c) ==> forall k :: 0 <= k < |records| ==>
                Says(c, Remembered(c, old(memory), records[..k]), records[k], objects[k])
    {
      hide Says;
      ghost var start := memory;
      var found: seq<Option<CtiObject>>, pending: seq<Pending> := seq(|records|, _ => None), [];
      for n := 0 to |records|
        invariant memory == MemoryAfter(c, start, records[..n])
        invariant Collected(c, start, records, found, pending, n)
      {
        found, pending := CollectRecord(records, n, start, found, pending);
      }
      assert records[..|records|] == records;
      var texts := seq(|pending|, j requires 0 <= j < |pending| => pending[j].prepared.text);
      var raws := ExtractAll(texts);
      objects := FinishPending(records, start, found, pending, raws);
      MemoryIsRemembered(c, start, records);
      forall k | 0 <= k < |records|
        ensures Says(c, Remembered(c, start, records[..k]), records[k], ObjectAt(c, start, records, k))
      {
        ObjectSays(c, start, records, k);
      }
    }
  }

  lemma NextMemory<D>(c: Components<D>, memory: D, records: seq<External>, n: nat)
    requires n < |records|
    ensures MemoryAfter(c, memory, records[..n + 1]) == Prepare(c, MemoryAfter(c, memory, records[..n]), records[n]).0
  {
    assert records[..n + 1][..n] == records[..n];
  }

  lemma ResumeRaised<D>(c: Components<D>, step: Result<Step>)
    requires step.Raised?
    ensures Resume(c, step) == Raised(step.message)
  {
  }

  lemma ResumeFinished<D>(c: Components<D>, step: Result<Step>)
    requires step.Ok? && step.value.Finished?
    ensures Resume(c, step) == Ok(step.value.obj)
  {
  }

  lemma ResumeReady<D>(c: Components<D>, step: Result<Step>)
    requires step.Ok? && step.value.Ready? && !step.value.prepared.needsNer
    ensures Resume(c, step) == Finalize(c, step.value.prepared, [])
  {
  }

  /** The next record has its result at once. */
  lemma NextFilled<D>(c: Components<D>, memory: D, records: seq<External>, objects: seq<Option<CtiObject>>,
                      pending: seq<Pending>,
                      n: nat, obj: CtiObject)
    requires n < |records| && Collected(c, memory, records, objects, pending, n)
    requires obj == OrFailed(records[n], Resume(c, StepAt(c, memory, records, n)))
    ensures Collected(c, memory, records, objects[n := Some(obj)], pending, n + 1)
  {
    hide Resume, StepAt, OrFailed;
    assert obj == ObjectAt(c, memory, records, n) by { SameObject(c, memory, records, n); }
    forall j | 0 <= j < |pending|
      ensures Waits(c, memory, records, objects[n := Some(obj)], pending[j])
    {
      assert Waits(c, memory, records, objects, pending[j]);
    }
  }

  lemma SameObject<D>(c: Components<D>, memory: D, records: seq<External>, n: nat)
    requires n < |records|
    ensures ObjectAt(c, memory, records, n) == OrFailed(records[n], Resume(c, StepAt(c, memory, records, n)))
  {
  }

  /** The next record has to wait. */
  lemma NextWaits<D>(c: Components<D>, memory: D, records: seq<External>, objects: seq<Option<CtiObject>>,
                     pending: seq<Pending>,
                     n: nat, p: Prepared)
    requires n < |records| && Collected(c, memory, records, objects, pending, n)
    requires StepAt(c, memory, records, n) == Ok(Ready(p)) && p.needsNer
    ensures Collected(c, memory, records, objects, pending + [Pending(n, p)], n + 1)
  {
    hide StepAt, ObjectAt;
    var more := pending + [Pending(n, p)];
    forall j | 0 <= j < |more|
      ensures more[j].index < n + 1 && Waits(c, memory, records, objects, more[j])
    {
      assert j < |pending| ==> more[j] == pending[j];
    }
    forall k | 0 <= k < n + 1 && objects[k].None?
      ensures exists j :: 0 <= j < |more| && more[j].index == k
    {
      if k == n {
        assert more[|pending|].index == k;
      } else {
        var j :| 0 <= j < |pending| && pending[j].index == k;
        assert more[j].index == k;
      }
    }
  }

  /** What a waiting record ends as. */
  lemma WaitingObject<D>(c: Components<D>, memory: D, records: seq<External>, objects: seq<Option<CtiObject>>,
                         p: Pending)
    requires Waits(c, memory, records, objects, p)
    ensures ObjectAt(c, memory, records, p.index)
            == OrFailed(records[p.index], Complete(c, p.prepared, c.extract(p.prepared.text)))
    ensures p.prepared.record == records[p.index]
  {
    hide Complete, Finalize;
    PreparedRecord(c, MemoryAfter(c, memory, records[..p.index]), records[p.index]);
  }

  lemma PreparedRecord<D>(c: Components<D>, memory: D, record: External)
    ensures var step := Prepare(c, memory, record).1; step.Ok? && step.value.Ready? ==>
              step.value.prepared.record == record
  {
  }
}
