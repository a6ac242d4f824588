/** Stored raw items and the comparison that decides whether a fetched record
    has changed since it was stored. */
module RawItems {

  datatype Option<+T> = None | Some(value: T)

  /** The fields of a record's JSON document that the comparison looks at. Tags are compared
      sorted, so they are a multiset here. */
  datatype RawData = RawData(
    sourceType: Option<string>,
    url: Option<string>,
    link: Option<string>,
    publishedAt: Option<string>,
    published: Option<string>,
    category: Option<string>,
    tags: multiset<string>,
    cvss: Option<string>)

  datatype RawRecord = RawRecord(
    source: string,
    externalId: string,
    sourceType: string,
    title: string,
    content: string,
    url: Option<string>,
    publishedAt: Option<string>,
    raw: RawData)

  datatype RawItem = RawItem(title: string, content: string, raw: RawData)

  datatype Key = Key(source: string, externalId: string)

  /** Source rows (name to current type) and raw-item rows. */
  datatype Store = Store(types: map<string, string>, rows: map<Key, RawItem>)

  datatype Semantics = Semantics(
    sourceType: Option<string>,
    title: string,
    content: string,
    url: Option<string>,
    publishedAt: Option<string>,
    category: Option<string>,
    tags: multiset<string>,
    cvss: Option<string>)

  function KeyOf(r: RawRecord): Key {
    Key(r.source, r.externalId)
  }

  /** The language's `a or b` on optional text: missing and empty text are both false. */
  function Or(a: Option<string>, b: Option<string>): Option<string> {
    if a.Some? && a.value != "" then a else b
  }

  function Previous(item: RawItem, sourceType: string): Semantics {
    Semantics(Or(item.raw.sourceType, Some(sourceType)), item.title, item.content,
              Or(item.raw.url, item.raw.link), Or(item.raw.publishedAt, item.raw.published),
              item.raw.category, item.raw.tags, item.raw.cvss)
  }

  function Current(r: RawRecord): Semantics {
    Semantics(Some(r.sourceType), r.title, r.content,
              Or(r.url, Or(r.raw.url, r.raw.link)), r.publishedAt,
              r.raw.category, r.raw.tags, r.raw.cvss)
  }

  /** `raw_record_is_unchanged`; the source row supplies a type the document does not declare. */
  predicate Unchanged(item: RawItem, sourceType: string, r: RawRecord) {
    Previous(item, sourceType) == Current(r)
  }

  /** The row `upsert_raw_record` leaves for a record. */
  function Upserted(r: RawRecord): RawItem {
    RawItem(r.title, r.content, r.raw)
  }

  predicate IsUnchanged(s: Store, r: RawRecord) {
    && KeyOf(r) in s.rows
    && r.source in s.types
    && Unchanged(s.rows[KeyOf(r)], s.types[r.source], r)
  }

  /** A row that declares no source type but otherwise carries exactly what `r` carries. */
  function UndeclaredCopy(r: RawRecord): RawItem {
    RawItem(r.title, r.content,
            RawData(None, None, Or(r.url, Or(r.raw.url, r.raw.link)), None, r.publishedAt,
                    r.raw.category, r.raw.tags, r.raw.cvss))
  }

  // ---------------------------------------------------------------- what the comparison looks at

  /** The first text that is there and not empty; without one, the last entry. */
  function FirstText(texts: seq<Option<string>>): (t: Option<string>)
    requires texts != []
    ensures t in texts
    ensures t.Some? && t.value != "" ==> exists i :: 0 <= i < |texts| && texts[i] == t &&
                                           forall j :: 0 <= j < i ==> texts[j] in {None, Some("")}
    ensures t in {None, Some("")} ==> t == texts[|texts| - 1] && forall i :: 0 <= i < |texts| ==>
              texts[i] in {None, Some("")}
  {
    if |texts| == 1 || (texts[0].Some? && texts[0].value != "") then texts[0] else FirstText(texts[1..])
  }

  /** A stored row counts as unchanged exactly when title, content, category, tags and score are the
      record's, and address, date and source type are, each read from the first place that has it. */
  lemma UnchangedIff(item: RawItem, sourceType: string, r: RawRecord)
    ensures Unchanged(item, sourceType, r) <==>
              && item.title == r.title && item.content == r.content
              && item.raw.category == r.raw.category && item.raw.tags == r.raw.tags && item.raw.cvss == r.raw.cvss
              && FirstText([item.raw.url, item.raw.link]) == FirstText([r.url, r.raw.url, r.raw.link])
              && FirstText([item.raw.publishedAt, item.raw.published]) == r.publishedAt
              && FirstText([item.raw.sourceType, Some(sourceType)]) == Some(r.sourceType)
  {
    hide Or, FirstText;
    OrIsFirst(item.raw.url, item.raw.link);
    OrIsFirst(item.raw.publishedAt, item.raw.published);
    OrIsFirst(item.raw.sourceType, Some(sourceType));
    OrIsFirstOfThree(r.url, r.raw.url, r.raw.link);
  }

  lemma OrIsFirstOfThree(a: Option<string>, b: Option<string>, c: Option<string>)
    ensures Or(a, Or(b, c)) == FirstText([a, b, c])
  {
    OrIsFirst(b, c);
    assert [a, b, c][1..] == [b, c];
  }

  lemma OrIsFirst(a: Option<string>, b: Option<string>)
    ensures Or(a, b) == FirstText([a, b])
  {
    assert [a, b][1..] == [b];
  }

  /** The record's own address, date and type are those its document leads to. */
  predicate Consistent(r: RawRecord) {
    && FirstText([r.raw.url, r.raw.link]) == FirstText([r.url, r.raw.url, r.raw.link])
    && FirstText([r.raw.publishedAt, r.raw.published]) == r.publishedAt
    && FirstText([r.raw.sourceType, Some(r.sourceType)]) == Some(r.sourceType)
  }

  /** A record is recognised by the row it was stored as exactly when it is consistent. */
  lemma StoredIsUnchangedIff(r: RawRecord)
    ensures Unchanged(Upserted(r), r.sourceType, r) <==> Consistent(r)
  {
    UnchangedIff(Upserted(r), r.sourceType, r);
  }

  /** For such a row the verdict depends on the source's current type and on nothing else. */
  lemma UndeclaredCopyFollowsSource(r: RawRecord, sourceType: string)
    ensures Unchanged(UndeclaredCopy(r), sourceType, r) <==> sourceType == r.sourceType
  {
    assert Previous(UndeclaredCopy(r), sourceType) == Current(r).(sourceType := Some(sourceType));
  }
}
