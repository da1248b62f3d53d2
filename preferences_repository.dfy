/**
 * `UserPreferencesRepository`: how saved noise thresholds are decoded from the
 * documents of the "userPreferences" collection, and which write each update
 * issues. The document store itself is outside the model: a fetched snapshot is a
 * list of documents, each with an id and an optional field map, and a write is the
 * `WriteOp` value the repository hands to the store.
 */
module Preferences {
  import opened Wrappers
  import opened KotlinText
  import opened NoiseLabels

  /** A saved threshold (`UserPreferences`); `noiseLabel` is the entity's `label`. */
  datatype UserPreferences = UserPreferences(
    id: Option<string>,
    thresholdDecibel: Int32,
    noiseLabel: string,
    tag: string,
    date: string,
    time: string)

  /** A field value of a stored document: a string, a 64-bit integer (what the store
      makes of a Kotlin `Int`), or any other value, known by its `toString()`. */
  datatype FieldValue = Str(s: string) | Long(n: Int64) | Other(rendered: string)

  datatype Document = Document(id: string, data: Option<map<string, FieldValue>>)

  /** The write the repository issues for one call. */
  datatype WriteOp =
    | AddDocument(fields: map<string, FieldValue>)
    | SetDocument(docId: string, fields: map<string, FieldValue>)
    | DeleteDocument(docId: string)

  const ThresholdKey := "thresholdDecibel"
  const TagKey := "tag"
  const DateKey := "date"
  const TimeKey := "time"

  /** `toString()` of a field value: a string is its own text, and a stored `Int`
      prints as text that `toIntOrNull` reads back. */
  function ToText(v: FieldValue): (text: string)
    ensures v.Str? ==> text == v.s
    ensures v.Long? && IsInt32(v.n) ==> ParseInt(text) == Some(v.n)
  {
    match v
    case Str(s) => s
    case Long(n) =>
      if IsInt32(n) then ParseIntToString(n); IntToString(n) else IntToString(n)
    case Other(r) => r
  }

  /** `data[key] as? String ?: ""` */
  function StringField(data: map<string, FieldValue>, key: string): (r: string)
    ensures key in data && data[key].Str? ==> r == data[key].s
    ensures !(key in data && data[key].Str?) ==> r == ""
  {
    if key in data then
      match data[key]
      case Str(s) => s
      case _ => ""
    else ""
  }

  /** `data["thresholdDecibel"]?.toString()?.toIntOrNull()` */
  function ThresholdField(data: map<string, FieldValue>): (r: Option<Int32>)
    ensures ThresholdKey !in data ==> r.None?
    ensures ThresholdKey in data ==> r == ParseInt(ToText(data[ThresholdKey]))
  {
    if ThresholdKey in data then
      match ParseInt(ToText(data[ThresholdKey]))
      case None => None
      case Some(n) => Some(n)
    else None
  }

  /** One step of the `mapNotNull` in `getPreferences`. */
  function DecodeDocument(doc: Document): (r: Option<UserPreferences>)
    ensures doc.data.None? ==> r.None?
    ensures r.Some? <==> doc.data.Some? && ThresholdField(doc.data.value).Some?
    ensures r.Some? ==>
      var t := ThresholdField(doc.data.value).value;
      r.value == UserPreferences(Some(doc.id), t, IntNoiseLabel(t),
        StringField(doc.data.value, TagKey), StringField(doc.data.value, DateKey),
        StringField(doc.data.value, TimeKey))
    ensures r.Some? ==> r.value.noiseLabel != "Unknown"
  {
    match doc.data
    case None => None
    case Some(data) =>
      match ThresholdField(data)
      case None => None
      case Some(threshold) =>
        Some(UserPreferences(
          id := Some(doc.id),
          thresholdDecibel := threshold,
          noiseLabel := IntNoiseLabel(threshold),
          tag := StringField(data, TagKey),
          date := StringField(data, DateKey),
          time := StringField(data, TimeKey)))
  }

  /** `snapshot.documents.mapNotNull { ... }` */
  function DecodeDocuments(docs: seq<Document>): (r: seq<UserPreferences>)
    ensures |r| <= |docs|
  {
    if docs == [] then []
    else
      match DecodeDocument(docs[0])
      case None => DecodeDocuments(docs[1..])
      case Some(p) => [p] + DecodeDocuments(docs[1..])
  }

  /** `getPreferences()`: a failed fetch stays a failure; a fetched snapshot is decoded. */
  function GetPreferences(snapshot: Result<seq<Document>>): (r: Result<seq<UserPreferences>>)
    ensures r.Failure? <==> snapshot.Failure?
    ensures r.Failure? ==> r.message == snapshot.message
    ensures r.Success? ==> r.value == DecodeDocuments(snapshot.value)
  {
    match snapshot
    case Failure(m) => Failure(m)
    case Success(docs) => Success(DecodeDocuments(docs))
  }

  /** Decoding keeps input order: the decoding of a concatenation is the
      concatenation of the decodings. */
  lemma {:induction false} DecodeDocumentsAppend(a: seq<Document>, b: seq<Document>)
    ensures DecodeDocuments(a + b) == DecodeDocuments(a) + DecodeDocuments(b)
  {
    if a == [] {
      assert a + b == b;
    } else {
      assert (a + b)[1..] == a[1..] + b;
      DecodeDocumentsAppend(a[1..], b);
    }
  }

  /** A preference is in the output exactly when some document decodes to it: nothing
      is invented, and only documents without data or without an integer threshold
      are dropped. */
  lemma {:induction false} DecodeDocumentsMembers(docs: seq<Document>, p: UserPreferences)
    ensures p in DecodeDocuments(docs) <==> exists i :: 0 <= i < |docs| && DecodeDocument(docs[i]) == Some(p)
  {
    if docs != [] {
      DecodeDocumentsMembers(docs[1..], p);
      if exists i :: 0 <= i < |docs| && DecodeDocument(docs[i]) == Some(p) {
        var i :| 0 <= i < |docs| && DecodeDocument(docs[i]) == Some(p);
        if i > 0 {
          assert docs[1..][i - 1] == docs[i];
        }
      }
      if exists j :: 0 <= j < |docs[1..]| && DecodeDocument(docs[1..][j]) == Some(p) {
        var j :| 0 <= j < |docs[1..]| && DecodeDocument(docs[1..][j]) == Some(p);
        assert docs[j + 1] == docs[1..][j];
      }
    }
  }

  /** Every decoded preference has an `Int` threshold, a label from the five bands
      and the id of its document. */
  lemma {:induction false} DecodedPreferencesWellFormed(docs: seq<Document>)
    ensures forall p :: p in DecodeDocuments(docs) ==>
      p.noiseLabel == IntNoiseLabel(p.thresholdDecibel) && p.noiseLabel in IntLabels && p.id.Some?
    ensures forall p :: p in DecodeDocuments(docs) ==>
      exists i :: 0 <= i < |docs| && p.id == Some(docs[i].id) && docs[i].data.Some? &&
        ThresholdField(docs[i].data.value) == Some(p.thresholdDecibel)
  {
    forall p | p in DecodeDocuments(docs)
      ensures p.noiseLabel == IntNoiseLabel(p.thresholdDecibel) && p.noiseLabel in IntLabels && p.id.Some?
      ensures exists i :: (0 <= i < |docs| && p.id == Some(docs[i].id) && docs[i].data.Some? &&
                           ThresholdField(docs[i].data.value) == Some(p.thresholdDecibel))
    {
      DecodeDocumentsMembers(docs, p);
      var i :| 0 <= i < |docs| && DecodeDocument(docs[i]) == Some(p);
    }
  }

  // ---------------------------------------------------------------------------
  // Writes

  /** The field map written for a preference: threshold, tag, date and time, and
      never the label, which is recomputed on reading. */
  function PreferenceData(p: UserPreferences): (data: map<string, FieldValue>)
    ensures data.Keys == {ThresholdKey, TagKey, DateKey, TimeKey}
    ensures data[ThresholdKey] == Long(p.thresholdDecibel)
    ensures data[TagKey] == Str(p.tag) && data[DateKey] == Str(p.date) && data[TimeKey] == Str(p.time)
  {
    map[ThresholdKey := Long(p.thresholdDecibel), TagKey := Str(p.tag),
        DateKey := Str(p.date), TimeKey := Str(p.time)]
  }

  /** `upsertPreferences(id, preferences)`: no id adds a new document, an id
      overwrites the document with that id. */
  function UpsertPreferences(id: Option<string>, p: UserPreferences): (op: WriteOp)
    ensures op.AddDocument? <==> id.None?
    ensures op.SetDocument? <==> id.Some?
    ensures op.SetDocument? ==> op.docId == id.value
    ensures !op.DeleteDocument? && op.fields == PreferenceData(p)
  {
    match id
    case None => AddDocument(PreferenceData(p))
    case Some(docId) => SetDocument(docId, PreferenceData(p))
  }

  /** `updatePreference(preferences)`: a preference without id fails before any
      write; otherwise the document with its id is overwritten. */
  function UpdatePreference(p: UserPreferences): (r: Result<WriteOp>)
    ensures r.Failure? <==> p.id.None?
    ensures r.Failure? ==> r.message == Some("No ID to update")
    ensures r.Success? ==> r.value == SetDocument(p.id.value, PreferenceData(p))
  {
    match p.id
    case None => Failure(Some("No ID to update"))
    case Some(docId) => Success(SetDocument(docId, PreferenceData(p)))
  }

  /** `deletePreference(id)` */
  function DeletePreference(id: string): WriteOp {
    DeleteDocument(id)
  }

  // ---------------------------------------------------------------------------
  // The effect of a write on the collection

  /** The collection as the store holds it: document id to field map. */
  type Store = map<string, map<string, FieldValue>>

  /** The document a write touches; an added document gets the id the store
      generates for it. */
  function Target(op: WriteOp, generatedId: string): string {
    match op
    case AddDocument(_) => generatedId
    case SetDocument(docId, _) => docId
    case DeleteDocument(docId) => docId
  }

  /** What the store does with a write: `add` creates a document under an id the
      store has not used, `set` puts the field map under its id, replacing any
      document there, and `delete` removes the target. */
  function ApplyWrite(store: Store, op: WriteOp, generatedId: string): (r: Store)
    requires op.AddDocument? ==> generatedId !in store
    ensures op.AddDocument? ==> r.Keys == store.Keys + {generatedId}
    ensures op.DeleteDocument? ==> op.docId !in r
    ensures !op.DeleteDocument? ==> Target(op, generatedId) in r && r[Target(op, generatedId)] == op.fields
    ensures forall k :: k != Target(op, generatedId) ==>
      (k in r <==> k in store) && (k in r ==> r[k] == store[k])
  {
    match op
    case AddDocument(fields) => store[generatedId := fields]
    case SetDocument(docId, fields) => store[docId := fields]
    case DeleteDocument(docId) => store - {docId}
  }

  /** `docs` is what a fetch of `store` returns: one document per stored id, each
      with its stored fields. */
  ghost predicate IsSnapshot(store: Store, docs: seq<Document>) {
    (forall i :: 0 <= i < |docs| ==> docs[i].id in store && docs[i].data == Some(store[docs[i].id])) &&
    (forall k :: k in store ==> exists i :: 0 <= i < |docs| && docs[i].id == k)
  }

  /** Two stores that differ at most under `id` decode to the same preferences
      outside that id. */
  lemma DecodedOutsideTarget(store: Store, store': Store, before: seq<Document>, after: seq<Document>,
                             id: string, p: UserPreferences)
    requires IsSnapshot(store, before) && IsSnapshot(store', after)
    requires forall k :: k != id ==> (k in store' <==> k in store) && (k in store' ==> store'[k] == store[k])
    requires p.id != Some(id)
    ensures p in DecodeDocuments(after) <==> p in DecodeDocuments(before)
  {
    DecodeDocumentsMembers(before, p);
    DecodeDocumentsMembers(after, p);
    if p in DecodeDocuments(after) {
      var i :| 0 <= i < |after| && DecodeDocument(after[i]) == Some(p);
      var j :| 0 <= j < |before| && before[j].id == after[i].id;
      assert before[j] == after[i];
    }
    if p in DecodeDocuments(before) {
      var j :| 0 <= j < |before| && DecodeDocument(before[j]) == Some(p);
      var i :| 0 <= i < |after| && after[i].id == before[j].id;
      assert before[j] == after[i];
    }
  }

  /** After `deletePreference(id)`, a fetch decodes exactly the preferences it
      decoded before, less the one with that id. */
  lemma DeletePreferenceRemovesOnlyIt(store: Store, id: string, generatedId: string,
                                      before: seq<Document>, after: seq<Document>)
    requires IsSnapshot(store, before)
    requires IsSnapshot(ApplyWrite(store, DeletePreference(id), generatedId), after)
    ensures forall p :: p in DecodeDocuments(after) <==> p in DecodeDocuments(before) && p.id != Some(id)
  {
    var store' := ApplyWrite(store, DeletePreference(id), generatedId);
    forall p ensures p in DecodeDocuments(after) <==> p in DecodeDocuments(before) && p.id != Some(id) {
      if p.id == Some(id) {
        DecodeDocumentsMembers(after, p);
      } else {
        DecodedOutsideTarget(store, store', before, after, id, p);
      }
    }
  }

  /** After `upsertPreferences(null, preferences)`, a fetch decodes every preference
      it decoded before, plus the saved preference under the new document's id, and
      nothing else. */
  lemma UpsertPreferencesAddsIt(store: Store, pref: UserPreferences, generatedId: string,
                                before: seq<Document>, after: seq<Document>)
    requires generatedId !in store
    requires IsSnapshot(store, before)
    requires IsSnapshot(ApplyWrite(store, UpsertPreferences(None, pref), generatedId), after)
    ensures forall p :: p in DecodeDocuments(after) <==>
      p in DecodeDocuments(before) ||
      p == pref.(id := Some(generatedId), noiseLabel := IntNoiseLabel(pref.thresholdDecibel))
  {
    var store' := ApplyWrite(store, UpsertPreferences(None, pref), generatedId);
    var saved := pref.(id := Some(generatedId), noiseLabel := IntNoiseLabel(pref.thresholdDecibel));
    WrittenPreferenceDecodes(generatedId, pref);
    forall p ensures p in DecodeDocuments(after) <==> p in DecodeDocuments(before) || p == saved {
      if p.id != Some(generatedId) {
        DecodedOutsideTarget(store, store', before, after, generatedId, p);
      } else {
        DecodeDocumentsMembers(before, p);
        DecodeDocumentsMembers(after, p);
        if p in DecodeDocuments(after) {
          var i :| 0 <= i < |after| && DecodeDocument(after[i]) == Some(p);
          assert after[i] == Document(generatedId, Some(PreferenceData(pref)));
        }
        if p == saved {
          var i :| 0 <= i < |after| && after[i].id == generatedId;
          assert after[i] == Document(generatedId, Some(PreferenceData(pref)));
        }
      }
    }
  }

  /** After `upsertPreferences(id, preferences)` with an id (the edit path of the
      profile screen), a fetch decodes the preferences it decoded before under other
      ids, and under that id exactly the saved preference with its label. */
  lemma UpsertPreferencesReplacesIt(store: Store, id: string, pref: UserPreferences, generatedId: string,
                                    before: seq<Document>, after: seq<Document>)
    requires IsSnapshot(store, before)
    requires IsSnapshot(ApplyWrite(store, UpsertPreferences(Some(id), pref), generatedId), after)
    ensures forall p: UserPreferences :: p.id != Some(id) ==> (p in DecodeDocuments(after) <==> p in DecodeDocuments(before))
    ensures forall p: UserPreferences :: p.id == Some(id) ==>
      (p in DecodeDocuments(after) <==>
       p == pref.(id := Some(id), noiseLabel := IntNoiseLabel(pref.thresholdDecibel)))
  {
    var store' := ApplyWrite(store, UpsertPreferences(Some(id), pref), generatedId);
    var saved := pref.(id := Some(id), noiseLabel := IntNoiseLabel(pref.thresholdDecibel));
    WrittenPreferenceDecodes(id, pref);
    forall p: UserPreferences | p.id != Some(id) ensures p in DecodeDocuments(after) <==> p in DecodeDocuments(before) {
      DecodedOutsideTarget(store, store', before, after, id, p);
    }
    forall p: UserPreferences | p.id == Some(id) ensures p in DecodeDocuments(after) <==> p == saved {
      DecodeDocumentsMembers(after, p);
      if p in DecodeDocuments(after) {
        var i :| 0 <= i < |after| && DecodeDocument(after[i]) == Some(p);
        assert after[i] == Document(id, Some(PreferenceData(pref)));
      }
      if p == saved {
        var i :| 0 <= i < |after| && after[i].id == id;
        assert after[i] == Document(id, Some(PreferenceData(pref)));
      }
    }
  }

  /** Round trip: a document holding what the repository writes for a preference
      decodes back to that preference, under the document's id and with the label of
      its threshold. */
  lemma WrittenPreferenceDecodes(docId: string, p: UserPreferences)
    ensures DecodeDocument(Document(docId, Some(PreferenceData(p))))
         == Some(p.(id := Some(docId), noiseLabel := IntNoiseLabel(p.thresholdDecibel)))
  {
    ParseIntToString(p.thresholdDecibel);
  }
}
