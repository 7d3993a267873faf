/**
 * The `health_records` collection as the sequence of its documents in their
 * natural (insertion) order, and what one upload does to it: for every date
 * of the batch, find_one by `(user_id, date)`, then update_one on the document
 * found or insert_one of a new one (server.py, `upload_health_data`).
 */
module Collection {
  import opened Wrappers
  import opened Records

  /** The `data` object of an upload, as its `(date, metrics)` items in order. */
  type Batch = seq<(string, Metrics)>

  /** Every `(user_id, date)` key has at most one document. */
  predicate UniqueKeys(docs: seq<Record>) {
    forall i, j :: 0 <= i < j < |docs| ==> Key(docs[i]) != Key(docs[j])
  }

  /** A JSON object has each key once: the dates of a batch are distinct. */
  predicate DistinctDates(batch: Batch) {
    forall i, j :: 0 <= i < j < |batch| ==> batch[i].0 != batch[j].0
  }

  function Dates(batch: Batch): set<string> {
    set i | 0 <= i < |batch| :: batch[i].0
  }

  /** find_one: the position of the first document with the key, if any. */
  function FindOne(docs: seq<Record>, userId: string, date: string): (r: Option<nat>)
    ensures r.Some? ==> r.value < |docs| && HasKey(docs[r.value], userId, date)
    ensures r.Some? ==> forall k :: 0 <= k < r.value ==> !HasKey(docs[k], userId, date)
    ensures r.None? ==> forall k :: 0 <= k < |docs| ==> !HasKey(docs[k], userId, date)
  {
    if docs == [] then None
    else if HasKey(docs[0], userId, date) then Some(0)
    else match FindOne(docs[1..], userId, date)
      case None => None
      case Some(k) => Some(k + 1)
  }

  /** The document find_one returns. */
  function Lookup(docs: seq<Record>, userId: string, date: string): (r: Option<Record>)
    ensures r.Some? ==> r.value in docs && HasKey(r.value, userId, date)
    ensures r.None? <==> forall x :: x in docs ==> !HasKey(x, userId, date)
  {
    match FindOne(docs, userId, date)
    case Some(k) => Some(docs[k])
    case None => None
  }

  /** The document one date leaves behind: the merge into the one found, or a new one. */
  function Reconcile(existing: Option<Record>, userId: string, date: string, m: Metrics): (r: Record)
    ensures existing.Some? ==> Key(r) == Key(existing.value)
    ensures existing.None? ==> HasKey(r, userId, date)
  {
    match existing
    case Some(e) => Merge(e, m)
    case None => NewRecord(userId, date, m)
  }

  /** One iteration of the upload loop: update_one on the document found, else insert_one. */
  function Upsert(docs: seq<Record>, userId: string, date: string, m: Metrics): (r: seq<Record>)
    ensures |docs| <= |r| <= |docs| + 1
    ensures |r| == |docs| + 1 <==> FindOne(docs, userId, date).None?
  {
    match FindOne(docs, userId, date)
    case Some(k) => docs[k := Merge(docs[k], m)]
    case None => docs + [NewRecord(userId, date, m)]
  }

  /** The collection after the loop has handled every item of the batch in order. */
  function ApplyBatch(docs: seq<Record>, userId: string, batch: Batch): (r: seq<Record>)
    ensures |docs| <= |r| <= |docs| + |batch|
    decreases |batch|
  {
    if batch == [] then docs
    else
      var last := batch[|batch| - 1];
      Upsert(ApplyBatch(docs, userId, batch[..|batch| - 1]), userId, last.0, last.1)
  }

  /** The first document with a key is found, whatever follows it. */
  lemma FindOneFirst(docs: seq<Record>, userId: string, date: string, k: nat)
    requires k < |docs| && HasKey(docs[k], userId, date)
    requires forall j :: 0 <= j < k ==> !HasKey(docs[j], userId, date)
    ensures FindOne(docs, userId, date) == Some(k)
  {
    var r := FindOne(docs, userId, date);
    assert r.Some?;
    assert !(r.value < k) && !(k < r.value);
  }

  /** After one item, find_one on its key returns the merged or inserted document. */
  lemma UpsertLookupSame(docs: seq<Record>, userId: string, date: string, m: Metrics)
    ensures Lookup(Upsert(docs, userId, date, m), userId, date)
            == Some(Reconcile(Lookup(docs, userId, date), userId, date, m))
  {
    var after := Upsert(docs, userId, date, m);
    match FindOne(docs, userId, date)
    case Some(k) =>
      FindOneFirst(after, userId, date, k);
    case None =>
      FindOneFirst(after, userId, date, |docs|);
  }

  /** One item does not change what find_one returns for any other key. */
  lemma UpsertLookupOther(docs: seq<Record>, userId: string, date: string, m: Metrics, u: string, d: string)
    requires (u, d) != (userId, date)
    ensures Lookup(Upsert(docs, userId, date, m), u, d) == Lookup(docs, u, d)
  {
    var after := Upsert(docs, userId, date, m);
    assert forall k :: 0 <= k < |docs| ==> (HasKey(after[k], u, d) <==> HasKey(docs[k], u, d));
    match FindOne(docs, u, d)
    case Some(k) =>
      FindOneFirst(after, u, d, k);
    case None =>
      assert forall k :: 0 <= k < |after| ==> !HasKey(after[k], u, d);
  }

  /** One item keeps every document's key, changes only a document with its own
      key, and appends at most one document, which has its key. */
  lemma UpsertFrame(docs: seq<Record>, userId: string, date: string, m: Metrics)
    ensures var after := Upsert(docs, userId, date, m);
      && |docs| <= |after| <= |docs| + 1
      && (forall k :: 0 <= k < |docs| ==> Key(after[k]) == Key(docs[k]))
      && (forall k :: 0 <= k < |docs| && !HasKey(docs[k], userId, date) ==> after[k] == docs[k])
      && (forall k :: |docs| <= k < |after| ==> HasKey(after[k], userId, date))
  {
  }

  lemma DatesPrefix(batch: Batch)
    requires batch != []
    ensures Dates(batch) == Dates(batch[..|batch| - 1]) + {batch[|batch| - 1].0}
  {
    var p := batch[..|batch| - 1];
    forall d | d in Dates(batch) ensures d in Dates(p) + {batch[|batch| - 1].0} {
      var i :| 0 <= i < |batch| && batch[i].0 == d;
      if i < |batch| - 1 {
        assert p[i].0 == d;
      }
    }
    forall d | d in Dates(p) ensures d in Dates(batch) {
      var i :| 0 <= i < |p| && p[i].0 == d;
      assert batch[i].0 == d;
    }
  }

  /** Records whose key is not `(userId, d)` for a date `d` of the batch are
      left exactly as they were; the others keep their key; every document the
      upload adds has the user's id and a date of the batch. */
  lemma {:induction false} ApplyBatchFrame(docs: seq<Record>, userId: string, batch: Batch)
    ensures var after := ApplyBatch(docs, userId, batch);
      && |docs| <= |after| <= |docs| + |batch|
      && (forall k :: 0 <= k < |docs| ==> Key(after[k]) == Key(docs[k]))
      && (forall k :: 0 <= k < |docs| && (docs[k].userId != userId || docs[k].date !in Dates(batch))
            ==> after[k] == docs[k])
      && (forall k :: |docs| <= k < |after| ==> after[k].userId == userId && after[k].date in Dates(batch))
    decreases |batch|
  {
    if batch != [] {
      var p := batch[..|batch| - 1];
      var last := batch[|batch| - 1];
      ApplyBatchFrame(docs, userId, p);
      DatesPrefix(batch);
      UpsertFrame(ApplyBatch(docs, userId, p), userId, last.0, last.1);
    }
  }

  /** One item keeps the keys unique: it updates in place the document it
      finds and inserts only when the key is absent. */
  lemma UpsertKeepsUnique(docs: seq<Record>, userId: string, date: string, m: Metrics)
    requires UniqueKeys(docs)
    ensures UniqueKeys(Upsert(docs, userId, date, m))
  {
    var after := Upsert(docs, userId, date, m);
    UpsertFrame(docs, userId, date, m);
    forall i, j | 0 <= i < j < |after| ensures Key(after[i]) != Key(after[j]) {
      if j < |docs| {
        assert Key(docs[i]) != Key(docs[j]);
      } else {
        assert FindOne(docs, userId, date).None?;
        assert !HasKey(docs[i], userId, date);
      }
    }
  }

  /** An upload keeps at most one document per `(user_id, date)`. */
  lemma {:induction false} ApplyBatchKeepsUnique(docs: seq<Record>, userId: string, batch: Batch)
    requires UniqueKeys(docs)
    ensures UniqueKeys(ApplyBatch(docs, userId, batch))
    decreases |batch|
  {
    if batch != [] {
      var p := batch[..|batch| - 1];
      var last := batch[|batch| - 1];
      ApplyBatchKeepsUnique(docs, userId, p);
      UpsertKeepsUnique(ApplyBatch(docs, userId, p), userId, last.0, last.1);
    }
  }

  /** After an upload every date of the batch has a document for the user. */
  lemma {:induction false} ApplyBatchCoversDates(docs: seq<Record>, userId: string, batch: Batch, j: nat)
    requires j < |batch|
    ensures Lookup(ApplyBatch(docs, userId, batch), userId, batch[j].0).Some?
    decreases |batch|
  {
    var p := batch[..|batch| - 1];
    var last := batch[|batch| - 1];
    var before := ApplyBatch(docs, userId, p);
    if batch[j].0 == last.0 {
      UpsertLookupSame(before, userId, last.0, last.1);
    } else {
      assert p[j] == batch[j];
      ApplyBatchCoversDates(docs, userId, p, j);
      UpsertLookupOther(before, userId, last.0, last.1, userId, batch[j].0);
    }
  }

  /** An upload does not change what find_one returns for a key outside it. */
  lemma {:induction false} ApplyBatchLookupOutside(docs: seq<Record>, userId: string, batch: Batch, u: string, d: string)
    requires u != userId || d !in Dates(batch)
    ensures Lookup(ApplyBatch(docs, userId, batch), u, d) == Lookup(docs, u, d)
    decreases |batch|
  {
    if batch != [] {
      var p := batch[..|batch| - 1];
      var last := batch[|batch| - 1];
      DatesPrefix(batch);
      ApplyBatchLookupOutside(docs, userId, p, u, d);
      UpsertLookupOther(ApplyBatch(docs, userId, p), userId, last.0, last.1, u, d);
    }
  }

  /** For a batch with distinct dates (any JSON object), the document of each
      date afterwards is the merge of its metrics into the document that was
      there, or the new document built from them when there was none. */
  lemma {:induction false} ApplyBatchLookup(docs: seq<Record>, userId: string, batch: Batch, j: nat)
    requires DistinctDates(batch) && j < |batch|
    ensures Lookup(ApplyBatch(docs, userId, batch), userId, batch[j].0)
            == Some(Reconcile(Lookup(docs, userId, batch[j].0), userId, batch[j].0, batch[j].1))
    decreases |batch|
  {
    var p := batch[..|batch| - 1];
    var last := batch[|batch| - 1];
    var before := ApplyBatch(docs, userId, p);
    if j == |batch| - 1 {
      assert last.0 !in Dates(p) by {
        assert forall i :: 0 <= i < |p| ==> p[i] == batch[i] && p[i].0 != last.0;
      }
      ApplyBatchLookupOutside(docs, userId, p, userId, last.0);
      UpsertLookupSame(before, userId, last.0, last.1);
    } else {
      assert p[j] == batch[j];
      assert DistinctDates(p);
      ApplyBatchLookup(docs, userId, p, j);
      UpsertLookupOther(before, userId, last.0, last.1, userId, batch[j].0);
    }
  }

  /** Two uploads for a new key with step counts a and b leave a + b (and
      likewise for distance and active energy). */
  lemma TwoUploadsAddUp(docs: seq<Record>, userId: string, date: string, a: Metrics, b: Metrics)
    requires Lookup(docs, userId, date).None?
    ensures var after := ApplyBatch(ApplyBatch(docs, userId, [(date, a)]), userId, [(date, b)]);
      && Lookup(after, userId, date).Some?
      && Lookup(after, userId, date).value.stepCount == a.stepCount.GetOr(0) + b.stepCount.GetOr(0)
      && Lookup(after, userId, date).value.distance == a.distance.GetOr(0.0) + b.distance.GetOr(0.0)
      && Lookup(after, userId, date).value.activeEnergy == a.activeEnergy.GetOr(0.0) + b.activeEnergy.GetOr(0.0)
  {
    var once := ApplyBatch(docs, userId, [(date, a)]);
    assert once == Upsert(docs, userId, date, a);
    UpsertLookupSame(docs, userId, date, a);
    assert ApplyBatch(once, userId, [(date, b)]) == Upsert(once, userId, date, b);
    UpsertLookupSame(once, userId, date, b);
  }
}
