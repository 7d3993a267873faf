/**
 * The three request handlers of server.py over the collection: the upload
 * that reconciles a batch with the stored documents, the per-user read and
 * the read of everything. Replies carry the HTTP status of an error and the
 * `error` message the server sends with it.
 */
module Server {
  import opened Wrappers
  import opened Records
  import opened Collection

  /** The JSON body of an upload: `user_id` and the `data` object, each possibly absent. */
  datatype UploadRequest = UploadRequest(userId: Option<string>, data: Option<Batch>)

  /** The body of a successful per-user read. */
  datatype UserData = UserData(userId: string, data: seq<Record>)

  datatype Reply<T> = Ok(body: T) | Fail(status: nat, error: string)

  const MissingUserId := "Missing user_id"
  const NoDataForUser := "No data found for this user"
  /** What the framework answers when the handler raises (here: no `data` key). */
  const InternalServerError := "Internal Server Error"

  /** Python's `not user_id` is false: the id is present and not empty. */
  predicate ValidUserId(userId: Option<string>)
    ensures ValidUserId(userId) <==> userId != None && userId != Some("")
  {
    userId.Some? && userId.value != ""
  }

  function SavedMessage(userId: string): string {
    "\U{2705} Data saved for user " + userId
  }

  /** collection.find({"user_id": userId}): the user's documents in stored order. */
  function UserRecords(docs: seq<Record>, userId: string): (r: seq<Record>)
    ensures |r| <= |docs|
    ensures forall x :: x in r <==> x in docs && x.userId == userId
    ensures forall x :: multiset(r)[x] == if x.userId == userId then multiset(docs)[x] else 0
  {
    if docs == [] then []
    else
      assert docs == [docs[0]] + docs[1..];
      (if docs[0].userId == userId then [docs[0]] else []) + UserRecords(docs[1..], userId)
  }

  /** GET /get-data: 400 without a user id, 404 when the user has no
      document, otherwise exactly the user's documents. */
  function GetHealthData(docs: seq<Record>, userId: Option<string>): (r: Reply<UserData>)
    ensures !ValidUserId(userId) <==> r == Fail(400, MissingUserId)
    ensures ValidUserId(userId) ==>
              (r == Fail(404, NoDataForUser) <==> forall x :: x in docs ==> x.userId != userId.value)
    ensures r.Ok? ==> ValidUserId(userId) && r.body.userId == userId.value
    ensures r.Ok? || r == Fail(400, MissingUserId) || r == Fail(404, NoDataForUser)
    ensures r.Ok? ==> r.body.data == UserRecords(docs, userId.value)
    ensures r.Ok? ==> forall x :: x in r.body.data <==> x in docs && x.userId == userId.value
  {
    if !ValidUserId(userId) then Fail(400, MissingUserId)
    else
      var records := UserRecords(docs, userId.value);
      if records == [] then Fail(404, NoDataForUser)
      else
        assert records[0] in records;
        Ok(UserData(userId.value, records))
  }

  /** GET /all-data: every stored document, in stored order; it never fails. */
  function GetAllUsersData(docs: seq<Record>): (r: Reply<seq<Record>>)
    ensures r.Ok? && r.body == docs
  {
    Ok(docs)
  }

  /** The `health_records` collection, updated in place by uploads. */
  class HealthRecords {
    var docs: seq<Record>

    /** At most one document per `(user_id, date)`. */
    ghost predicate Valid()
      reads this
    {
      UniqueKeys(docs)
    }

    constructor ()
      ensures Valid() && docs == []
    {
      docs := [];
    }

    /** POST /health-data. Without a user id: 400 and nothing written. Without
        a `data` object: the handler raises before writing anything. Otherwise
        each date is reconciled in turn with the collection, and the keys stay
        unique if they were. */
    method UploadHealthData(req: UploadRequest) returns (reply: Reply<string>)
      modifies this
      ensures !ValidUserId(req.userId) ==> reply == Fail(400, MissingUserId) && docs == old(docs)
      ensures ValidUserId(req.userId) && req.data.None? ==>
                reply == Fail(500, InternalServerError) && docs == old(docs)
      ensures ValidUserId(req.userId) && req.data.Some? ==>
                reply == Ok(SavedMessage(req.userId.value))
                && docs == ApplyBatch(old(docs), req.userId.value, req.data.value)
      ensures old(Valid()) ==> Valid()
    {
      if !ValidUserId(req.userId) {
        return Fail(400, MissingUserId);
      }
      var userId := req.userId.value;
      if req.data.None? {
        return Fail(500, InternalServerError);
      }
      var batch := req.data.value;
      for i := 0 to |batch|
        invariant docs == ApplyBatch(old(docs), userId, batch[..i])
      {
        assert batch[..i + 1][..i] == batch[..i];
        var (date, metrics) := batch[i];
        var existing := FindOne(docs, userId, date);
        if existing.Some? {
          var k := existing.value;
          docs := docs[k := Merge(docs[k], metrics)];
        } else {
          docs := docs + [NewRecord(userId, date, metrics)];
        }
      }
      assert batch[..|batch|] == batch;
      if UniqueKeys(old(docs)) {
        ApplyBatchKeepsUnique(old(docs), userId, batch);
      }
      reply := Ok(SavedMessage(userId));
    }
  }

  /** After an upload with at least one date, reading that user's data
      succeeds and holds a document for every date of the batch. */
  lemma UploadThenGet(docs: seq<Record>, userId: string, batch: Batch)
    requires userId != "" && batch != []
    ensures var r := GetHealthData(ApplyBatch(docs, userId, batch), Some(userId));
      && r.Ok?
      && forall j :: 0 <= j < |batch| ==> exists x :: x in r.body.data && x.date == batch[j].0
  {
    var after := ApplyBatch(docs, userId, batch);
    var r := GetHealthData(after, Some(userId));
    forall j | 0 <= j < |batch| ensures exists x :: x in after && HasKey(x, userId, batch[j].0) {
      ApplyBatchCoversDates(docs, userId, batch, j);
      var k := FindOne(after, userId, batch[j].0).value;
      assert after[k] in after;
    }
    var x0 :| x0 in after && HasKey(x0, userId, batch[0].0);
    assert r.Ok?;
  }

  /** Uploads and reads of one user leave every other user's reply unchanged. */
  lemma UploadKeepsOtherUsers(docs: seq<Record>, userId: string, batch: Batch, other: string)
    requires other != userId
    ensures UserRecords(ApplyBatch(docs, userId, batch), other) == UserRecords(docs, other)
  {
    ApplyBatchFrame(docs, userId, batch);
    UserRecordsFrame(docs, ApplyBatch(docs, userId, batch), other);
  }

  /** The user's documents depend only on the documents of that user, in order:
      a collection that keeps every old document with that user where it was
      and appends only documents of other users reads the same. */
  lemma {:induction false} UserRecordsFrame(docs: seq<Record>, after: seq<Record>, userId: string)
    requires |docs| <= |after|
    requires forall k :: 0 <= k < |docs| && docs[k].userId == userId ==> after[k] == docs[k]
    requires forall k :: 0 <= k < |docs| && docs[k].userId != userId ==> after[k].userId != userId
    requires forall k :: |docs| <= k < |after| ==> after[k].userId != userId
    ensures UserRecords(after, userId) == UserRecords(docs, userId)
    decreases |after|
  {
    if after == [] {
    } else if docs == [] {
      UserRecordsFrame([], after[1..], userId);
    } else {
      UserRecordsFrame(docs[1..], after[1..], userId);
    }
  }

  /** Every document in a user's reply is also in the reply of /all-data. */
  lemma UserDataWithinAll(docs: seq<Record>, userId: Option<string>)
    ensures GetHealthData(docs, userId).Ok? ==>
              forall x :: x in GetHealthData(docs, userId).body.data ==> x in GetAllUsersData(docs).body
  {
  }
}
