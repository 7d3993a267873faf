# health-api: the upload-and-reconcile rule, in Dafny

A model of the three request handlers of the health-api server (`server.py`).

- `POST /health-data` takes a `user_id` and a `data` object that maps dates to metrics.
  For each date it either updates the user's stored document for that date or inserts a new one.
- `GET /get-data` returns one user's documents.
- `GET /all-data` returns every document.

The MongoDB collection `health_records` is modelled as the sequence of its documents in natural (insertion) order.
MongoDB does not itself keep `(user_id, date)` unique, so "at most one document per key" is proved as an invariant that the upload keeps.

Modules:

- `Wrappers` (`wrappers.dfy`): `Option`, where `None` is a JSON key that is absent.
- `Records` (`records.dfy`): a stored document (`Record`), the posted metrics of one date (`Metrics`, one `Option` per key), and the two per-date rules.
  - `Merge` is the `$set` of update_one: `step_count`, `distance` and `active_energy` are summed, an absent key counting as zero; `avg_heart_rate` and `categories` are replaced when posted and kept otherwise.
  - `NewRecord` is the document insert_one adds, with the defaults 0, 0.0, no heart rate and `{}`.
- `Collection` (`collection.dfy`): `FindOne` (the first document with a key, as find_one returns it); `Upsert` (one loop iteration: update in place or append); `ApplyBatch` (the whole loop, as a specification function); and the lemmas about them.
- `Server` (`server.py`'s handlers, in `server.dfy`):
  - the class `HealthRecords` holds the collection; its method `UploadHealthData` runs the loop over the batch and is proved equal to `ApplyBatch`;
  - `GetHealthData` and `GetAllUsersData` are pure reads over the collection.

What the code does not do:

- it keeps no heart-rate samples and derives no mean: `avg_heart_rate` is overwritten by the posted value;
- it does not append to `categories`: a posted `categories` replaces the stored one whole;
- the per-user read has no date-range filter and no sort: it returns the user's documents in stored order;
- it does not reject an empty `data` object: the upload writes nothing and still replies with success;
- it does not check the sign of posted amounts: a negative step count, distance or energy is added and lowers the total (`MergeMonotone` holds only for non-negative amounts);
- merges do not commute: the later posted heart rate and categories win (`MergeOrder`).

## Model

| member | source | states |
|---|---|---|
| `Records.Merge` | server.py:28-37 | the updated document keeps its `(user_id, date)`; metrics with no keys leave the document exactly as it was |
| `Records.NewRecord` | server.py:40-48 | the inserted document carries the posted user id and date |
| `Records.NewRecordIsMergeIntoBlank` | server.py:40-48 | inserting equals merging the metrics into the all-default document (0 steps, 0.0 distance and energy, no heart rate, `{}` categories): each field is the posted value or that default |
| `Records.MergeTwice` | server.py:31-35 | two updates in a row act as one update with the combined metrics: the sums receive both amounts (steps e + a + b), and heart rate and categories become the later posted value, else the earlier one, else the stored one |
| `Records.MergeNotIdempotent` | server.py:31 | posting the same non-zero step count twice changes the document again (it is counted twice) |
| `Records.MergeMonotone` | server.py:31-33 | with non-negative posted amounts, steps, distance and energy never decrease |
| `Records.MergeOrder` | server.py:31-35 | the summed fields do not depend on the order of two updates; two different posted heart rates give different documents in the two orders |
| `Collection.FindOne` | server.py:24 | returns the position of the first document with the key, or none exactly when no document has it |
| `Collection.Lookup` | server.py:24 | the document find_one returns has the key and is stored; there is none exactly when no stored document has the key |
| `Collection.Reconcile` | server.py:26-48 | the document a date leaves behind keeps the key of the document found, or has the posted key when none was found |
| `Collection.Upsert` | server.py:24-48 | one loop iteration grows the collection by one document exactly when find_one finds none, and by none otherwise; what it does to each document is stated by `UpsertLookupSame`, `UpsertLookupOther`, `UpsertFrame` and `UpsertKeepsUnique` |
| `Collection.ApplyBatch` | server.py:23-48 | the whole loop adds at most one document per item of the batch; what it does to each key is stated by the `ApplyBatch*` lemmas |
| `Collection.FindOneFirst` | server.py:24 | the first document with the key is the one found, whatever comes after it |
| `Collection.UpsertLookupSame` | server.py:24-48 | after one date is handled, the document found for its key is the merge into the old document, or the new document when there was none |
| `Collection.UpsertLookupOther` | server.py:24-48 | handling one date does not change the document found for any other key |
| `Collection.UpsertFrame` | server.py:26-48 | handling one date keeps every key and every document with another key, and appends at most one document, which has its key |
| `Collection.UpsertKeepsUnique` | server.py:24-48 | updating in place when found and inserting only when absent keeps keys unique |
| `Collection.ApplyBatchFrame` | server.py:23-48 | after an upload, documents whose key is not `(user_id, d)` for a date `d` of the batch are unchanged; every key stays put; every added document has the user's id and a date of the batch |
| `Collection.ApplyBatchKeepsUnique` | server.py:23-48 | an upload keeps at most one document per `(user_id, date)` |
| `Collection.ApplyBatchCoversDates` | server.py:23-48 | after an upload, every date of the batch has a document for the user |
| `Collection.ApplyBatchLookupOutside` | server.py:23-48 | an upload does not change the document found for a key outside it |
| `Collection.ApplyBatchLookup` | server.py:23-48 | for a batch with distinct dates, each date's document afterwards is its metrics merged into the old document, or the new document built from them |
| `Collection.TwoUploadsAddUp` | server.py:31-43 | two uploads for a new key with step counts a and b leave a + b; the same holds for distance and active energy |
| `Server.ValidUserId` | server.py:20 | `not user_id` is false exactly when the id is present and is not the empty string (also used at server.py:57) |
| `Server.UserRecords` | server.py:60 | the user's documents: each document stored with that user id appears as many times as it is stored, and no other document appears |
| `Server.GetHealthData` | server.py:53-65 | 400 exactly when the user id is missing or empty; otherwise 404 exactly when no document has that user id, and success in every other case, holding exactly the user's documents |
| `Server.GetAllUsersData` | server.py:68-71 | never fails and returns every stored document |
| `Server.HealthRecords.constructor` | server.py:11-12 | the in-memory stand-in for the persistent collection starts empty, so its keys are unique |
| `Server.HealthRecords.UploadHealthData` | server.py:15-50 | missing or empty user id: 400 and the collection unchanged; no `data` object: 500 and unchanged; otherwise success, with the collection equal to the batch applied date by date; the invariant of unique keys is kept |
| `Server.UploadThenGet` | server.py:23-63 | after an upload with at least one date, reading that user's data succeeds and holds a document for every date of the batch |
| `Server.UploadKeepsOtherUsers` | server.py:23-60 | an upload by one user leaves every other user's read unchanged |
| `Server.UserRecordsFrame` | server.py:60 | a user's read depends only on that user's documents, in stored order |
| `Server.UserDataWithinAll` | server.py:60-71 | every document in a user's read is also in the read of all data |

## Left out

- Flask routing, JSON parsing, `jsonify`, the success status codes and `app.run` (server.py:1-4, 73-74): framework plumbing. A reply is `Ok(body)` or `Fail(status, error)`.
- `MongoClient` setup and database/collection selection (server.py:6-12): replaced by the in-memory `docs` sequence.
- Mongo's `_id` field, its projection out of the reads, and the returned document order: documents are kept in insertion order; find_one and update_one both act on the first match.
- Concurrency: requests are sequential. The race between find_one and update_one/insert_one is not modelled.
- Floating point: `distance` and `active_energy` are `real` with exact addition.
- Explicit JSON `null`, non-numeric metric values and non-string user ids: metrics are typed here.
  - On insert (server.py:43-47), any posted value is stored as it is, `null` included.
  - On update (server.py:31-33), a `null` amount raises at the addition. So does any stored `null` amount that an earlier insert left behind.
  - Python's `+` concatenates two posted strings or lists instead of raising.
  - A posted `null` heart rate or categories replaces the stored value on update (server.py:34-35).
- Merge: does not model the 64-bit integer limit of BSON. pymongo raises `OverflowError` when a `step_count` sum falls outside the signed 64-bit range. The handler then answers 500, and the dates already handled in that batch stay written. The model's `int` is unbounded, so such an upload succeeds.
- A body that is not JSON (`request.json` is `None`): the server raises. Only a missing `data` key is modelled, as a 500 raised before anything is written.
- UserRecords: states each document's multiplicity, but not that the stored order is preserved.
