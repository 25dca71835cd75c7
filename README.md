# mazenrecords store: a Dafny model

This project models the record store behind the `Visit` and `Brand` entities of
mazenrecords, together with the proofs about it. The store is one
DynamoDB-style table of rows keyed by `(userId, sortKey)`, where `sortKey` is
`Visit#<id>` or `Brand#<id>`. Every row carries a numeric `updatedAt`. A
secondary index, `updates_lsi`, orders a user's rows by `updatedAt`. Nothing is
ever removed. A deleted entity is overwritten by a minimal tombstone row
`{userId, sortKey, updatedAt, deleted: true}`, and clients catch up through a
feed of the rows changed after an epoch.

The modules follow the program:

- `Types` (types.ts):
  - the storage record (an attribute map);
  - the `Deletable` union of a live entity and a tombstone;
  - the `objectIsValid` and `recordIsValid` guards;
  - `ServiceError`, a datatype that holds its message, reason and action as given.
- `VisitCodec` and `BrandCodec` (the two `serializers.ts`): an entity to and from its record, plus the JSON presentation. That presentation makes a visit id a number and keeps a brand id a string.
- `JsStrings`: the JavaScript string operations the codecs use:
  - `split("#")[1]`;
  - `startsWith`;
  - `trim`, as unary `+` applies it;
  - unary `+` on a string, evaluated for optionally signed decimal integers;
  - `toString` of an integer.
- `Store` (services.ts): the `Table` class, whose field `rows: map<Key, Record>` the methods update. It has:
  - `getItem`, `putItem` with its condition expressions, and `transactWriteItems` of the table;
  - the paginated query loop `getAll`;
  - the 25-item chunked writer `transactWrite`;
  - the purge `deleteAll`;
  - `replaceAll`.
- `VisitService` and `BrandService` (the two entity `services.ts`): `getById`, `addOrUpdate` in add or update mode, and `deleteById`.
- `Updates` (updates/functions.ts): the store logic of `updatesSince`, `upload` and `sync`.

The environment becomes parameters:

- A clock read (`+new Date()`) is an `int` parameter. When an operation reads the clock twice, it takes two parameters.
- A query is answered by a supplied sequence of pages. `QueryPages` and `Answers` state what the store promises of a complete answer: exactly the matching rows, each once, in `updatedAt` order on `updates_lsi`.
- A failing write call is a supplied fault: `ChunkFault` names which call of `transactWrite` fails, and `StepFault` names which of the bulk operation's writes fails. A faulted run shows what stays written when a later batch fails.
- Numbers are unbounded integers. `toString` followed by unary `+` is the identity on them.
- An epoch sent as text is what the store reads as a number (`{N: epoch}`) when it is an optionally negative decimal integer.

## Model

| member | source | states |
|---|---|---|
| Types.ObjectIsValid | packages/functions/src/types.ts:38-42 | an entity is valid when it has no `deleted` field; with the codecs' ensures, an entity is valid exactly when its record is |
| Types.RecordIsValid | packages/functions/src/types.ts:44-48 | a record is valid when it has no `deleted` attribute; TombstoneRecord states that a tombstone never is |
| Types.TombstoneRecord | packages/functions/src/visits/serializers.ts:13-18 | the tombstone record has exactly the attributes userId, sortKey, updatedAt and deleted=true; it is stored under (userId, sortKey) and is not a valid (live) record |
| JsStrings.SecondSegment | packages/functions/src/visits/serializers.ts:39 | `split(sep)[1]` contains no separator |
| JsStrings.SecondSegmentOfJoin | packages/functions/src/visits/serializers.ts:39 | the second segment of `prefix#id` (where the prefix has no `#`) is `id` up to its first `#` |
| JsStrings.Trim | packages/functions/src/visits/serializers.ts:63 | the whitespace unary `+` ignores: the result is the slice of the string after its leading whitespace, everything cut off on either side is whitespace, the result neither starts nor ends with whitespace, and a string that already does neither is unchanged |
| JsStrings.ToNumber | packages/functions/src/visits/serializers.ts:63 | unary `+` ignores surrounding whitespace; it gives 0 for a blank string, and an integer exactly when the rest is an optionally signed decimal integer, in which case the integer is that literal's value; anything else is kept unevaluated |
| JsStrings.ToNumberOfDecimal | packages/functions/src/visits/serializers.ts:63 | `+` of a signed or unsigned decimal integer literal is its value |
| JsStrings.ToNumberOfPadded | packages/functions/src/visits/serializers.ts:63 | `+` of a decimal integer literal with whitespace before and after it (`" 7 "`) is the literal's value |
| JsStrings.ToNumberOfNatToString | packages/functions/src/visits/serializers.ts:63 | `+` undoes `toString` on natural numbers |
| JsStrings.IntToStringDecimal | packages/functions/src/updates/functions.ts:24-40 | `toString` of any integer is a decimal literal, unsigned or with `-`, whose value is the integer |
| JsStrings.IntToStringRoundTrip | packages/functions/src/visits/serializers.ts:63 | `+` undoes `toString` on every integer, negative ones included |
| VisitCodec.Stamp | packages/functions/src/visits/services.ts:46-49 | `{...visit, updatedAt: t}` keeps the id, the kind (live or tombstone) and every other field, and sets updatedAt to t |
| VisitCodec.SortKey | packages/functions/src/visits/serializers.ts:15 | the sort key starts with `Visit#` |
| VisitCodec.Encode | packages/functions/src/visits/serializers.ts:5-34 | both branches store userId and sortKey `Visit#<id>` and the visit's updatedAt; a tombstone encodes to exactly the tombstone record; the record is valid exactly when the visit is live |
| VisitCodec.EncodedFields | packages/functions/src/visits/serializers.ts:21-33 | a live visit is stored with exactly the eleven live attributes, each holding its field |
| VisitCodec.Decode | packages/functions/src/visits/serializers.ts:36-57 | decoding gives a tombstone exactly when the record has `deleted`; the id is the sort key's second `#` segment and never contains `#`; updatedAt is the stored one |
| VisitCodec.DecodedId | packages/functions/src/visits/serializers.ts:39 | the decoded id of a stored visit is its id cut at the first `#` |
| VisitCodec.DecodeEncode | packages/functions/src/visits/serializers.ts:5-57 | round trip: a visit, live or tombstone, whose id has no `#` decodes from its record unchanged, field by field |
| VisitCodec.HashInIdIsTruncated | packages/functions/src/visits/serializers.ts:39 | the round trip fails for an id with `#`: `1#2` comes back as `1` |
| VisitCodec.EncodeDecode | packages/functions/src/visits/serializers.ts:36-57 | the other direction: a record with exactly the live (or tombstone) attributes under `Visit#<id>` re-encodes from its decoding to itself |
| VisitCodec.ToJson | packages/functions/src/visits/serializers.ts:62-64 | `{...visit, id: +visit.id}`: every field kept, tombstones included, with the id replaced by its numeric value |
| VisitCodec.RecordToJson | packages/functions/src/visits/serializers.ts:59-61 | the JSON of a record is that of its decoding: its id is `+` of the sort key's id, with the record's updatedAt, and it is a tombstone exactly when the record has `deleted` |
| VisitCodec.PresentEncoded | packages/functions/src/visits/serializers.ts:59-64 | presenting a visit's record equals presenting the visit, when the id has no `#` |
| VisitCodec.NumericId | packages/functions/src/visits/serializers.ts:63 | a visit whose id is the decimal form of the integer n presents with id n |
| BrandCodec.Stamp | packages/functions/src/brands/services.ts:43-46 | `{...brand, updatedAt: t}` keeps id, kind and fields, sets updatedAt to t |
| BrandCodec.Dedup | packages/functions/src/brands/serializers.ts:43 | `new Set(list)`: no duplicates, the same elements, and the list itself when it had no duplicates |
| BrandCodec.DedupFirstOccurrences | packages/functions/src/brands/serializers.ts:43 | `[...new Set(list)]` lists the elements in the order of their first occurrences in the list |
| BrandCodec.SortKey | packages/functions/src/brands/serializers.ts:15 | the sort key starts with `Brand#` |
| BrandCodec.Encode | packages/functions/src/brands/serializers.ts:5-28 | a tombstone encodes to exactly the tombstone record under `Brand#<id>`; a live brand is stored with exactly userId, sortKey, name, models (the set's elements) and updatedAt |
| BrandCodec.Decode | packages/functions/src/brands/serializers.ts:31-46 | a tombstone exactly when `deleted` is present; id is the second `#` segment; models is the set of the stored list, without duplicates |
| BrandCodec.DecodeEncode | packages/functions/src/brands/serializers.ts:5-46 | round trip for ids without `#`: same id, kind, name, updatedAt and the same set of models; exactly the same brand for a tombstone or a duplicate-free models list |
| BrandCodec.ToJson | packages/functions/src/brands/serializers.ts:52-57 | a live brand presents its models as a sequence with the same elements and its id as a string; a tombstone is returned as it is |
| BrandCodec.RecordToJson | packages/functions/src/brands/serializers.ts:48-50 | the JSON of a record is that of its decoding: string id from the sort key, stored updatedAt, tombstone iff `deleted`, models the set of the stored list |
| BrandCodec.PresentEncoded | packages/functions/src/brands/serializers.ts:48-59 | presenting a brand's record equals presenting the brand, when the id has no `#` and models has no duplicates |
| Store.LastIndexOf | packages/functions/src/services.ts:79 | the position of the last put aimed at a key: it targets the key and no later put does |
| Store.ApplyPutsAt | packages/functions/src/services.ts:79 | after a sequence of puts a key holds the last put aimed at it, or what it held before (present or absent) |
| Store.ApplyPutsAppend | packages/functions/src/services.ts:71-80 | writing `a` then `b` is writing `a + b` |
| Store.LastPutWins | packages/functions/src/services.ts:79 | a put with no later put to its key is what the key holds afterwards |
| Store.Untouched | packages/functions/src/services.ts:79 | a key no put is aimed at keeps its row, or stays absent |
| Store.KindsDisjoint | packages/functions/src/brands/serializers.ts:15 | a visit sort key is never a brand sort key |
| Store.VisitSortKeyInjective | packages/functions/src/visits/serializers.ts:15 | distinct visit ids have distinct sort keys |
| Store.BrandSortKeyInjective | packages/functions/src/brands/serializers.ts:15 | distinct brand ids have distinct sort keys |
| Store.Chunks | packages/functions/src/services.ts:71-76 | the batches `transactWrite` cuts the items into; its shape is stated by ChunksShape and FlattenChunks |
| Store.ChunksShape | packages/functions/src/services.ts:68-80 | `transactWrite` makes ceil(n/25) batches, each of 1 to 25 items; batch c is items 25c up to 25c+25 (or the end); an empty array gives no batch |
| Store.FlattenChunks | packages/functions/src/services.ts:71-76 | the batches joined back are the array itself: every item once, in index order |
| Store.FlattenChunksPrefix | packages/functions/src/services.ts:71-80 | the first c batches are the first 25c items (or all of them) |
| Store.BuildBatch | packages/functions/src/services.ts:75-76 | the inner loop builds exactly the mapped items from `from` to `to`, each with its own index |
| Store.LiveSortKeys | packages/functions/src/services.ts:89-96 | `filter(!deleted).map(sortKey)`: every live item's sort key is listed, and only those |
| Store.Tombstones | packages/functions/src/services.ts:98-108 | one tombstone per sort key, all stamped with the one deleteTime |
| Store.TombstonesOk | packages/functions/src/services.ts:98-108 | each tombstone for the live sort keys of a complete answer may be written: it keeps the row layout |
| Store.PurgeByTombstones | packages/functions/src/services.ts:88-110 | writing all the tombstones tombstones exactly the user's live rows, leaves tombstones and other users' rows as they were and adds no row; any prefix of them is part of that purge |
| Store.VisitPuts | packages/functions/src/services.ts:127-135 | one record per visit, in order: the visit stamped t and encoded for the user; all writable |
| Store.BrandPuts | packages/functions/src/services.ts:137-145 | one record per brand, in order: the brand stamped t and encoded; all writable |
| Store.ReplacedVisit | packages/functions/src/services.ts:113-148 | after `replaceAll`, a supplied visit (the last one with its id) is stored as given, stamped with the returned timestamp, live exactly when it was live |
| Store.ReplacedBrand | packages/functions/src/services.ts:113-148 | the same for a supplied brand |
| Store.ReplacedOthers | packages/functions/src/services.ts:113-148 | after `replaceAll`, a row no supplied entity names is as the purge left it: a previously live row of the user is a tombstone stamped deleteTime, everything else unchanged, no row added |
| Store.Table.TransactWriteItems | packages/functions/src/services.ts:79 | one call writes all of its puts in order, or nothing when it fails |
| Store.Table.GetItem | packages/functions/src/visits/services.ts:19-25 | the row under the key, tombstones included, and nothing when none is stored |
| Store.Table.PutItem | packages/functions/src/visits/services.ts:57-64 | a put whose condition holds replaces exactly the row under its key; a failed condition or a store error leaves the table unchanged |
| Store.Table.GetAll | packages/functions/src/services.ts:16-61 | the loop queries once per page, until a page returns no LastEvaluatedKey, and returns all pages' items in page order; when the pages answer the query for the given user, condition and index, so do the items |
| Store.Table.TransactWrite | packages/functions/src/services.ts:64-81 | sends exactly the batches of the mapped items, in order; when batch c fails, the batches before it stay written and the later ones are never built; otherwise every item is written |
| Store.PurgePuts | packages/functions/src/services.ts:89-108 | the tombstones for the live rows of an answer: one per live row, stamped deleteTime |
| Store.Table.DeleteAll | packages/functions/src/services.ts:83-111 | on success the table is the purge and deleteTime is returned; it fails exactly when the fault names a tombstone batch that is sent; when batch c fails, the store error is rethrown and exactly the tombstone batches before c are written, so each row is either as before or purged |
| Store.Table.ReplaceAll | packages/functions/src/services.ts:113-148 | returns its timestamp and leaves the purge, then the stamped visits, then the stamped brands; it fails exactly when the fault names a batch of one of the three steps that is sent; when batch c of a step fails, the table holds exactly the earlier steps and that step's batches before c |
| VisitService.RowKey | packages/functions/src/visits/services.ts:21-24 | a visit's key is (userId, `Visit#<id>`) |
| VisitService.Lookup | packages/functions/src/visits/services.ts:12-34 | `not_found` exactly when no row exists; a tombstone row decodes to a tombstone; the stored updatedAt; the requested id when it has no `#` |
| VisitService.Condition | packages/functions/src/visits/services.ts:60-63 | the condition holds exactly in update mode, or when the key is absent or holds a tombstone |
| VisitService.GetById | packages/functions/src/visits/services.ts:12-34 | `getById` answers `Lookup` of the table |
| VisitService.AddOrUpdate | packages/functions/src/visits/services.ts:36-76 | an empty id throws before any write; the visit is stamped now; add mode writes only over an absent key or a tombstone and otherwise raises `already_exists` with no change; update mode writes unconditionally; store errors are rethrown unchanged with no change |
| VisitService.DeleteById | packages/functions/src/visits/services.ts:78-113 | tombstones an existing live row (stamped with the second clock read) and returns the first read; otherwise `not_found` and no change; store errors rethrown unchanged |
| VisitService.GetAfterWrite | packages/functions/src/visits/services.ts:36-76 | a visit written by `addOrUpdate` is read back by `getById` exactly as returned, stamped |
| VisitService.ReadBack | packages/functions/src/visits/services.ts:12-33 | after a visit's record is put under its key, the table keeps its row invariant and `getById` finds that record and returns its decoding |
| VisitService.GetAfterDelete | packages/functions/src/visits/services.ts:78-113 | a deleted visit reads back as a tombstone with its stamp; it can be added again but not deleted again |
| BrandService.RowKey | packages/functions/src/brands/services.ts:18-21 | a brand's key is (userId, `Brand#<id>`) |
| BrandService.Lookup | packages/functions/src/brands/services.ts:9-31 | `not_found` exactly when no row exists; tombstones returned as tombstones; the stored updatedAt; the requested id when it has no `#` |
| BrandService.Condition | packages/functions/src/brands/services.ts:57-60 | the condition holds exactly in update mode, or when the key is absent or holds a tombstone |
| BrandService.GetById | packages/functions/src/brands/services.ts:9-31 | `getById` answers `Lookup` of the table |
| BrandService.AddOrUpdate | packages/functions/src/brands/services.ts:33-73 | empty id throws before writing; stamped now; add succeeds iff the key is absent or a tombstone, else `already_exists` and no change; update writes unconditionally and returns the stamped brand; other errors rethrown |
| BrandService.DeleteById | packages/functions/src/brands/services.ts:75-110 | tombstones only an existing live row, returning the first clock read; otherwise `not_found` with no change; other errors rethrown |
| BrandService.GetAfterWrite | packages/functions/src/brands/services.ts:33-73 | a brand written by `addOrUpdate` reads back with the same id, kind, name, stamp and set of models (exactly, when its models have no duplicates) |
| BrandService.ReadBack | packages/functions/src/brands/services.ts:9-30 | after a brand's record is put under its key, the table keeps its row invariant and `getById` finds that record and returns its decoding |
| BrandService.GetAfterDelete | packages/functions/src/brands/services.ts:75-110 | a deleted brand reads back as a tombstone; it can be added again but not deleted again |
| Updates.OfKind | packages/functions/src/updates/functions.ts:42-48 | `filter(startsWith(prefix))` keeps exactly the records of that prefix |
| Updates.OfKindOne | packages/functions/src/updates/functions.ts:42-48 | a single record is kept exactly when its sort key starts with the prefix |
| Updates.OfKindLast | packages/functions/src/updates/functions.ts:42-48 | the filter of a list is the filter of all but the last record, followed by the last record when it is kept |
| Updates.OfKindConcat | packages/functions/src/updates/functions.ts:42-48 | the filter keeps the query order: filtering `a + b` gives the filter of `a` followed by the filter of `b` |
| Updates.OfKindDistinct | packages/functions/src/updates/functions.ts:42-48 | the filter keeps the keys distinct |
| Updates.OfKindSorted | packages/functions/src/updates/functions.ts:42-48 | the filter keeps the `updatedAt` order |
| Updates.KindAnswers | packages/functions/src/updates/functions.ts:31-48 | the records of one kind in a complete answer are a complete answer on that kind's rows |
| Updates.KindRecords | packages/functions/src/updates/functions.ts:42-48 | the `Visit` records are visit records and the `Brand` records are brand records |
| Updates.VisitFeed | packages/functions/src/updates/functions.ts:50-52 | each visit record through `toJSON`, in order |
| Updates.BrandFeed | packages/functions/src/updates/functions.ts:53-55 | each brand record through `toJSON`, in order |
| Updates.UpdatesSince | packages/functions/src/updates/functions.ts:18-64 | a missing or empty epoch gives 400 and no query; an epoch that is an integer, negative ones included, is queried; `visits` are then exactly the user's visit rows with updatedAt > epoch (strict, tombstones included), each once, in the query's order (by updatedAt), through `toJSON`, and likewise `brands`; any other epoch is refused by the store |
| Updates.EpochOfInt | packages/functions/src/updates/functions.ts:24-40 | any integer written as text, negative ones included, is an epoch the store reads as that integer |
| Updates.StampedVisits | packages/functions/src/updates/functions.ts:87-91 | `newVisits`: toJSON of each visit stamped t, in input order |
| Updates.StampedBrands | packages/functions/src/updates/functions.ts:104-105 | `newBrands`: toJSON of each brand stamped t, in input order |
| Updates.Upload | packages/functions/src/updates/functions.ts:67-126 | an unparsable body gives 400 before anything is written; success answers the stamped lists and the timestamp, and leaves what `replaceAll` leaves; with both lists present and no fault on a batch that is sent it succeeds; it answers 400 only for an unparsable body; it fails with the store error exactly when the fault names a batch of a step that is reached (the purge, the visits when present, the brands when both lists are present), and throws a TypeError exactly when no such batch fails and a list is missing, after the writes before it; when batch c of a step fails (the purge included), the table holds exactly the earlier steps and that step's batches before c |
| Updates.WriteList | packages/functions/src/updates/functions.ts:151-165 | a missing list throws a TypeError before writing; otherwise the list is written batch by batch, with the failure boundary of `transactWrite` |
| Updates.VisitTombstonePuts | packages/functions/src/updates/functions.ts:151-165 | one visit tombstone per deleted id, in order, stamped t |
| Updates.BrandTombstonePuts | packages/functions/src/updates/functions.ts:167-181 | one brand tombstone per deleted id, in order, stamped t |
| Updates.SyncSteps | packages/functions/src/updates/functions.ts:149-213 | the four writes of `sync`, in the order the source runs them: visit tombstones, brand tombstones, visit upserts, brand upserts |
| Updates.SyncStepsMapped | packages/functions/src/updates/functions.ts:151-213 | each of the four writes is its list mapped by that step's mapper, and each of its puts keeps the row layout |
| Updates.FirstMissing | packages/functions/src/updates/functions.ts:151-213 | the first step whose list is missing; 4 exactly when all four lists are present |
| Updates.SyncWrite | packages/functions/src/updates/functions.ts:151-213 | one of the four writes of `sync`: it completes, or ends `sync` with the thrown error and exactly the earlier writes (plus its committed batches) in the table |
| Updates.Sync | packages/functions/src/updates/functions.ts:129-223 | an unparsable body gives 400 and no change; otherwise the four writes run in order and the first throw ends `sync`, leaving exactly the writes before it; with all lists present and no failure it answers the stamped upserts and the timestamp and leaves `Synced` |
| Updates.VisitDeletePuts | packages/functions/src/updates/functions.ts:151-165 | the first step puts a visit tombstone stamped t for each deleted visit id |
| Updates.BrandDeletePuts | packages/functions/src/updates/functions.ts:167-181 | the second step puts a brand tombstone stamped t for each deleted brand id |
| Updates.VisitUpsertPuts | packages/functions/src/updates/functions.ts:187-199 | the third step puts each upserted visit stamped t |
| Updates.BrandUpsertPuts | packages/functions/src/updates/functions.ts:201-213 | the fourth step puts each upserted brand stamped t |
| Updates.SyncUpsertedVisit | packages/functions/src/updates/functions.ts:151-213 | an upserted visit (the last upsert with its id) ends stored as given and stamped t, whatever the deletes said: the upsert wins over a delete of the same id |
| Updates.SyncUpsertedBrand | packages/functions/src/updates/functions.ts:167-213 | the same for an upserted brand |
| Updates.SyncDeletedVisit | packages/functions/src/updates/functions.ts:151-213 | a deleted visit id that no upsert names ends as a visit tombstone stamped t, whether or not the visit existed |
| Updates.SyncDeletedBrand | packages/functions/src/updates/functions.ts:167-213 | the same for a deleted brand id |
| Updates.SyncUnlisted | packages/functions/src/updates/functions.ts:149-213 | `sync` does not purge: a row no list names is unchanged, present or absent |
| Updates.SyncStamped | packages/functions/src/updates/functions.ts:149-213 | `sync` loses no row, and every row it changes belongs to the user and carries the one timestamp |
| Updates.SyncedRowsInFeed | packages/functions/src/updates/functions.ts:31-40 | every row `sync` changed appears in the next `updatesSince` feed of any epoch before its timestamp |

## Left out

- Floating point: `amount`, `date` and `updatedAt` are integers. `toString` followed by unary `+` is the identity on them.
- JsStrings.IntToStringRoundTrip and VisitCodec.NumericId: JavaScript numbers are doubles, so `+(n.toString())` gives back n only for integers of magnitude at most 2^53 (9007199254740992). Above that bound `toString` prints the nearest double, and a numeric string id such as `9007199254740993` presents as `9007199254740992`. The model uses unbounded integers and does not capture this loss of precision, for ids and for the timestamps alike.
- JsStrings.ToNumber: evaluates only blank strings and optionally signed decimal integers, after trimming ASCII whitespace and the no-break space. Every other string is kept unevaluated as `Other` with its trimmed text. The model does not claim what that `Other` stands for: JavaScript gives a number for a fraction (`1.5`), an exponent (`1e3` is 1000), a hexadecimal, octal or binary literal (`0x1f` is 31) and `Infinity`, and NaN for the rest. It also trims other Unicode whitespace.
- Updates.UpdatesSince: the store reads an epoch as a number when it is an optionally negative decimal integer. The model treats every other non-empty epoch as a store refusal (`ValidationException`): a fraction, an exponent, a leading `+` or surrounding whitespace. The store accepts some of these as numbers, and then the source answers with the feed. The store's exact error text is not modelled.
- Projection expressions, read and query failures, and the paging cursor's contents are not modelled. A query is answered by the supplied pages, which are assumed complete and exact.
- DynamoDB rejects some writes that this model accepts: empty string-sets, and two puts to the same key inside one `transactWriteItems`. In the model such writes are accepted, and the last put wins.
- BrandCodec.Encode: stores `models` as a string set holding the list exactly as given. DynamoDB refuses a string set that has duplicate elements. The source sends the request's array without removing duplicates, so a brand with repeated models is refused by the store, but the model writes it and reads it back without the repeats. DynamoDB also does not keep a string set's order. The model reads the elements back in the order they were written, so the exact read-back in BrandService.GetAfterWrite and the order of `models` in the feed rely on that.
- Store.Table.GetAll: the order of the primary index (by sort key) is not stated. Only `updates_lsi` order is.
- `replaceAll` and `upload` read the clock before `deleteAll` reads its own. The two reads are independent parameters, `now` and `deleteTime`, and the model does not require `now <= deleteTime`.
- The HTTP handlers of visits/functions.ts and brands/functions.ts (JWT subject, body parsing, status codes) are not part of this model. On `already_exists`, those handlers return a `status` field instead of `statusCode` (visits/functions.ts:85-86, brands/functions.ts:85-86).
- For `upload` and `sync`, the body is either unparsable or a set of lists, any of which may be missing. These cases are not modelled:
  - a `null` body (the parse succeeds, then reading a field throws inside the same `try` and gives 400, like an unparsable body);
  - elements that are not strings or objects;
  - lists that are not arrays.
- Updates.Upload, Updates.Sync: list elements are well-formed entities. An element that is an object missing a field makes the mapper throw a TypeError (`visit.amount.toString()`, `[...brand.models]`). In `upload` and `sync`, that happens inside `transactWrite` after the earlier batches are committed. In `addOrUpdate` it happens before the write. The model does not represent such elements.
- VisitCodec.Visit, BrandCodec.Brand: an entity holds only its known fields. A client may send more. The mappers never store the extra fields, but the source echoes them back through the object spreads: in the `addOrUpdate` reply (`{...visit, updatedAt}`), in `newVisits`/`newBrands` of `upload` and `sync`, and in visit `toJSON` (visits/serializers.ts:63). The model's `VisitJson` and `BrandJson` cannot carry them. Ids are strings in the model. Because `toJSON` presents visit ids as numbers, a client may send an id back as a JSON number. The number 0 is then refused by `!visit.id` (visits/services.ts:45), while the model's string "0" is accepted.
- Updates.Upload and Updates.Sync build `newVisits` and `newBrands` inside the mapper callback. The model computes them from the input lists. On success the two are equal; after a throw the arrays are never returned.
- Concurrency between requests and retries: the code has none. The model gives per-request sequential semantics.
- The table name, the attribute-value merging of expression parameters, and the SDK client (db.ts) are not part of this model.
