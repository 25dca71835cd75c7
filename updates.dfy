/**
 * The bulk endpoints, without their HTTP parsing: `updatesSince` (the feed
 * of rows changed after an epoch, split by kind), `upload` (purge, then
 * rewrite everything) and `sync` (tombstone the listed ids, then upsert).
 */
module Updates {
  import opened Wrappers
  import opened JsStrings
  import opened Types
  import VisitCodec
  import BrandCodec
  import opened Store

  /** What an endpoint answers: 400 with a message, 200 with a value, or a thrown error. */
  datatype Reply<T> = BadRequest(message: string) | Success(value: T) | Failure(error: Error)

  // ----- updatesSince -----

  /** The records whose sort key starts with `prefix`, in their order (`filter(startsWith)`). */
  function OfKind(items: seq<Record>, prefix: string): (r: seq<Record>)
    ensures forall x :: x in r <==> x in items && StartsWith(KeyOf(x).1, prefix)
  {
    if items == [] then []
    else
      var init := OfKind(items[..|items| - 1], prefix);
      var last := items[|items| - 1];
      assert forall x :: x in items <==> x in items[..|items| - 1] || x == last;
      if StartsWith(KeyOf(last).1, prefix) then init + [last] else init
  }

  /** A single record is kept exactly when its sort key has the prefix. */
  lemma OfKindOne(x: Record, prefix: string)
    ensures OfKind([x], prefix) == if StartsWith(KeyOf(x).1, prefix) then [x] else []
  {
    assert [x][..0] == [];
  }

  /**
   * The filter keeps the query order: filtering a concatenation filters
   * each part and joins the results in the same order.
   */
  lemma {:induction false} OfKindConcat(a: seq<Record>, b: seq<Record>, prefix: string)
    ensures OfKind(a + b, prefix) == OfKind(a, prefix) + OfKind(b, prefix)
  {
    if b == [] {
      assert a + b == a;
    } else {
      var init, last := b[..|b| - 1], b[|b| - 1];
      var kept := if StartsWith(KeyOf(last).1, prefix) then [last] else [];
      assert OfKind(a + init, prefix) == OfKind(a, prefix) + OfKind(init, prefix) by {
        OfKindConcat(a, init, prefix);
      }
      assert OfKind(a + b, prefix) == OfKind(a + init, prefix) + kept by {
        assert (a + b)[..|a + b| - 1] == a + init && (a + b)[|a + b| - 1] == last;
        OfKindLast(a + b, prefix);
      }
      assert OfKind(b, prefix) == OfKind(init, prefix) + kept by {
        OfKindLast(b, prefix);
      }
    }
  }

  /** One step of the filter: the last record is kept after the filtered rest, or dropped. */
  lemma OfKindLast(items: seq<Record>, prefix: string)
    requires items != []
    ensures var last := items[|items| - 1];
      OfKind(items, prefix) ==
        OfKind(items[..|items| - 1], prefix) + if StartsWith(KeyOf(last).1, prefix) then [last] else []
  {
  }

  /** The rows of one kind. */
  function RowsOfKind(rows: map<Key, Record>, prefix: string): map<Key, Record> {
    map k | k in rows && StartsWith(k.1, prefix) :: rows[k]
  }

  /** Filtering keeps the keys distinct. */
  lemma {:induction false} OfKindDistinct(items: seq<Record>, prefix: string)
    requires DistinctKeys(items)
    ensures DistinctKeys(OfKind(items, prefix))
  {
    if items != [] {
      var init := items[..|items| - 1];
      var last := items[|items| - 1];
      OfKindDistinct(init, prefix);
      var r := OfKind(init, prefix);
      forall i | 0 <= i < |r|
        ensures KeyOf(r[i]) != KeyOf(last)
      {
        assert r[i] in init;
        var j :| 0 <= j < |init| && init[j] == r[i];
        assert items[j] == r[i];
      }
    }
  }

  /** Filtering keeps the `updatedAt` order. */
  lemma {:induction false} OfKindSorted(items: seq<Record>, prefix: string)
    requires SortedByUpdatedAt(items)
    ensures SortedByUpdatedAt(OfKind(items, prefix))
  {
    if items != [] {
      var init := items[..|items| - 1];
      var last := items[|items| - 1];
      OfKindSorted(init, prefix);
      var r := OfKind(init, prefix);
      forall i | 0 <= i < |r|
        ensures UpdatedAtOf(r[i]) <= UpdatedAtOf(last)
      {
        assert r[i] in init;
        var j :| 0 <= j < |init| && init[j] == r[i];
        assert items[j] == r[i];
      }
    }
  }

  /**
   * The records of one kind in a complete answer are a complete answer on
   * the rows of that kind: each matching row of the kind exactly once, in
   * the same order.
   */
  lemma KindAnswers(items: seq<Record>, rows: map<Key, Record>, userId: string, cond: KeyCondition, index: Index, prefix: string)
    requires Answers(items, rows, userId, cond, index)
    ensures Answers(OfKind(items, prefix), RowsOfKind(rows, prefix), userId, cond, index)
  {
    var r := OfKind(items, prefix);
    var kind := RowsOfKind(rows, prefix);
    forall i | 0 <= i < |r|
      ensures KeyOf(r[i]) in kind && kind[KeyOf(r[i])] == r[i] && Matches(userId, cond, KeyOf(r[i]), r[i])
    {
      assert r[i] in items;
    }
    forall k | k in kind && Matches(userId, cond, k, kind[k])
      ensures exists i :: 0 <= i < |r| && KeyOf(r[i]) == k
    {
      var j :| 0 <= j < |items| && KeyOf(items[j]) == k;
      assert items[j] in r;
    }
    OfKindDistinct(items, prefix);
    if index == UpdatesIndex {
      OfKindSorted(items, prefix);
    }
  }

  /** Every record of a complete answer on a well-formed table is a well-formed row. */
  lemma AnsweredRowsOk(items: seq<Record>, rows: map<Key, Record>, userId: string, cond: KeyCondition, index: Index)
    requires forall k :: k in rows ==> RowOk(k, rows[k])
    requires Answers(items, rows, userId, cond, index)
    ensures forall i :: 0 <= i < |items| ==> RowOk(KeyOf(items[i]), items[i])
  {
    forall i | 0 <= i < |items|
      ensures RowOk(KeyOf(items[i]), items[i])
    {
      assert rows[KeyOf(items[i])] == items[i];
    }
  }

  /** `visitsRecords.map(visitToJSON)` */
  function VisitFeed(records: seq<Record>): (feed: seq<VisitCodec.VisitJson>)
    requires forall i :: 0 <= i < |records| ==> VisitCodec.IsVisitRecord(records[i])
    ensures |feed| == |records|
    ensures forall i :: 0 <= i < |records| ==> feed[i] == VisitCodec.RecordToJson(records[i])
  {
    seq(|records|, i requires 0 <= i < |records| => VisitCodec.RecordToJson(records[i]))
  }

  /** `brandsRecords.map(brandToJSON)` */
  function BrandFeed(records: seq<Record>): (feed: seq<BrandCodec.BrandJson>)
    requires forall i :: 0 <= i < |records| ==> BrandCodec.IsBrandRecord(records[i])
    ensures |feed| == |records|
    ensures forall i :: 0 <= i < |records| ==> feed[i] == BrandCodec.RecordToJson(records[i])
  {
    seq(|records|, i requires 0 <= i < |records| => BrandCodec.RecordToJson(records[i]))
  }

  /** The records of each kind in an answer are of that kind. */
  lemma KindRecords(items: seq<Record>)
    requires forall i :: 0 <= i < |items| ==> RowOk(KeyOf(items[i]), items[i])
    ensures forall i :: 0 <= i < |OfKind(items, VisitCodec.Prefix)| ==>
      VisitCodec.IsVisitRecord(OfKind(items, VisitCodec.Prefix)[i])
    ensures forall i :: 0 <= i < |OfKind(items, BrandCodec.Prefix)| ==>
      BrandCodec.IsBrandRecord(OfKind(items, BrandCodec.Prefix)[i])
  {
    var visits := OfKind(items, VisitCodec.Prefix);
    forall i | 0 <= i < |visits|
      ensures VisitCodec.IsVisitRecord(visits[i])
    {
      assert visits[i] in items;
      VisitRow(KeyOf(visits[i]), visits[i]);
    }
    var brands := OfKind(items, BrandCodec.Prefix);
    forall i | 0 <= i < |brands|
      ensures BrandCodec.IsBrandRecord(brands[i])
    {
      assert brands[i] in items;
      BrandRow(KeyOf(brands[i]), brands[i]);
    }
  }

  datatype Feed = Feed(visits: seq<VisitCodec.VisitJson>, brands: seq<BrandCodec.BrandJson>)

  const EpochExpected: string := "search parameters epoch expected"

  /** The store's refusal of an epoch it does not read as a number. */
  const EpochNotANumber: string := "ValidationException"

  /** The epoch the store reads as the number `{N: epoch}`: an optionally negative decimal integer. */
  predicate NumericEpoch(epoch: Option<string>) {
    epoch.Some? && IsDecimalInteger(epoch.value) && epoch.value[0] != '+'
  }

  function EpochValue(epoch: Option<string>): int
    requires NumericEpoch(epoch)
  {
    DecimalValue(epoch.value)
  }

  /** Any integer written out as text, negative ones included, is an epoch the store reads as that integer. */
  lemma EpochOfInt(e: int)
    ensures NumericEpoch(Some(IntToString(e))) && EpochValue(Some(IntToString(e))) == e
  {
    IntToStringDecimal(e);
  }

  /**
   * `updatesSince`: with no epoch (missing or empty) it answers 400 and
   * queries nothing. Otherwise it queries `updates_lsi` for the user's rows
   * with `updatedAt > epoch` and answers each kind's records, in query
   * order, through that kind's `toJSON`: the visits are exactly the visit
   * rows changed after the epoch, tombstones included, each once, in
   * `updatedAt` order, and likewise the brands.
   */
  method UpdatesSince(t: Table, userId: string, epoch: Option<string>, pages: seq<Page>)
    returns (reply: Reply<Feed>, ghost queries: nat)
    requires t.Valid()
    requires NumericEpoch(epoch) ==> QueryPages(pages, t.rows, userId, UpdatedAfter(EpochValue(epoch)), UpdatesIndex)
    ensures epoch.None? || epoch.value == "" <==> reply == BadRequest(EpochExpected)
    ensures reply.BadRequest? ==> queries == 0
    ensures epoch.Some? && epoch.value != "" && !NumericEpoch(epoch) ==> reply == Failure(Store(EpochNotANumber))
    ensures NumericEpoch(epoch) ==>
      var items := Concat(pages);
      var visits := OfKind(items, VisitCodec.Prefix);
      var brands := OfKind(items, BrandCodec.Prefix);
      var cond := UpdatedAfter(EpochValue(epoch));
      && queries == |pages|
      && Answers(visits, RowsOfKind(t.rows, VisitCodec.Prefix), userId, cond, UpdatesIndex)
      && Answers(brands, RowsOfKind(t.rows, BrandCodec.Prefix), userId, cond, UpdatesIndex)
      && reply.Success?
      && |reply.value.visits| == |visits| && |reply.value.brands| == |brands|
      && (forall i :: 0 <= i < |visits| ==>
            VisitCodec.IsVisitRecord(visits[i]) && reply.value.visits[i] == VisitCodec.RecordToJson(visits[i]))
      && (forall i :: 0 <= i < |brands| ==>
            BrandCodec.IsBrandRecord(brands[i]) && reply.value.brands[i] == BrandCodec.RecordToJson(brands[i]))
  {
    if epoch.None? || epoch.value == "" {
      return BadRequest(EpochExpected), 0;
    }
    if !NumericEpoch(epoch) {
      return Failure(Store(EpochNotANumber)), 1;
    }
    var cond := UpdatedAfter(EpochValue(epoch));
    var results;
    results, queries := t.GetAll(userId, cond, UpdatesIndex, pages);
    AnsweredRowsOk(results, t.rows, userId, cond, UpdatesIndex);
    KindRecords(results);
    KindAnswers(results, t.rows, userId, cond, UpdatesIndex, VisitCodec.Prefix);
    KindAnswers(results, t.rows, userId, cond, UpdatesIndex, BrandCodec.Prefix);
    var visitsRecords := OfKind(results, VisitCodec.Prefix);
    var brandsRecords := OfKind(results, BrandCodec.Prefix);
    reply := Success(Feed(VisitFeed(visitsRecords), BrandFeed(brandsRecords)));
  }

  // ----- upload and sync -----

  /** `transactWrite` handed a list that is missing from the body: reading its `length` throws. */
  const MissingList: string := "Cannot read properties of undefined (reading 'length')"

  /** The lists a write endpoint answers and the timestamp it stamped them with. */
  datatype WriteReply = WriteReply(visits: seq<VisitCodec.VisitJson>, brands: seq<BrandCodec.BrandJson>, timestamp: int)

  /** `newVisits`: `toJSON` of each visit stamped `t`, in input order. */
  function StampedVisits(visits: seq<VisitCodec.Visit>, t: int): (r: seq<VisitCodec.VisitJson>)
    ensures |r| == |visits|
    ensures forall i :: 0 <= i < |visits| ==>
      r[i] == VisitCodec.ToJson(VisitCodec.Stamp(visits[i], t)) && r[i].updatedAt == t
  {
    seq(|visits|, i requires 0 <= i < |visits| => VisitCodec.ToJson(VisitCodec.Stamp(visits[i], t)))
  }

  /** `newBrands`: `toJSON` of each brand stamped `t`, in input order. */
  function StampedBrands(brands: seq<BrandCodec.Brand>, t: int): (r: seq<BrandCodec.BrandJson>)
    ensures |r| == |brands|
    ensures forall i :: 0 <= i < |brands| ==>
      r[i] == BrandCodec.ToJson(BrandCodec.Stamp(brands[i], t)) && r[i].updatedAt == t
  {
    seq(|brands|, i requires 0 <= i < |brands| => BrandCodec.ToJson(BrandCodec.Stamp(brands[i], t)))
  }

  /** The body of `upload`: unparsable, or two lists, either of which may be missing. */
  datatype UploadBody =
    | UnparsableUpload
    | UploadBody(visits: Option<seq<VisitCodec.Visit>>, brands: Option<seq<BrandCodec.Brand>>)

  const InvalidBody: string := "Invalid body"

  /**
   * Whether `fault` makes `upload` fail with a store error: it names a batch
   * of the purge, of the visits (when present) or of the brands (when both
   * lists are present), the steps that are reached.
   */
  predicate UploadFaultHits(userId: string, body: UploadBody, now: int, deleteTime: int, pages: seq<Page>, fault: Option<StepFault>)
    requires body.UploadBody?
  {
    || FaultHits(fault, 0, PurgePuts(userId, pages, deleteTime))
    || (body.visits.Some? && FaultHits(fault, 1, VisitPuts(userId, body.visits.value, now)))
    || (body.visits.Some? && body.brands.Some? && FaultHits(fault, 2, BrandPuts(userId, body.brands.value, now)))
  }

  /**
   * `upload`: an unparsable body is refused with 400 before anything is
   * written. Otherwise it takes its timestamp `now`, purges the user's rows
   * (`deleteAll`, which takes `deleteTime`), writes every visit, then every
   * brand, stamped `now`, and answers the stamped lists and `now`. A
   * missing list throws when its turn comes, after the writes before it;
   * a failed batch (steps: 0 the purge, 1 the visits, 2 the brands) leaves
   * the batches before it written.
   */
  method Upload(t: Table, userId: string, body: UploadBody, now: int, deleteTime: int, pages: seq<Page>, fault: Option<StepFault>)
    returns (reply: Reply<WriteReply>)
    requires t.Valid() && QueryPages(pages, t.rows, userId, UserOnly, Primary)
    modifies t
    ensures t.Valid()
    ensures body.UnparsableUpload? <==> reply.BadRequest?
    ensures reply.BadRequest? ==> reply == BadRequest(InvalidBody)
    ensures body.UnparsableUpload? ==> t.rows == old(t.rows)
    ensures reply.Success? ==>
      && body.visits.Some? && body.brands.Some?
      && reply.value == WriteReply(StampedVisits(body.visits.value, now), StampedBrands(body.brands.value, now), now)
      && t.rows == Replaced(old(t.rows), userId, body.visits.value, body.brands.value, now, deleteTime)
    ensures body.UploadBody? && body.visits.Some? && body.brands.Some? && !UploadFaultHits(userId, body, now, deleteTime, pages, fault) ==> reply.Success?
    ensures reply.Failure? ==> reply.error.Store? || reply.error == TypeError(MissingList)
    ensures body.UploadBody? ==>
      (reply.Failure? && reply.error.Store? <==> UploadFaultHits(userId, body, now, deleteTime, pages, fault))
    ensures body.UploadBody? ==>
      (reply.Failure? && reply.error.TypeError? <==>
         !UploadFaultHits(userId, body, now, deleteTime, pages, fault) && (body.visits.None? || body.brands.None?))
    ensures reply.Failure? && reply.error.Store? ==>
      var purged := Purged(old(t.rows), userId, deleteTime);
      && fault.Some? && reply.error.message == fault.value.error
      && (fault.value.step == 0 ==>
            && t.rows == ApplyPuts(old(t.rows), CommittedPrefix(PurgePuts(userId, pages, deleteTime), fault.value.chunk))
            && PartlyPurged(old(t.rows), t.rows, userId, deleteTime))
      && (fault.value.step == 1 ==>
            && body.visits.Some?
            && t.rows == ApplyPuts(purged, CommittedPrefix(VisitPuts(userId, body.visits.value, now), fault.value.chunk)))
      && (fault.value.step == 2 ==>
            && body.visits.Some? && body.brands.Some?
            && t.rows == ApplyPuts(ApplyPuts(purged, VisitPuts(userId, body.visits.value, now)),
                                   CommittedPrefix(BrandPuts(userId, body.brands.value, now), fault.value.chunk)))
    ensures reply.Failure? && reply.error.TypeError? ==>
      var purged := Purged(old(t.rows), userId, deleteTime);
      && body.UploadBody?
      && (body.visits.None? ==> t.rows == purged)
      && (body.visits.Some? ==> body.brands.None? && t.rows == ApplyPuts(purged, VisitPuts(userId, body.visits.value, now)))
  {
    if body.UnparsableUpload? {
      return BadRequest(InvalidBody);
    }
    var timestamp := now;
    var purge := t.DeleteAll(userId, deleteTime, pages, FaultAt(fault, 0));
    if purge.Err? {
      return Failure(purge.error);
    }
    var error := WriteList(t, body.visits, VisitMapper(userId, timestamp), fault, 1, VisitPuts(userId, OrEmpty(body.visits), now));
    if error.Some? {
      return Failure(error.value);
    }
    error := WriteList(t, body.brands, BrandMapper(userId, timestamp), fault, 2, BrandPuts(userId, OrEmpty(body.brands), now));
    if error.Some? {
      return Failure(error.value);
    }
    var visits, brands := body.visits.value, body.brands.value;
    reply := Success(WriteReply(StampedVisits(visits, timestamp), StampedBrands(brands, timestamp), timestamp));
  }

  /**
   * `transactWrite` handed a list read from the body: a missing list throws
   * when its `length` is read, before anything is written; otherwise the
   * list is written batch by batch, and the `step`-th write of a bulk
   * operation is the one `fault` may make fail.
   */
  method WriteList<T>(
    t: Table, list: Option<seq<T>>, mapper: (T, nat) -> Record, fault: Option<StepFault>, step: nat, ghost puts: seq<Record>)
    returns (error: Option<Error>)
    requires t.Valid()
    requires puts == Mapped(OrEmpty(list), mapper) && AllPutsOk(puts)
    modifies t
    ensures t.Valid()
    ensures list.None? ==> error == Some(TypeError(MissingList)) && t.rows == old(t.rows)
    ensures list.Some? ==>
      if FaultHits(fault, step, puts) then
        && error == Some(Store(fault.value.error))
        && t.rows == ApplyPuts(old(t.rows), CommittedPrefix(puts, fault.value.chunk))
      else
        error == None && t.rows == ApplyPuts(old(t.rows), puts)
  {
    if list.None? {
      return Some(TypeError(MissingList));
    }
    assert forall i :: 0 <= i < |list.value| ==> mapper(list.value[i], i) == puts[i];
    var w, _ := t.TransactWrite(list.value, mapper, FaultAt(fault, step));
    if w.Aborted? {
      return Some(Store(w.error));
    }
    return None;
  }

  /** A list of the body, or nothing to write when it is missing (the write then throws instead). */
  function OrEmpty<X>(list: Option<seq<X>>): seq<X> {
    if list.Some? then list.value else []
  }

  /** The body of `sync`: unparsable, or four lists, any of which may be missing. */
  datatype SyncBody =
    | UnparsableSync
    | SyncBody(
        visitDeletes: Option<seq<string>>,
        brandDeletes: Option<seq<string>>,
        visitUpserts: Option<seq<VisitCodec.Visit>>,
        brandUpserts: Option<seq<BrandCodec.Brand>>)

  /** The mapper for deleted visit ids: a visit tombstone stamped `t`. */
  function VisitTombstoneMapper(userId: string, t: int): (string, nat) -> Record {
    (id: string, i: nat) => VisitCodec.Encode(Deleted(id, t), userId)
  }

  /** The mapper for deleted brand ids: a brand tombstone stamped `t`. */
  function BrandTombstoneMapper(userId: string, t: int): (string, nat) -> Record {
    (id: string, i: nat) => BrandCodec.Encode(Deleted(id, t), userId)
  }

  /** The tombstones `sync` writes for deleted visit ids. */
  function VisitTombstonePuts(userId: string, ids: seq<string>, t: int): (puts: seq<Record>)
    ensures |puts| == |ids|
    ensures forall i :: 0 <= i < |ids| ==>
      puts[i] == TombstoneRecord(userId, VisitCodec.SortKey(ids[i]), t) && KeyOf(puts[i]) == (userId, VisitCodec.SortKey(ids[i]))
    ensures AllPutsOk(puts)
  {
    Mapped(ids, VisitTombstoneMapper(userId, t))
  }

  /** The tombstones `sync` writes for deleted brand ids. */
  function BrandTombstonePuts(userId: string, ids: seq<string>, t: int): (puts: seq<Record>)
    ensures |puts| == |ids|
    ensures forall i :: 0 <= i < |ids| ==>
      puts[i] == TombstoneRecord(userId, BrandCodec.SortKey(ids[i]), t) && KeyOf(puts[i]) == (userId, BrandCodec.SortKey(ids[i]))
    ensures AllPutsOk(puts)
  {
    Mapped(ids, BrandTombstoneMapper(userId, t))
  }

  /** The four writes of `sync`, in order: visit deletes, brand deletes, visit upserts, brand upserts. */
  function SyncSteps(userId: string, body: SyncBody, t: int): (steps: seq<seq<Record>>)
    requires body.SyncBody?
    ensures |steps| == 4
  {
    [ VisitTombstonePuts(userId, OrEmpty(body.visitDeletes), t),
      BrandTombstonePuts(userId, OrEmpty(body.brandDeletes), t),
      VisitPuts(userId, OrEmpty(body.visitUpserts), t),
      BrandPuts(userId, OrEmpty(body.brandUpserts), t) ]
  }

  /** Each step of `sync` maps its list with its mapper, and every put of it is valid. */
  lemma SyncStepsMapped(userId: string, body: SyncBody, t: int)
    requires body.SyncBody?
    ensures var steps := SyncSteps(userId, body, t);
      && steps[0] == Mapped(OrEmpty(body.visitDeletes), VisitTombstoneMapper(userId, t))
      && steps[1] == Mapped(OrEmpty(body.brandDeletes), BrandTombstoneMapper(userId, t))
      && steps[2] == Mapped(OrEmpty(body.visitUpserts), VisitMapper(userId, t))
      && steps[3] == Mapped(OrEmpty(body.brandUpserts), BrandMapper(userId, t))
      && AllPutsOk(steps[0]) && AllPutsOk(steps[1]) && AllPutsOk(steps[2]) && AllPutsOk(steps[3])
  {
  }

  /** The step whose list is missing, where `sync` throws; 4 when all four are present. */
  function FirstMissing(body: SyncBody): (m: nat)
    requires body.SyncBody?
    ensures m <= 4
    ensures m == 4 <==> body.visitDeletes.Some? && body.brandDeletes.Some? && body.visitUpserts.Some? && body.brandUpserts.Some?
  {
    if body.visitDeletes.None? then 0
    else if body.brandDeletes.None? then 1
    else if body.visitUpserts.None? then 2
    else if body.brandUpserts.None? then 3
    else 4
  }

  /** The table after the first `n` steps. */
  function ApplySteps(rows: map<Key, Record>, steps: seq<seq<Record>>, n: nat): map<Key, Record>
    requires n <= |steps|
  {
    if n == 0 then rows else ApplyPuts(ApplySteps(rows, steps, n - 1), steps[n - 1])
  }

  /** The table `sync` leaves when every write commits. */
  function Synced(rows: map<Key, Record>, userId: string, body: SyncBody, t: int): map<Key, Record>
    requires body.SyncBody?
  {
    ApplySteps(rows, SyncSteps(userId, body, t), 4)
  }

  /** The fault makes a batch of a step that is reached fail. */
  predicate Aborts(fault: Option<StepFault>, steps: seq<seq<Record>>, reached: nat)
    requires reached <= |steps|
  {
    fault.Some? && fault.value.step < reached && fault.value.chunk < |Chunks(steps[fault.value.step])|
  }

  /**
   * How `sync` ends on a parsed body, with `m` its first missing list: if a
   * batch of a step before `m` fails, the store's error is thrown and the
   * table holds the steps before it and that step's earlier batches;
   * otherwise a missing list throws a TypeError after the steps before it;
   * otherwise all four steps are written and `success` is answered.
   */
  ghost predicate SyncEnded(
    before: map<Key, Record>, after: map<Key, Record>, steps: seq<seq<Record>>, m: nat, fault: Option<StepFault>,
    reply: Reply<WriteReply>, success: WriteReply)
    requires |steps| == 4 && m <= 4
  {
    if Aborts(fault, steps, m) then
      && reply == Failure(Store(fault.value.error))
      && after == ApplyPuts(ApplySteps(before, steps, fault.value.step), CommittedPrefix(steps[fault.value.step], fault.value.chunk))
    else if m < 4 then
      && reply == Failure(TypeError(MissingList))
      && after == ApplySteps(before, steps, m)
    else
      && reply == Success(success)
      && after == ApplySteps(before, steps, 4)
  }

  /** The first `n` steps were written, none failed, and their lists were all present. */
  ghost predicate Progress(
    before: map<Key, Record>, after: map<Key, Record>, steps: seq<seq<Record>>, m: nat, fault: Option<StepFault>, n: nat)
    requires |steps| == 4 && m <= 4
  {
    n <= m && !Aborts(fault, steps, n) && after == ApplySteps(before, steps, n)
  }

  /**
   * One step of `sync`, from the table `mid` the earlier steps left to
   * `after`: it either completes, or ends `sync` as `SyncEnded` states.
   */
  lemma SyncStep(
    before: map<Key, Record>, mid: map<Key, Record>, after: map<Key, Record>, steps: seq<seq<Record>>, m: nat,
    fault: Option<StepFault>, n: nat, present: bool, error: Option<Error>, success: WriteReply)
    requires |steps| == 4 && m <= 4 && n < 4
    requires Progress(before, mid, steps, m, fault, n)
    requires present <==> n < m
    requires !present ==> error == Some(TypeError(MissingList)) && after == mid
    requires present ==>
      if FaultHits(fault, n, steps[n]) then
        && error == Some(Store(fault.value.error))
        && after == ApplyPuts(mid, CommittedPrefix(steps[n], fault.value.chunk))
      else
        error == None && after == ApplyPuts(mid, steps[n])
    ensures error.None? ==> Progress(before, after, steps, m, fault, n + 1)
    ensures error.Some? ==> SyncEnded(before, after, steps, m, fault, Failure(error.value), success)
  {
  }

  /** Before the first missing list, every list is present. */
  lemma FirstMissingAt(body: SyncBody, n: nat)
    requires body.SyncBody? && n <= FirstMissing(body)
    ensures n == 0 ==> (body.visitDeletes.Some? <==> n < FirstMissing(body))
    ensures n == 1 ==> (body.brandDeletes.Some? <==> n < FirstMissing(body))
    ensures n == 2 ==> (body.visitUpserts.Some? <==> n < FirstMissing(body))
    ensures n == 3 ==> (body.brandUpserts.Some? <==> n < FirstMissing(body))
  {
  }

  /**
   * Step `n` of `sync` (visit deletes, brand deletes, visit upserts, brand
   * upserts): it writes its list, or throws when the list is missing or a
   * batch fails, which ends `sync` as `SyncEnded` states.
   */
  method SyncWrite(
    t: Table, userId: string, body: SyncBody, now: int, fault: Option<StepFault>, n: nat,
    ghost before: map<Key, Record>, ghost success: WriteReply)
    returns (error: Option<Error>)
    requires t.Valid() && body.SyncBody? && n < 4
    requires Progress(before, t.rows, SyncSteps(userId, body, now), FirstMissing(body), fault, n)
    modifies t
    ensures t.Valid()
    ensures error.None? ==> Progress(before, t.rows, SyncSteps(userId, body, now), FirstMissing(body), fault, n + 1)
    ensures error.Some? ==>
      SyncEnded(before, t.rows, SyncSteps(userId, body, now), FirstMissing(body), fault, Failure(error.value), success)
  {
    ghost var steps := SyncSteps(userId, body, now);
    ghost var mid := t.rows;
    SyncStepsMapped(userId, body, now);
    FirstMissingAt(body, n);
    ghost var present: bool;
    if n == 0 {
      present := body.visitDeletes.Some?;
      error := WriteList(t, body.visitDeletes, VisitTombstoneMapper(userId, now), fault, 0, steps[0]);
    } else if n == 1 {
      present := body.brandDeletes.Some?;
      error := WriteList(t, body.brandDeletes, BrandTombstoneMapper(userId, now), fault, 1, steps[1]);
    } else if n == 2 {
      present := body.visitUpserts.Some?;
      error := WriteList(t, body.visitUpserts, VisitMapper(userId, now), fault, 2, steps[2]);
    } else {
      present := body.brandUpserts.Some?;
      error := WriteList(t, body.brandUpserts, BrandMapper(userId, now), fault, 3, steps[3]);
    }
    SyncStep(before, mid, t.rows, steps, FirstMissing(body), fault, n, present, error, success);
  }

  /**
   * `sync`: an unparsable body is refused with 400 before anything is
   * written. Otherwise, with one timestamp `now`, it writes a tombstone for
   * every deleted visit id, then for every deleted brand id, then every
   * upserted visit, then every upserted brand, all stamped `now`, and
   * answers the stamped upserts and `now`, as `SyncEnded` states; when all
   * four lists are present and no batch fails, the table is `Synced`.
   */
  method Sync(t: Table, userId: string, body: SyncBody, now: int, fault: Option<StepFault>)
    returns (reply: Reply<WriteReply>)
    requires t.Valid()
    modifies t
    ensures t.Valid()
    ensures body.UnparsableSync? <==> reply == BadRequest(InvalidBody)
    ensures body.UnparsableSync? ==> t.rows == old(t.rows)
    ensures body.SyncBody? ==>
      SyncEnded(old(t.rows), t.rows, SyncSteps(userId, body, now), FirstMissing(body), fault, reply,
                WriteReply(StampedVisits(OrEmpty(body.visitUpserts), now), StampedBrands(OrEmpty(body.brandUpserts), now), now))
    ensures body.SyncBody? && FirstMissing(body) == 4 && fault.None? ==>
      reply.Success? && t.rows == Synced(old(t.rows), userId, body, now)
  {
    if body.UnparsableSync? {
      return BadRequest(InvalidBody);
    }
    var timestamp := now;
    ghost var success := WriteReply(StampedVisits(OrEmpty(body.visitUpserts), now), StampedBrands(OrEmpty(body.brandUpserts), now), now);
    // A thrown error ends `sync`: the steps after it are not run.
    var error := SyncWrite(t, userId, body, timestamp, fault, 0, old(t.rows), success);
    if error.None? {
      error := SyncWrite(t, userId, body, timestamp, fault, 1, old(t.rows), success);
    }
    if error.None? {
      error := SyncWrite(t, userId, body, timestamp, fault, 2, old(t.rows), success);
    }
    if error.None? {
      error := SyncWrite(t, userId, body, timestamp, fault, 3, old(t.rows), success);
    }
    if error.Some? {
      return Failure(error.value);
    }
    var visits, brands := body.visitUpserts.value, body.brandUpserts.value;
    reply := Success(WriteReply(StampedVisits(visits, timestamp), StampedBrands(brands, timestamp), timestamp));
  }

  // ----- what `sync` leaves -----

  /** No put of `puts` is aimed at `k`. */
  predicate Avoids(puts: seq<Record>, k: Key) {
    forall j :: 0 <= j < |puts| ==> KeyOf(puts[j]) != k
  }

  /** In a list of tombstones for `keys`, the last one aimed at a listed key is that key's tombstone. */
  lemma LastTombstone(puts: seq<Record>, keys: seq<string>, userId: string, t: int, key: string)
    requires |puts| == |keys| && key in keys
    requires forall j :: 0 <= j < |puts| ==> KeyOf(puts[j]) == (userId, keys[j]) && puts[j] == TombstoneRecord(userId, keys[j], t)
    ensures var i := LastIndexOf(puts, (userId, key)); i >= 0 && puts[i] == TombstoneRecord(userId, key, t)
  {
    var j :| 0 <= j < |keys| && keys[j] == key;
    assert KeyOf(puts[j]) == (userId, key);
  }

  /** Steps that never aim at `k` leave it as it was, present or absent. */
  lemma {:induction false} StepsUntouched(rows: map<Key, Record>, steps: seq<seq<Record>>, from: nat, n: nat, k: Key)
    requires from <= n <= |steps|
    requires forall s :: from <= s < n ==> Avoids(steps[s], k)
    ensures k in ApplySteps(rows, steps, n) <==> k in ApplySteps(rows, steps, from)
    ensures k in ApplySteps(rows, steps, from) ==> ApplySteps(rows, steps, n)[k] == ApplySteps(rows, steps, from)[k]
  {
    if n > from {
      StepsUntouched(rows, steps, from, n - 1, k);
      assert Avoids(steps[n - 1], k);
      Untouched(ApplySteps(rows, steps, n - 1), steps[n - 1], k);
    }
  }

  /** The last put aimed at `k` in step `s` is what `k` holds once no later step aims at it. */
  lemma StepsFinal(rows: map<Key, Record>, steps: seq<seq<Record>>, s: nat, n: nat, k: Key)
    requires s < n <= |steps|
    requires forall s' :: s < s' < n ==> Avoids(steps[s'], k)
    ensures var i := LastIndexOf(steps[s], k);
      i >= 0 ==> k in ApplySteps(rows, steps, n) && ApplySteps(rows, steps, n)[k] == steps[s][i]
  {
    ApplyPutsAt(ApplySteps(rows, steps, s), steps[s], k);
    StepsUntouched(rows, steps, s + 1, n, k);
  }

  /** Between two tables, no row disappears, and a row that changed belongs to `userId` and is stamped `t`. */
  ghost predicate OnlyStamped(before: map<Key, Record>, after: map<Key, Record>, userId: string, t: int) {
    && (forall k :: k in before ==> k in after)
    && (forall k :: k in after && (k !in before || after[k] != before[k]) ==> k.0 == userId && UpdatedAtOf(after[k]) == t)
  }

  /** Every put of `puts` targets `userId` and carries `t`. */
  predicate AllStamped(puts: seq<Record>, userId: string, t: int) {
    forall j :: 0 <= j < |puts| ==> KeyOf(puts[j]).0 == userId && UpdatedAtOf(puts[j]) == t
  }

  /** Puts that all target `userId` and carry `t` change only rows of `userId`, to rows stamped `t`. */
  lemma StampedPuts(rows: map<Key, Record>, puts: seq<Record>, userId: string, t: int)
    requires AllStamped(puts, userId, t)
    ensures OnlyStamped(rows, ApplyPuts(rows, puts), userId, t)
  {
    forall k | k in ApplyPuts(rows, puts) || k in rows
      ensures k in rows ==> k in ApplyPuts(rows, puts)
      ensures k in ApplyPuts(rows, puts) && (k !in rows || ApplyPuts(rows, puts)[k] != rows[k]) ==>
        k.0 == userId && UpdatedAtOf(ApplyPuts(rows, puts)[k]) == t
    {
      ApplyPutsAt(rows, puts, k);
    }
  }

  lemma OnlyStampedTrans(a: map<Key, Record>, b: map<Key, Record>, c: map<Key, Record>, userId: string, t: int)
    requires OnlyStamped(a, b, userId, t) && OnlyStamped(b, c, userId, t)
    ensures OnlyStamped(a, c, userId, t)
  {
    forall k | k in c && (k !in a || c[k] != a[k])
      ensures k.0 == userId && UpdatedAtOf(c[k]) == t
    {
      if k in b && c[k] == b[k] {
        assert k !in a || b[k] != a[k];
      }
    }
  }

  /** Steps whose puts all target `userId` and carry `t` change only rows of `userId`, to rows stamped `t`. */
  lemma {:induction false} StepsStamped(rows: map<Key, Record>, steps: seq<seq<Record>>, n: nat, userId: string, t: int)
    requires n <= |steps|
    requires forall s :: 0 <= s < n ==> AllStamped(steps[s], userId, t)
    ensures OnlyStamped(rows, ApplySteps(rows, steps, n), userId, t)
  {
    if n == 0 {
    } else {
      StepsStamped(rows, steps, n - 1, userId, t);
      assert AllStamped(steps[n - 1], userId, t);
      StampedPuts(ApplySteps(rows, steps, n - 1), steps[n - 1], userId, t);
      OnlyStampedTrans(rows, ApplySteps(rows, steps, n - 1), ApplySteps(rows, steps, n), userId, t);
    }
  }

  /** The first step of `sync` puts a visit tombstone stamped `t` for each deleted visit id. */
  lemma VisitDeletePuts(userId: string, body: SyncBody, t: int)
    requires body.SyncBody?
    ensures var puts := SyncSteps(userId, body, t)[0]; var ids := OrEmpty(body.visitDeletes);
      && |puts| == |ids|
      && forall j :: 0 <= j < |puts| ==>
           KeyOf(puts[j]) == (userId, VisitCodec.SortKey(ids[j])) && puts[j] == TombstoneRecord(userId, VisitCodec.SortKey(ids[j]), t)
  {
  }

  /** The second step puts a brand tombstone stamped `t` for each deleted brand id. */
  lemma BrandDeletePuts(userId: string, body: SyncBody, t: int)
    requires body.SyncBody?
    ensures var puts := SyncSteps(userId, body, t)[1]; var ids := OrEmpty(body.brandDeletes);
      && |puts| == |ids|
      && forall j :: 0 <= j < |puts| ==>
           KeyOf(puts[j]) == (userId, BrandCodec.SortKey(ids[j])) && puts[j] == TombstoneRecord(userId, BrandCodec.SortKey(ids[j]), t)
  {
  }

  /** The third step puts each upserted visit stamped `t`. */
  lemma VisitUpsertPuts(userId: string, body: SyncBody, t: int)
    requires body.SyncBody?
    ensures var puts := SyncSteps(userId, body, t)[2]; var visits := OrEmpty(body.visitUpserts);
      && |puts| == |visits|
      && forall j :: 0 <= j < |puts| ==>
           && KeyOf(puts[j]) == (userId, VisitCodec.SortKey(VisitCodec.Id(visits[j])))
           && puts[j] == VisitCodec.Encode(VisitCodec.Stamp(visits[j], t), userId)
           && UpdatedAtOf(puts[j]) == t
  {
  }

  /** The fourth step puts each upserted brand stamped `t`. */
  lemma BrandUpsertPuts(userId: string, body: SyncBody, t: int)
    requires body.SyncBody?
    ensures var puts := SyncSteps(userId, body, t)[3]; var brands := OrEmpty(body.brandUpserts);
      && |puts| == |brands|
      && forall j :: 0 <= j < |puts| ==>
           && KeyOf(puts[j]) == (userId, BrandCodec.SortKey(BrandCodec.Id(brands[j])))
           && puts[j] == BrandCodec.Encode(BrandCodec.Stamp(brands[j], t), userId)
           && UpdatedAtOf(puts[j]) == t
  {
  }

  /**
   * An upserted visit (the last upsert with its id) is stored as given,
   * stamped `t`: a live visit live, a tombstone as a tombstone; whatever the
   * deletes said about its id.
   */
  lemma SyncUpsertedVisit(rows: map<Key, Record>, userId: string, body: SyncBody, t: int, i: nat)
    requires body.SyncBody? && i < |OrEmpty(body.visitUpserts)|
    requires var visits := OrEmpty(body.visitUpserts);
      forall j :: i < j < |visits| ==> VisitCodec.Id(visits[j]) != VisitCodec.Id(visits[i])
    ensures var v := OrEmpty(body.visitUpserts)[i];
      var k := (userId, VisitCodec.SortKey(VisitCodec.Id(v)));
      var after := Synced(rows, userId, body, t);
      && k in after
      && after[k] == VisitCodec.Encode(VisitCodec.Stamp(v, t), userId)
      && UpdatedAtOf(after[k]) == t
      && (RecordIsValid(after[k]) <==> v.Live?)
  {
    var visits := OrEmpty(body.visitUpserts);
    var brands := OrEmpty(body.brandUpserts);
    var steps := SyncSteps(userId, body, t);
    VisitUpsertPuts(userId, body, t);
    BrandUpsertPuts(userId, body, t);
    var k := (userId, VisitCodec.SortKey(VisitCodec.Id(visits[i])));
    forall j | i < j < |steps[2]|
      ensures KeyOf(steps[2][j]) != KeyOf(steps[2][i])
    {
      VisitSortKeyInjective(VisitCodec.Id(visits[j]), VisitCodec.Id(visits[i]));
    }
    LastPutWins(ApplySteps(rows, steps, 2), steps[2], i);
    forall j | 0 <= j < |steps[3]|
      ensures KeyOf(steps[3][j]) != k
    {
      KindsDisjoint(VisitCodec.Id(visits[i]), BrandCodec.Id(brands[j]));
    }
    Untouched(ApplySteps(rows, steps, 3), steps[3], k);
  }

  /**
   * An upserted brand (the last upsert with its id) is stored as given,
   * stamped `t`: a live brand live, a tombstone as a tombstone.
   */
  lemma SyncUpsertedBrand(rows: map<Key, Record>, userId: string, body: SyncBody, t: int, i: nat)
    requires body.SyncBody? && i < |OrEmpty(body.brandUpserts)|
    requires var brands := OrEmpty(body.brandUpserts);
      forall j :: i < j < |brands| ==> BrandCodec.Id(brands[j]) != BrandCodec.Id(brands[i])
    ensures var b := OrEmpty(body.brandUpserts)[i];
      var k := (userId, BrandCodec.SortKey(BrandCodec.Id(b)));
      var after := Synced(rows, userId, body, t);
      && k in after
      && after[k] == BrandCodec.Encode(BrandCodec.Stamp(b, t), userId)
      && UpdatedAtOf(after[k]) == t
      && (RecordIsValid(after[k]) <==> b.Live?)
  {
    var brands := OrEmpty(body.brandUpserts);
    var steps := SyncSteps(userId, body, t);
    BrandUpsertPuts(userId, body, t);
    var k := (userId, BrandCodec.SortKey(BrandCodec.Id(brands[i])));
    forall j | i < j < |steps[3]|
      ensures KeyOf(steps[3][j]) != k
    {
      BrandSortKeyInjective(BrandCodec.Id(brands[j]), BrandCodec.Id(brands[i]));
    }
    LastIndexOfIs(steps[3], k, i);
    StepsFinal(rows, steps, 3, 4, k);
  }

  /** The steps after the visit deletes put nothing at the key of a deleted visit id that no upsert names. */
  lemma DeletedVisitLater(userId: string, body: SyncBody, t: int, id: string, s: nat)
    requires body.SyncBody? && 0 < s < 4
    requires var visits := OrEmpty(body.visitUpserts);
      forall j :: 0 <= j < |visits| ==> VisitCodec.Id(visits[j]) != id
    ensures Avoids(SyncSteps(userId, body, t)[s], (userId, VisitCodec.SortKey(id)))
  {
    var puts := SyncSteps(userId, body, t)[s];
    var k := (userId, VisitCodec.SortKey(id));
    if s == 1 {
      var brandIds := OrEmpty(body.brandDeletes);
      BrandDeletePuts(userId, body, t);
      forall j | 0 <= j < |puts| ensures KeyOf(puts[j]) != k {
        KindsDisjoint(id, brandIds[j]);
      }
    } else if s == 2 {
      var visits := OrEmpty(body.visitUpserts);
      VisitUpsertPuts(userId, body, t);
      forall j | 0 <= j < |puts| ensures KeyOf(puts[j]) != k {
        VisitSortKeyInjective(VisitCodec.Id(visits[j]), id);
      }
    } else {
      var brands := OrEmpty(body.brandUpserts);
      BrandUpsertPuts(userId, body, t);
      forall j | 0 <= j < |puts| ensures KeyOf(puts[j]) != k {
        KindsDisjoint(id, BrandCodec.Id(brands[j]));
      }
    }
  }

  /**
   * A deleted visit id that no upsert names ends as a visit tombstone
   * stamped `t`, whether or not the visit existed.
   */
  lemma SyncDeletedVisit(rows: map<Key, Record>, userId: string, body: SyncBody, t: int, id: string)
    requires body.SyncBody? && id in OrEmpty(body.visitDeletes)
    requires var visits := OrEmpty(body.visitUpserts);
      forall j :: 0 <= j < |visits| ==> VisitCodec.Id(visits[j]) != id
    ensures var k := (userId, VisitCodec.SortKey(id));
      var after := Synced(rows, userId, body, t);
      k in after && after[k] == TombstoneRecord(userId, VisitCodec.SortKey(id), t)
  {
    var k := (userId, VisitCodec.SortKey(id));
    DeletedVisitAvoided(userId, body, t, id);
    DeletedVisitLast(userId, OrEmpty(body.visitDeletes), t, id);
    StepsFinal(rows, SyncSteps(userId, body, t), 0, 4, k);
  }

  /** No step after the visit deletes aims at a deleted visit id that no upsert names. */
  lemma DeletedVisitAvoided(userId: string, body: SyncBody, t: int, id: string)
    requires body.SyncBody?
    requires var visits := OrEmpty(body.visitUpserts);
      forall j :: 0 <= j < |visits| ==> VisitCodec.Id(visits[j]) != id
    ensures forall s :: 0 < s < 4 ==> Avoids(SyncSteps(userId, body, t)[s], (userId, VisitCodec.SortKey(id)))
  {
    forall s | 0 < s < 4
      ensures Avoids(SyncSteps(userId, body, t)[s], (userId, VisitCodec.SortKey(id)))
    {
      DeletedVisitLater(userId, body, t, id, s);
    }
  }

  /** The last put of the visit-delete step aimed at a listed id is that id's tombstone. */
  lemma DeletedVisitLast(userId: string, ids: seq<string>, t: int, id: string)
    requires id in ids
    ensures var puts := VisitTombstonePuts(userId, ids, t);
      var last := LastIndexOf(puts, (userId, VisitCodec.SortKey(id)));
      last >= 0 && puts[last] == TombstoneRecord(userId, VisitCodec.SortKey(id), t)
  {
    var i :| 0 <= i < |ids| && ids[i] == id;
    var keys := seq(|ids|, j requires 0 <= j < |ids| => VisitCodec.SortKey(ids[j]));
    assert keys[i] == VisitCodec.SortKey(id);
    LastTombstone(VisitTombstonePuts(userId, ids, t), keys, userId, t, VisitCodec.SortKey(id));
  }

  /** The steps after the brand deletes put nothing at the key of a deleted brand id that no upsert names. */
  lemma DeletedBrandLater(userId: string, body: SyncBody, t: int, id: string, s: nat)
    requires body.SyncBody? && 1 < s < 4
    requires var brands := OrEmpty(body.brandUpserts);
      forall j :: 0 <= j < |brands| ==> BrandCodec.Id(brands[j]) != id
    ensures Avoids(SyncSteps(userId, body, t)[s], (userId, BrandCodec.SortKey(id)))
  {
    var puts := SyncSteps(userId, body, t)[s];
    var k := (userId, BrandCodec.SortKey(id));
    if s == 2 {
      var visits := OrEmpty(body.visitUpserts);
      VisitUpsertPuts(userId, body, t);
      forall j | 0 <= j < |puts| ensures KeyOf(puts[j]) != k {
        KindsDisjoint(VisitCodec.Id(visits[j]), id);
      }
    } else {
      var brands := OrEmpty(body.brandUpserts);
      BrandUpsertPuts(userId, body, t);
      forall j | 0 <= j < |puts| ensures KeyOf(puts[j]) != k {
        BrandSortKeyInjective(BrandCodec.Id(brands[j]), id);
      }
    }
  }

  /**
   * A deleted brand id that no upsert names ends as a brand tombstone
   * stamped `t`, whether or not the brand existed.
   */
  lemma SyncDeletedBrand(rows: map<Key, Record>, userId: string, body: SyncBody, t: int, id: string)
    requires body.SyncBody? && id in OrEmpty(body.brandDeletes)
    requires var brands := OrEmpty(body.brandUpserts);
      forall j :: 0 <= j < |brands| ==> BrandCodec.Id(brands[j]) != id
    ensures var k := (userId, BrandCodec.SortKey(id));
      var after := Synced(rows, userId, body, t);
      k in after && after[k] == TombstoneRecord(userId, BrandCodec.SortKey(id), t)
  {
    var k := (userId, BrandCodec.SortKey(id));
    DeletedBrandAvoided(userId, body, t, id);
    DeletedBrandLast(userId, OrEmpty(body.brandDeletes), t, id);
    StepsFinal(rows, SyncSteps(userId, body, t), 1, 4, k);
  }

  /** No step after the brand deletes aims at a deleted brand id that no upsert names. */
  lemma DeletedBrandAvoided(userId: string, body: SyncBody, t: int, id: string)
    requires body.SyncBody?
    requires var brands := OrEmpty(body.brandUpserts);
      forall j :: 0 <= j < |brands| ==> BrandCodec.Id(brands[j]) != id
    ensures forall s :: 1 < s < 4 ==> Avoids(SyncSteps(userId, body, t)[s], (userId, BrandCodec.SortKey(id)))
  {
    forall s | 1 < s < 4
      ensures Avoids(SyncSteps(userId, body, t)[s], (userId, BrandCodec.SortKey(id)))
    {
      DeletedBrandLater(userId, body, t, id, s);
    }
  }

  /** The last put of the brand-delete step aimed at a listed id is that id's tombstone. */
  lemma DeletedBrandLast(userId: string, ids: seq<string>, t: int, id: string)
    requires id in ids
    ensures var puts := BrandTombstonePuts(userId, ids, t);
      var last := LastIndexOf(puts, (userId, BrandCodec.SortKey(id)));
      last >= 0 && puts[last] == TombstoneRecord(userId, BrandCodec.SortKey(id), t)
  {
    var i :| 0 <= i < |ids| && ids[i] == id;
    var keys := seq(|ids|, j requires 0 <= j < |ids| => BrandCodec.SortKey(ids[j]));
    assert keys[i] == BrandCodec.SortKey(id);
    LastTombstone(BrandTombstonePuts(userId, ids, t), keys, userId, t, BrandCodec.SortKey(id));
  }

  /** No list of the body names the key. */
  predicate NotListed(k: Key, userId: string, body: SyncBody)
    requires body.SyncBody?
  {
    k.0 != userId
    || (&& ListsNoVisitKey(k.1, OrEmpty(body.visitDeletes), OrEmpty(body.visitUpserts))
        && ListsNoBrandKey(k.1, OrEmpty(body.brandDeletes), OrEmpty(body.brandUpserts)))
  }

  /** No id and no visit of the lists is stored under `sortKey`. */
  predicate ListsNoVisitKey(sortKey: string, ids: seq<string>, visits: seq<VisitCodec.Visit>) {
    && (forall j :: 0 <= j < |ids| ==> sortKey != VisitCodec.SortKey(ids[j]))
    && (forall j :: 0 <= j < |visits| ==> sortKey != VisitCodec.SortKey(VisitCodec.Id(visits[j])))
  }

  /** No id and no brand of the lists is stored under `sortKey`. */
  predicate ListsNoBrandKey(sortKey: string, ids: seq<string>, brands: seq<BrandCodec.Brand>) {
    && (forall j :: 0 <= j < |ids| ==> sortKey != BrandCodec.SortKey(ids[j]))
    && (forall j :: 0 <= j < |brands| ==> sortKey != BrandCodec.SortKey(BrandCodec.Id(brands[j])))
  }

  /** A step of `sync` puts nothing at a key no list names. */
  lemma UnlistedStep(userId: string, body: SyncBody, t: int, k: Key, s: nat)
    requires body.SyncBody? && NotListed(k, userId, body) && s < 4
    ensures Avoids(SyncSteps(userId, body, t)[s], k)
  {
    var puts := SyncSteps(userId, body, t)[s];
    if s == 0 {
      var ids := OrEmpty(body.visitDeletes);
      VisitDeletePuts(userId, body, t);
      forall j | 0 <= j < |puts| ensures KeyOf(puts[j]) != k {
        assert KeyOf(puts[j]) == (userId, VisitCodec.SortKey(ids[j]));
      }
    } else if s == 1 {
      var ids := OrEmpty(body.brandDeletes);
      BrandDeletePuts(userId, body, t);
      forall j | 0 <= j < |puts| ensures KeyOf(puts[j]) != k {
        assert KeyOf(puts[j]) == (userId, BrandCodec.SortKey(ids[j]));
      }
    } else if s == 2 {
      var visits := OrEmpty(body.visitUpserts);
      VisitUpsertPuts(userId, body, t);
      forall j | 0 <= j < |puts| ensures KeyOf(puts[j]) != k {
        assert KeyOf(puts[j]) == (userId, VisitCodec.SortKey(VisitCodec.Id(visits[j])));
      }
    } else {
      var brands := OrEmpty(body.brandUpserts);
      BrandUpsertPuts(userId, body, t);
      forall j | 0 <= j < |puts| ensures KeyOf(puts[j]) != k {
        assert KeyOf(puts[j]) == (userId, BrandCodec.SortKey(BrandCodec.Id(brands[j])));
      }
    }
  }

  /** `sync` leaves every row no list names as it was, present or absent: it purges nothing. */
  lemma SyncUnlisted(rows: map<Key, Record>, userId: string, body: SyncBody, t: int, k: Key)
    requires body.SyncBody? && NotListed(k, userId, body)
    ensures var after := Synced(rows, userId, body, t);
      && (k in after <==> k in rows)
      && (k in rows ==> after[k] == rows[k])
  {
    var steps := SyncSteps(userId, body, t);
    forall s | 0 <= s < 4
      ensures Avoids(steps[s], k)
    {
      UnlistedStep(userId, body, t, k, s);
    }
    StepsUntouched(rows, steps, 0, 4, k);
  }

  /** Each step of `sync` puts only rows of `userId` stamped `t`. */
  lemma StampedStep(userId: string, body: SyncBody, t: int, s: nat)
    requires body.SyncBody? && s < 4
    ensures AllStamped(SyncSteps(userId, body, t)[s], userId, t)
  {
    if s == 0 {
      VisitDeletePuts(userId, body, t);
    } else if s == 1 {
      BrandDeletePuts(userId, body, t);
    } else if s == 2 {
      VisitUpsertPuts(userId, body, t);
    } else {
      BrandUpsertPuts(userId, body, t);
    }
  }

  /**
   * `sync` changes only the user's rows and stamps every row it writes with
   * its timestamp; no row disappears.
   */
  lemma SyncStamped(rows: map<Key, Record>, userId: string, body: SyncBody, t: int)
    requires body.SyncBody?
    ensures OnlyStamped(rows, Synced(rows, userId, body, t), userId, t)
  {
    var steps := SyncSteps(userId, body, t);
    forall s | 0 <= s < 4
      ensures AllStamped(steps[s], userId, t)
    {
      StampedStep(userId, body, t, s);
    }
    StepsStamped(rows, steps, 4, userId, t);
  }

  /**
   * Every row `sync` wrote is in the next `updatesSince` feed of any epoch
   * before its timestamp: a complete answer on the synced table lists it.
   */
  lemma SyncedRowsInFeed(
    rows: map<Key, Record>, userId: string, body: SyncBody, t: int, epoch: int, items: seq<Record>, k: Key)
    requires body.SyncBody? && epoch < t
    requires Answers(items, Synced(rows, userId, body, t), userId, UpdatedAfter(epoch), UpdatesIndex)
    requires k in Synced(rows, userId, body, t) && (k !in rows || Synced(rows, userId, body, t)[k] != rows[k])
    ensures exists i :: 0 <= i < |items| && KeyOf(items[i]) == k && items[i] == Synced(rows, userId, body, t)[k]
  {
    var after := Synced(rows, userId, body, t);
    SyncStamped(rows, userId, body, t);
    assert Matches(userId, UpdatedAfter(epoch), k, after[k]);
    var i :| 0 <= i < |items| && KeyOf(items[i]) == k;
    assert items[i] == after[k];
  }
}
