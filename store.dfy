/**
 * The single-table store and its bulk helpers: the paginated query loop
 * (`getAll`), the chunked batch writer (`transactWrite`), the purge that
 * tombstones every live row of a user (`deleteAll`) and `replaceAll`.
 *
 * The table is a map from (userId, sortKey) to records. A query is answered
 * by a supplied sequence of pages; a write call may be made to fail by a
 * supplied fault, which is how the model exposes the partial-failure
 * boundary between batches.
 */
module Store {
  import opened Wrappers
  import opened JsStrings
  import opened Types
  import VisitCodec
  import BrandCodec

  /** The most items one `transactWriteItems` call carries. */
  const MaxBatchSize: nat := 25

  function Min(a: int, b: int): int {
    if a <= b then a else b
  }

  /**
   * The layout every row keeps: it is stored under its own key, its sort key
   * is `Visit#<id>` or `Brand#<id>` and it has that kind's attributes, and a
   * tombstone holds nothing but the key, `updatedAt` and `deleted`.
   */
  predicate RowOk(k: Key, r: Record) {
    && KeyOf(r) == k
    && ((StartsWith(k.1, VisitCodec.Prefix + "#") && VisitCodec.IsVisitRecord(r))
        || (StartsWith(k.1, BrandCodec.Prefix + "#") && BrandCodec.IsBrandRecord(r)))
    && (!RecordIsValid(r) ==> r.Keys == TombstoneAttributes && r["deleted"] == BOOL(true))
  }

  /** A record that may be written: it keeps the layout under the key it names. */
  predicate PutOk(p: Record) {
    RowOk(KeyOf(p), p)
  }

  predicate AllPutsOk(puts: seq<Record>) {
    forall i :: 0 <= i < |puts| ==> PutOk(puts[i])
  }

  lemma VisitPutOk(v: VisitCodec.Visit, userId: string)
    ensures PutOk(VisitCodec.Encode(v, userId))
  {
  }

  lemma BrandPutOk(b: BrandCodec.Brand, userId: string)
    ensures PutOk(BrandCodec.Encode(b, userId))
  {
  }

  /** A tombstone may replace any row whose sort key has one of the two kind prefixes. */
  lemma TombstonePutOk(userId: string, sortKey: string, t: int)
    requires StartsWith(sortKey, VisitCodec.Prefix + "#") || StartsWith(sortKey, BrandCodec.Prefix + "#")
    ensures PutOk(TombstoneRecord(userId, sortKey, t))
  {
    assert sortKey[5] == '#';
  }

  // ----- unconditional puts, applied in order -----

  /** The position of the last put that targets `k`, or -1 when none does. */
  function LastIndexOf(puts: seq<Record>, k: Key): (i: int)
    ensures -1 <= i < |puts|
    ensures i >= 0 ==> KeyOf(puts[i]) == k
    ensures forall j :: i < j < |puts| ==> KeyOf(puts[j]) != k
  {
    if puts == [] then -1
    else if KeyOf(puts[|puts| - 1]) == k then |puts| - 1
    else LastIndexOf(puts[..|puts| - 1], k)
  }

  /** The table after the puts are written one after the other. */
  function ApplyPuts(rows: map<Key, Record>, puts: seq<Record>): map<Key, Record>
  {
    if puts == [] then rows
    else ApplyPuts(rows, puts[..|puts| - 1])[KeyOf(puts[|puts| - 1]) := puts[|puts| - 1]]
  }

  /** After a sequence of puts a key holds the last put aimed at it, or what it held before. */
  lemma {:induction false} ApplyPutsAt(rows: map<Key, Record>, puts: seq<Record>, k: Key)
    ensures var i := LastIndexOf(puts, k);
      && (i >= 0 ==> k in ApplyPuts(rows, puts) && ApplyPuts(rows, puts)[k] == puts[i])
      && (i < 0 ==> (k in ApplyPuts(rows, puts) <==> k in rows))
      && (i < 0 && k in rows ==> ApplyPuts(rows, puts)[k] == rows[k])
  {
    if puts != [] {
      ApplyPutsAt(rows, puts[..|puts| - 1], k);
    }
  }

  /** Writing `a` and then `b` is writing `a + b`. */
  lemma {:induction false} ApplyPutsAppend(rows: map<Key, Record>, a: seq<Record>, b: seq<Record>)
    ensures ApplyPuts(ApplyPuts(rows, a), b) == ApplyPuts(rows, a + b)
  {
    if b == [] {
      assert a + b == a;
    } else {
      ApplyPutsAppend(rows, a, b[..|b| - 1]);
      assert (a + b)[..|a + b| - 1] == a + b[..|b| - 1];
    }
  }

  /** Writing well-formed records keeps every row well-formed. */
  lemma {:induction false} ApplyPutsValid(rows: map<Key, Record>, puts: seq<Record>)
    requires forall k :: k in rows ==> RowOk(k, rows[k])
    requires AllPutsOk(puts)
    ensures forall k :: k in ApplyPuts(rows, puts) ==> RowOk(k, ApplyPuts(rows, puts)[k])
  {
    if puts != [] {
      ApplyPutsValid(rows, puts[..|puts| - 1]);
    }
  }

  /** A put with no later put to the same key is the last one for that key. */
  lemma {:induction false} LastIndexOfIs(puts: seq<Record>, k: Key, i: nat)
    requires i < |puts| && KeyOf(puts[i]) == k
    requires forall j :: i < j < |puts| ==> KeyOf(puts[j]) != k
    ensures LastIndexOf(puts, k) == i
  {
    if i < |puts| - 1 {
      LastIndexOfIs(puts[..|puts| - 1], k, i);
    }
  }

  /** The last put aimed at a key is what the key holds afterwards. */
  lemma LastPutWins(rows: map<Key, Record>, puts: seq<Record>, i: nat)
    requires i < |puts|
    requires forall j :: i < j < |puts| ==> KeyOf(puts[j]) != KeyOf(puts[i])
    ensures KeyOf(puts[i]) in ApplyPuts(rows, puts) && ApplyPuts(rows, puts)[KeyOf(puts[i])] == puts[i]
  {
    LastIndexOfIs(puts, KeyOf(puts[i]), i);
    ApplyPutsAt(rows, puts, KeyOf(puts[i]));
  }

  /** A key no put is aimed at is left as it was, present or absent. */
  lemma Untouched(rows: map<Key, Record>, puts: seq<Record>, k: Key)
    requires forall j :: 0 <= j < |puts| ==> KeyOf(puts[j]) != k
    ensures k in ApplyPuts(rows, puts) <==> k in rows
    ensures k in rows ==> ApplyPuts(rows, puts)[k] == rows[k]
  {
    ApplyPutsAt(rows, puts, k);
  }

  // ----- the two kinds of rows -----

  /** A visit sort key is never a brand sort key. */
  lemma KindsDisjoint(visitId: string, brandId: string)
    ensures VisitCodec.SortKey(visitId) != BrandCodec.SortKey(brandId)
  {
    assert VisitCodec.SortKey(visitId)[0] == 'V';
    assert BrandCodec.SortKey(brandId)[0] == 'B';
  }

  /** Distinct visit ids have distinct sort keys. */
  lemma VisitSortKeyInjective(a: string, b: string)
    ensures VisitCodec.SortKey(a) == VisitCodec.SortKey(b) ==> a == b
  {
    assert VisitCodec.SortKey(a)[6..] == a && VisitCodec.SortKey(b)[6..] == b;
  }

  /** Distinct brand ids have distinct sort keys. */
  lemma BrandSortKeyInjective(a: string, b: string)
    ensures BrandCodec.SortKey(a) == BrandCodec.SortKey(b) ==> a == b
  {
    assert BrandCodec.SortKey(a)[6..] == a && BrandCodec.SortKey(b)[6..] == b;
  }

  /** A well-formed row whose sort key starts with "Visit" is a visit record. */
  lemma VisitRow(k: Key, r: Record)
    requires RowOk(k, r) && StartsWith(k.1, VisitCodec.Prefix)
    ensures VisitCodec.IsVisitRecord(r)
  {
    assert k.1[0] == 'V' && !StartsWith(k.1, BrandCodec.Prefix + "#");
  }

  /** A well-formed row whose sort key starts with "Brand" is a brand record. */
  lemma BrandRow(k: Key, r: Record)
    requires RowOk(k, r) && StartsWith(k.1, BrandCodec.Prefix)
    ensures BrandCodec.IsBrandRecord(r)
  {
    assert k.1[0] == 'B' && !StartsWith(k.1, VisitCodec.Prefix + "#");
  }

  // ----- chunking -----

  /** The batches `transactWrite` cuts a sequence into: runs of 25, the last one shorter. */
  function Chunks<X>(s: seq<X>): (c: seq<seq<X>>)
    decreases |s|
  {
    if |s| == 0 then []
    else if |s| <= MaxBatchSize then [s]
    else [s[..MaxBatchSize]] + Chunks(s[MaxBatchSize..])
  }

  /** The batches joined back together, in order. */
  function Flatten<X>(ss: seq<seq<X>>): seq<X> {
    if ss == [] then [] else Flatten(ss[..|ss| - 1]) + ss[|ss| - 1]
  }

  lemma {:induction false} FlattenCons<X>(a: seq<X>, ss: seq<seq<X>>)
    ensures Flatten([a] + ss) == a + Flatten(ss)
  {
    if ss != [] {
      FlattenCons(a, ss[..|ss| - 1]);
      assert ([a] + ss)[..|ss|] == [a] + ss[..|ss| - 1];
    }
  }

  function CeilDiv(n: nat, d: nat): nat
    requires d > 0
  {
    (n + d - 1) / d
  }

  /**
   * There are ceil(n/25) batches; batch c holds the elements from 25c up to
   * 25c + 25 (or the end), so every batch has between 1 and 25 elements, and
   * an empty sequence gives no batch at all.
   */
  lemma {:induction false} ChunksShape<X>(s: seq<X>)
    ensures |Chunks(s)| == CeilDiv(|s|, MaxBatchSize)
    ensures forall c :: 0 <= c < |Chunks(s)| ==>
      c * MaxBatchSize < |s| &&
      Chunks(s)[c] == s[c * MaxBatchSize .. Min(c * MaxBatchSize + MaxBatchSize, |s|)]
    ensures forall c :: 0 <= c < |Chunks(s)| ==> 1 <= |Chunks(s)[c]| <= MaxBatchSize
  {
    ChunksCount(s);
    forall c | 0 <= c < |Chunks(s)|
      ensures c * MaxBatchSize < |s|
      ensures Chunks(s)[c] == s[c * MaxBatchSize .. Min(c * MaxBatchSize + MaxBatchSize, |s|)]
    {
      ChunkAt(s, c);
    }
  }

  lemma {:induction false} ChunksCount<X>(s: seq<X>)
    ensures |Chunks(s)| == CeilDiv(|s|, MaxBatchSize)
  {
    if |s| > MaxBatchSize {
      ChunksCount(s[MaxBatchSize..]);
      assert CeilDiv(|s|, MaxBatchSize) == CeilDiv(|s| - MaxBatchSize, MaxBatchSize) + 1;
    }
  }

  /** A slice of `s` with its first `d` elements dropped is the slice of `s` shifted by `d`. */
  lemma SliceOfDrop<X>(s: seq<X>, d: nat, lo: nat, hi: nat)
    requires d <= |s| && lo <= hi <= |s| - d
    ensures s[d..][lo..hi] == s[d + lo..d + hi]
  {
    forall i | 0 <= i < hi - lo
      ensures s[d..][lo..hi][i] == s[d + lo..d + hi][i]
    {
      assert s[d..][lo..hi][i] == s[d..][lo + i] == s[d + lo + i];
    }
  }

  /** Batch `c` starts at element 25c. */
  lemma {:induction false} ChunkAt<X>(s: seq<X>, c: nat)
    requires c < |Chunks(s)|
    ensures c * MaxBatchSize < |s|
    ensures Chunks(s)[c] == s[c * MaxBatchSize .. Min(c * MaxBatchSize + MaxBatchSize, |s|)]
  {
    if c > 0 {
      var rest := s[MaxBatchSize..];
      ChunkAt(rest, c - 1);
      var lo := (c - 1) * MaxBatchSize;
      var hi := Min(lo + MaxBatchSize, |rest|);
      assert lo + MaxBatchSize == c * MaxBatchSize;
      assert Chunks(s)[c] == Chunks(rest)[c - 1] == rest[lo..hi];
      SliceOfDrop(s, MaxBatchSize, lo, hi);
      assert hi + MaxBatchSize == Min(c * MaxBatchSize + MaxBatchSize, |s|);
    }
  }

  /** The batches, joined back together, are the sequence itself: each element once, in order. */
  lemma {:induction false} FlattenChunks<X>(s: seq<X>)
    ensures Flatten(Chunks(s)) == s
  {
    if |s| > MaxBatchSize {
      FlattenChunks(s[MaxBatchSize..]);
      FlattenCons(s[..MaxBatchSize], Chunks(s[MaxBatchSize..]));
      assert s == s[..MaxBatchSize] + s[MaxBatchSize..];
    } else if |s| > 0 {
      assert Chunks(s)[..0] == [];
    }
  }

  /** The elements of the first `c` batches. */
  function CommittedPrefix<X>(s: seq<X>, c: nat): seq<X> {
    s[..Min(c * MaxBatchSize, |s|)]
  }

  /** The first `c` batches, joined, are the first 25c elements (or all of them). */
  lemma {:induction false} FlattenChunksPrefix<X>(s: seq<X>, c: nat)
    requires c <= |Chunks(s)|
    ensures Flatten(Chunks(s)[..c]) == CommittedPrefix(s, c)
  {
    if c > 0 {
      FlattenChunksPrefix(s, c - 1);
      ChunksShape(s);
      assert Chunks(s)[..c][..c - 1] == Chunks(s)[..c - 1];
      assert (c - 1) * MaxBatchSize + MaxBatchSize == c * MaxBatchSize;
      assert Min((c - 1) * MaxBatchSize, |s|) == (c - 1) * MaxBatchSize;
    }
  }

  /** The batches of a suffix: one batch of up to 25, then the batches of the rest. */
  lemma ChunksStep<X>(s: seq<X>, start: nat)
    requires start < |s|
    ensures var next := start + Min(|s| - start, MaxBatchSize);
      Chunks(s[start..]) == [s[start..next]] + Chunks(s[next..])
  {
    var next := start + Min(|s| - start, MaxBatchSize);
    if |s| - start > MaxBatchSize {
      assert s[start..][..MaxBatchSize] == s[start..next];
      assert s[start..][MaxBatchSize..] == s[next..];
    } else {
      assert s[start..next] == s[start..];
      assert s[next..] == [];
    }
  }

  /**
   * How far the batching loop has got: `call` batches sent, which are the
   * first `call` batches of `s` and hold its first `index` elements; the
   * batches still to come are those of `s[index..]`.
   */
  ghost predicate BatchProgress<X>(s: seq<X>, index: nat, call: nat, batches: seq<seq<X>>) {
    && index <= |s| && call <= |Chunks(s)|
    && Chunks(s[index..]) == Chunks(s)[call..]
    && batches == Chunks(s)[..call]
    && Flatten(batches) == s[..index]
  }

  /** One turn of the batching loop: the next batch is `s[start..next]`. */
  lemma BatchStep<X>(s: seq<X>, start: nat, next: nat, call: nat, batches: seq<seq<X>>)
    requires BatchProgress(s, start, call, batches) && start < |s|
    requires next == start + Min(|s| - start, MaxBatchSize)
    ensures call < |Chunks(s)| && Chunks(s)[call] == s[start..next]
    ensures BatchProgress(s, next, call + 1, batches + [s[start..next]])
    ensures s[..start] == CommittedPrefix(s, call)
  {
    ChunksStep(s, start);
    var rest := Chunks(s)[call..];
    assert rest == [s[start..next]] + Chunks(s[next..]);
    assert Chunks(s)[call] == rest[0] && Chunks(s)[call + 1..] == rest[1..];
    assert Chunks(s)[..call + 1] == Chunks(s)[..call] + [s[start..next]];
    assert Flatten(batches + [s[start..next]]) == s[..start] + s[start..next] == s[..next];
    FlattenChunksPrefix(s, call);
  }

  /** When the loop has consumed everything, every batch has been sent. */
  lemma BatchDone<X>(s: seq<X>, call: nat, batches: seq<seq<X>>)
    requires BatchProgress(s, |s|, call, batches)
    ensures call == |Chunks(s)| && batches == Chunks(s)
  {
    assert s[|s|..] == [];
  }

  /** The items the mapper builds, each from its element and its own index. */
  function Mapped<T>(items: seq<T>, mapper: (T, nat) -> Record): seq<Record> {
    seq(|items|, i requires 0 <= i < |items| => mapper(items[i], i))
  }

  /** The inner loop of `transactWrite`: the write items for positions `from` up to `to`. */
  method BuildBatch<T>(items: seq<T>, mapper: (T, nat) -> Record, from: nat, to: nat) returns (updates: seq<Record>)
    requires from <= to <= |items|
    requires forall i :: from <= i < to ==> PutOk(mapper(items[i], i))
    ensures updates == Mapped(items, mapper)[from..to]
    ensures AllPutsOk(updates)
  {
    updates := [];
    var index := from;
    while index < to
      invariant from <= index <= to
      invariant updates == Mapped(items, mapper)[from..index]
      invariant AllPutsOk(updates)
    {
      updates := updates + [mapper(items[index], index)];
      index := index + 1;
    }
  }

  // ----- queries -----

  /** The key condition: always `userId = :userId`, with `updatedAt > :epoch` ANDed on when given. */
  datatype KeyCondition = UserOnly | UpdatedAfter(epoch: int)

  /** The primary index (ordered by sort key) or `updates_lsi` (ordered by `updatedAt`). */
  datatype Index = Primary | UpdatesIndex

  predicate Matches(userId: string, cond: KeyCondition, k: Key, r: Record) {
    k.0 == userId && (cond.UpdatedAfter? ==> UpdatedAtOf(r) > cond.epoch)
  }

  /** One page of a query answer, with the cursor to continue from, if any. */
  datatype Page = Page(items: seq<Record>, lastEvaluatedKey: Option<Key>)

  /** Every page but the last returns a cursor; the last returns none. */
  predicate WellPaged(pages: seq<Page>) {
    && |pages| > 0
    && (forall i :: 0 <= i < |pages| - 1 ==> pages[i].lastEvaluatedKey.Some?)
    && pages[|pages| - 1].lastEvaluatedKey.None?
  }

  /** The items of all pages, in page order. */
  function Concat(pages: seq<Page>): seq<Record> {
    if pages == [] then [] else Concat(pages[..|pages| - 1]) + pages[|pages| - 1].items
  }

  predicate DistinctKeys(items: seq<Record>) {
    forall i, j :: 0 <= i < j < |items| ==> KeyOf(items[i]) != KeyOf(items[j])
  }

  predicate SortedByUpdatedAt(items: seq<Record>) {
    forall i, j :: 0 <= i < j < |items| ==> UpdatedAtOf(items[i]) <= UpdatedAtOf(items[j])
  }

  /**
   * What the store promises of a complete query answer: exactly the rows that
   * match the key condition, each once, in `updatedAt` order on `updates_lsi`.
   */
  ghost predicate Answers(items: seq<Record>, rows: map<Key, Record>, userId: string, cond: KeyCondition, index: Index) {
    && (forall i :: 0 <= i < |items| ==>
          KeyOf(items[i]) in rows && rows[KeyOf(items[i])] == items[i] && Matches(userId, cond, KeyOf(items[i]), items[i]))
    && (forall k :: k in rows && Matches(userId, cond, k, rows[k]) ==>
          exists i :: 0 <= i < |items| && KeyOf(items[i]) == k)
    && DistinctKeys(items)
    && (index == UpdatesIndex ==> SortedByUpdatedAt(items))
  }

  ghost predicate QueryPages(pages: seq<Page>, rows: map<Key, Record>, userId: string, cond: KeyCondition, index: Index) {
    WellPaged(pages) && Answers(Concat(pages), rows, userId, cond, index)
  }

  /** The sort keys of the live records, in order (`filter(!deleted).map(sortKey)`). */
  function LiveSortKeys(items: seq<Record>): (keys: seq<string>)
    ensures forall j :: 0 <= j < |items| && RecordIsValid(items[j]) ==> StringAttr(items[j], "sortKey") in keys
    ensures forall s :: s in keys ==>
      exists j :: 0 <= j < |items| && RecordIsValid(items[j]) && StringAttr(items[j], "sortKey") == s
  {
    if items == [] then []
    else
      var init := LiveSortKeys(items[..|items| - 1]);
      var last := items[|items| - 1];
      assert forall j :: 0 <= j < |items| - 1 ==> items[..|items| - 1][j] == items[j];
      if RecordIsValid(last) then init + [StringAttr(last, "sortKey")] else init
  }

  // ----- the purge -----

  /** The tombstones `deleteAll` writes, one per sort key, all stamped `t`. */
  function Tombstones(userId: string, sortKeys: seq<string>, t: int): (puts: seq<Record>)
    ensures |puts| == |sortKeys|
    ensures forall i :: 0 <= i < |sortKeys| ==> puts[i] == TombstoneRecord(userId, sortKeys[i], t)
  {
    Mapped(sortKeys, TombstoneMapper(userId, t))
  }

  /** The tombstones `deleteAll` writes for the rows a query answered with `pages`. */
  function PurgePuts(userId: string, pages: seq<Page>, t: int): seq<Record> {
    Tombstones(userId, LiveSortKeys(Concat(pages)), t)
  }

  /** The mapper `deleteAll` hands to `transactWrite`: a sort key to its tombstone. */
  function TombstoneMapper(userId: string, t: int): (string, nat) -> Record {
    (sortKey: string, i: nat) => TombstoneRecord(userId, sortKey, t)
  }

  /** Every live row of `userId` replaced by its tombstone stamped `t`; everything else as it was. */
  function Purged(rows: map<Key, Record>, userId: string, t: int): map<Key, Record> {
    map k | k in rows :: if k.0 == userId && RecordIsValid(rows[k]) then TombstoneRecord(k.0, k.1, t) else rows[k]
  }

  /** Some of the purge has been written: each row is as before or as `Purged` makes it. */
  ghost predicate PartlyPurged(before: map<Key, Record>, after: map<Key, Record>, userId: string, t: int) {
    && after.Keys == before.Keys
    && forall k :: k in before ==> after[k] == before[k] || after[k] == Purged(before, userId, t)[k]
  }

  /** Each tombstone for a live sort key of a complete answer targets a live row of the user. */
  lemma TombstoneTargets(rows: map<Key, Record>, items: seq<Record>, userId: string, t: int, i: nat)
    requires Answers(items, rows, userId, UserOnly, Primary)
    requires i < |LiveSortKeys(items)|
    ensures var k := KeyOf(Tombstones(userId, LiveSortKeys(items), t)[i]);
      && k in rows && k.0 == userId && RecordIsValid(rows[k])
      && Tombstones(userId, LiveSortKeys(items), t)[i] == TombstoneRecord(k.0, k.1, t)
  {
    var keys := LiveSortKeys(items);
    assert keys[i] in keys;
    var j :| 0 <= j < |items| && RecordIsValid(items[j]) && StringAttr(items[j], "sortKey") == keys[i];
    assert KeyOf(items[j]) == KeyOf(Tombstones(userId, keys, t)[i]);
  }

  /** The tombstones for the live sort keys of a complete answer keep the row layout. */
  lemma TombstonesOk(rows: map<Key, Record>, items: seq<Record>, userId: string, t: int)
    requires forall k :: k in rows ==> RowOk(k, rows[k])
    requires Answers(items, rows, userId, UserOnly, Primary)
    ensures AllPutsOk(Tombstones(userId, LiveSortKeys(items), t))
  {
    var keys := LiveSortKeys(items);
    forall i | 0 <= i < |keys|
      ensures PutOk(Tombstones(userId, keys, t)[i])
    {
      TombstoneTargets(rows, items, userId, t, i);
      var k := KeyOf(Tombstones(userId, keys, t)[i]);
      assert RowOk(k, rows[k]);
      TombstonePutOk(userId, keys[i], t);
    }
  }

  /** Every live row of the user is the target of some tombstone. */
  lemma TombstonesCover(rows: map<Key, Record>, items: seq<Record>, userId: string, t: int, k: Key)
    requires Answers(items, rows, userId, UserOnly, Primary)
    requires k in rows && k.0 == userId && RecordIsValid(rows[k])
    ensures LastIndexOf(Tombstones(userId, LiveSortKeys(items), t), k) >= 0
  {
    var keys := LiveSortKeys(items);
    var puts := Tombstones(userId, keys, t);
    var j :| 0 <= j < |items| && KeyOf(items[j]) == k;
    var i :| 0 <= i < |keys| && keys[i] == StringAttr(items[j], "sortKey");
    assert KeyOf(puts[i]) == k;
  }

  /** After any prefix of the tombstones, each row is as before or purged. */
  lemma PurgePrefixAt(rows: map<Key, Record>, items: seq<Record>, userId: string, t: int, m: nat, k: Key)
    requires Answers(items, rows, userId, UserOnly, Primary)
    requires m <= |LiveSortKeys(items)|
    ensures var part := ApplyPuts(rows, Tombstones(userId, LiveSortKeys(items), t)[..m]);
      && (k in part <==> k in rows)
      && (k in rows ==> part[k] == rows[k] || part[k] == Purged(rows, userId, t)[k])
      && (k in rows && m == |LiveSortKeys(items)| ==> part[k] == Purged(rows, userId, t)[k])
  {
    var puts := Tombstones(userId, LiveSortKeys(items), t);
    ApplyPutsAt(rows, puts[..m], k);
    var i := LastIndexOf(puts[..m], k);
    if i >= 0 {
      TombstoneTargets(rows, items, userId, t, i);
    } else if m == |puts| && k in rows && k.0 == userId && RecordIsValid(rows[k]) {
      assert puts[..m] == puts;
      TombstonesCover(rows, items, userId, t, k);
    }
  }

  /**
   * Writing the tombstones for the live sort keys of a complete answer for
   * `userId` is the purge; writing any prefix of them is part of it.
   */
  lemma PurgeByTombstones(rows: map<Key, Record>, items: seq<Record>, userId: string, t: int, m: nat)
    requires Answers(items, rows, userId, UserOnly, Primary)
    requires m <= |LiveSortKeys(items)|
    ensures var puts := Tombstones(userId, LiveSortKeys(items), t);
      && PartlyPurged(rows, ApplyPuts(rows, puts[..m]), userId, t)
      && ApplyPuts(rows, puts) == Purged(rows, userId, t)
  {
    PurgePartly(rows, items, userId, t, m);
    PurgeFully(rows, items, userId, t);
  }

  /** The first `m` tombstones leave each row as it was or as `Purged` makes it. */
  lemma PurgePartly(rows: map<Key, Record>, items: seq<Record>, userId: string, t: int, m: nat)
    requires Answers(items, rows, userId, UserOnly, Primary)
    requires m <= |LiveSortKeys(items)|
    ensures PartlyPurged(rows, ApplyPuts(rows, Tombstones(userId, LiveSortKeys(items), t)[..m]), userId, t)
  {
    var part := ApplyPuts(rows, Tombstones(userId, LiveSortKeys(items), t)[..m]);
    forall k ensures (k in part <==> k in rows) && (k in rows ==> part[k] == rows[k] || part[k] == Purged(rows, userId, t)[k]) {
      PurgePrefixAt(rows, items, userId, t, m, k);
    }
  }

  /** All the tombstones make the table `Purged`. */
  lemma PurgeFully(rows: map<Key, Record>, items: seq<Record>, userId: string, t: int)
    requires Answers(items, rows, userId, UserOnly, Primary)
    ensures ApplyPuts(rows, Tombstones(userId, LiveSortKeys(items), t)) == Purged(rows, userId, t)
  {
    var puts := Tombstones(userId, LiveSortKeys(items), t);
    var all := ApplyPuts(rows, puts[..|puts|]);
    var purged := Purged(rows, userId, t);
    forall k ensures (k in all <==> k in purged) && (k in all ==> all[k] == purged[k]) {
      PurgePrefixAt(rows, items, userId, t, |puts|, k);
    }
    SameMaps(all, purged);
    assert puts[..|puts|] == puts;
  }

  /** Two maps with the same keys and the same value at each key are equal. */
  lemma SameMaps<K, V>(a: map<K, V>, b: map<K, V>)
    requires forall k :: (k in a <==> k in b) && (k in a ==> a[k] == b[k])
    ensures a == b
  {
    assert a.Keys == b.Keys;
  }

  // ----- the table -----

  /** A batch call the store is made to fail: the `chunk`-th call throws `error`. */
  datatype ChunkFault = ChunkFault(chunk: nat, error: string)

  /** A fault in a bulk operation: the `step`-th `transactWrite` of it fails at its `chunk`-th call. */
  datatype StepFault = StepFault(step: nat, chunk: nat, error: string)

  function FaultAt(fault: Option<StepFault>, step: nat): Option<ChunkFault> {
    if fault.Some? && fault.value.step == step then Some(ChunkFault(fault.value.chunk, fault.value.error)) else None
  }

  /** Whether `fault` names a batch that the `step`-th `transactWrite`, writing `puts`, actually sends. */
  predicate FaultHits(fault: Option<StepFault>, step: nat, puts: seq<Record>) {
    fault.Some? && fault.value.step == step && fault.value.chunk < |Chunks(puts)|
  }

  datatype WriteResult = Committed | Aborted(error: string)

  /**
   * The condition expressions of the entity services: none, "the key is
   * absent or holds a tombstone" (add), and "the key holds a live row"
   * (delete).
   */
  datatype PutCondition = Unconditional | AbsentOrDeleted | PresentAndLive

  predicate Holds(condition: PutCondition, rows: map<Key, Record>, k: Key) {
    match condition
    case Unconditional => true
    case AbsentOrDeleted => k !in rows || !RecordIsValid(rows[k])
    case PresentAndLive => k in rows && RecordIsValid(rows[k])
  }

  datatype PutResult = Written | ConditionFailed | PutFailed(error: string)

  /** The records `replaceAll`, `upload` and `sync` write for a list of visits, all stamped `t`. */
  function VisitPuts(userId: string, visits: seq<VisitCodec.Visit>, t: int): (puts: seq<Record>)
    ensures |puts| == |visits|
    ensures forall i :: 0 <= i < |visits| ==> puts[i] == VisitCodec.Encode(VisitCodec.Stamp(visits[i], t), userId)
    ensures AllPutsOk(puts)
  {
    Mapped(visits, VisitMapper(userId, t))
  }

  /** The mapper for visits: the visit stamped `t`, encoded for `userId`. */
  function VisitMapper(userId: string, t: int): (VisitCodec.Visit, nat) -> Record {
    (v: VisitCodec.Visit, i: nat) => VisitCodec.Encode(VisitCodec.Stamp(v, t), userId)
  }

  function BrandPuts(userId: string, brands: seq<BrandCodec.Brand>, t: int): (puts: seq<Record>)
    ensures |puts| == |brands|
    ensures forall i :: 0 <= i < |brands| ==> puts[i] == BrandCodec.Encode(BrandCodec.Stamp(brands[i], t), userId)
    ensures AllPutsOk(puts)
  {
    Mapped(brands, BrandMapper(userId, t))
  }

  /** The mapper for brands: the brand stamped `t`, encoded for `userId`. */
  function BrandMapper(userId: string, t: int): (BrandCodec.Brand, nat) -> Record {
    (b: BrandCodec.Brand, i: nat) => BrandCodec.Encode(BrandCodec.Stamp(b, t), userId)
  }

  /** The table `replaceAll` leaves when every write commits: the purge, then the visits, then the brands. */
  function Replaced(
    rows: map<Key, Record>, userId: string, visits: seq<VisitCodec.Visit>, brands: seq<BrandCodec.Brand>,
    now: int, deleteTime: int): map<Key, Record>
  {
    ApplyPuts(ApplyPuts(Purged(rows, userId, deleteTime), VisitPuts(userId, visits, now)), BrandPuts(userId, brands, now))
  }

  /**
   * After `replaceAll`, a supplied visit (the last one with its id) is stored
   * as given, stamped with the returned timestamp: live if it was live.
   */
  lemma ReplacedVisit(
    rows: map<Key, Record>, userId: string, visits: seq<VisitCodec.Visit>, brands: seq<BrandCodec.Brand>,
    now: int, deleteTime: int, i: nat)
    requires i < |visits|
    requires forall j :: i < j < |visits| ==> VisitCodec.Id(visits[j]) != VisitCodec.Id(visits[i])
    ensures var k := (userId, VisitCodec.SortKey(VisitCodec.Id(visits[i])));
      var after := Replaced(rows, userId, visits, brands, now, deleteTime);
      && k in after
      && after[k] == VisitCodec.Encode(VisitCodec.Stamp(visits[i], now), userId)
      && UpdatedAtOf(after[k]) == now
      && (RecordIsValid(after[k]) <==> visits[i].Live?)
  {
    var k := (userId, VisitCodec.SortKey(VisitCodec.Id(visits[i])));
    var puts := VisitPuts(userId, visits, now);
    forall j | i < j < |puts|
      ensures KeyOf(puts[j]) != KeyOf(puts[i])
    {
      VisitSortKeyInjective(VisitCodec.Id(visits[j]), VisitCodec.Id(visits[i]));
    }
    LastPutWins(Purged(rows, userId, deleteTime), puts, i);
    var brandPuts := BrandPuts(userId, brands, now);
    forall j | 0 <= j < |brandPuts|
      ensures KeyOf(brandPuts[j]) != k
    {
      KindsDisjoint(VisitCodec.Id(visits[i]), BrandCodec.Id(brands[j]));
    }
    Untouched(ApplyPuts(Purged(rows, userId, deleteTime), puts), brandPuts, k);
  }

  /**
   * After `replaceAll`, a supplied brand (the last one with its id) is stored
   * as given, stamped with the returned timestamp: live if it was live.
   */
  lemma ReplacedBrand(
    rows: map<Key, Record>, userId: string, visits: seq<VisitCodec.Visit>, brands: seq<BrandCodec.Brand>,
    now: int, deleteTime: int, i: nat)
    requires i < |brands|
    requires forall j :: i < j < |brands| ==> BrandCodec.Id(brands[j]) != BrandCodec.Id(brands[i])
    ensures var k := (userId, BrandCodec.SortKey(BrandCodec.Id(brands[i])));
      var after := Replaced(rows, userId, visits, brands, now, deleteTime);
      && k in after
      && after[k] == BrandCodec.Encode(BrandCodec.Stamp(brands[i], now), userId)
      && UpdatedAtOf(after[k]) == now
      && (RecordIsValid(after[k]) <==> brands[i].Live?)
  {
    var puts := BrandPuts(userId, brands, now);
    forall j | i < j < |puts|
      ensures KeyOf(puts[j]) != KeyOf(puts[i])
    {
      BrandSortKeyInjective(BrandCodec.Id(brands[j]), BrandCodec.Id(brands[i]));
    }
    LastPutWins(ApplyPuts(Purged(rows, userId, deleteTime), VisitPuts(userId, visits, now)), puts, i);
  }

  /** The key is the key of none of the supplied visits and brands. */
  predicate NotSupplied(k: Key, userId: string, visits: seq<VisitCodec.Visit>, brands: seq<BrandCodec.Brand>) {
    k.0 != userId
    || ((forall i :: 0 <= i < |visits| ==> k.1 != VisitCodec.SortKey(VisitCodec.Id(visits[i])))
        && (forall i :: 0 <= i < |brands| ==> k.1 != BrandCodec.SortKey(BrandCodec.Id(brands[i]))))
  }

  /**
   * After `replaceAll`, a row no supplied entity names is as the purge left
   * it: a live row of the user is now a tombstone stamped `deleteTime`, and
   * every other row (tombstones, other users' rows) is unchanged; no other
   * row appears.
   */
  lemma ReplacedOthers(
    rows: map<Key, Record>, userId: string, visits: seq<VisitCodec.Visit>, brands: seq<BrandCodec.Brand>,
    now: int, deleteTime: int, k: Key)
    requires NotSupplied(k, userId, visits, brands)
    ensures var after := Replaced(rows, userId, visits, brands, now, deleteTime);
      && (k in after <==> k in rows)
      && (k in rows && k.0 == userId && RecordIsValid(rows[k]) ==> after[k] == TombstoneRecord(k.0, k.1, deleteTime))
      && (k in rows && (k.0 != userId || !RecordIsValid(rows[k])) ==> after[k] == rows[k])
  {
    var purged := Purged(rows, userId, deleteTime);
    var visitPuts := VisitPuts(userId, visits, now);
    var brandPuts := BrandPuts(userId, brands, now);
    Untouched(purged, visitPuts, k);
    Untouched(ApplyPuts(purged, visitPuts), brandPuts, k);
  }

  class Table {
    var rows: map<Key, Record>

    ghost predicate Valid()
      reads this
    {
      forall k :: k in rows ==> RowOk(k, rows[k])
    }

    constructor ()
      ensures Valid() && rows == map[]
    {
      rows := map[];
    }

    /** One `transactWriteItems` call: all of its puts are written, or none. */
    method TransactWriteItems(puts: seq<Record>, failure: Option<string>) returns (result: WriteResult)
      requires Valid() && AllPutsOk(puts)
      modifies this
      ensures Valid()
      ensures failure.Some? ==> result == Aborted(failure.value) && rows == old(rows)
      ensures failure.None? ==> result == Committed && rows == ApplyPuts(old(rows), puts)
    {
      if failure.Some? {
        return Aborted(failure.value);
      }
      ApplyPutsValid(rows, puts);
      rows := ApplyPuts(rows, puts);
      result := Committed;
    }

    /** `getItem`: the row stored under `k`, if any, tombstones included. */
    method GetItem(k: Key) returns (item: Option<Record>)
      requires Valid()
      ensures item.Some? <==> k in rows
      ensures item.Some? ==> item.value == rows[k] && RowOk(k, item.value)
    {
      if k in rows {
        return Some(rows[k]);
      }
      return None;
    }

    /** `putItem` with an optional condition on the row it replaces. */
    method PutItem(item: Record, condition: PutCondition, failure: Option<string>) returns (result: PutResult)
      requires Valid() && PutOk(item)
      modifies this
      ensures Valid()
      ensures failure.Some? ==> result == PutFailed(failure.value) && rows == old(rows)
      ensures failure.None? && Holds(condition, old(rows), KeyOf(item)) ==>
        result == Written && rows == old(rows)[KeyOf(item) := item]
      ensures failure.None? && !Holds(condition, old(rows), KeyOf(item)) ==>
        result == ConditionFailed && rows == old(rows)
    {
      if failure.Some? {
        return PutFailed(failure.value);
      }
      if !Holds(condition, rows, KeyOf(item)) {
        return ConditionFailed;
      }
      rows := rows[KeyOf(item) := item];
      result := Written;
    }

    /**
     * `getAll`: keeps querying while a page returns a cursor, and returns the
     * items of all pages in page order. `pages` are the store's answers to
     * the query for `userId`, `cond` and `index`, one per call; when they
     * answer it completely, so do the items returned.
     */
    method GetAll(userId: string, cond: KeyCondition, index: Index, pages: seq<Page>)
      returns (items: seq<Record>, ghost queries: nat)
      requires WellPaged(pages)
      ensures items == Concat(pages)
      ensures queries == |pages|
      ensures QueryPages(pages, rows, userId, cond, index) ==> Answers(items, rows, userId, cond, index)
    {
      items := [];
      var i := 0;
      var more := true;
      while more
        invariant 0 <= i <= |pages|
        invariant more <==> i < |pages|
        invariant items == Concat(pages[..i])
        decreases |pages| - i
      {
        var page := pages[i];
        items := items + page.items;
        assert pages[..i + 1][..i] == pages[..i];
        i := i + 1;
        more := page.lastEvaluatedKey.Some?;
      }
      assert pages[..i] == pages;
      queries := i;
    }

    /**
     * `transactWrite`: builds and writes the mapped items 25 at a time, one
     * call per batch. If the call for batch c fails, the batches before it
     * stay written and the later ones are never built.
     */
    method TransactWrite<T>(items: seq<T>, mapper: (T, nat) -> Record, fault: Option<ChunkFault>)
      returns (result: WriteResult, ghost batches: seq<seq<Record>>)
      requires Valid()
      requires forall i :: 0 <= i < |items| ==> PutOk(mapper(items[i], i))
      modifies this
      ensures Valid()
      ensures var puts := Mapped(items, mapper);
        if fault.Some? && fault.value.chunk < |Chunks(puts)| then
          && result == Aborted(fault.value.error)
          && batches == Chunks(puts)[..fault.value.chunk + 1]
          && rows == ApplyPuts(old(rows), CommittedPrefix(puts, fault.value.chunk))
        else
          && result == Committed
          && batches == Chunks(puts)
          && rows == ApplyPuts(old(rows), puts)
    {
      ghost var puts := Mapped(items, mapper);
      var length := |items|;
      var index := 0;
      var call := 0;
      batches := [];
      assert puts[0..] == puts;
      while index < length
        invariant Valid()
        invariant BatchProgress(puts, index, call, batches)
        invariant rows == ApplyPuts(old(rows), puts[..index])
        invariant fault.Some? ==> call <= fault.value.chunk
        decreases length - index
      {
        var start := index;
        var nextSplit := index + Min(length - index, MaxBatchSize);
        var updates := BuildBatch(items, mapper, start, nextSplit);
        index := nextSplit;
        BatchStep(puts, start, nextSplit, call, batches);
        var failure := if fault.Some? && fault.value.chunk == call then Some(fault.value.error) else None;
        result := TransactWriteItems(updates, failure);
        batches := batches + [updates];
        if result.Aborted? {
          return;
        }
        ApplyPutsAppend(old(rows), puts[..start], updates);
        assert puts[..start] + updates == puts[..index];
        call := call + 1;
      }
      BatchDone(puts, call, batches);
      assert puts[..index] == puts;
      result := Committed;
    }

    /**
     * `deleteAll`: every live row of `userId` is overwritten by a tombstone
     * stamped `deleteTime`, which is returned; tombstones stay as they were.
     * If a batch fails, the tombstone batches before it stay written, so
     * the purge is only partly done.
     */
    method DeleteAll(userId: string, deleteTime: int, pages: seq<Page>, fault: Option<ChunkFault>)
      returns (result: Result<int, Error>)
      requires Valid() && QueryPages(pages, rows, userId, UserOnly, Primary)
      modifies this
      ensures Valid()
      ensures result.Ok? ==> result.value == deleteTime && rows == Purged(old(rows), userId, deleteTime)
      ensures result.Err? <==> fault.Some? && fault.value.chunk < |Chunks(PurgePuts(userId, pages, deleteTime))|
      ensures result.Err? ==>
        && fault.Some? && result.error == Store(fault.value.error)
        && rows == ApplyPuts(old(rows), CommittedPrefix(PurgePuts(userId, pages, deleteTime), fault.value.chunk))
        && PartlyPurged(old(rows), rows, userId, deleteTime)
    {
      var items, _ := GetAll(userId, UserOnly, Primary, pages);
      var sortKeys := LiveSortKeys(items);
      var mapper := TombstoneMapper(userId, deleteTime);
      TombstonesOk(rows, items, userId, deleteTime);
      var w, _ := TransactWrite(sortKeys, mapper, fault);
      ghost var m := if w.Aborted? then Min(fault.value.chunk * MaxBatchSize, |sortKeys|) else |sortKeys|;
      PurgeByTombstones(old(rows), items, userId, deleteTime, m);
      if w.Aborted? {
        return Err(Store(w.error));
      }
      return Ok(deleteTime);
    }

    /**
     * `replaceAll`: takes its timestamp `now` (before `deleteAll` takes
     * `deleteTime`), purges the user's rows, then writes every visit and
     * every brand stamped `now`, and returns `now`.
     * Steps of `fault`: 0 the purge, 1 the visits, 2 the brands.
     */
    method ReplaceAll(
      userId: string, visits: seq<VisitCodec.Visit>, brands: seq<BrandCodec.Brand>,
      now: int, deleteTime: int, pages: seq<Page>, fault: Option<StepFault>)
      returns (result: Result<int, Error>)
      requires Valid() && QueryPages(pages, rows, userId, UserOnly, Primary)
      modifies this
      ensures Valid()
      ensures var purged := Purged(old(rows), userId, deleteTime);
        var written := ApplyPuts(purged, VisitPuts(userId, visits, now));
        && (result.Ok? ==> result.value == now && rows == Replaced(old(rows), userId, visits, brands, now, deleteTime))
        && (result.Err? <==>
              || FaultHits(fault, 0, PurgePuts(userId, pages, deleteTime))
              || FaultHits(fault, 1, VisitPuts(userId, visits, now))
              || FaultHits(fault, 2, BrandPuts(userId, brands, now)))
        && (result.Err? ==> fault.Some? && result.error == Store(fault.value.error))
        && (result.Err? && fault.value.step == 0 ==>
              && rows == ApplyPuts(old(rows), CommittedPrefix(PurgePuts(userId, pages, deleteTime), fault.value.chunk))
              && PartlyPurged(old(rows), rows, userId, deleteTime))
        && (result.Err? && fault.value.step == 1 ==>
              rows == ApplyPuts(purged, CommittedPrefix(VisitPuts(userId, visits, now), fault.value.chunk)))
        && (result.Err? && fault.value.step == 2 ==>
              rows == ApplyPuts(written, CommittedPrefix(BrandPuts(userId, brands, now), fault.value.chunk)))
    {
      var updatedAt := now;
      var purge := DeleteAll(userId, deleteTime, pages, FaultAt(fault, 0));
      if purge.Err? {
        return Err(purge.error);
      }
      var w, _ := TransactWrite(visits, VisitMapper(userId, updatedAt), FaultAt(fault, 1));
      if w.Aborted? {
        return Err(Store(w.error));
      }
      var w2, _ := TransactWrite(brands, BrandMapper(userId, updatedAt), FaultAt(fault, 2));
      if w2.Aborted? {
        return Err(Store(w2.error));
      }
      return Ok(updatedAt);
    }
  }
}
