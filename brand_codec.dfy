/**
 * The Brand codec: a Brand (live or tombstone) to and from its storage
 * record. `models` is a JavaScript Set, kept here as its elements in
 * iteration order; it is stored as a string-set attribute and rebuilt with
 * `new Set(list)`. The JSON presentation spreads it into an array and keeps
 * the id a string.
 */
module BrandCodec {
  import opened Wrappers
  import opened JsStrings
  import opened Types

  datatype BrandFields = BrandFields(id: string, name: string, models: seq<string>, updatedAt: int)

  type Brand = Deletable<BrandFields>

  function Id(b: Brand): string {
    match b
    case Live(f) => f.id
    case Deleted(id, _) => id
  }

  function UpdatedAt(b: Brand): int {
    match b
    case Live(f) => f.updatedAt
    case Deleted(_, t) => t
  }

  /** `{ ...brand, updatedAt: t }` */
  function Stamp(b: Brand, t: int): (s: Brand)
    ensures Id(s) == Id(b) && UpdatedAt(s) == t && s.Live? == b.Live?
    ensures b.Live? ==> s.value == b.value.(updatedAt := t)
  {
    match b
    case Live(f) => Live(f.(updatedAt := t))
    case Deleted(id, _) => Deleted(id, t)
  }

  predicate NoDuplicates(s: seq<string>) {
    forall i, j :: 0 <= i < j < |s| ==> s[i] != s[j]
  }

  /** `new Set(list)`, in iteration order: the first occurrence of each element, in list order. */
  function Dedup(list: seq<string>): (r: seq<string>)
    ensures NoDuplicates(r)
    ensures forall x :: x in r <==> x in list
    ensures NoDuplicates(list) ==> r == list
  {
    if list == [] then []
    else
      var init := Dedup(list[..|list| - 1]);
      var last := list[|list| - 1];
      assert forall x :: x in list <==> x in list[..|list| - 1] || x == last;
      if last in init then init else init + [last]
  }

  /** The position of the first occurrence of `x` in `s`. */
  function FirstIndex(s: seq<string>, x: string): (i: nat)
    requires x in s
    ensures i < |s| && s[i] == x && x !in s[..i]
  {
    if s[0] == x then 0
    else
      var i := FirstIndex(s[1..], x);
      assert s[..i + 1] == [s[0]] + s[1..][..i];
      i + 1
  }

  /** A position holding `x` with no `x` before it is the first occurrence of `x`. */
  lemma FirstIndexUnique(s: seq<string>, x: string, k: nat)
    requires k < |s| && s[k] == x && x !in s[..k]
    ensures FirstIndex(s, x) == k
  {
  }

  /**
   * `Dedup` keeps the first occurrence of each element and lists them in
   * the order of those occurrences, as iterating a JavaScript `Set` does.
   */
  lemma {:induction false} DedupFirstOccurrences(list: seq<string>)
    ensures forall i, j :: 0 <= i < j < |Dedup(list)| ==> FirstIndex(list, Dedup(list)[i]) < FirstIndex(list, Dedup(list)[j])
  {
    if list != [] {
      var pre := list[..|list| - 1];
      var last := list[|list| - 1];
      DedupFirstOccurrences(pre);
      forall x | x in pre
        ensures FirstIndex(list, x) == FirstIndex(pre, x)
      {
        var k := FirstIndex(pre, x);
        assert list[..k] == pre[..k];
        FirstIndexUnique(list, x, k);
      }
      if last !in Dedup(pre) {
        assert list[..|list| - 1] == pre;
        FirstIndexUnique(list, last, |list| - 1);
      }
    }
  }

  const Prefix: string := "Brand"

  /** `Brand#<id>` */
  function SortKey(id: string): (k: string)
    ensures StartsWith(k, Prefix + "#") && '#' in k
  {
    StartsWithAppend(Prefix + "#", id);
    assert (Prefix + "#" + id)[|Prefix|] == '#';
    Prefix + "#" + id
  }

  const LiveAttributes: set<string> := {"userId", "sortKey", "name", "models", "updatedAt"}

  /** `DynamoDBType<Brand>`: the attributes the decoder reads are present with the right types. */
  predicate IsBrandRecord(r: Record) {
    && "userId" in r && r["userId"].S?
    && "sortKey" in r && r["sortKey"].S? && '#' in r["sortKey"].s
    && "updatedAt" in r && r["updatedAt"].N?
    && (RecordIsValid(r) ==> "name" in r && r["name"].S? && "models" in r && r["models"].SS?)
  }

  /** `mapBrandToDynamoDB` */
  function Encode(b: Brand, userId: string): (r: Record)
    ensures IsBrandRecord(r)
    ensures KeyOf(r) == (userId, SortKey(Id(b)))
    ensures r["userId"] == S(userId) && r["sortKey"] == S(SortKey(Id(b)))
    ensures r["updatedAt"] == N(UpdatedAt(b)) && UpdatedAtOf(r) == UpdatedAt(b)
    ensures RecordIsValid(r) <==> ObjectIsValid(b)
    ensures b.Deleted? ==> r == TombstoneRecord(userId, SortKey(b.id), b.updatedAt)
    ensures b.Live? ==>
      && r.Keys == LiveAttributes
      && r["name"] == S(b.value.name)
      && r["models"].SS? && (forall m :: m in r["models"].ss <==> m in b.value.models)
  {
    match b
    case Deleted(id, t) =>
      TombstoneRecord(userId, SortKey(id), t)
    case Live(f) =>
      map[
        "userId" := S(userId),
        "sortKey" := S(SortKey(f.id)),
        "name" := S(f.name),
        "models" := SS(f.models),
        "updatedAt" := N(f.updatedAt)]
  }

  /** The id a sort key decodes to: `sortKey.split("#")[1]`. */
  function IdOfSortKey(sortKey: string): string
    requires '#' in sortKey
  {
    SecondSegment(sortKey, '#')
  }

  /** `mapDynamoDBToBrand` */
  function Decode(r: Record): (b: Brand)
    requires IsBrandRecord(r)
    ensures ObjectIsValid(b) <==> RecordIsValid(r)
    ensures Id(b) == IdOfSortKey(r["sortKey"].s) && '#' !in Id(b)
    ensures UpdatedAt(b) == r["updatedAt"].n
    ensures b.Live? ==> NoDuplicates(b.value.models) && forall m :: m in b.value.models <==> m in r["models"].ss
  {
    var id := IdOfSortKey(r["sortKey"].s);
    if !RecordIsValid(r) then
      Deleted(id, r["updatedAt"].n)
    else
      Live(BrandFields(id, r["name"].s, Dedup(r["models"].ss), r["updatedAt"].n))
  }

  /**
   * Round trip: a brand whose id has no `#` comes back with the same id,
   * name and timestamp and the same set of models; exactly the same brand
   * when its models hold no duplicates (a genuine Set), and always for a
   * tombstone.
   */
  lemma {:induction false} DecodeEncode(b: Brand, userId: string)
    requires '#' !in Id(b)
    ensures var d := Decode(Encode(b, userId));
      && Id(d) == Id(b) && UpdatedAt(d) == UpdatedAt(b) && d.Live? == b.Live?
      && (b.Live? ==> d.value.name == b.value.name && forall m :: m in d.value.models <==> m in b.value.models)
      && (b.Live? && NoDuplicates(b.value.models) ==> d == b)
      && (b.Deleted? ==> d == b)
  {
    SecondSegmentOfJoin(Prefix, '#', Id(b));
    assert SortKey(Id(b)) == Prefix + ['#'] + Id(b);
  }

  /** The JSON presentation of a brand: `models` as an array, `id` still a string. */
  datatype BrandJson =
    | BrandJson(id: string, name: string, models: seq<string>, updatedAt: int)
    | DeletedBrandJson(id: string, updatedAt: int)

  /** `toJSON` of a domain brand: `{ ...brand, models: [...brand.models] }`; a tombstone is returned as it is. */
  function ToJson(b: Brand): (j: BrandJson)
    ensures j.id == Id(b) && j.updatedAt == UpdatedAt(b)
    ensures j.DeletedBrandJson? <==> b.Deleted?
    ensures b.Live? ==> j.name == b.value.name && j.models == b.value.models
  {
    match b
    case Deleted(id, t) => DeletedBrandJson(id, t)
    case Live(f) => BrandJson(f.id, f.name, f.models, f.updatedAt)
  }

  /** `toJSON` of a storage record: the record is decoded first. */
  function RecordToJson(r: Record): (j: BrandJson)
    requires IsBrandRecord(r)
    ensures j.id == IdOfSortKey(r["sortKey"].s)
    ensures j.updatedAt == r["updatedAt"].n
    ensures j.DeletedBrandJson? <==> !RecordIsValid(r)
    ensures j.BrandJson? ==> NoDuplicates(j.models) && forall m :: m in j.models <==> m in r["models"].ss
  {
    ToJson(Decode(r))
  }

  /**
   * A brand presents the same whether presented directly or read back from
   * its record, provided its models hold no duplicates; otherwise the record
   * path drops the repeats.
   */
  lemma PresentEncoded(b: Brand, userId: string)
    requires '#' !in Id(b)
    requires b.Live? ==> NoDuplicates(b.value.models)
    ensures RecordToJson(Encode(b, userId)) == ToJson(b)
  {
    DecodeEncode(b, userId);
  }
}
