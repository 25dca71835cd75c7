/**
 * The Visit codec: a Visit (live or tombstone) to and from its storage
 * record, and the JSON presentation, which turns the id into a number.
 */
module VisitCodec {
  import opened Wrappers
  import opened JsStrings
  import opened Types

  datatype VisitFields = VisitFields(
    id: string,
    date: int,
    client: string,
    contact: string,
    brand: string,
    model: string,
    problem: string,
    fix: string,
    amount: int,
    updatedAt: int)

  type Visit = Deletable<VisitFields>

  function Id(v: Visit): string {
    match v
    case Live(f) => f.id
    case Deleted(id, _) => id
  }

  function UpdatedAt(v: Visit): int {
    match v
    case Live(f) => f.updatedAt
    case Deleted(_, t) => t
  }

  /** `{ ...visit, updatedAt: t }` */
  function Stamp(v: Visit, t: int): (s: Visit)
    ensures Id(s) == Id(v) && UpdatedAt(s) == t && s.Live? == v.Live?
    ensures v.Live? ==> s.value == v.value.(updatedAt := t)
  {
    match v
    case Live(f) => Live(f.(updatedAt := t))
    case Deleted(id, _) => Deleted(id, t)
  }

  const Prefix: string := "Visit"

  /** `Visit#<id>` */
  function SortKey(id: string): (k: string)
    ensures StartsWith(k, Prefix + "#") && '#' in k
  {
    StartsWithAppend(Prefix + "#", id);
    assert (Prefix + "#" + id)[|Prefix|] == '#';
    Prefix + "#" + id
  }

  const LiveAttributes: set<string> :=
    {"userId", "sortKey", "amount", "date", "updatedAt", "brand", "model", "client", "contact", "fix", "problem"}

  predicate HasLiveAttributes(r: Record) {
    && "amount" in r && r["amount"].N?
    && "date" in r && r["date"].N?
    && "brand" in r && r["brand"].S?
    && "model" in r && r["model"].S?
    && "client" in r && r["client"].S?
    && "contact" in r && r["contact"].S?
    && "fix" in r && r["fix"].S?
    && "problem" in r && r["problem"].S?
  }

  /** `DynamoDBType<Visit>`: the attributes the decoder reads are present with the right types. */
  predicate IsVisitRecord(r: Record) {
    && "userId" in r && r["userId"].S?
    && "sortKey" in r && r["sortKey"].S? && '#' in r["sortKey"].s
    && "updatedAt" in r && r["updatedAt"].N?
    && (RecordIsValid(r) ==> HasLiveAttributes(r))
  }

  /** `mapVisitToDynamoDB` */
  function Encode(v: Visit, userId: string): (r: Record)
    ensures IsVisitRecord(r)
    ensures KeyOf(r) == (userId, SortKey(Id(v)))
    ensures r["userId"] == S(userId) && r["sortKey"] == S(SortKey(Id(v)))
    ensures r["updatedAt"] == N(UpdatedAt(v)) && UpdatedAtOf(r) == UpdatedAt(v)
    ensures RecordIsValid(r) <==> ObjectIsValid(v)
    ensures v.Deleted? ==> r == TombstoneRecord(userId, SortKey(v.id), v.updatedAt)
  {
    match v
    case Deleted(id, t) =>
      TombstoneRecord(userId, SortKey(id), t)
    case Live(f) =>
      map[
        "userId" := S(userId),
        "sortKey" := S(SortKey(f.id)),
        "amount" := N(f.amount),
        "date" := N(f.date),
        "updatedAt" := N(f.updatedAt),
        "brand" := S(f.brand),
        "model" := S(f.model),
        "client" := S(f.client),
        "contact" := S(f.contact),
        "fix" := S(f.fix),
        "problem" := S(f.problem)]
  }

  /** A live visit is stored with exactly the live attributes, each holding its field. */
  lemma EncodedFields(v: Visit, userId: string)
    requires v.Live?
    ensures var r := Encode(v, userId);
      && r.Keys == LiveAttributes
      && r["amount"] == N(v.value.amount) && r["date"] == N(v.value.date)
      && r["brand"] == S(v.value.brand) && r["model"] == S(v.value.model)
      && r["client"] == S(v.value.client) && r["contact"] == S(v.value.contact)
      && r["fix"] == S(v.value.fix) && r["problem"] == S(v.value.problem)
  {
  }

  /** The id a sort key decodes to: `sortKey.split("#")[1]`. */
  function IdOfSortKey(sortKey: string): string
    requires '#' in sortKey
  {
    SecondSegment(sortKey, '#')
  }

  /** `mapDynamoDBToVisit` */
  function Decode(r: Record): (v: Visit)
    requires IsVisitRecord(r)
    ensures ObjectIsValid(v) <==> RecordIsValid(r)
    ensures Id(v) == IdOfSortKey(r["sortKey"].s) && '#' !in Id(v)
    ensures UpdatedAt(v) == r["updatedAt"].n
  {
    var id := IdOfSortKey(r["sortKey"].s);
    if !RecordIsValid(r) then
      Deleted(id, r["updatedAt"].n)
    else
      Live(VisitFields(
        id := id,
        amount := r["amount"].n,
        date := r["date"].n,
        updatedAt := r["updatedAt"].n,
        brand := r["brand"].s,
        model := r["model"].s,
        client := r["client"].s,
        contact := r["contact"].s,
        fix := r["fix"].s,
        problem := r["problem"].s))
  }

  /** Decoding a stored visit gives back the id only up to its first `#`. */
  lemma DecodedId(v: Visit, userId: string)
    ensures Id(Decode(Encode(v, userId))) == TakeUntil(Id(v), '#')
  {
    SecondSegmentOfJoin(Prefix, '#', Id(v));
    assert SortKey(Id(v)) == Prefix + ['#'] + Id(v);
  }

  /** Round trip: a visit whose id has no `#` is decoded from its record unchanged, live or tombstone. */
  lemma {:induction false} DecodeEncode(v: Visit, userId: string)
    requires '#' !in Id(v)
    ensures Decode(Encode(v, userId)) == v
  {
    DecodedId(v, userId);
    if v.Live? {
      EncodedFields(v, userId);
      var d := Decode(Encode(v, userId));
      assert d.value == v.value;
    }
  }

  /** The round trip fails for an id containing `#`: "1#2" comes back as "1". */
  lemma HashInIdIsTruncated(userId: string)
    ensures var v: Visit := Deleted("1#2", 0);
      Decode(Encode(v, userId)) == Deleted("1", 0) != v
  {
    var v: Visit := Deleted("1#2", 0);
    DecodedId(v, userId);
    var d := Decode(Encode(v, userId));
    assert d.Deleted? && d.updatedAt == 0;
    assert "1#2"[1..] == "#2";
    assert IndexOf("1#2", '#') == 1;
    assert TakeUntil("1#2", '#') == "1";
  }

  /**
   * The other direction: a minimal record stored under `Visit#<id>` (with no
   * further `#`) is re-encoded from its decoding exactly.
   */
  lemma EncodeDecode(r: Record, id: string)
    requires IsVisitRecord(r)
    requires r["sortKey"] == S(SortKey(id)) && '#' !in id
    requires if RecordIsValid(r) then r.Keys == LiveAttributes
             else r.Keys == TombstoneAttributes && r["deleted"] == BOOL(true)
    ensures Encode(Decode(r), r["userId"].s) == r
  {
    SecondSegmentOfJoin(Prefix, '#', id);
    assert SortKey(id) == Prefix + ['#'] + id;
    if RecordIsValid(r) {
      EncodeDecodeLive(r, id);
    } else {
      EncodeDecodeTombstone(r, id);
    }
  }

  lemma EncodeDecodeLive(r: Record, id: string)
    requires IsVisitRecord(r) && RecordIsValid(r)
    requires r["sortKey"] == S(SortKey(id)) && IdOfSortKey(SortKey(id)) == id
    requires r.Keys == LiveAttributes
    ensures Encode(Decode(r), r["userId"].s) == r
  {
    var d := Decode(r);
    var e := Encode(d, r["userId"].s);
    EncodedFields(d, r["userId"].s);
    assert e["amount"] == r["amount"] && e["date"] == r["date"];
    assert e["brand"] == r["brand"] && e["model"] == r["model"];
    assert e["client"] == r["client"] && e["contact"] == r["contact"];
    assert e["fix"] == r["fix"] && e["problem"] == r["problem"];
    SameLiveRecord(e, r);
  }

  /** Two records with the live attributes are equal when they agree on each. */
  lemma SameLiveRecord(e: Record, r: Record)
    requires e.Keys == LiveAttributes && r.Keys == LiveAttributes
    requires "userId" in r && e["userId"] == r["userId"] && e["sortKey"] == r["sortKey"] && e["updatedAt"] == r["updatedAt"]
    requires e["amount"] == r["amount"] && e["date"] == r["date"]
    requires e["brand"] == r["brand"] && e["model"] == r["model"]
    requires e["client"] == r["client"] && e["contact"] == r["contact"]
    requires e["fix"] == r["fix"] && e["problem"] == r["problem"]
    ensures e == r
  {
  }

  lemma EncodeDecodeTombstone(r: Record, id: string)
    requires IsVisitRecord(r) && !RecordIsValid(r)
    requires r["sortKey"] == S(SortKey(id)) && IdOfSortKey(SortKey(id)) == id
    requires r.Keys == TombstoneAttributes && r["deleted"] == BOOL(true)
    ensures Encode(Decode(r), r["userId"].s) == r
  {
    TombstoneRecordOf(r);
    assert Decode(r) == Deleted(id, r["updatedAt"].n);
  }

  /** The JSON presentation of a visit: the same fields, with `id` made a number. */
  datatype VisitJson =
    | VisitJson(
        id: NumberValue,
        date: int,
        client: string,
        contact: string,
        brand: string,
        model: string,
        problem: string,
        fix: string,
        amount: int,
        updatedAt: int)
    | DeletedVisitJson(id: NumberValue, updatedAt: int)

  /** `toJSON` of a domain visit: `{ ...visit, id: +visit.id }`, tombstones included. */
  function ToJson(v: Visit): (j: VisitJson)
    ensures j.id == ToNumber(Id(v)) && j.updatedAt == UpdatedAt(v)
    ensures j.DeletedVisitJson? <==> v.Deleted?
    ensures v.Live? ==>
      && j.date == v.value.date && j.client == v.value.client && j.contact == v.value.contact
      && j.brand == v.value.brand && j.model == v.value.model && j.problem == v.value.problem
      && j.fix == v.value.fix && j.amount == v.value.amount
  {
    match v
    case Deleted(id, t) => DeletedVisitJson(ToNumber(id), t)
    case Live(f) => VisitJson(ToNumber(f.id), f.date, f.client, f.contact, f.brand, f.model, f.problem, f.fix, f.amount, f.updatedAt)
  }

  /** `toJSON` of a storage record: the record is decoded first. */
  function RecordToJson(r: Record): (j: VisitJson)
    requires IsVisitRecord(r)
    ensures j.id == ToNumber(IdOfSortKey(r["sortKey"].s))
    ensures j.updatedAt == r["updatedAt"].n
    ensures j.DeletedVisitJson? <==> !RecordIsValid(r)
  {
    ToJson(Decode(r))
  }

  /** A visit presents the same whether it is presented directly or read back from its record. */
  lemma PresentEncoded(v: Visit, userId: string)
    requires '#' !in Id(v)
    ensures RecordToJson(Encode(v, userId)) == ToJson(v)
  {
    DecodeEncode(v, userId);
  }

  /** A visit whose id is the decimal form of `n` presents with the numeric id `n`. */
  lemma NumericId(v: Visit, n: int)
    requires Id(v) == IntToString(n)
    ensures ToJson(v).id == Int(n)
  {
    IntToStringRoundTrip(n);
  }
}
