/**
 * The Brand services: `getById`, `addOrUpdate` (a conditional add or an
 * unconditional update) and `deleteById` (a conditional tombstone), each a
 * single read or put against the table.
 */
module BrandService {
  import opened Wrappers
  import opened JsStrings
  import opened Types
  import opened BrandCodec
  import Store

  /** The row key of brand `id` of `userId`. */
  function RowKey(userId: string, id: string): (k: Key)
    ensures k.0 == userId && StartsWith(k.1, Prefix)
  {
    StartsWithShorter(SortKey(id), Prefix, "#");
    (userId, SortKey(id))
  }

  function NotFound(id: string): Error {
    Service(ServiceError("Brand with id: " + id + " doesn't exist", Some("not_found"), None))
  }

  function AlreadyExists(id: string): Error {
    Service(ServiceError("Brand with id: " + id + " already exists", Some("already_exists"), Some("update")))
  }

  function DeleteNotFound(id: string): Error {
    Service(ServiceError("Brand with id: " + id + " doesn't exist", Some("not_found"), Some("update")))
  }

  function InvalidId(id: string): Error {
    Thrown("Invalid brand id: " + id)
  }

  /**
   * What `getById` answers on a table: `not_found` exactly when no row is
   * stored under the key; otherwise the row decoded, a tombstone as a
   * tombstone, with the requested id when it holds no `#`.
   */
  function Lookup(rows: map<Key, Record>, userId: string, id: string): (r: Result<Brand, Error>)
    requires forall k :: k in rows ==> Store.RowOk(k, rows[k])
    ensures r.Err? <==> RowKey(userId, id) !in rows
    ensures r.Err? ==> r.error == NotFound(id)
    ensures r.Ok? ==>
      var row := rows[RowKey(userId, id)];
      && (r.value.Deleted? <==> !RecordIsValid(row))
      && UpdatedAt(r.value) == UpdatedAtOf(row)
      && ('#' !in id ==> Id(r.value) == id)
  {
    var k := RowKey(userId, id);
    if k !in rows then Err(NotFound(id))
    else
      Store.BrandRow(k, rows[k]);
      SecondSegmentOfJoin(Prefix, '#', id);
      assert SortKey(id) == Prefix + ['#'] + id;
      Ok(Decode(rows[k]))
  }

  /** `getById` */
  method GetById(t: Store.Table, userId: string, id: string) returns (r: Result<Brand, Error>)
    requires t.Valid()
    ensures r == Lookup(t.rows, userId, id)
  {
    var k := RowKey(userId, id);
    var item := t.GetItem(k);
    if item.None? {
      return Err(NotFound(id));
    }
    Store.BrandRow(k, item.value);
    return Ok(Decode(item.value));
  }

  datatype Mode = Add | Update

  /**
   * The condition expression each mode puts on the write: an add may
   * replace only an absent row or a tombstone; an update replaces anything.
   */
  function Condition(mode: Mode): (c: Store.PutCondition)
    ensures forall rows, k :: Store.Holds(c, rows, k) <==> mode == Update || k !in rows || !RecordIsValid(rows[k])
  {
    var c := if mode == Add then Store.AbsentOrDeleted else Store.Unconditional;
    assert forall rows, k :: Store.Holds(c, rows, k) <==> mode == Update || k !in rows || !RecordIsValid(rows[k]) by {
      forall rows, k
        ensures Store.Holds(c, rows, k) <==> mode == Update || k !in rows || !RecordIsValid(rows[k])
      {
      }
    }
    c
  }

  /**
   * `addOrUpdate`: a brand with an empty id is refused before any write;
   * otherwise it is stamped `now` and written, in add mode only when the
   * key is absent or holds a tombstone. A refused add raises
   * `already_exists`; any other store error is passed on unchanged.
   */
  method AddOrUpdate(t: Store.Table, mode: Mode, userId: string, brand: Brand, now: int, failure: Option<string>)
    returns (r: Result<Brand, Error>)
    requires t.Valid()
    modifies t
    ensures t.Valid()
    ensures var k := RowKey(userId, Id(brand));
      if Id(brand) == "" then
        r == Err(InvalidId(Id(brand))) && t.rows == old(t.rows)
      else if failure.Some? then
        r == Err(Store(failure.value)) && t.rows == old(t.rows)
      else if Store.Holds(Condition(mode), old(t.rows), k) then
        r == Ok(Stamp(brand, now)) && t.rows == old(t.rows)[k := Encode(Stamp(brand, now), userId)]
      else
        r == Err(AlreadyExists(Id(brand))) && t.rows == old(t.rows)
  {
    if Id(brand) == "" {
      return Err(InvalidId(Id(brand)));
    }
    var stamped := Stamp(brand, now);
    var item := Encode(stamped, userId);
    Store.BrandPutOk(stamped, userId);
    var put := t.PutItem(item, Condition(mode), failure);
    match put
    case Written => r := Ok(stamped);
    case ConditionFailed => r := Err(AlreadyExists(Id(stamped)));
    case PutFailed(e) => r := Err(Store(e));
  }

  /**
   * `deleteById`: overwrites a live row with a tombstone stamped
   * `stampTime` and returns `deleteTime`, an earlier, separate clock read;
   * when no live row is stored under the key it raises `not_found`, and any
   * other store error is passed on unchanged.
   */
  method DeleteById(t: Store.Table, userId: string, id: string, deleteTime: int, stampTime: int, failure: Option<string>)
    returns (r: Result<int, Error>)
    requires t.Valid()
    modifies t
    ensures t.Valid()
    ensures var k := RowKey(userId, id);
      if failure.Some? then
        r == Err(Store(failure.value)) && t.rows == old(t.rows)
      else if Store.Holds(Store.PresentAndLive, old(t.rows), k) then
        r == Ok(deleteTime) && t.rows == old(t.rows)[k := Encode(Deleted(id, stampTime), userId)]
      else
        r == Err(DeleteNotFound(id)) && t.rows == old(t.rows)
  {
    var tombstone: Brand := Deleted(id, stampTime);
    var item := Encode(tombstone, userId);
    Store.BrandPutOk(tombstone, userId);
    var put := t.PutItem(item, Store.PresentAndLive, failure);
    match put
    case Written => r := Ok(deleteTime);
    case ConditionFailed => r := Err(DeleteNotFound(id));
    case PutFailed(e) => r := Err(Store(e));
  }

  /**
   * A brand written by `addOrUpdate` reads back stamped, when its id has no
   * `#`: with the same id, kind, name and stamp and the same set of models,
   * and exactly as written when its models hold no duplicates.
   */
  lemma {:induction false} GetAfterWrite(rows: map<Key, Record>, userId: string, brand: Brand, now: int)
    requires forall k :: k in rows ==> Store.RowOk(k, rows[k])
    requires '#' !in Id(brand)
    ensures var after := rows[RowKey(userId, Id(brand)) := Encode(Stamp(brand, now), userId)];
      var read := Lookup(after, userId, Id(brand));
      && (forall k :: k in after ==> Store.RowOk(k, after[k]))
      && read.Ok?
      && Id(read.value) == Id(brand) && UpdatedAt(read.value) == now && read.value.Live? == brand.Live?
      && (brand.Live? ==>
            && read.value.value.name == brand.value.name
            && forall m :: m in read.value.value.models <==> m in brand.value.models)
      && (brand.Deleted? || NoDuplicates(brand.value.models) ==> read.value == Stamp(brand, now))
  {
    var stamped := Stamp(brand, now);
    ReadBack(rows, userId, stamped);
    DecodeEncode(stamped, userId);
  }

  /** A brand written under its key is read back as the decoding of its record. */
  lemma ReadBack(rows: map<Key, Record>, userId: string, b: Brand)
    requires forall k :: k in rows ==> Store.RowOk(k, rows[k])
    requires '#' !in Id(b)
    ensures var after := rows[RowKey(userId, Id(b)) := Encode(b, userId)];
      && (forall k :: k in after ==> Store.RowOk(k, after[k]))
      && Lookup(after, userId, Id(b)) == Ok(Decode(Encode(b, userId)))
  {
    Store.BrandPutOk(b, userId);
  }

  /**
   * A deleted brand reads back as a tombstone with the stored stamp; it may
   * be added again, but not deleted again.
   */
  lemma {:induction false} GetAfterDelete(rows: map<Key, Record>, userId: string, id: string, stampTime: int)
    requires forall k :: k in rows ==> Store.RowOk(k, rows[k])
    requires '#' !in id
    ensures var k := RowKey(userId, id);
      var after := rows[k := Encode(Deleted(id, stampTime), userId)];
      && (forall k :: k in after ==> Store.RowOk(k, after[k]))
      && Lookup(after, userId, id) == Ok(Deleted(id, stampTime))
      && Store.Holds(Condition(Add), after, k)
      && !Store.Holds(Store.PresentAndLive, after, k)
  {
    var v: Brand := Deleted(id, stampTime);
    ReadBack(rows, userId, v);
    DecodeEncode(v, userId);
  }
}
