/**
 * The Visit services: `getById`, `addOrUpdate` (a conditional add or an
 * unconditional update) and `deleteById` (a conditional tombstone), each a
 * single read or put against the table.
 */
module VisitService {
  import opened Wrappers
  import opened JsStrings
  import opened Types
  import opened VisitCodec
  import Store

  /** The row key of visit `id` of `userId`. */
  function RowKey(userId: string, id: string): (k: Key)
    ensures k.0 == userId && StartsWith(k.1, Prefix)
  {
    StartsWithShorter(SortKey(id), Prefix, "#");
    (userId, SortKey(id))
  }

  function NotFound(id: string): Error {
    Service(ServiceError("Visit with id: " + id + " doesn't exist", Some("not_found"), None))
  }

  function AlreadyExists(id: string): Error {
    Service(ServiceError("Visit with id: " + id + " already exists", Some("already_exists"), Some("update")))
  }

  function DeleteNotFound(id: string): Error {
    Service(ServiceError("Visit with id: " + id + " doesn't exist", Some("not_found"), Some("update")))
  }

  function InvalidId(id: string): Error {
    Thrown("Invalid visit id: " + id)
  }

  /**
   * What `getById` answers on a table: `not_found` exactly when no row is
   * stored under the key; otherwise the row decoded, a tombstone as a
   * tombstone, with the requested id when it holds no `#`.
   */
  function Lookup(rows: map<Key, Record>, userId: string, id: string): (r: Result<Visit, Error>)
    requires forall k :: k in rows ==> Store.RowOk(k, rows[k])
    ensures r.Err? <==> RowKey(userId, id) !in rows
    ensures r.Err? ==> r.error == NotFound(id)
    ensures r.Ok? ==>
      var row := rows[RowKey(userId, id)];
      && (r.value.Deleted? <==> !RecordIsValid(row))
      && UpdatedAt(r.value) == UpdatedAtOf(row)
      && ('#' !in id ==> Id(r.value) == id)
  {
    var k := RowKey(userId, id);
    if k !in rows then Err(NotFound(id))
    else
      Store.VisitRow(k, rows[k]);
      SecondSegmentOfJoin(Prefix, '#', id);
      assert SortKey(id) == Prefix + ['#'] + id;
      Ok(Decode(rows[k]))
  }

  /** `getById` */
  method GetById(t: Store.Table, userId: string, id: string) returns (r: Result<Visit, Error>)
    requires t.Valid()
    ensures r == Lookup(t.rows, userId, id)
  {
    var k := RowKey(userId, id);
    var item := t.GetItem(k);
    if item.None? {
      return Err(NotFound(id));
    }
    Store.VisitRow(k, item.value);
    return Ok(Decode(item.value));
  }

  datatype Mode = Add | Update

  /**
   * The condition expression each mode puts on the write: an add may
   * replace only an absent row or a tombstone; an update replaces anything.
   */
  function Condition(mode: Mode): (c: Store.PutCondition)
    ensures forall rows, k :: Store.Holds(c, rows, k) <==> mode == Update || k !in rows || !RecordIsValid(rows[k])
  {
    var c := if mode == Add then Store.AbsentOrDeleted else Store.Unconditional;
    assert forall rows, k :: Store.Holds(c, rows, k) <==> mode == Update || k !in rows || !RecordIsValid(rows[k]) by {
      forall rows, k
        ensures Store.Holds(c, rows, k) <==> mode == Update || k !in rows || !RecordIsValid(rows[k])
      {
      }
    }
    c
  }

  /**
   * `addOrUpdate`: a visit with an empty id is refused before any write;
   * otherwise it is stamped `now` and written, in add mode only when the
   * key is absent or holds a tombstone. A refused add raises
   * `already_exists`; any other store error is passed on unchanged.
   */
  method AddOrUpdate(t: Store.Table, mode: Mode, userId: string, visit: Visit, now: int, failure: Option<string>)
    returns (r: Result<Visit, Error>)
    requires t.Valid()
    modifies t
    ensures t.Valid()
    ensures var k := RowKey(userId, Id(visit));
      if Id(visit) == "" then
        r == Err(InvalidId(Id(visit))) && t.rows == old(t.rows)
      else if failure.Some? then
        r == Err(Store(failure.value)) && t.rows == old(t.rows)
      else if Store.Holds(Condition(mode), old(t.rows), k) then
        r == Ok(Stamp(visit, now)) && t.rows == old(t.rows)[k := Encode(Stamp(visit, now), userId)]
      else
        r == Err(AlreadyExists(Id(visit))) && t.rows == old(t.rows)
  {
    if Id(visit) == "" {
      return Err(InvalidId(Id(visit)));
    }
    var stamped := Stamp(visit, now);
    var item := Encode(stamped, userId);
    Store.VisitPutOk(stamped, userId);
    var put := t.PutItem(item, Condition(mode), failure);
    match put
    case Written => r := Ok(stamped);
    case ConditionFailed => r := Err(AlreadyExists(Id(stamped)));
    case PutFailed(e) => r := Err(Store(e));
  }

  /**
   * `deleteById`: overwrites a live row with a tombstone stamped
   * `stampTime` and returns `deleteTime`, an earlier, separate clock read;
   * when no live row is stored under the key it raises `not_found`, and any
   * other store error is passed on unchanged.
   */
  method DeleteById(t: Store.Table, userId: string, id: string, deleteTime: int, stampTime: int, failure: Option<string>)
    returns (r: Result<int, Error>)
    requires t.Valid()
    modifies t
    ensures t.Valid()
    ensures var k := RowKey(userId, id);
      if failure.Some? then
        r == Err(Store(failure.value)) && t.rows == old(t.rows)
      else if Store.Holds(Store.PresentAndLive, old(t.rows), k) then
        r == Ok(deleteTime) && t.rows == old(t.rows)[k := Encode(Deleted(id, stampTime), userId)]
      else
        r == Err(DeleteNotFound(id)) && t.rows == old(t.rows)
  {
    var tombstone: Visit := Deleted(id, stampTime);
    var item := Encode(tombstone, userId);
    Store.VisitPutOk(tombstone, userId);
    var put := t.PutItem(item, Store.PresentAndLive, failure);
    match put
    case Written => r := Ok(deleteTime);
    case ConditionFailed => r := Err(DeleteNotFound(id));
    case PutFailed(e) => r := Err(Store(e));
  }

  /** A visit written by `addOrUpdate` reads back stamped, as written, when its id has no `#`. */
  lemma {:induction false} GetAfterWrite(rows: map<Key, Record>, userId: string, visit: Visit, now: int)
    requires forall k :: k in rows ==> Store.RowOk(k, rows[k])
    requires '#' !in Id(visit)
    ensures var after := rows[RowKey(userId, Id(visit)) := Encode(Stamp(visit, now), userId)];
      (forall k :: k in after ==> Store.RowOk(k, after[k]))
      && Lookup(after, userId, Id(visit)) == Ok(Stamp(visit, now))
  {
    var stamped := Stamp(visit, now);
    ReadBack(rows, userId, stamped);
    DecodeEncode(stamped, userId);
  }

  /** A visit written under its key is read back as the decoding of its record. */
  lemma ReadBack(rows: map<Key, Record>, userId: string, v: Visit)
    requires forall k :: k in rows ==> Store.RowOk(k, rows[k])
    requires '#' !in Id(v)
    ensures var after := rows[RowKey(userId, Id(v)) := Encode(v, userId)];
      && (forall k :: k in after ==> Store.RowOk(k, after[k]))
      && Lookup(after, userId, Id(v)) == Ok(Decode(Encode(v, userId)))
  {
    Store.VisitPutOk(v, userId);
  }

  /**
   * A deleted visit reads back as a tombstone with the stored stamp; it may
   * be added again, but not deleted again.
   */
  lemma {:induction false} GetAfterDelete(rows: map<Key, Record>, userId: string, id: string, stampTime: int)
    requires forall k :: k in rows ==> Store.RowOk(k, rows[k])
    requires '#' !in id
    ensures var k := RowKey(userId, id);
      var after := rows[k := Encode(Deleted(id, stampTime), userId)];
      && (forall k :: k in after ==> Store.RowOk(k, after[k]))
      && Lookup(after, userId, id) == Ok(Deleted(id, stampTime))
      && Store.Holds(Condition(Add), after, k)
      && !Store.Holds(Store.PresentAndLive, after, k)
  {
    var v: Visit := Deleted(id, stampTime);
    ReadBack(rows, userId, v);
    DecodeEncode(v, userId);
  }
}
