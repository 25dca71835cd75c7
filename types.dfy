/**
 * Shared shapes of the record store: the storage record (a DynamoDB item,
 * an attribute map), the soft-delete union of domain entities, the two type
 * guards on the presence of `deleted`, and the service error.
 */
module Types {
  import opened Wrappers

  /** A DynamoDB attribute value; numbers are kept as integers (`toString` and unary `+` cancel out). */
  datatype AttributeValue = S(s: string) | N(n: int) | BOOL(b: bool) | SS(ss: seq<string>)

  /** A storage record: attribute name to value. */
  type Record = map<string, AttributeValue>

  /** The primary key of the table: (partition key `userId`, sort key `sortKey`). */
  type Key = (string, string)

  /** `Deletable<T>`: a live object, or a tombstone `{id, deleted: true, updatedAt}`. */
  datatype Deletable<T> = Live(value: T) | Deleted(id: string, updatedAt: int)

  /** `objectIsValid`: the entity has no `deleted` field, i.e. it is live. */
  predicate ObjectIsValid<T>(t: Deletable<T>) {
    !t.Deleted?
  }

  /** `recordIsValid`: the record has no `deleted` attribute, i.e. it stores a live entity. */
  predicate RecordIsValid(r: Record) {
    "deleted" !in r
  }

  /** The string held by attribute `name`, or "" when it is absent or not a string. */
  function StringAttr(r: Record, name: string): string {
    if name in r && r[name].S? then r[name].s else ""
  }

  /** The number held by attribute `name`, or 0 when it is absent or not a number. */
  function NumberAttr(r: Record, name: string): int {
    if name in r && r[name].N? then r[name].n else 0
  }

  /** The primary key a record is stored under. */
  function KeyOf(r: Record): Key {
    (StringAttr(r, "userId"), StringAttr(r, "sortKey"))
  }

  function UpdatedAtOf(r: Record): int {
    NumberAttr(r, "updatedAt")
  }

  const TombstoneAttributes: set<string> := {"userId", "sortKey", "updatedAt", "deleted"}

  /** The minimal record written for a deleted entity of either kind. */
  function TombstoneRecord(userId: string, sortKey: string, updatedAt: int): (r: Record)
    ensures r.Keys == TombstoneAttributes && r["deleted"] == BOOL(true)
    ensures KeyOf(r) == (userId, sortKey) && r["userId"] == S(userId) && r["sortKey"] == S(sortKey)
    ensures r["updatedAt"] == N(updatedAt) && UpdatedAtOf(r) == updatedAt
    ensures !RecordIsValid(r)
  {
    map["userId" := S(userId), "sortKey" := S(sortKey), "updatedAt" := N(updatedAt), "deleted" := BOOL(true)]
  }

  /** A record with exactly the tombstone attributes is the tombstone record of its own key and timestamp. */
  lemma TombstoneRecordOf(r: Record)
    requires r.Keys == TombstoneAttributes && r["deleted"] == BOOL(true)
    requires r["userId"].S? && r["sortKey"].S? && r["updatedAt"].N?
    ensures r == TombstoneRecord(r["userId"].s, r["sortKey"].s, r["updatedAt"].n)
  {
    var e := TombstoneRecord(r["userId"].s, r["sortKey"].s, r["updatedAt"].n);
    assert forall a | a in TombstoneAttributes :: e[a] == r[a];
  }

  /** `ServiceError`: the constructor stores its three arguments as given. */
  datatype ServiceError = ServiceError(message: string, reason: Option<string>, action: Option<string>)

  /** What an operation can throw. */
  datatype Error =
    | Service(serviceError: ServiceError)  // a ServiceError (not_found, already_exists)
    | Thrown(message: string)              // a bare string thrown by the code itself
    | Store(message: string)               // an error of the store, passed on unchanged
    | TypeError(message: string)           // a JavaScript runtime TypeError
}
