/** The audit helpers of utils/auditHelper.ts: the field diff `getChangedFields`, and the
    four audit statements, each a fixed positional parameter vector sent through the
    gateway's `queryDB`, of whose result the first row (or every row) is returned. */
module AuditHelper {
  import opened Wrappers
  import opened DbClient

  // ---------------------------------------------------------------------------------------
  // getChangedFields
  // ---------------------------------------------------------------------------------------

  /** `oldValues[key]`: `None` stands for the `undefined` of a missing key. */
  function Lookup<V>(m: map<string, V>, key: string): Option<V> {
    if key in m then Some(m[key]) else None
  }

  /** One entry of the result: the value before (possibly `undefined`) and after. */
  datatype Change<V> = Change(before: Option<V>, after: V)

  /** Does `key` of `newValues` hold something other than what `oldValues` held? */
  predicate Differs<V(==)>(oldValues: map<string, V>, newValues: map<string, V>, key: string)
    requires key in newValues
  {
    Lookup(oldValues, key) != Some(newValues[key])
  }

  /** The changed fields, as a value: one entry per key of `newValues` whose value is not the
      one `oldValues` held. */
  function ChangedFields<V(==)>(oldValues: map<string, V>, newValues: map<string, V>): map<string, Change<V>> {
    map key | key in newValues && Differs(oldValues, newValues, key) :: Change(Lookup(oldValues, key), newValues[key])
  }

  /** `getChangedFields`: the `for…in` loop over the keys of `newValues`, in whatever order
      they come, adding an entry to `changes` for each key that differs. */
  method GetChangedFields<V(==)>(oldValues: map<string, V>, newValues: map<string, V>)
    returns (changes: map<string, Change<V>>)
    ensures changes == ChangedFields(oldValues, newValues)
  {
    changes := map[];
    var pending := newValues.Keys;
    while pending != {}
      invariant pending <= newValues.Keys
      invariant forall key :: key in changes <==>
        key in newValues && key !in pending && Differs(oldValues, newValues, key)
      invariant forall key :: key in changes ==> changes[key] == Change(Lookup(oldValues, key), newValues[key])
      decreases pending
    {
      var key :| key in pending;
      if Lookup(oldValues, key) != Some(newValues[key]) {
        changes := changes[key := Change(Lookup(oldValues, key), newValues[key])];
      }
      pending := pending - {key};
    }
  }

  /** A key is reported exactly when `newValues` has it and `oldValues` lacks it or holds
      another value; each entry records both values, the old one absent for a new key. */
  lemma ChangedFieldsExact<V>(oldValues: map<string, V>, newValues: map<string, V>, key: string)
    ensures key in ChangedFields(oldValues, newValues)
        <==> key in newValues && (key !in oldValues || oldValues[key] != newValues[key])
    ensures key in ChangedFields(oldValues, newValues) ==>
      ChangedFields(oldValues, newValues)[key].after == newValues[key]
      && (key in oldValues <==> ChangedFields(oldValues, newValues)[key].before.Some?)
      && (key in oldValues ==> ChangedFields(oldValues, newValues)[key].before.value == oldValues[key])
  {
  }

  /** A key only the old values have, a removed field, is never reported. */
  lemma RemovedFieldsIgnored<V>(oldValues: map<string, V>, newValues: map<string, V>)
    ensures forall key :: key in oldValues && key !in newValues ==> key !in ChangedFields(oldValues, newValues)
  {
  }

  /** Comparing values with themselves reports nothing. */
  lemma NoChangeFromItself<V>(values: map<string, V>)
    ensures ChangedFields(values, values) == map[]
  {
    forall key | key in values ensures !Differs(values, values, key) {
    }
  }

  /** Nothing is reported exactly when every new value is already among the old values. */
  lemma NothingChangedIff<V>(oldValues: map<string, V>, newValues: map<string, V>)
    ensures ChangedFields(oldValues, newValues) == map[]
        <==> forall key :: key in newValues ==> key in oldValues && oldValues[key] == newValues[key]
  {
    if ChangedFields(oldValues, newValues) == map[] {
      forall key | key in newValues ensures key in oldValues && oldValues[key] == newValues[key] {
        assert key !in ChangedFields(oldValues, newValues);
      }
    }
  }

  /** The old values with every reported change applied. */
  function Patch<V>(oldValues: map<string, V>, changes: map<string, Change<V>>): map<string, V> {
    map key | key in oldValues.Keys + changes.Keys :: if key in changes then changes[key].after else oldValues[key]
  }

  /** The diff loses nothing: applying it to the old values yields the new value of every
      key of `newValues`, and keeps every other old value as it was. */
  lemma PatchRestoresNewValues<V>(oldValues: map<string, V>, newValues: map<string, V>)
    ensures var patched := Patch(oldValues, ChangedFields(oldValues, newValues));
      && patched.Keys == oldValues.Keys + newValues.Keys
      && (forall key :: key in newValues ==> patched[key] == newValues[key])
      && (forall key :: key in oldValues && key !in newValues ==> patched[key] == oldValues[key])
  {
    var changes := ChangedFields(oldValues, newValues);
    var patched := Patch(oldValues, changes);
    forall key | key in newValues ensures key in patched && patched[key] == newValues[key] {
      if key !in changes {
        assert !Differs(oldValues, newValues, key);
      }
    }
  }

  // ---------------------------------------------------------------------------------------
  // The audit statements
  // ---------------------------------------------------------------------------------------

  /** The `action` column. */
  datatype AuditAction = Create | Update | Delete

  function Tag(action: AuditAction): string {
    match action
    case Create => "CREATE"
    case Update => "UPDATE"
    case Delete => "DELETE"
  }

  function Untag(tag: string): (action: Option<AuditAction>)
    ensures action.Some? ==> Tag(action.value) == tag
  {
    if tag == "CREATE" then Some(Create)
    else if tag == "UPDATE" then Some(Update)
    else if tag == "DELETE" then Some(Delete)
    else None
  }

  /** A serialised value or SQL `null`. */
  function OrNull(text: Option<string>): Value {
    match text
    case Some(s) => Text(s)
    case None => Null
  }

  /** The parameter vector of the audit insert: `$1` group, `$2` action, `$3` old values,
      `$4` new values, `$5` user. */
  function InsertParams(groupId: int, action: AuditAction, oldJson: Option<string>, newJson: Option<string>,
                        userId: string): (params: seq<Value>)
    ensures |params| == 5
  {
    [Number(groupId), Text(Tag(action)), OrNull(oldJson), OrNull(newJson), Text(userId)]
  }

  /** What the audit table receives from a parameter vector: the five columns, or `None`
      for a vector of another shape. */
  datatype AuditColumns = AuditColumns(groupId: int, action: AuditAction, oldJson: Option<string>,
                                       newJson: Option<string>, userId: string)

  function ColumnOrNull(v: Value): Option<Option<string>> {
    match v
    case Null => Some(None)
    case Text(s) => Some(Some(s))
    case Number(_) => None
  }

  function Columns(params: seq<Value>): Option<AuditColumns> {
    if |params| != 5 || !params[0].Number? || !params[1].Text? || !params[4].Text? then None
    else
      match (Untag(params[1].s), ColumnOrNull(params[2]), ColumnOrNull(params[3]))
      case (Some(action), Some(oldJson), Some(newJson)) =>
        Some(AuditColumns(params[0].n, action, oldJson, newJson, params[4].s))
      case _ => None
  }

  /** The vector is read back, column by column, as the arguments it was built from; so
      different audit records never share a vector. */
  lemma InsertParamsRoundTrip(groupId: int, action: AuditAction, oldJson: Option<string>, newJson: Option<string>,
                              userId: string)
    ensures Columns(InsertParams(groupId, action, oldJson, newJson, userId))
         == Some(AuditColumns(groupId, action, oldJson, newJson, userId))
  {
    var params := InsertParams(groupId, action, oldJson, newJson, userId);
    assert Untag(Tag(action)) == Some(action);
    assert ColumnOrNull(params[2]) == Some(oldJson) && ColumnOrNull(params[3]) == Some(newJson);
  }

  /** Every well-formed vector is the image of exactly one audit record. */
  lemma ColumnsInverse(params: seq<Value>)
    requires Columns(params).Some?
    ensures var c := Columns(params).value;
      InsertParams(c.groupId, c.action, c.oldJson, c.newJson, c.userId) == params
  {
    var c := Columns(params).value;
    assert Tag(c.action) == params[1].s;
    assert OrNull(c.oldJson) == params[2] && OrNull(c.newJson) == params[3];
  }

  /** `result[0]`: the first row, `undefined` when there is none. */
  function FirstRow(rows: seq<Row>): Option<Row> {
    if rows == [] then None else Some(rows[0])
  }

  /** What an audit insert returns: the statement's first row, or the error it threw. */
  function Inserted(result: Result<seq<Row>, DbError>): Result<Option<Row>, DbError> {
    match result
    case Success(rows) => Success(FirstRow(rows))
    case Failure(e) => Failure(e)
  }

  /** An audit insert on an existing pool whose statement returns one row returns that row;
      one that throws rethrows the driver's error. */
  lemma InsertedFromQuery(replies: nat -> Reply, n: nat, sql: string, params: seq<Value>, row: Row, e: DbError)
    requires replies(n).Answer?
    ensures replies(n + 1) == Answer([row]) ==> Inserted(QueryRun(true, replies, n, sql, params).result) == Success(Some(row))
    ensures replies(n + 1) == Refuse(e) ==> Inserted(QueryRun(true, replies, n, sql, params).result) == Failure(e)
  {
  }

  /** `logCreate(groupId, userId)`, with the text of the audit insert as `insertAuditLog`. */
  method LogCreate(db: Gateway, insertAuditLog: string, groupId: int, userId: string)
    returns (r: Result<Option<Row>, DbError>)
    requires db.Valid()
    modifies db
    ensures db.Valid()
    ensures var run := QueryRun(old(db.pool) != null, db.replies, old(db.calls), insertAuditLog,
                                InsertParams(groupId, Create, None, None, userId));
      db.log == old(db.log) + run.events && db.calls == run.next && r == Inserted(run.result)
  {
    var result := db.QueryDB(insertAuditLog, InsertParams(groupId, Create, None, None, userId));
    r := Inserted(result);
  }

  /** `logUpdate(groupId, oldValues, newValues, userId)`; `serialise` stands for
      `JSON.stringify`. */
  method LogUpdate<V>(db: Gateway, insertAuditLog: string, serialise: map<string, V> -> string, groupId: int,
                      oldValues: map<string, V>, newValues: map<string, V>, userId: string)
    returns (r: Result<Option<Row>, DbError>)
    requires db.Valid()
    modifies db
    ensures db.Valid()
    ensures var run := QueryRun(old(db.pool) != null, db.replies, old(db.calls), insertAuditLog,
                                InsertParams(groupId, Update, Some(serialise(oldValues)), Some(serialise(newValues)), userId));
      db.log == old(db.log) + run.events && db.calls == run.next && r == Inserted(run.result)
  {
    var params := InsertParams(groupId, Update, Some(serialise(oldValues)), Some(serialise(newValues)), userId);
    var result := db.QueryDB(insertAuditLog, params);
    r := Inserted(result);
  }

  /** `logDelete(groupId, userId)`. */
  method LogDelete(db: Gateway, insertAuditLog: string, groupId: int, userId: string)
    returns (r: Result<Option<Row>, DbError>)
    requires db.Valid()
    modifies db
    ensures db.Valid()
    ensures var run := QueryRun(old(db.pool) != null, db.replies, old(db.calls), insertAuditLog,
                                InsertParams(groupId, Delete, None, None, userId));
      db.log == old(db.log) + run.events && db.calls == run.next && r == Inserted(run.result)
  {
    var result := db.QueryDB(insertAuditLog, InsertParams(groupId, Delete, None, None, userId));
    r := Inserted(result);
  }

  /** `getAuditHistory(groupId)`: the rows of the history query, unchanged. */
  method GetAuditHistory(db: Gateway, groupAuditHistory: string, groupId: int) returns (r: Result<seq<Row>, DbError>)
    requires db.Valid()
    modifies db
    ensures db.Valid()
    ensures var run := QueryRun(old(db.pool) != null, db.replies, old(db.calls), groupAuditHistory, [Number(groupId)]);
      db.log == old(db.log) + run.events && db.calls == run.next && r == run.result
  {
    r := db.QueryDB(groupAuditHistory, [Number(groupId)]);
  }

  /** Creations and deletions carry no values, updates carry both; and the three actions
      never share a vector. */
  lemma ActionsDistinguishable(groupId: int, userId: string, oldJson: string, newJson: string)
    ensures InsertParams(groupId, Create, None, None, userId)[2..4] == [Null, Null]
    ensures InsertParams(groupId, Delete, None, None, userId)[2..4] == [Null, Null]
    ensures InsertParams(groupId, Update, Some(oldJson), Some(newJson), userId)[2..4] == [Text(oldJson), Text(newJson)]
    ensures InsertParams(groupId, Create, None, None, userId) != InsertParams(groupId, Delete, None, None, userId)
  {
    InsertParamsRoundTrip(groupId, Create, None, None, userId);
    InsertParamsRoundTrip(groupId, Delete, None, None, userId);
  }
}
