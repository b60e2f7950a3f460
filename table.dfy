/**
 * The record-level contract every resource controller implements on top of
 * its database session: paginated list, lookup by id (optionally scoped to a
 * parent vehicle), create, full update (PUT), partial update (PATCH) and
 * delete, with commit on success and rollback on failure.
 *
 * One generic table, parameterised by the resource's `Schema`, serves the
 * vehicle, gas, insurance and autolog controllers.
 */
module ResourceTable {
  import opened Values

  /**
   * What the controllers need to know about one resource: its table columns,
   * the fields of its pydantic Create schema (the only ones a request body can
   * carry), which of those are required, the defaults of the others, and the
   * foreign-key column naming the owning vehicle, if any.
   */
  datatype Schema<C> = Schema(
    resource: string,
    columns: set<C>,
    fields: set<C>,
    required: set<C>,
    defaults: map<C, Value>,
    parent: Option<C>,
    id: C,
    createDate: C,
    updateDate: C)

  /** The columns the server manages: the primary key and the two timestamps. */
  predicate IsSystemColumn<C>(s: Schema<C>, c: C) {
    c == s.id || c == s.createDate || c == s.updateDate
  }

  predicate WellFormed<C>(s: Schema<C>) {
    && s.id in s.columns && s.createDate in s.columns && s.updateDate in s.columns
    && s.id != s.createDate && s.id != s.updateDate && s.createDate != s.updateDate
    && s.fields <= s.columns
    && (forall f :: f in s.fields ==> !IsSystemColumn(s, f))
    && s.required <= s.fields
    && s.defaults.Keys == s.fields - s.required
    && (s.parent.Some? ==>
          s.parent.value in s.columns && s.parent.value !in s.fields && !IsSystemColumn(s, s.parent.value))
  }

  /**
   * A request body as the set of fields the client actually sent (a field
   * sent as `null` is sent, with value `Null`). Pydantic has already dropped
   * unknown keys and rejected a body missing a required field or sending
   * `null` for one. It accepts `null` only for an `Optional` field, which
   * in every schema here is exactly a field whose default is `None`.
   */
  predicate ValidBody<C>(s: Schema<C>, body: Row<C>) {
    && body.Keys <= s.fields
    && s.required <= body.Keys
    && (forall f :: f in s.required ==> body[f] != Null)
    && (forall f :: f in body && body[f] == Null ==> f in s.defaults && s.defaults[f] == Null)
  }

  /** Whether a request addresses rows directly or through a parent vehicle id in its path. */
  datatype Scope = Unscoped | Owner(vehicleId: int)

  predicate ScopeFits<C>(s: Schema<C>, scope: Scope) {
    scope.Owner? <==> s.parent.Some?
  }

  /** The row belongs to the scope: always when unscoped, else its parent column holds the vehicle id. */
  predicate OwnedBy<C>(s: Schema<C>, row: Row<C>, scope: Scope) {
    match scope
    case Unscoped => true
    case Owner(v) => s.parent.Some? && s.parent.value in row && row[s.parent.value] == IntV(v)
  }

  /** The lookup `filter(id == ..., [vehicle_id == ...]).first()` finds a row. */
  predicate Matches<C>(s: Schema<C>, rows: map<int, Row<C>>, id: int, scope: Scope) {
    id in rows && OwnedBy(s, rows[id], scope)
  }

  /** A stored row has exactly the table's columns and its own id in the id column. */
  predicate RowFits<C>(s: Schema<C>, id: int, row: Row<C>) {
    row.Keys == s.columns && s.id in row && row[s.id] == IntV(id)
  }

  /** The outcome of a handler: a value, an HTTP 404 or an HTTP 500, each with its detail text. */
  datatype Reply<+T> = Ok(value: T) | NotFound(detail: string) | Internal(detail: string)

  function InternalError(msg: string): (r: string)
    ensures |r| > |msg| && r[|r| - |msg|..] == msg
  {
    "Internal server error: " + msg
  }

  /** `serialize_sqlalchemy_obj`: one entry per declared column holding the record's current value. */
  function Serialize<C>(s: Schema<C>, row: Row<C>): (r: Row<C>)
    requires s.columns <= row.Keys
    ensures r.Keys == s.columns
    ensures forall c :: c in r ==> r[c] == row[c]
    ensures row.Keys == s.columns ==> r == row
  {
    map c | c in s.columns :: row[c]
  }

  /** The SQL offset of a page: `(page - 1) * limit`. */
  function Offset(page: int, limit: int): (r: nat)
    requires page >= 1 && limit >= 1
    ensures page == 1 ==> r == 0
    ensures page > 1 ==> r >= limit
  {
    assert (page - 1) * limit >= 0 && (page > 1 ==> (page - 1) * limit >= limit) by {
      if page > 1 {
        assert (page - 1) * limit == (page - 2) * limit + limit;
        assert (page - 2) * limit >= 0;
      }
    }
    (page - 1) * limit
  }

  /** `OFFSET offset LIMIT limit` over rows in the store's order. */
  function Window<T>(xs: seq<T>, offset: nat, limit: nat): (r: seq<T>)
    ensures |r| <= limit
    ensures offset >= |xs| ==> r == []
    ensures offset < |xs| ==> |r| == if offset + limit <= |xs| then limit else |xs| - offset
    ensures forall i :: 0 <= i < |r| ==> offset + i < |xs| && r[i] == xs[offset + i]
  {
    if offset >= |xs| then []
    else if offset + limit <= |xs| then xs[offset..offset + limit]
    else xs[offset..]
  }

  /** Two consecutive pages together are the double-sized window starting at the first. */
  lemma PagesTile<T>(xs: seq<T>, page: int, limit: int)
    requires page >= 1 && limit >= 1
    ensures Window(xs, Offset(page, limit), limit) + Window(xs, Offset(page + 1, limit), limit)
         == Window(xs, Offset(page, limit), 2 * limit)
  {
    var o := Offset(page, limit);
    assert Offset(page + 1, limit) == o + limit by {
      assert page * limit == (page - 1) * limit + limit;
    }
    var a, b := Window(xs, o, limit), Window(xs, o + limit, limit);
    var w := Window(xs, o, 2 * limit);
    assert |a + b| == |w|;
    forall i | 0 <= i < |w| ensures (a + b)[i] == w[i] {
      if i >= |a| { assert |a| == limit; }
    }
  }

  /** The ids in the store's natural order whose rows belong to the scope (`query.filter(...)`). */
  function Visible<C>(s: Schema<C>, rows: map<int, Row<C>>, order: seq<int>, scope: Scope): (r: seq<int>)
    ensures |r| <= |order|
    ensures forall i :: 0 <= i < |r| ==> Matches(s, rows, r[i], scope) && r[i] in order
  {
    if order == [] then []
    else
      var rest := Visible(s, rows, order[..|order| - 1], scope);
      var last := order[|order| - 1];
      if Matches(s, rows, last, scope) then rest + [last] else rest
  }

  /** Every row of the scope that the order lists is visible to the list handler. */
  lemma {:induction false} VisibleComplete<C>(s: Schema<C>, rows: map<int, Row<C>>, order: seq<int>, scope: Scope, id: int)
    requires id in order && Matches(s, rows, id, scope)
    ensures id in Visible(s, rows, order, scope)
  {
    var last := order[|order| - 1];
    if id != last {
      assert order == order[..|order| - 1] + [last];
      assert id in order[..|order| - 1];
      VisibleComplete(s, rows, order[..|order| - 1], scope, id);
    }
  }

  /** An unscoped list sees the whole natural order. */
  lemma {:induction false} VisibleUnscoped<C>(s: Schema<C>, rows: map<int, Row<C>>, order: seq<int>)
    requires forall i :: 0 <= i < |order| ==> order[i] in rows
    ensures Visible(s, rows, order, Unscoped) == order
  {
    if order != [] {
      VisibleUnscoped(s, rows, order[..|order| - 1]);
      assert order == order[..|order| - 1] + [order[|order| - 1]];
    }
  }

  /** In a store without repeated ids, each position of the order holds the id `IndexOf` finds. */
  lemma IndexOfAt(order: seq<int>, k: int)
    requires Distinct(order) && 0 <= k < |order|
    ensures IndexOf(order, order[k]) == k
  {
  }

  /** An id of the order without its last entry keeps its position in the whole order. */
  lemma IndexOfPrefix(order: seq<int>, id: int)
    requires Distinct(order) && |order| > 0 && id in order[..|order| - 1]
    ensures IndexOf(order, id) == IndexOf(order[..|order| - 1], id)
  {
    var k := IndexOf(order[..|order| - 1], id);
    IndexOfAt(order, k);
  }

  /**
   * The filtered query keeps the store's natural order and lists no id twice:
   * the rows of a scope come out as a subsequence of the order.
   */
  lemma {:induction false} VisibleInOrder<C>(s: Schema<C>, rows: map<int, Row<C>>, order: seq<int>, scope: Scope)
    requires Distinct(order)
    ensures Distinct(Visible(s, rows, order, scope))
    ensures forall i, j :: 0 <= i < j < |Visible(s, rows, order, scope)| ==>
      IndexOf(order, Visible(s, rows, order, scope)[i]) < IndexOf(order, Visible(s, rows, order, scope)[j])
  {
    var r := Visible(s, rows, order, scope);
    if order != [] {
      var n := |order| - 1;
      var prefix := order[..n];
      var last := order[n];
      var rest := Visible(s, rows, prefix, scope);
      assert Distinct(prefix);
      VisibleInOrder(s, rows, prefix, scope);
      forall i | 0 <= i < |rest| ensures IndexOf(order, rest[i]) == IndexOf(prefix, rest[i]) < n {
        IndexOfPrefix(order, rest[i]);
      }
      if Matches(s, rows, last, scope) {
        assert r == rest + [last];
        IndexOfAt(order, n);
        forall i, j | 0 <= i < j < |r| ensures IndexOf(order, r[i]) < IndexOf(order, r[j]) {
          if j < |rest| {
            assert r[i] == rest[i] && r[j] == rest[j];
          } else {
            assert r[i] == rest[i] && r[j] == last;
          }
        }
      }
      forall i, j | 0 <= i < j < |r| ensures r[i] != r[j] {
        assert IndexOf(order, r[i]) < IndexOf(order, r[j]);
      }
    }
  }

  /** The serialized rows of a list of ids. */
  function Render<C>(s: Schema<C>, rows: map<int, Row<C>>, ids: seq<int>): (r: seq<Row<C>>)
    requires forall i :: 0 <= i < |ids| ==> ids[i] in rows && s.columns <= rows[ids[i]].Keys
    ensures |r| == |ids|
    ensures forall i :: 0 <= i < |r| ==> r[i] == Serialize(s, rows[ids[i]])
  {
    if ids == [] then []
    else Render(s, rows, ids[..|ids| - 1]) + [Serialize(s, rows[ids[|ids| - 1]])]
  }

  /**
   * The `setattr(record, key, value)` loop over a body dict: every key of
   * `data` takes its value from `data`, every other attribute keeps its value.
   */
  method SetAttrs<C>(record: Row<C>, data: Row<C>) returns (r: Row<C>)
    ensures r.Keys == record.Keys + data.Keys
    ensures forall k :: k in data ==> r[k] == data[k]
    ensures forall k :: k in record && k !in data ==> r[k] == record[k]
    ensures r == record + data
  {
    r := record;
    var pending := data.Keys;
    while pending != {}
      invariant pending <= data.Keys
      invariant r.Keys == record.Keys + (data.Keys - pending)
      invariant forall k :: k in data && k !in pending ==> r[k] == data[k]
      invariant forall k :: k in record && k !in data ==> r[k] == record[k]
      decreases pending
    {
      var k :| k in pending;
      r := r[k := data[k]];
      pending := pending - {k};
    }
  }

  /** A fresh instance before the body is applied: the new id, the parent id from the path, every other column NULL. */
  function Blank<C>(s: Schema<C>, id: int, scope: Scope): (r: Row<C>)
    requires WellFormed(s) && ScopeFits(s, scope)
    ensures RowFits(s, id, r) && OwnedBy(s, r, scope)
  {
    map c | c in s.columns ::
      if c == s.id then IntV(id)
      else if scope.Owner? && s.parent == Some(c) then IntV(scope.vehicleId)
      else Null
  }

  /** The row a successful create stores: only sent fields written, both timestamps `now`. */
  function NewRow<C>(s: Schema<C>, id: int, scope: Scope, body: Row<C>, now: Moment): (r: Row<C>)
    requires WellFormed(s) && ValidBody(s, body) && ScopeFits(s, scope)
    ensures RowFits(s, id, r) && OwnedBy(s, r, scope)
    ensures r[s.createDate] == TimeV(now) && r[s.updateDate] == TimeV(now)
    ensures forall f :: f in body ==> r[f] == body[f]
    ensures forall c :: c in s.columns && c !in body && !IsSystemColumn(s, c) && s.parent != Some(c) ==> r[c] == Null
  {
    (Blank(s, id, scope) + body)[s.createDate := TimeV(now)][s.updateDate := TimeV(now)]
  }

  /**
   * `model_dump(exclude_unset=False)`: every field of the Create schema, with
   * the sent value where there is one and the schema default otherwise.
   */
  function PutData<C>(s: Schema<C>, body: Row<C>): (r: Row<C>)
    requires WellFormed(s) && ValidBody(s, body)
    ensures r.Keys == s.fields
    ensures forall f :: f in body ==> r[f] == body[f]
    ensures forall f :: f in s.fields && f !in body ==> r[f] == s.defaults[f]
  {
    map f | f in s.fields :: if f in body then body[f] else s.defaults[f]
  }

  /** A stored row after the setattr loop over `data` and the refresh of `update_date`. */
  function Updated<C>(s: Schema<C>, row: Row<C>, data: Row<C>, now: Moment): (r: Row<C>)
    ensures r.Keys == row.Keys + data.Keys + {s.updateDate}
    ensures r[s.updateDate] == TimeV(now)
    ensures forall k :: k in data && k != s.updateDate ==> r[k] == data[k]
    ensures forall k :: k in row && k !in data && k != s.updateDate ==> r[k] == row[k]
  {
    (row + data)[s.updateDate := TimeV(now)]
  }

  /** PUT writes the schema default into every field the body left out. */
  lemma PutResetsUnsent<C>(s: Schema<C>, row: Row<C>, body: Row<C>, now: Moment, f: C)
    requires WellFormed(s) && ValidBody(s, body)
    requires f in s.fields && f !in body
    ensures Updated(s, row, PutData(s, body), now)[f] == s.defaults[f]
  {
  }

  /** PATCH leaves every field the body left out as it was. */
  lemma PatchKeepsUnsent<C>(s: Schema<C>, row: Row<C>, body: Row<C>, now: Moment, f: C)
    requires f in row && f !in body && f != s.updateDate
    ensures Updated(s, row, body, now)[f] == row[f]
  {
  }

  /** Neither PUT nor PATCH touches id, create_date or the parent column: no body can carry them. */
  lemma UpdateKeepsIdentity<C>(s: Schema<C>, row: Row<C>, body: Row<C>, now: Moment, c: C)
    requires WellFormed(s) && ValidBody(s, body) && c in row
    requires c == s.id || c == s.createDate || s.parent == Some(c)
    ensures Updated(s, row, PutData(s, body), now)[c] == row[c]
    ensures Updated(s, row, body, now)[c] == row[c]
  {
  }

  /** The result of a PUT does not depend on the prior values of the schema's fields. */
  lemma PutForgetsPrior<C>(s: Schema<C>, row1: Row<C>, row2: Row<C>, body: Row<C>, now: Moment)
    requires WellFormed(s) && ValidBody(s, body)
    requires row1.Keys == row2.Keys == s.columns
    requires forall c :: c in s.columns && c !in s.fields ==> row1[c] == row2[c]
    ensures Updated(s, row1, PutData(s, body), now) == Updated(s, row2, PutData(s, body), now)
  {
    var a, b := Updated(s, row1, PutData(s, body), now), Updated(s, row2, PutData(s, body), now);
    assert a.Keys == b.Keys;
    forall c | c in a ensures a[c] == b[c] {
      if c !in s.fields && c != s.updateDate {
        assert a[c] == row1[c];
      }
    }
  }

  /** PUT and PATCH agree exactly when the body sends every field whose default differs from the prior value. */
  lemma PutIsPatchWithDefaults<C>(s: Schema<C>, row: Row<C>, body: Row<C>, now: Moment)
    requires WellFormed(s) && ValidBody(s, body) && s.columns <= row.Keys
    ensures Updated(s, row, PutData(s, body), now) == Updated(s, row, body, now)
        <==> (forall f :: f in s.fields && f !in body ==> row[f] == s.defaults[f])
  {
    var put, patch := Updated(s, row, PutData(s, body), now), Updated(s, row, body, now);
    if forall f :: f in s.fields && f !in body ==> row[f] == s.defaults[f] {
      assert put.Keys == patch.Keys;
      forall k | k in put ensures put[k] == patch[k] {
        if k in s.fields && k !in body && k != s.updateDate {
          assert put[k] == s.defaults[k];
        }
      }
    } else {
      var f :| f in s.fields && f !in body && row[f] != s.defaults[f];
      assert put[f] != patch[f];
    }
  }

  /** Sending the same PATCH twice leaves the row as one PATCH at the later time would. */
  lemma PatchIdempotent<C>(s: Schema<C>, row: Row<C>, body: Row<C>, t1: Moment, t2: Moment)
    ensures Updated(s, Updated(s, row, body, t1), body, t2) == Updated(s, row, body, t2)
  {
    var a, b := Updated(s, Updated(s, row, body, t1), body, t2), Updated(s, row, body, t2);
    assert a.Keys == b.Keys;
  }

  /**
   * The column declarations agree with the Create schema: the primary key and
   * the parent key are non-null integers, the timestamps are datetimes, every
   * non-nullable data column is a required field, and every default fits its column.
   */
  predicate TypesAgree<C>(s: Schema<C>, types: map<C, ColumnType>) {
    && types.Keys == s.columns
    && s.id in types && types[s.id] == ColumnType(IntKind, false)
    && s.createDate in types && types[s.createDate].kind == TimeKind
    && s.updateDate in types && types[s.updateDate].kind == TimeKind
    && (s.parent.Some? ==> s.parent.value in types && types[s.parent.value] == ColumnType(IntKind, false))
    && (forall c :: c in types && !types[c].nullable && !IsSystemColumn(s, c) && s.parent != Some(c) ==> c in s.required)
    && (forall f :: f in s.defaults ==> f in types && Conforms(s.defaults[f], types[f]))
  }

  /** Pydantic's type check: every sent value fits its column. */
  predicate BodyConforms<C>(types: map<C, ColumnType>, body: Row<C>) {
    forall f :: f in body ==> f in types && Conforms(body[f], types[f])
  }

  /** A row the database accepts: the declared columns, each holding a value that fits it. */
  predicate RowConforms<C>(types: map<C, ColumnType>, row: Row<C>) {
    row.Keys == types.Keys && forall c :: c in row ==> Conforms(row[c], types[c])
  }

  /** A created row satisfies every NOT NULL constraint: the schema requires exactly the non-nullable fields. */
  lemma NewRowConforms<C>(s: Schema<C>, types: map<C, ColumnType>, id: int, scope: Scope, body: Row<C>, now: Moment)
    requires WellFormed(s) && TypesAgree(s, types) && ScopeFits(s, scope)
    requires ValidBody(s, body) && BodyConforms(types, body)
    ensures RowConforms(types, NewRow(s, id, scope, body, now))
  {
    var r := NewRow(s, id, scope, body, now);
    forall c | c in r ensures Conforms(r[c], types[c]) {
      if c in body || IsSystemColumn(s, c) {
      } else if s.parent == Some(c) {
        assert scope.Owner?;
      } else {
        assert c !in s.required;
      }
    }
  }

  /** PUT with a well-typed body keeps a conforming row conforming, defaults included. */
  lemma PutConforms<C>(s: Schema<C>, types: map<C, ColumnType>, row: Row<C>, body: Row<C>, now: Moment)
    requires WellFormed(s) && TypesAgree(s, types) && RowConforms(types, row)
    requires ValidBody(s, body) && BodyConforms(types, body)
    ensures RowConforms(types, Updated(s, row, PutData(s, body), now))
  {
    var data := PutData(s, body);
    assert BodyConforms(types, data) by {
      forall f | f in data ensures f in types && Conforms(data[f], types[f]) {
        if f !in body { assert f in s.defaults; }
      }
    }
    PatchConforms(s, types, row, data, now);
  }

  /** PATCH with a well-typed body keeps a conforming row conforming. */
  lemma PatchConforms<C>(s: Schema<C>, types: map<C, ColumnType>, row: Row<C>, body: Row<C>, now: Moment)
    requires RowConforms(types, row) && BodyConforms(types, body)
    requires s.updateDate in types && types[s.updateDate].kind == TimeKind
    ensures RowConforms(types, Updated(s, row, body, now))
  {
    var r := Updated(s, row, body, now);
    assert r.Keys == types.Keys;
    forall c | c in r ensures Conforms(r[c], types[c]) {
      if c != s.updateDate && c !in body { assert r[c] == row[c]; }
    }
  }

  /** Position of an id in the natural order. */
  function IndexOf(order: seq<int>, id: int): (k: nat)
    requires id in order
    ensures k < |order| && order[k] == id
  {
    if order[0] == id then 0 else 1 + IndexOf(order[1..], id)
  }

  /** The natural order after the store deletes `id`: every other id keeps its relative position. */
  function Erase(order: seq<int>, id: int): (r: seq<int>)
    requires id in order
  {
    var k := IndexOf(order, id);
    order[..k] + order[k + 1..]
  }

  predicate Distinct(order: seq<int>) {
    forall i, j :: 0 <= i < j < |order| ==> order[i] != order[j]
  }

  lemma EraseMembers(order: seq<int>, id: int)
    requires id in order && Distinct(order)
    ensures Distinct(Erase(order, id))
    ensures forall x :: x in Erase(order, id) <==> x in order && x != id
  {
    var k := IndexOf(order, id);
    var r := Erase(order, id);
    assert forall i :: 0 <= i < |r| ==> r[i] == if i < k then order[i] else order[i + 1];
    forall x | x in order && x != id ensures x in r {
      var i :| 0 <= i < |order| && order[i] == x;
      if i < k { assert r[i] == x; } else { assert r[i - 1] == x; }
    }
  }

  /**
   * The table invariant: the natural order lists each stored id once, every
   * stored id is below the next id the sequence hands out, and every row has
   * exactly the table's columns.
   */
  ghost predicate TableInv<C>(s: Schema<C>, rows: map<int, Row<C>>, order: seq<int>, nextId: int) {
    && WellFormed(s)
    && Distinct(order)
    && (forall id :: id in rows <==> id in order)
    && (forall i :: 0 <= i < |order| ==> order[i] in rows)
    && (forall id :: id in rows ==> id < nextId && RowFits(s, id, rows[id]))
  }

  lemma InsertKeepsInv<C>(s: Schema<C>, rows: map<int, Row<C>>, order: seq<int>, nextId: int, record: Row<C>)
    requires TableInv(s, rows, order, nextId) && RowFits(s, nextId, record)
    ensures nextId !in rows
    ensures TableInv(s, rows[nextId := record], order + [nextId], nextId + 1)
  {
    assert nextId !in order;
    var o := order + [nextId];
    forall i, j | 0 <= i < j < |o| ensures o[i] != o[j] {
      if j < |order| { assert o[i] == order[i] && o[j] == order[j]; }
      else { assert o[i] == order[i] && o[i] in order; }
    }
  }

  lemma ReplaceKeepsInv<C>(s: Schema<C>, rows: map<int, Row<C>>, order: seq<int>, nextId: int, id: int, record: Row<C>)
    requires TableInv(s, rows, order, nextId) && id in rows && RowFits(s, id, record)
    ensures TableInv(s, rows[id := record], order, nextId)
  {
  }

  lemma RemoveKeepsInv<C>(s: Schema<C>, rows: map<int, Row<C>>, order: seq<int>, nextId: int, id: int)
    requires TableInv(s, rows, order, nextId) && id in rows
    ensures id in order
    ensures TableInv(s, rows - {id}, Erase(order, id), nextId)
  {
    EraseMembers(order, id);
  }

  /**
   * A database table behind one resource controller: the stored rows by id,
   * the store's natural row order (what an unordered SELECT returns) and the
   * next id its sequence hands out.
   */
  class Table<C(==)> {
    const schema: Schema<C>
    var rows: map<int, Row<C>>
    var order: seq<int>
    var nextId: int

    ghost predicate Valid()
      reads this
    {
      TableInv(schema, rows, order, nextId)
    }

    /** An empty table whose id sequence starts at 1. */
    constructor (schema: Schema<C>)
      requires WellFormed(schema)
      ensures Valid() && this.schema == schema
      ensures rows == map[] && order == [] && nextId == 1
    {
      this.schema := schema;
      rows := map[];
      order := [];
      nextId := 1;
    }

    /**
     * The list handler: the rows of the scope from offset `(page - 1) * limit`
     * in natural order, at most `limit` of them; past the end the page is empty.
     * `fault` is a failing query.
     */
    function List(page: int, limit: int, scope: Scope, fault: Option<string>): (r: Reply<seq<Row<C>>>)
      reads this
      requires Valid() && page >= 1 && 1 <= limit <= 100
      ensures fault.Some? ==> r == Internal(InternalError(fault.value))
      ensures fault.None? ==> r.Ok? && |r.value| <= limit
      ensures fault.None? ==> forall i :: 0 <= i < |r.value| ==> OwnedBy(schema, r.value[i], scope)
      ensures fault.None? && Offset(page, limit) >= |Visible(schema, rows, order, scope)| ==> r == Ok([])
      ensures fault.None? ==>
        r.value == Render(schema, rows, Window(Visible(schema, rows, order, scope), Offset(page, limit), limit))
    {
      if fault.Some? then Internal(InternalError(fault.value))
      else
        var ids := Window(Visible(schema, rows, order, scope), Offset(page, limit), limit);
        var page := Render(schema, rows, ids);
        assert forall i :: 0 <= i < |page| ==> page[i] == rows[ids[i]];
        Ok(page)
    }

    /** The get handler: the serialized row matching id (and scope), NotFound(missing) otherwise. */
    function Get(id: int, scope: Scope, fault: Option<string>, missing: string): (r: Reply<Row<C>>)
      reads this
      requires Valid()
      ensures fault.Some? ==> r == Internal(InternalError(fault.value))
      ensures fault.None? ==> (r.NotFound? <==> !Matches(schema, rows, id, scope))
      ensures r.NotFound? ==> r.detail == missing
      ensures r.Ok? ==> Matches(schema, rows, id, scope) && r.value == rows[id]
      ensures r.Ok? ==> r.value[schema.id] == IntV(id) && OwnedBy(schema, r.value, scope)
    {
      if fault.Some? then Internal(InternalError(fault.value))
      else if !Matches(schema, rows, id, scope) then NotFound(missing)
      else Ok(Serialize(schema, rows[id]))
    }

    /**
     * The create handler: builds the record from the sent fields only,
     * stamps both timestamps, adds and commits. A failing commit rolls back.
     */
    method Create(body: Row<C>, scope: Scope, now: Moment, fault: Option<string>) returns (r: Reply<Row<C>>)
      requires Valid() && ValidBody(schema, body) && ScopeFits(schema, scope)
      modifies this
      ensures Valid()
      ensures fault.Some? ==>
        r == Internal(InternalError(fault.value)) && rows == old(rows) && order == old(order) && nextId == old(nextId)
      ensures fault.None? ==>
        && r == Ok(NewRow(schema, old(nextId), scope, body, now))
        && old(nextId) !in old(rows)
        && rows == old(rows)[old(nextId) := r.value]
        && order == old(order) + [old(nextId)]
        && nextId == old(nextId) + 1
    {
      var id := nextId;
      var record := Blank(schema, id, scope);
      record := SetAttrs(record, body);
      record := record[schema.createDate := TimeV(now)][schema.updateDate := TimeV(now)];
      if fault.Some? {
        r := Internal(InternalError(fault.value));
        return;
      }
      InsertKeepsInv(schema, rows, order, nextId, record);
      rows := rows[id := record];
      order := order + [id];
      nextId := nextId + 1;
      r := Ok(Serialize(schema, record));
    }

    /**
     * Lookup, setattr loop over `data`, refresh of `update_date`, commit.
     * `lookupFault` is a failing lookup query, `fault` a failing commit; either
     * rolls back and answers 500.
     */
    method Update(id: int, scope: Scope, data: Row<C>, now: Moment, lookupFault: Option<string>, fault: Option<string>, missing: string)
      returns (r: Reply<Row<C>>)
      requires Valid() && data.Keys <= schema.fields
      modifies this
      ensures Valid() && order == old(order) && nextId == old(nextId)
      ensures lookupFault.Some? ==> r == Internal(InternalError(lookupFault.value)) && rows == old(rows) && order == old(order)
      ensures lookupFault.None? && !Matches(schema, old(rows), id, scope) ==> r == NotFound(missing) && rows == old(rows)
      ensures lookupFault.None? && Matches(schema, old(rows), id, scope) && fault.Some? ==>
        r == Internal(InternalError(fault.value)) && rows == old(rows)
      ensures lookupFault.None? && Matches(schema, old(rows), id, scope) && fault.None? ==>
        r == Ok(Updated(schema, old(rows)[id], data, now)) && rows == old(rows)[id := r.value]
    {
      if lookupFault.Some? {
        r := Internal(InternalError(lookupFault.value));
        return;
      }
      if !Matches(schema, rows, id, scope) {
        r := NotFound(missing);
        return;
      }
      var record := SetAttrs(rows[id], data);
      record := record[schema.updateDate := TimeV(now)];
      if fault.Some? {
        r := Internal(InternalError(fault.value));
        return;
      }
      ReplaceKeepsInv(schema, rows, order, nextId, id, record);
      rows := rows[id := record];
      r := Ok(Serialize(schema, record));
    }

    /** The PUT handler: every Create-schema field is written, unsent ones from their defaults. */
    method Put(id: int, scope: Scope, body: Row<C>, now: Moment, lookupFault: Option<string>, fault: Option<string>, missing: string)
      returns (r: Reply<Row<C>>)
      requires Valid() && ValidBody(schema, body)
      modifies this
      ensures Valid() && order == old(order) && nextId == old(nextId)
      ensures lookupFault.Some? ==> r == Internal(InternalError(lookupFault.value)) && rows == old(rows) && order == old(order)
      ensures lookupFault.None? && !Matches(schema, old(rows), id, scope) ==> r == NotFound(missing) && rows == old(rows)
      ensures lookupFault.None? && Matches(schema, old(rows), id, scope) && fault.Some? ==>
        r == Internal(InternalError(fault.value)) && rows == old(rows)
      ensures lookupFault.None? && Matches(schema, old(rows), id, scope) && fault.None? ==>
        r == Ok(Updated(schema, old(rows)[id], PutData(schema, body), now)) && rows == old(rows)[id := r.value]
    {
      r := Update(id, scope, PutData(schema, body), now, lookupFault, fault, missing);
    }

    /** The PATCH handler: only the sent fields are written. */
    method Patch(id: int, scope: Scope, body: Row<C>, now: Moment, lookupFault: Option<string>, fault: Option<string>, missing: string)
      returns (r: Reply<Row<C>>)
      requires Valid() && ValidBody(schema, body)
      modifies this
      ensures Valid() && order == old(order) && nextId == old(nextId)
      ensures lookupFault.Some? ==> r == Internal(InternalError(lookupFault.value)) && rows == old(rows) && order == old(order)
      ensures lookupFault.None? && !Matches(schema, old(rows), id, scope) ==> r == NotFound(missing) && rows == old(rows)
      ensures lookupFault.None? && Matches(schema, old(rows), id, scope) && fault.Some? ==>
        r == Internal(InternalError(fault.value)) && rows == old(rows)
      ensures lookupFault.None? && Matches(schema, old(rows), id, scope) && fault.None? ==>
        r == Ok(Updated(schema, old(rows)[id], body, now)) && rows == old(rows)[id := r.value]
    {
      r := Update(id, scope, body, now, lookupFault, fault, missing);
    }

    /**
     * The delete handler: removes exactly the matching row and commits;
     * answers with `done`. A failing lookup or commit rolls back and answers 500.
     */
    method Delete(id: int, scope: Scope, lookupFault: Option<string>, fault: Option<string>, missing: string, done: string)
      returns (r: Reply<string>)
      requires Valid()
      modifies this
      ensures Valid() && nextId == old(nextId)
      ensures lookupFault.Some? ==> r == Internal(InternalError(lookupFault.value)) && rows == old(rows) && order == old(order)
      ensures lookupFault.None? && !Matches(schema, old(rows), id, scope) ==>
        r == NotFound(missing) && rows == old(rows) && order == old(order)
      ensures lookupFault.None? && Matches(schema, old(rows), id, scope) && fault.Some? ==>
        r == Internal(InternalError(fault.value)) && rows == old(rows) && order == old(order)
      ensures lookupFault.None? && Matches(schema, old(rows), id, scope) && fault.None? ==>
        && r == Ok(done)
        && rows == old(rows) - {id}
        && id in old(order) && order == Erase(old(order), id)
    {
      if lookupFault.Some? {
        r := Internal(InternalError(lookupFault.value));
        return;
      }
      if !Matches(schema, rows, id, scope) {
        r := NotFound(missing);
        return;
      }
      if fault.Some? {
        r := Internal(InternalError(fault.value));
        return;
      }
      RemoveKeepsInv(schema, rows, order, nextId, id);
      rows := rows - {id};
      order := Erase(order, id);
      r := Ok(done);
    }
  }
}
