/**
 * The Autolog controller: the same six handlers as the vehicle controller,
 * over a resource whose model module `models.autolog` is not part of the
 * repository. The record is therefore abstract here: any column type `C`
 * and any well-formed schema without a parent column.
 */
module Autologs {
  import opened Values
  import opened ResourceTable

  /** The 404 detail of every autolog handler. */
  function NotFoundMessage(id: int): (m: string)
    ensures |m| > 16 && m[..16] == "Autolog with id "
  {
    "Autolog with id " + IntToString(id) + " not found"
  }

  function DeletedMessage(id: int): (m: string)
    ensures |m| > 16 && m[..16] == "Autolog with id "
  {
    "Autolog with id " + IntToString(id) + " deleted successfully"
  }

  /** The 404 detail names exactly the requested id. */
  lemma NotFoundMessageNamesId(a: int, b: int)
    requires NotFoundMessage(a) == NotFoundMessage(b)
    ensures a == b
  {
    TaggedIntUnique("Autolog with id ", a, " not found", b, " not found");
  }

  /** The confirmation names exactly the deleted id. */
  lemma DeletedMessageNamesId(a: int, b: int)
    requires DeletedMessage(a) == DeletedMessage(b)
    ensures a == b
  {
    TaggedIntUnique("Autolog with id ", a, " deleted successfully", b, " deleted successfully");
  }

  /** `list_autolog`: rows `(page - 1) * limit` onwards in natural order, at most `limit` of them. */
  function ListAutolog<C>(t: Table<C>, page: int, limit: int, fault: Option<string>): (r: Reply<seq<Row<C>>>)
    reads t
    requires t.Valid() && t.schema.parent == None && page >= 1 && 1 <= limit <= 100
    ensures fault.Some? ==> r == Internal(InternalError(fault.value))
    ensures fault.None? ==> r.Ok? && |r.value| <= limit
    ensures fault.None? ==> forall i :: 0 <= i < |r.value| ==>
      Offset(page, limit) + i < |t.order| && r.value[i] == t.rows[t.order[Offset(page, limit) + i]]
    ensures fault.None? && Offset(page, limit) < |t.order| ==>
      |r.value| == if Offset(page, limit) + limit <= |t.order| then limit else |t.order| - Offset(page, limit)
    ensures fault.None? && Offset(page, limit) >= |t.order| ==> r == Ok([])
  {
    VisibleUnscoped(t.schema, t.rows, t.order);
    t.List(page, limit, Unscoped, fault)
  }

  /** `get_autolog_by_id`. */
  function GetAutologById<C>(t: Table<C>, id: int, fault: Option<string>): (r: Reply<Row<C>>)
    reads t
    requires t.Valid() && t.schema.parent == None
    ensures fault.Some? ==> r == Internal(InternalError(fault.value))
    ensures fault.None? && id !in t.rows ==> r == NotFound(NotFoundMessage(id))
    ensures fault.None? && id in t.rows ==> r == Ok(t.rows[id])
  {
    t.Get(id, Unscoped, fault, NotFoundMessage(id))
  }

  /** `create_record`: the new record carries only the sent fields, both timestamps `now`. */
  method CreateRecord<C>(t: Table<C>, body: Row<C>, now: Moment, fault: Option<string>) returns (r: Reply<Row<C>>)
    requires t.Valid() && t.schema.parent == None && ValidBody(t.schema, body)
    modifies t
    ensures t.Valid()
    ensures fault.Some? ==>
      r == Internal(InternalError(fault.value)) && t.rows == old(t.rows) && t.order == old(t.order)
    ensures fault.None? ==>
      && r == Ok(NewRow(t.schema, old(t.nextId), Unscoped, body, now))
      && old(t.nextId) !in old(t.rows)
      && t.rows == old(t.rows)[old(t.nextId) := r.value]
      && t.order == old(t.order) + [old(t.nextId)]
  {
    r := t.Create(body, Unscoped, now, fault);
  }

  /** `update_autolog_full`: every create field is written, unsent ones take the schema's default. */
  method UpdateAutologFull<C>(t: Table<C>, id: int, body: Row<C>, now: Moment, lookupFault: Option<string>, fault: Option<string>) returns (r: Reply<Row<C>>)
    requires t.Valid() && t.schema.parent == None && ValidBody(t.schema, body)
    modifies t
    ensures t.Valid() && t.order == old(t.order)
    ensures lookupFault.Some? ==>
      r == Internal(InternalError(lookupFault.value)) && t.rows == old(t.rows) && t.order == old(t.order)
    ensures lookupFault.None? && id !in old(t.rows) ==> r == NotFound(NotFoundMessage(id)) && t.rows == old(t.rows)
    ensures lookupFault.None? && id in old(t.rows) && fault.Some? ==>
      r == Internal(InternalError(fault.value)) && t.rows == old(t.rows)
    ensures lookupFault.None? && id in old(t.rows) && fault.None? ==>
      && r == Ok(Updated(t.schema, old(t.rows)[id], PutData(t.schema, body), now))
      && t.rows == old(t.rows)[id := r.value]
      && (forall f :: f in t.schema.fields && f !in body ==> r.value[f] == t.schema.defaults[f])
  {
    r := t.Put(id, Unscoped, body, now, lookupFault, fault, NotFoundMessage(id));
  }

  /** `update_autolog_partial`: only the sent fields change, and `update_date`. */
  method UpdateAutologPartial<C>(t: Table<C>, id: int, body: Row<C>, now: Moment, lookupFault: Option<string>, fault: Option<string>) returns (r: Reply<Row<C>>)
    requires t.Valid() && t.schema.parent == None && ValidBody(t.schema, body)
    modifies t
    ensures t.Valid() && t.order == old(t.order)
    ensures lookupFault.Some? ==>
      r == Internal(InternalError(lookupFault.value)) && t.rows == old(t.rows) && t.order == old(t.order)
    ensures lookupFault.None? && id !in old(t.rows) ==> r == NotFound(NotFoundMessage(id)) && t.rows == old(t.rows)
    ensures lookupFault.None? && id in old(t.rows) && fault.Some? ==>
      r == Internal(InternalError(fault.value)) && t.rows == old(t.rows)
    ensures lookupFault.None? && id in old(t.rows) && fault.None? ==>
      && r == Ok(Updated(t.schema, old(t.rows)[id], body, now))
      && t.rows == old(t.rows)[id := r.value]
      && (forall c :: c in old(t.rows)[id] && c !in body && c != t.schema.updateDate ==> r.value[c] == old(t.rows)[id][c])
  {
    r := t.Patch(id, Unscoped, body, now, lookupFault, fault, NotFoundMessage(id));
  }

  /** `delete_autolog`: removes only this row. */
  method DeleteAutolog<C>(t: Table<C>, id: int, lookupFault: Option<string>, fault: Option<string>) returns (r: Reply<string>)
    requires t.Valid() && t.schema.parent == None
    modifies t
    ensures t.Valid()
    ensures lookupFault.Some? ==>
      r == Internal(InternalError(lookupFault.value)) && t.rows == old(t.rows) && t.order == old(t.order)
    ensures lookupFault.None? && id !in old(t.rows) ==>
      r == NotFound(NotFoundMessage(id)) && t.rows == old(t.rows) && t.order == old(t.order)
    ensures lookupFault.None? && id in old(t.rows) && fault.Some? ==>
      r == Internal(InternalError(fault.value)) && t.rows == old(t.rows) && t.order == old(t.order)
    ensures lookupFault.None? && id in old(t.rows) && fault.None? ==>
      r == Ok(DeletedMessage(id)) && t.rows == old(t.rows) - {id} && t.order == Erase(old(t.order), id)
  {
    r := t.Delete(id, Unscoped, lookupFault, fault, NotFoundMessage(id), DeletedMessage(id));
  }
}
