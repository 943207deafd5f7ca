/**
 * The handler pattern the vehicles, equipment and equipment-safety routers repeat:
 * create, list, get, full or partial update, delete. The router-level token gate runs
 * first; writes then check that the key exists, and only after that the admin flag.
 */
module Resources {
  import opened Wrappers
  import opened Http
  import opened Tables
  import opened Rows
  import opened Dependencies

  /** What distinguishes one router from another. */
  datatype Entity<Pub> = Entity(
    notFound: string,                      // detail of the 404
    listKey: string,                       // key of the list wrapper
    columns: seq<Column>,                  // the table declaration
    updateCode: int,                       // success status of PUT and PATCH
    present: (nat, Row) -> Option<Pub>)    // response-schema validation of a stored row

  /** The list response: `{listKey: [...]}`. */
  datatype ListBody<Pub> = ListBody(key: string, items: seq<Pub>)

  const DefaultOffset := 0
  const DefaultLimit := 10

  /** Serialise through the response schema: a row that fails validation is a 500. */
  function Reply<Pub>(code: int, p: Option<Pub>): (r: Response<Pub>)
    ensures p.Some? ==> r == Ok(code, p.value)
    ensures p.None? ==> r == Fail(Unhandled(ResponseInvalid))
  {
    match p
    case Some(v) => Ok(code, v)
    case None => Fail(Unhandled(ResponseInvalid))
  }

  /** Validate every row of a page; one failure fails the whole response. */
  function PresentAll<Pub>(present: (nat, Row) -> Option<Pub>, page: seq<(nat, Row)>): (r: Option<seq<Pub>>)
    ensures r.Some? <==> forall i :: 0 <= i < |page| ==> present(page[i].0, page[i].1).Some?
    ensures r.Some? ==> |r.value| == |page| && forall i :: 0 <= i < |page| ==> present(page[i].0, page[i].1) == Some(r.value[i])
  {
    if |page| == 0 then Some([])
    else match (PresentAll(present, page[..|page| - 1]), present(page[|page| - 1].0, page[|page| - 1].1))
      case (Some(front), Some(last)) => Some(front + [last])
      case _ => None
  }

  /** The caller is authenticated and has the admin flag. */
  predicate IsAdmin(gate: Result<CurrentUser, Error>) {
    gate.Success? && gate.value.user.admin
  }

  /** `create_*`: admin only; the table assigns the key of the new row. */
  method Create<Pub>(e: Entity<Pub>, t: Table<Row>, gate: Result<CurrentUser, Error>, items: seq<Item>)
    returns (resp: Response<Pub>)
    requires t.Valid()
    modifies t
    ensures t.Valid()
    ensures gate.Failure? ==> resp == Fail(gate.error)
    ensures gate.Success? && !gate.value.user.admin ==> resp == Fail(Forbidden(NotPermitted))
    ensures IsAdmin(gate) && !Storable(e.columns, Applied(map[], items)) ==> resp == Fail(Unhandled(CommitRejected))
    ensures IsAdmin(gate) && Storable(e.columns, Applied(map[], items)) ==>
              && t.rows == old(t.rows)[old(t.nextId) := Applied(map[], items)]
              && t.nextId == old(t.nextId) + 1
              && resp == Reply(CREATED, e.present(old(t.nextId), Applied(map[], items)))
    ensures !(IsAdmin(gate) && Storable(e.columns, Applied(map[], items))) ==> unchanged(t)
  {
    if gate.Failure? {
      return Fail(gate.error);
    }
    if !gate.value.user.admin {
      return Fail(Forbidden(NotPermitted));
    }
    var row := SetAttrs(map[], items);
    if !Storable(e.columns, row) {
      return Fail(Unhandled(CommitRejected));
    }
    var id := t.Insert(row);
    resp := Reply(CREATED, e.present(id, row));
  }

  /** `list_*`: the rows of one page, in key order, under the router's list key. */
  function List<Pub>(e: Entity<Pub>, t: Table<Row>, gate: Result<CurrentUser, Error>,
                     offset: int := DefaultOffset, limit: int := DefaultLimit): (r: Response<ListBody<Pub>>)
    reads t
    requires t.Valid()
    ensures gate.Failure? ==> r == Fail(gate.error)
    ensures gate.Success? ==>
              (r.Ok? <==> forall i :: 0 <= i < |t.Page(offset, limit)| ==> e.present(t.Page(offset, limit)[i].0, t.Page(offset, limit)[i].1).Some?)
    ensures gate.Success? && r.Fail? ==> r.error == Unhandled(ResponseInvalid)
    ensures r.Ok? ==>
              && r.code == OK && r.body.key == e.listKey
              && |r.body.items| == |t.Page(offset, limit)|
              && (0 <= limit ==> |r.body.items| <= limit)
              && forall i :: 0 <= i < |r.body.items| ==>
                   e.present(t.Page(offset, limit)[i].0, t.Page(offset, limit)[i].1) == Some(r.body.items[i])
  {
    match gate
    case Failure(err) => Fail(err)
    case Success(_) =>
      match PresentAll(e.present, t.Page(offset, limit))
      case Some(items) => Ok(OK, ListBody(e.listKey, items))
      case None => Fail(Unhandled(ResponseInvalid))
  }

  /** `get_*`: the row under `id`, or 404; no admin flag needed. */
  function Get<Pub>(e: Entity<Pub>, t: Table<Row>, gate: Result<CurrentUser, Error>, id: int): (r: Response<Pub>)
    reads t
    ensures gate.Failure? ==> r == Fail(gate.error)
    ensures gate.Success? && !t.Has(id) ==> r == Fail(NotFound(e.notFound))
    ensures gate.Success? && t.Has(id) ==> r == Reply(OK, e.present(id, t.rows[id]))
  {
    match gate
    case Failure(err) => Fail(err)
    case Success(_) => if t.Has(id) then Reply(OK, e.present(id, t.rows[id])) else Fail(NotFound(e.notFound))
  }

  /**
   * `update_*` and `partial_update_*`: the two differ only in the items they pass, all the
   * fields of the body (PUT) or only those the client sent (PATCH). A rejected flush
   * rolls back; a row that fails the response schema is already committed.
   */
  method Update<Pub>(e: Entity<Pub>, t: Table<Row>, gate: Result<CurrentUser, Error>, id: int, items: seq<Item>)
    returns (resp: Response<Pub>)
    requires t.Valid()
    modifies t
    ensures t.Valid()
    ensures gate.Failure? ==> resp == Fail(gate.error)
    ensures gate.Success? && !old(t.Has(id)) ==> resp == Fail(NotFound(e.notFound))
    ensures gate.Success? && old(t.Has(id)) && !gate.value.user.admin ==> resp == Fail(Forbidden(NotPermitted))
    ensures IsAdmin(gate) && old(t.Has(id)) ==>
              var row := Applied(old(t.rows)[id], items);
              if Storable(e.columns, row) then
                && t.rows == old(t.rows)[id := row]
                && t.nextId == old(t.nextId)
                && resp == Reply(e.updateCode, e.present(id, row))
              else
                resp == Fail(Unhandled(CommitRejected))
    ensures !(IsAdmin(gate) && old(t.Has(id)) && Storable(e.columns, Applied(old(t.rows)[id], items))) ==> unchanged(t)
  {
    if gate.Failure? {
      return Fail(gate.error);
    }
    if !t.Has(id) {
      return Fail(NotFound(e.notFound));
    }
    if !gate.value.user.admin {
      return Fail(Forbidden(NotPermitted));
    }
    var row := SetAttrs(t.rows[id], items);
    if !Storable(e.columns, row) {
      return Fail(Unhandled(CommitRejected));
    }
    t.Replace(id, row);
    resp := Reply(e.updateCode, e.present(id, row));
  }

  /** `delete_*`: 404 before 403; an admin removes exactly the row under `id`. */
  method Delete<Pub>(e: Entity<Pub>, t: Table<Row>, gate: Result<CurrentUser, Error>, id: int)
    returns (resp: Response<()>)
    requires t.Valid()
    modifies t
    ensures t.Valid()
    ensures gate.Failure? ==> resp == Fail(gate.error)
    ensures gate.Success? && !old(t.Has(id)) ==> resp == Fail(NotFound(e.notFound))
    ensures gate.Success? && old(t.Has(id)) && !gate.value.user.admin ==> resp == Fail(Forbidden(NotPermitted))
    ensures IsAdmin(gate) && old(t.Has(id)) ==>
              resp == Ok(NO_CONTENT, ()) && t.rows == old(t.rows) - {id as nat} && t.nextId == old(t.nextId)
    ensures resp.Fail? ==> unchanged(t)
  {
    if gate.Failure? {
      return Fail(gate.error);
    }
    if !t.Has(id) {
      return Fail(NotFound(e.notFound));
    }
    if !gate.value.user.admin {
      return Fail(Forbidden(NotPermitted));
    }
    t.Remove(id);
    resp := Ok(NO_CONTENT, ());
  }
}
