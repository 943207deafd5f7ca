/** `/equipment`: the resource pattern over the `equipment` table. */
module EquipmentRouter {
  import opened Wrappers
  import opened Http
  import opened Tables
  import opened Rows
  import opened Models
  import opened Schemas
  import opened Dependencies
  import opened Resources

  const Equipment: Entity<EquipmentPublic> :=
    Entity("Equipment not found", "equipment", EquipmentColumns, OK, EquipmentPublicOf)

  /** Create builds the constructor's row, the flush accepts it, and it reads back as the body plus its key. */
  lemma CreateRoundTrip(b: EquipmentBase, id: nat)
    ensures Applied(map[], DumpEquipment(b)) == NewEquipment(Str(b.name), Str(b.description))
    ensures Storable(Equipment.columns, Applied(map[], DumpEquipment(b)))
    ensures Equipment.present(id, Applied(map[], DumpEquipment(b))) == Some(EquipmentPublic(id, b.name, b.description))
  {
    PutOverwritesAll(map[], b, id);
    assert map[] + NewEquipment(Str(b.name), Str(b.description)) == NewEquipment(Str(b.name), Str(b.description));
  }

  /**
   * PUT overwrites name and description whatever they held: the flush accepts the result
   * and it reads back as the body; a row of this table ends up as the constructor's.
   */
  lemma PutOverwritesAll(row: Row, b: EquipmentBase, id: nat)
    ensures Applied(row, DumpEquipment(b)) == row + NewEquipment(Str(b.name), Str(b.description))
    ensures row.Keys <= NewEquipment(Null, Null).Keys ==>
              Applied(row, DumpEquipment(b)) == NewEquipment(Str(b.name), Str(b.description))
    ensures Storable(Equipment.columns, Applied(row, DumpEquipment(b)))
    ensures Equipment.present(id, Applied(row, DumpEquipment(b))) == Some(EquipmentPublic(id, b.name, b.description))
  {
    PutApplied(row, b);
    OverwrittenServed(row, b, id);
    OverlayWhole(row, b);
  }

  lemma PutApplied(row: Row, b: EquipmentBase)
    ensures Applied(row, DumpEquipment(b)) == row + NewEquipment(Str(b.name), Str(b.description))
  {
    AppliedOverwrites(row, DumpEquipment(b));
  }

  /** Overlaying the constructor's attributes on a row that has no others gives the constructor's row. */
  lemma OverlayWhole(row: Row, b: EquipmentBase)
    ensures row.Keys <= NewEquipment(Null, Null).Keys ==>
              row + NewEquipment(Str(b.name), Str(b.description)) == NewEquipment(Str(b.name), Str(b.description))
  {
  }

  /** Whatever a row held, overlaying the constructor's attributes gives a storable row that reads back as the body. */
  lemma OverwrittenServed(row: Row, b: EquipmentBase, id: nat)
    ensures Storable(EquipmentColumns, row + NewEquipment(Str(b.name), Str(b.description)))
    ensures EquipmentPublicOf(id, row + NewEquipment(Str(b.name), Str(b.description))) ==
              Some(EquipmentPublic(id, b.name, b.description))
  {
    var after := row + NewEquipment(Str(b.name), Str(b.description));
    assert after["name"] == Str(b.name) && after["description"] == Str(b.description);
    forall i | 0 <= i < |EquipmentColumns|
      ensures EquipmentColumns[i].name in after && Fits(after[EquipmentColumns[i].name], EquipmentColumns[i])
    {
    }
  }

  /** PATCH writes each field the client sent, null included, and leaves every other attribute as it was. */
  lemma PatchWritesOnlySent(row: Row, p: EquipmentPartialUpdate)
    ensures var after := Applied(row, DumpEquipmentPatch(p));
            && PatchedField(row, after, "name", p.name, StrValue)
            && PatchedField(row, after, "description", p.description, StrValue)
            && forall k :: k != "name" && k != "description" ==>
                 (k in after <==> k in row) && (k in row ==> after[k] == row[k])
  {
    var items := DumpEquipmentPatch(p);
    assert Assigned(items, "name") == Written(p.name, StrValue);
    assert Assigned(items, "description") == Written(p.description, StrValue);
  }

  /** A PATCH that leaves `name` non-null keeps a storable row storable: `description` is nullable. */
  lemma PatchKeepsStorable(row: Row, p: EquipmentPartialUpdate)
    ensures Storable(Equipment.columns, row) && p.name != Sent(None) ==>
              Storable(Equipment.columns, Applied(row, DumpEquipmentPatch(p)))
  {
    if Storable(Equipment.columns, row) && p.name != Sent(None) {
      var after := Applied(row, DumpEquipmentPatch(p));
      PatchWritesOnlySent(row, p);
      forall i | 0 <= i < |EquipmentColumns|
        ensures EquipmentColumns[i].name in after
                && (after[EquipmentColumns[i].name] == row[EquipmentColumns[i].name] || Fits(after[EquipmentColumns[i].name], EquipmentColumns[i]))
      {
        assert EquipmentColumns[i].name in row;
      }
      StorableAfter(EquipmentColumns, row, after);
    }
  }

  /** `name: null` in a PATCH breaks the NOT NULL constraint: the flush fails and rolls back. */
  lemma PatchNullNameRejected(row: Row, p: EquipmentPartialUpdate)
    requires p.name == Sent(None)
    ensures !Storable(Equipment.columns, Applied(row, DumpEquipmentPatch(p)))
  {
    assert Equipment.columns[0] == Column("name", Text, false);
  }

  /** `description: null` is stored but fails `EquipmentPublic`, so the committed update answers 500. */
  lemma PatchNullDescriptionNotServed(row: Row, p: EquipmentPartialUpdate, id: nat)
    requires p.description == Sent(None)
    ensures Storable(Equipment.columns, row) && p.name != Sent(None) ==>
              Storable(Equipment.columns, Applied(row, DumpEquipmentPatch(p)))
    ensures Equipment.present(id, Applied(row, DumpEquipmentPatch(p))) == None
  {
    PatchKeepsStorable(row, p);
  }

  /** `create_equipment`: an admin's record is stored under the next key, and reading that key back gives the body. */
  method CreateEquipment(t: Table<Row>, gate: Result<CurrentUser, Error>, b: EquipmentBase) returns (resp: Response<EquipmentPublic>)
    requires t.Valid()
    modifies t
    ensures t.Valid()
    ensures gate.Failure? ==> resp == Fail(gate.error) && unchanged(t)
    ensures gate.Success? && !gate.value.user.admin ==> resp == Fail(Forbidden(NotPermitted)) && unchanged(t)
    ensures IsAdmin(gate) ==>
              && t.rows == old(t.rows)[old(t.nextId) := NewEquipment(Str(b.name), Str(b.description))]
              && resp == Ok(CREATED, EquipmentPublic(old(t.nextId), b.name, b.description))
              && Get(Equipment, t, gate, old(t.nextId)) == Ok(OK, EquipmentPublic(old(t.nextId), b.name, b.description))
  {
    CreateRoundTrip(b, t.nextId);
    resp := Create(Equipment, t, gate, DumpEquipment(b));
  }

  /** `update_equipment` (PUT): an admin overwrites both fields, and reading the key back gives the body. */
  method UpdateEquipment(t: Table<Row>, gate: Result<CurrentUser, Error>, id: int, b: EquipmentBase) returns (resp: Response<EquipmentPublic>)
    requires t.Valid()
    modifies t
    ensures t.Valid()
    ensures gate.Failure? ==> resp == Fail(gate.error) && unchanged(t)
    ensures gate.Success? && !old(t.Has(id)) ==> resp == Fail(NotFound(Equipment.notFound)) && unchanged(t)
    ensures gate.Success? && old(t.Has(id)) && !gate.value.user.admin ==> resp == Fail(Forbidden(NotPermitted)) && unchanged(t)
    ensures IsAdmin(gate) && old(t.Has(id)) ==>
              && t.rows == old(t.rows)[id := old(t.rows)[id] + NewEquipment(Str(b.name), Str(b.description))]
              && resp == Ok(OK, EquipmentPublic(id, b.name, b.description))
              && Get(Equipment, t, gate, id) == resp
  {
    var items := DumpEquipment(b);
    ghost var before := t.rows;
    ghost var after: Row := map[];
    if t.Has(id) {
      PutOverwritesAll(t.rows[id], b, id);
      after := t.rows[id] + NewEquipment(Str(b.name), Str(b.description));
    }
    resp := Update(Equipment, t, gate, id, items);
    if IsAdmin(gate) && old(t.Has(id)) {
      assert t.rows == before[id := after];
      assert t.rows[id] == after;
    }
  }

  /**
   * `partial_update_equipment` (PATCH): `name: null` is rolled back; otherwise, on a stored
   * row, only the sent fields change and a later read answers what the PATCH answered.
   */
  method PatchEquipment(t: Table<Row>, gate: Result<CurrentUser, Error>, id: int, p: EquipmentPartialUpdate) returns (resp: Response<EquipmentPublic>)
    requires t.Valid()
    modifies t
    ensures t.Valid()
    ensures gate.Failure? ==> resp == Fail(gate.error) && unchanged(t)
    ensures gate.Success? && !old(t.Has(id)) ==> resp == Fail(NotFound(Equipment.notFound)) && unchanged(t)
    ensures gate.Success? && old(t.Has(id)) && !gate.value.user.admin ==> resp == Fail(Forbidden(NotPermitted)) && unchanged(t)
    ensures IsAdmin(gate) && old(t.Has(id)) && p.name == Sent(None) ==>
              resp == Fail(Unhandled(CommitRejected)) && unchanged(t)
    ensures IsAdmin(gate) && old(t.Has(id)) && p.name != Sent(None) && Storable(Equipment.columns, old(t.rows)[id]) ==>
              && t.Has(id) && t.rows == old(t.rows)[id := t.rows[id]]
              && PatchedField(old(t.rows)[id], t.rows[id], "name", p.name, StrValue)
              && PatchedField(old(t.rows)[id], t.rows[id], "description", p.description, StrValue)
              && resp == Reply(OK, EquipmentPublicOf(id, t.rows[id]))
              && (resp.Ok? ==> Get(Equipment, t, gate, id) == resp)
  {
    var items := DumpEquipmentPatch(p);
    ghost var before := t.rows;
    ghost var after: Row := map[];
    if t.Has(id) {
      after := Applied(t.rows[id], items);
      PatchWritesOnlySent(t.rows[id], p);
      PatchKeepsStorable(t.rows[id], p);
      if p.name == Sent(None) {
        PatchNullNameRejected(t.rows[id], p);
      }
    }
    resp := Update(Equipment, t, gate, id, items);
    if IsAdmin(gate) && old(t.Has(id)) && p.name != Sent(None) && Storable(Equipment.columns, before[id]) {
      assert t.rows == before[id := after];
      assert t.rows[id] == after;
    }
  }
}
