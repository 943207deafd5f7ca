/** `/equipment-safety`: the resource pattern over the `equipment_safety` table. */
module EquipmentSafetyRouter {
  import opened Wrappers
  import opened Http
  import opened Tables
  import opened Rows
  import opened Models
  import opened Schemas
  import opened Dependencies
  import opened Resources

  /** The router over the table as declared, with a Boolean `status` column. */
  const EquipmentSafetyAsWritten: Entity<EquipmentSafetyPublic> :=
    Entity("Equipment Safety not found", "equipmentSafety", EquipmentSafetyColumnsAsWritten, OK, EquipmentSafetyPublicOf)

  /** The router over the table with a `status` column that holds the schema's string. */
  const EquipmentSafety: Entity<EquipmentSafetyPublic> :=
    Entity("Equipment Safety not found", "equipmentSafety", EquipmentSafetyColumns, OK, EquipmentSafetyPublicOf)

  /**
   * As declared, the Boolean `status` column refuses the string every create and PUT body
   * carries: the flush raises, so no create or PUT by an admin ever succeeds.
   */
  lemma StatusStringNeverStored(row: Row, b: EquipmentSafetyBase)
    ensures !Storable(EquipmentSafetyAsWritten.columns, Applied(row, DumpEquipmentSafety(b)))
  {
    PutApplied(row, b);
    assert Applied(row, DumpEquipmentSafety(b))["status"] == Str(b.status);
    assert EquipmentSafetyColumnsAsWritten[1] == Column("status", Boolean, true);
  }

  /** As declared, a PATCH that sends a status string fails the flush as well. */
  lemma StatusPatchNeverStored(row: Row, p: EquipmentSafetyPartialUpdate)
    requires p.status.Sent? && p.status.value.Some?
    ensures !Storable(EquipmentSafetyAsWritten.columns, Applied(row, DumpEquipmentSafetyPatch(p)))
  {
    assert EquipmentSafetyColumnsAsWritten[1] == Column("status", Boolean, true);
  }

  /** `create_equipment_safety` as declared: every admin request fails at the flush and nothing is stored. */
  method CreateEquipmentSafetyAsWritten(t: Table<Row>, gate: Result<CurrentUser, Error>, b: EquipmentSafetyBase)
    returns (resp: Response<EquipmentSafetyPublic>)
    requires t.Valid()
    modifies t
    ensures t.Valid() && unchanged(t)
    ensures gate.Failure? ==> resp == Fail(gate.error)
    ensures gate.Success? && !gate.value.user.admin ==> resp == Fail(Forbidden(NotPermitted))
    ensures IsAdmin(gate) ==> resp == Fail(Unhandled(CommitRejected))
  {
    StatusStringNeverStored(map[], b);
    resp := Create(EquipmentSafetyAsWritten, t, gate, DumpEquipmentSafety(b));
  }

  /** With the corrected column, create stores the body and reads it back as the body plus its key. */
  lemma CreateRoundTrip(b: EquipmentSafetyBase, id: nat)
    ensures Applied(map[], DumpEquipmentSafety(b)) == NewEquipmentSafety(Str(b.name), Str(b.status), Str(b.description))
    ensures Storable(EquipmentSafety.columns, Applied(map[], DumpEquipmentSafety(b)))
    ensures EquipmentSafety.present(id, Applied(map[], DumpEquipmentSafety(b))) ==
              Some(EquipmentSafetyPublic(id, b.name, b.status, b.description))
  {
    PutOverwritesAll(map[], b, id);
    assert map[] + NewEquipmentSafety(Str(b.name), Str(b.status), Str(b.description)) ==
           NewEquipmentSafety(Str(b.name), Str(b.status), Str(b.description));
  }

  /**
   * PUT overwrites name, status and description whatever they held: with the corrected
   * column the flush accepts the result and it reads back as the body.
   */
  lemma PutOverwritesAll(row: Row, b: EquipmentSafetyBase, id: nat)
    ensures Applied(row, DumpEquipmentSafety(b)) == row + NewEquipmentSafety(Str(b.name), Str(b.status), Str(b.description))
    ensures row.Keys <= NewEquipmentSafety(Null, Null, Null).Keys ==>
              Applied(row, DumpEquipmentSafety(b)) == NewEquipmentSafety(Str(b.name), Str(b.status), Str(b.description))
    ensures Storable(EquipmentSafety.columns, Applied(row, DumpEquipmentSafety(b)))
    ensures EquipmentSafety.present(id, Applied(row, DumpEquipmentSafety(b))) ==
              Some(EquipmentSafetyPublic(id, b.name, b.status, b.description))
  {
    PutApplied(row, b);
    OverwrittenServed(row, b, id);
    OverlayWhole(row, b);
  }

  lemma PutApplied(row: Row, b: EquipmentSafetyBase)
    ensures Applied(row, DumpEquipmentSafety(b)) == row + NewEquipmentSafety(Str(b.name), Str(b.status), Str(b.description))
  {
    AppliedOverwrites(row, DumpEquipmentSafety(b));
  }

  /** Overlaying the constructor's attributes on a row that has no others gives the constructor's row. */
  lemma OverlayWhole(row: Row, b: EquipmentSafetyBase)
    ensures row.Keys <= NewEquipmentSafety(Null, Null, Null).Keys ==>
              row + NewEquipmentSafety(Str(b.name), Str(b.status), Str(b.description)) ==
              NewEquipmentSafety(Str(b.name), Str(b.status), Str(b.description))
  {
  }

  /** Whatever a row held, overlaying the constructor's attributes gives a storable row that reads back as the body. */
  lemma OverwrittenServed(row: Row, b: EquipmentSafetyBase, id: nat)
    ensures Storable(EquipmentSafetyColumns, row + NewEquipmentSafety(Str(b.name), Str(b.status), Str(b.description)))
    ensures EquipmentSafetyPublicOf(id, row + NewEquipmentSafety(Str(b.name), Str(b.status), Str(b.description))) ==
              Some(EquipmentSafetyPublic(id, b.name, b.status, b.description))
  {
    var after := row + NewEquipmentSafety(Str(b.name), Str(b.status), Str(b.description));
    assert after["name"] == Str(b.name) && after["status"] == Str(b.status) && after["description"] == Str(b.description);
    forall i | 0 <= i < |EquipmentSafetyColumns|
      ensures EquipmentSafetyColumns[i].name in after && Fits(after[EquipmentSafetyColumns[i].name], EquipmentSafetyColumns[i])
    {
    }
  }

  /** PATCH writes each field the client sent, null included, and leaves every other attribute as it was. */
  lemma PatchWritesOnlySent(row: Row, p: EquipmentSafetyPartialUpdate)
    ensures var after := Applied(row, DumpEquipmentSafetyPatch(p));
            && PatchedField(row, after, "name", p.name, StrValue)
            && PatchedField(row, after, "status", p.status, StrValue)
            && PatchedField(row, after, "description", p.description, StrValue)
            && forall k :: k != "name" && k != "status" && k != "description" ==>
                 (k in after <==> k in row) && (k in row ==> after[k] == row[k])
  {
    var items := DumpEquipmentSafetyPatch(p);
    assert Assigned(items, "name") == Written(p.name, StrValue);
    assert Assigned(items, "status") == Written(p.status, StrValue);
    assert Assigned(items, "description") == Written(p.description, StrValue);
  }

  /** With the corrected column, a PATCH that leaves `name` non-null keeps a storable row storable. */
  lemma PatchKeepsStorable(row: Row, p: EquipmentSafetyPartialUpdate)
    ensures Storable(EquipmentSafety.columns, row) && p.name != Sent(None) ==>
              Storable(EquipmentSafety.columns, Applied(row, DumpEquipmentSafetyPatch(p)))
  {
    if Storable(EquipmentSafety.columns, row) && p.name != Sent(None) {
      var after := Applied(row, DumpEquipmentSafetyPatch(p));
      PatchWritesOnlySent(row, p);
      forall i | 0 <= i < |EquipmentSafetyColumns|
        ensures EquipmentSafetyColumns[i].name in after
                && (after[EquipmentSafetyColumns[i].name] == row[EquipmentSafetyColumns[i].name]
                    || Fits(after[EquipmentSafetyColumns[i].name], EquipmentSafetyColumns[i]))
      {
        assert EquipmentSafetyColumns[i].name in row;
      }
      StorableAfter(EquipmentSafetyColumns, row, after);
    }
  }

  /** `name: null` in a PATCH breaks the NOT NULL constraint: the flush fails and rolls back. */
  lemma PatchNullNameRejected(row: Row, p: EquipmentSafetyPartialUpdate)
    requires p.name == Sent(None)
    ensures !Storable(EquipmentSafety.columns, Applied(row, DumpEquipmentSafetyPatch(p)))
  {
    assert EquipmentSafety.columns[0] == Column("name", Text, false);
  }

  /** `status: null` or `description: null` is stored but fails the response schema: 500 after the commit. */
  lemma PatchNullNotServed(row: Row, p: EquipmentSafetyPartialUpdate, id: nat)
    requires p.status == Sent(None) || p.description == Sent(None)
    ensures Storable(EquipmentSafety.columns, row) && p.name != Sent(None) ==>
              Storable(EquipmentSafety.columns, Applied(row, DumpEquipmentSafetyPatch(p)))
    ensures EquipmentSafety.present(id, Applied(row, DumpEquipmentSafetyPatch(p))) == None
  {
    PatchKeepsStorable(row, p);
  }

  /** `create_equipment_safety` with the corrected column: stored under the next key, read back as the body. */
  method CreateEquipmentSafety(t: Table<Row>, gate: Result<CurrentUser, Error>, b: EquipmentSafetyBase)
    returns (resp: Response<EquipmentSafetyPublic>)
    requires t.Valid()
    modifies t
    ensures t.Valid()
    ensures gate.Failure? ==> resp == Fail(gate.error) && unchanged(t)
    ensures gate.Success? && !gate.value.user.admin ==> resp == Fail(Forbidden(NotPermitted)) && unchanged(t)
    ensures IsAdmin(gate) ==>
              && t.rows == old(t.rows)[old(t.nextId) := NewEquipmentSafety(Str(b.name), Str(b.status), Str(b.description))]
              && resp == Ok(CREATED, EquipmentSafetyPublic(old(t.nextId), b.name, b.status, b.description))
              && Get(EquipmentSafety, t, gate, old(t.nextId)) == Ok(OK, EquipmentSafetyPublic(old(t.nextId), b.name, b.status, b.description))
  {
    CreateRoundTrip(b, t.nextId);
    resp := Create(EquipmentSafety, t, gate, DumpEquipmentSafety(b));
  }

  /** `update_equipment_safety` (PUT) with the corrected column: all three fields overwritten and read back. */
  method UpdateEquipmentSafety(t: Table<Row>, gate: Result<CurrentUser, Error>, id: int, b: EquipmentSafetyBase)
    returns (resp: Response<EquipmentSafetyPublic>)
    requires t.Valid()
    modifies t
    ensures t.Valid()
    ensures gate.Failure? ==> resp == Fail(gate.error) && unchanged(t)
    ensures gate.Success? && !old(t.Has(id)) ==> resp == Fail(NotFound(EquipmentSafety.notFound)) && unchanged(t)
    ensures gate.Success? && old(t.Has(id)) && !gate.value.user.admin ==> resp == Fail(Forbidden(NotPermitted)) && unchanged(t)
    ensures IsAdmin(gate) && old(t.Has(id)) ==>
              && t.rows == old(t.rows)[id := old(t.rows)[id] + NewEquipmentSafety(Str(b.name), Str(b.status), Str(b.description))]
              && resp == Ok(OK, EquipmentSafetyPublic(id, b.name, b.status, b.description))
              && Get(EquipmentSafety, t, gate, id) == resp
  {
    var items := DumpEquipmentSafety(b);
    ghost var before := t.rows;
    ghost var after: Row := map[];
    if t.Has(id) {
      PutOverwritesAll(t.rows[id], b, id);
      after := t.rows[id] + NewEquipmentSafety(Str(b.name), Str(b.status), Str(b.description));
    }
    resp := Update(EquipmentSafety, t, gate, id, items);
    if IsAdmin(gate) && old(t.Has(id)) {
      assert t.rows == before[id := after];
      assert t.rows[id] == after;
    }
  }

  /**
   * `partial_update_equipment_safety` (PATCH) with the corrected column: `name: null` is
   * rolled back; otherwise only the sent fields change and a later read answers the same.
   */
  method PatchEquipmentSafety(t: Table<Row>, gate: Result<CurrentUser, Error>, id: int, p: EquipmentSafetyPartialUpdate)
    returns (resp: Response<EquipmentSafetyPublic>)
    requires t.Valid()
    modifies t
    ensures t.Valid()
    ensures gate.Failure? ==> resp == Fail(gate.error) && unchanged(t)
    ensures gate.Success? && !old(t.Has(id)) ==> resp == Fail(NotFound(EquipmentSafety.notFound)) && unchanged(t)
    ensures gate.Success? && old(t.Has(id)) && !gate.value.user.admin ==> resp == Fail(Forbidden(NotPermitted)) && unchanged(t)
    ensures IsAdmin(gate) && old(t.Has(id)) && p.name == Sent(None) ==>
              resp == Fail(Unhandled(CommitRejected)) && unchanged(t)
    ensures IsAdmin(gate) && old(t.Has(id)) && p.name != Sent(None) && Storable(EquipmentSafety.columns, old(t.rows)[id]) ==>
              && t.Has(id) && t.rows == old(t.rows)[id := t.rows[id]]
              && PatchedField(old(t.rows)[id], t.rows[id], "name", p.name, StrValue)
              && PatchedField(old(t.rows)[id], t.rows[id], "status", p.status, StrValue)
              && PatchedField(old(t.rows)[id], t.rows[id], "description", p.description, StrValue)
              && resp == Reply(OK, EquipmentSafetyPublicOf(id, t.rows[id]))
              && (resp.Ok? ==> Get(EquipmentSafety, t, gate, id) == resp)
  {
    var items := DumpEquipmentSafetyPatch(p);
    ghost var before := t.rows;
    ghost var after: Row := map[];
    if t.Has(id) {
      after := Applied(t.rows[id], items);
      PatchWritesOnlySent(t.rows[id], p);
      PatchKeepsStorable(t.rows[id], p);
      if p.name == Sent(None) {
        PatchNullNameRejected(t.rows[id], p);
      }
    }
    resp := Update(EquipmentSafety, t, gate, id, items);
    if IsAdmin(gate) && old(t.Has(id)) && p.name != Sent(None) && Storable(EquipmentSafety.columns, before[id]) {
      assert t.rows == before[id := after];
      assert t.rows[id] == after;
    }
  }
}
