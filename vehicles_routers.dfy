/** `/vehicles`: the resource pattern over the `vehicles` table. */
module VehiclesRouter {
  import opened Wrappers
  import opened Http
  import opened Tables
  import opened Rows
  import opened Models
  import opened Schemas
  import opened Dependencies
  import opened Resources

  /** PUT and PATCH answer 201 on this router. */
  const Vehicles: Entity<VehiclePublic> :=
    Entity("Vehicle not found", "vehicle", VehicleColumns, CREATED, VehiclePublicOf)

  /**
   * Create builds the row the constructor would, the flush accepts it, and reading it back
   * gives the body's fields plus the assigned key.
   */
  lemma CreateRoundTrip(b: VehicleBase, id: nat)
    ensures Applied(map[], DumpVehicle(b)) == NewVehicle(Str(b.vehicleType), Str(b.model), Int(b.year))
    ensures Storable(Vehicles.columns, Applied(map[], DumpVehicle(b)))
    ensures Vehicles.present(id, Applied(map[], DumpVehicle(b))) == Some(VehiclePublic(id, b.vehicleType, b.model, b.year))
  {
    PutOverwritesAll(map[], b, id);
    assert map[] + NewVehicle(Str(b.vehicleType), Str(b.model), Int(b.year)) == NewVehicle(Str(b.vehicleType), Str(b.model), Int(b.year));
  }

  /**
   * PUT overwrites type, model and year whatever they held: the flush accepts the result
   * and it reads back as the body; a row of this table ends up as the constructor's.
   */
  lemma PutOverwritesAll(row: Row, b: VehicleBase, id: nat)
    ensures Applied(row, DumpVehicle(b)) == row + NewVehicle(Str(b.vehicleType), Str(b.model), Int(b.year))
    ensures row.Keys <= NewVehicle(Null, Null, Null).Keys ==>
              Applied(row, DumpVehicle(b)) == NewVehicle(Str(b.vehicleType), Str(b.model), Int(b.year))
    ensures Storable(Vehicles.columns, Applied(row, DumpVehicle(b)))
    ensures Vehicles.present(id, Applied(row, DumpVehicle(b))) == Some(VehiclePublic(id, b.vehicleType, b.model, b.year))
  {
    PutApplied(row, b);
    OverwrittenServed(row, b, id);
    OverlayWhole(row, b);
  }

  lemma PutApplied(row: Row, b: VehicleBase)
    ensures Applied(row, DumpVehicle(b)) == row + NewVehicle(Str(b.vehicleType), Str(b.model), Int(b.year))
  {
    AppliedOverwrites(row, DumpVehicle(b));
  }

  /** Overlaying the constructor's attributes on a row that has no others gives the constructor's row. */
  lemma OverlayWhole(row: Row, b: VehicleBase)
    ensures row.Keys <= NewVehicle(Null, Null, Null).Keys ==>
              row + NewVehicle(Str(b.vehicleType), Str(b.model), Int(b.year)) == NewVehicle(Str(b.vehicleType), Str(b.model), Int(b.year))
  {
  }

  /** Whatever a row held, overlaying the constructor's attributes gives a storable row that reads back as the body. */
  lemma OverwrittenServed(row: Row, b: VehicleBase, id: nat)
    ensures Storable(VehicleColumns, row + NewVehicle(Str(b.vehicleType), Str(b.model), Int(b.year)))
    ensures VehiclePublicOf(id, row + NewVehicle(Str(b.vehicleType), Str(b.model), Int(b.year))) ==
              Some(VehiclePublic(id, b.vehicleType, b.model, b.year))
  {
    var after := row + NewVehicle(Str(b.vehicleType), Str(b.model), Int(b.year));
    assert after["type"] == Str(b.vehicleType) && after["model"] == Str(b.model) && after["year"] == Int(b.year);
    forall i | 0 <= i < |VehicleColumns|
      ensures VehicleColumns[i].name in after && Fits(after[VehicleColumns[i].name], VehicleColumns[i])
    {
    }
  }

  /** PATCH writes each field the client sent, null included, and leaves every other attribute as it was. */
  lemma PatchWritesOnlySent(row: Row, p: VehiclePartialUpdate)
    ensures var after := Applied(row, DumpVehiclePatch(p));
            && PatchedField(row, after, "type", p.vehicleType, StrValue)
            && PatchedField(row, after, "model", p.model, StrValue)
            && PatchedField(row, after, "year", p.year, IntValue)
            && forall k :: k != "type" && k != "model" && k != "year" ==>
                 (k in after <==> k in row) && (k in row ==> after[k] == row[k])
  {
    var items := DumpVehiclePatch(p);
    assert Assigned(items, "type") == Written(p.vehicleType, StrValue);
    assert Assigned(items, "model") == Written(p.model, StrValue);
    assert Assigned(items, "year") == Written(p.year, IntValue);
  }

  /** A PATCH that leaves `model` non-null keeps a storable row storable: type and year are nullable. */
  lemma PatchKeepsStorable(row: Row, p: VehiclePartialUpdate)
    ensures Storable(Vehicles.columns, row) && p.model != Sent(None) ==>
              Storable(Vehicles.columns, Applied(row, DumpVehiclePatch(p)))
  {
    if Storable(Vehicles.columns, row) && p.model != Sent(None) {
      var after := Applied(row, DumpVehiclePatch(p));
      PatchWritesOnlySent(row, p);
      forall i | 0 <= i < |VehicleColumns|
        ensures VehicleColumns[i].name in after
                && (after[VehicleColumns[i].name] == row[VehicleColumns[i].name] || Fits(after[VehicleColumns[i].name], VehicleColumns[i]))
      {
        assert VehicleColumns[i].name in row;
      }
      StorableAfter(VehicleColumns, row, after);
    }
  }

  /** Sending `model: null` in a PATCH breaks the NOT NULL constraint: the flush fails and rolls back. */
  lemma PatchNullModelRejected(row: Row, p: VehiclePartialUpdate)
    requires p.model == Sent(None)
    ensures !Storable(Vehicles.columns, Applied(row, DumpVehiclePatch(p)))
  {
    assert Vehicles.columns[1] == Column("model", Text, false);
  }

  /**
   * Sending `year: null` (or `type: null`) is stored, since the column is nullable, but the
   * row no longer validates as `VehiclePublic`, so the committed update answers 500.
   */
  lemma PatchNullYearNotServed(row: Row, p: VehiclePartialUpdate, id: nat)
    requires p.year == Sent(None) || p.vehicleType == Sent(None)
    ensures Storable(Vehicles.columns, row) && p.model != Sent(None) ==>
              Storable(Vehicles.columns, Applied(row, DumpVehiclePatch(p)))
    ensures Vehicles.present(id, Applied(row, DumpVehiclePatch(p))) == None
  {
    PatchKeepsStorable(row, p);
  }

  /** `create_vehicle`: an admin's vehicle is stored under the next key, and reading that key back gives the body. */
  method CreateVehicle(t: Table<Row>, gate: Result<CurrentUser, Error>, b: VehicleBase) returns (resp: Response<VehiclePublic>)
    requires t.Valid()
    modifies t
    ensures t.Valid()
    ensures gate.Failure? ==> resp == Fail(gate.error) && unchanged(t)
    ensures gate.Success? && !gate.value.user.admin ==> resp == Fail(Forbidden(NotPermitted)) && unchanged(t)
    ensures IsAdmin(gate) ==>
              && t.rows == old(t.rows)[old(t.nextId) := NewVehicle(Str(b.vehicleType), Str(b.model), Int(b.year))]
              && resp == Ok(CREATED, VehiclePublic(old(t.nextId), b.vehicleType, b.model, b.year))
              && Get(Vehicles, t, gate, old(t.nextId)) == Ok(OK, VehiclePublic(old(t.nextId), b.vehicleType, b.model, b.year))
  {
    CreateRoundTrip(b, t.nextId);
    resp := Create(Vehicles, t, gate, DumpVehicle(b));
  }

  /** `update_vehicle` (PUT): an admin overwrites all three fields, and reading the key back gives the body. */
  method UpdateVehicle(t: Table<Row>, gate: Result<CurrentUser, Error>, id: int, b: VehicleBase) returns (resp: Response<VehiclePublic>)
    requires t.Valid()
    modifies t
    ensures t.Valid()
    ensures gate.Failure? ==> resp == Fail(gate.error) && unchanged(t)
    ensures gate.Success? && !old(t.Has(id)) ==> resp == Fail(NotFound(Vehicles.notFound)) && unchanged(t)
    ensures gate.Success? && old(t.Has(id)) && !gate.value.user.admin ==> resp == Fail(Forbidden(NotPermitted)) && unchanged(t)
    ensures IsAdmin(gate) && old(t.Has(id)) ==>
              && t.rows == old(t.rows)[id := old(t.rows)[id] + NewVehicle(Str(b.vehicleType), Str(b.model), Int(b.year))]
              && resp == Ok(CREATED, VehiclePublic(id, b.vehicleType, b.model, b.year))
              && Get(Vehicles, t, gate, id) == Ok(OK, VehiclePublic(id, b.vehicleType, b.model, b.year))
  {
    var items := DumpVehicle(b);
    ghost var before := t.rows;
    ghost var after: Row := map[];
    if t.Has(id) {
      PutOverwritesAll(t.rows[id], b, id);
      after := t.rows[id] + NewVehicle(Str(b.vehicleType), Str(b.model), Int(b.year));
    }
    resp := Update(Vehicles, t, gate, id, items);
    if IsAdmin(gate) && old(t.Has(id)) {
      assert t.rows == before[id := after];
      assert t.rows[id] == after;
    }
  }

  /**
   * `partial_update_vehicle` (PATCH): `model: null` is rolled back; otherwise, on a stored
   * row, only the sent fields change and a later read answers what the PATCH answered.
   */
  method PatchVehicle(t: Table<Row>, gate: Result<CurrentUser, Error>, id: int, p: VehiclePartialUpdate) returns (resp: Response<VehiclePublic>)
    requires t.Valid()
    modifies t
    ensures t.Valid()
    ensures gate.Failure? ==> resp == Fail(gate.error) && unchanged(t)
    ensures gate.Success? && !old(t.Has(id)) ==> resp == Fail(NotFound(Vehicles.notFound)) && unchanged(t)
    ensures gate.Success? && old(t.Has(id)) && !gate.value.user.admin ==> resp == Fail(Forbidden(NotPermitted)) && unchanged(t)
    ensures IsAdmin(gate) && old(t.Has(id)) && p.model == Sent(None) ==>
              resp == Fail(Unhandled(CommitRejected)) && unchanged(t)
    ensures IsAdmin(gate) && old(t.Has(id)) && p.model != Sent(None) && Storable(Vehicles.columns, old(t.rows)[id]) ==>
              && t.Has(id) && t.rows == old(t.rows)[id := t.rows[id]]
              && PatchedField(old(t.rows)[id], t.rows[id], "type", p.vehicleType, StrValue)
              && PatchedField(old(t.rows)[id], t.rows[id], "model", p.model, StrValue)
              && PatchedField(old(t.rows)[id], t.rows[id], "year", p.year, IntValue)
              && resp == Reply(CREATED, VehiclePublicOf(id, t.rows[id]))
              && (resp.Ok? ==> Get(Vehicles, t, gate, id) == Ok(OK, resp.body))
  {
    var items := DumpVehiclePatch(p);
    ghost var before := t.rows;
    ghost var after: Row := map[];
    if t.Has(id) {
      after := Applied(t.rows[id], items);
      PatchWritesOnlySent(t.rows[id], p);
      PatchKeepsStorable(t.rows[id], p);
      if p.model == Sent(None) {
        PatchNullModelRejected(t.rows[id], p);
      }
    }
    resp := Update(Vehicles, t, gate, id, items);
    if IsAdmin(gate) && old(t.Has(id)) && p.model != Sent(None) && Storable(Vehicles.columns, before[id]) {
      assert t.rows == before[id := after];
      assert t.rows[id] == after;
    }
  }
}
