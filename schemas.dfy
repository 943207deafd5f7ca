/**
 * The request and response shapes. A request body turns into the `(key, value)` items
 * of its `model_dump()`; a stored row turns into a response only if it validates
 * against the response schema.
 */
module Schemas {
  import opened Wrappers
  import opened Rows
  import opened Models

  /** A field of a partial-update body: omitted by the client, or sent (possibly as null). */
  datatype Patch<T> = Unset | Sent(value: Option<T>)

  function StrValue(s: string): Value { Str(s) }
  function IntValue(n: int): Value { Int(n) }

  /** The value a PATCH writes for a field, if it writes one. */
  function Written<T>(p: Patch<T>, wrap: T -> Value): Option<Value> {
    match p
    case Unset => None
    case Sent(None) => Some(Null)
    case Sent(Some(v)) => Some(wrap(v))
  }

  /** The field `key` of `after` is what the patch field `p` makes of the same field of `before`. */
  predicate PatchedField<T>(before: Row, after: Row, key: string, p: Patch<T>, wrap: T -> Value) {
    match Written(p, wrap)
    case None => (key in after <==> key in before) && (key in before ==> after[key] == before[key])
    case Some(v) => key in after && after[key] == v
  }

  /** The item `model_dump(exclude_unset=True)` gives for one field. */
  function PatchItem<T>(key: string, p: Patch<T>, wrap: T -> Value): (items: seq<Item>)
    ensures p.Unset? <==> items == []
    ensures p == Sent(None) ==> items == [(key, Null)]
    ensures p.Sent? && p.value.Some? ==> items == [(key, wrap(p.value.value))]
  {
    match p
    case Unset => []
    case Sent(None) => [(key, Null)]
    case Sent(Some(v)) => [(key, wrap(v))]
  }

  lemma AssignedPatchItem<T>(key: string, p: Patch<T>, wrap: T -> Value, k: string)
    ensures Assigned(PatchItem(key, p, wrap), k) == if k == key then Written(p, wrap) else None
  {
    var items := PatchItem(key, p, wrap);
    if items != [] {
      assert items[..0] == [];
    }
  }

  /** Two patch fields under distinct keys: each key gets what its own field writes. */
  lemma AssignedPatchItems2<A, B>(k1: string, p1: Patch<A>, w1: A -> Value, k2: string, p2: Patch<B>, w2: B -> Value)
    requires k1 != k2
    ensures forall k :: Assigned(PatchItem(k1, p1, w1) + PatchItem(k2, p2, w2), k) ==
              if k == k1 then Written(p1, w1) else if k == k2 then Written(p2, w2) else None
  {
    forall k
      ensures Assigned(PatchItem(k1, p1, w1) + PatchItem(k2, p2, w2), k) ==
                if k == k1 then Written(p1, w1) else if k == k2 then Written(p2, w2) else None
    {
      AssignedConcat(PatchItem(k1, p1, w1), PatchItem(k2, p2, w2), k);
      AssignedPatchItem(k1, p1, w1, k);
      AssignedPatchItem(k2, p2, w2, k);
    }
  }

  /** Three patch fields under distinct keys: each key gets what its own field writes. */
  lemma AssignedPatchItems3<A, B, C>(k1: string, p1: Patch<A>, w1: A -> Value, k2: string, p2: Patch<B>, w2: B -> Value,
                                     k3: string, p3: Patch<C>, w3: C -> Value)
    requires k1 != k2 && k1 != k3 && k2 != k3
    ensures forall k :: Assigned(PatchItem(k1, p1, w1) + PatchItem(k2, p2, w2) + PatchItem(k3, p3, w3), k) ==
              if k == k1 then Written(p1, w1) else if k == k2 then Written(p2, w2) else if k == k3 then Written(p3, w3) else None
  {
    AssignedPatchItems2(k1, p1, w1, k2, p2, w2);
    forall k
      ensures Assigned(PatchItem(k1, p1, w1) + PatchItem(k2, p2, w2) + PatchItem(k3, p3, w3), k) ==
                if k == k1 then Written(p1, w1) else if k == k2 then Written(p2, w2) else if k == k3 then Written(p3, w3) else None
    {
      AssignedConcat(PatchItem(k1, p1, w1) + PatchItem(k2, p2, w2), PatchItem(k3, p3, w3), k);
      AssignedPatchItem(k3, p3, w3, k);
    }
  }

  function TextAt(row: Row, key: string): Option<string> {
    if key in row && row[key].Str? then Some(row[key].s) else None
  }

  function IntAt(row: Row, key: string): Option<int> {
    if key in row && row[key].Int? then Some(row[key].i) else None
  }

  // Vehicles

  datatype VehicleBase = VehicleBase(vehicleType: string, model: string, year: int)
  datatype VehiclePublic = VehiclePublic(id: nat, vehicleType: string, model: string, year: int)
  datatype VehiclePartialUpdate =
    VehiclePartialUpdate(vehicleType: Patch<string> := Unset, model: Patch<string> := Unset, year: Patch<int> := Unset)

  /** `body.model_dump()`: the constructor's keyword arguments, one item per column. */
  function DumpVehicle(b: VehicleBase): (items: seq<Item>)
    ensures Applied(map[], items) == NewVehicle(Str(b.vehicleType), Str(b.model), Int(b.year))
  {
    AppliedThree(map[], ("type", Str(b.vehicleType)), ("model", Str(b.model)), ("year", Int(b.year)));
    [("type", Str(b.vehicleType)), ("model", Str(b.model)), ("year", Int(b.year))]
  }

  /** `body.model_dump(exclude_unset=True)`: an item for each field the client sent, and only those. */
  function DumpVehiclePatch(p: VehiclePartialUpdate): (items: seq<Item>)
    ensures forall k :: Assigned(items, k) ==
              if k == "type" then Written(p.vehicleType, StrValue)
              else if k == "model" then Written(p.model, StrValue)
              else if k == "year" then Written(p.year, IntValue)
              else None
  {
    AssignedPatchItems3("type", p.vehicleType, StrValue, "model", p.model, StrValue, "year", p.year, IntValue);
    PatchItem("type", p.vehicleType, StrValue)
    + PatchItem("model", p.model, StrValue)
    + PatchItem("year", p.year, IntValue)
  }

  /**
   * `VehiclePublic` validation of a stored row: all three attributes present and not NULL;
   * the response then carries exactly the stored values.
   */
  function VehiclePublicOf(id: nat, row: Row): (r: Option<VehiclePublic>)
    ensures r.Some? <==> "type" in row && row["type"].Str? && "model" in row && row["model"].Str? && "year" in row && row["year"].Int?
    ensures r.Some? ==>
              && r.value.id == id && row["type"] == Str(r.value.vehicleType)
              && row["model"] == Str(r.value.model) && row["year"] == Int(r.value.year)
  {
    match (TextAt(row, "type"), TextAt(row, "model"), IntAt(row, "year"))
    case (Some(t), Some(m), Some(y)) => Some(VehiclePublic(id, t, m, y))
    case _ => None
  }

  // Equipment

  datatype EquipmentBase = EquipmentBase(name: string, description: string)
  datatype EquipmentPublic = EquipmentPublic(id: nat, name: string, description: string)
  datatype EquipmentPartialUpdate =
    EquipmentPartialUpdate(name: Patch<string> := Unset, description: Patch<string> := Unset)

  function DumpEquipment(b: EquipmentBase): (items: seq<Item>)
    ensures Applied(map[], items) == NewEquipment(Str(b.name), Str(b.description))
  {
    AppliedTwo(map[], ("name", Str(b.name)), ("description", Str(b.description)));
    [("name", Str(b.name)), ("description", Str(b.description))]
  }

  function DumpEquipmentPatch(p: EquipmentPartialUpdate): (items: seq<Item>)
    ensures forall k :: Assigned(items, k) ==
              if k == "name" then Written(p.name, StrValue)
              else if k == "description" then Written(p.description, StrValue)
              else None
  {
    AssignedPatchItems2("name", p.name, StrValue, "description", p.description, StrValue);
    PatchItem("name", p.name, StrValue) + PatchItem("description", p.description, StrValue)
  }

  function EquipmentPublicOf(id: nat, row: Row): (r: Option<EquipmentPublic>)
    ensures r.Some? <==> "name" in row && row["name"].Str? && "description" in row && row["description"].Str?
    ensures r.Some? ==> r.value.id == id && row["name"] == Str(r.value.name) && row["description"] == Str(r.value.description)
  {
    match (TextAt(row, "name"), TextAt(row, "description"))
    case (Some(n), Some(d)) => Some(EquipmentPublic(id, n, d))
    case _ => None
  }

  // Equipment safety

  datatype EquipmentSafetyBase = EquipmentSafetyBase(name: string, status: string, description: string)
  datatype EquipmentSafetyPublic = EquipmentSafetyPublic(id: nat, name: string, status: string, description: string)
  datatype EquipmentSafetyPartialUpdate =
    EquipmentSafetyPartialUpdate(name: Patch<string> := Unset, status: Patch<string> := Unset, description: Patch<string> := Unset)

  function DumpEquipmentSafety(b: EquipmentSafetyBase): (items: seq<Item>)
    ensures Applied(map[], items) == NewEquipmentSafety(Str(b.name), Str(b.status), Str(b.description))
  {
    AppliedThree(map[], ("name", Str(b.name)), ("status", Str(b.status)), ("description", Str(b.description)));
    [("name", Str(b.name)), ("status", Str(b.status)), ("description", Str(b.description))]
  }

  function DumpEquipmentSafetyPatch(p: EquipmentSafetyPartialUpdate): (items: seq<Item>)
    ensures forall k :: Assigned(items, k) ==
              if k == "name" then Written(p.name, StrValue)
              else if k == "status" then Written(p.status, StrValue)
              else if k == "description" then Written(p.description, StrValue)
              else None
  {
    AssignedPatchItems3("name", p.name, StrValue, "status", p.status, StrValue, "description", p.description, StrValue);
    PatchItem("name", p.name, StrValue)
    + PatchItem("status", p.status, StrValue)
    + PatchItem("description", p.description, StrValue)
  }

  function EquipmentSafetyPublicOf(id: nat, row: Row): (r: Option<EquipmentSafetyPublic>)
    ensures r.Some? <==>
              "name" in row && row["name"].Str? && "status" in row && row["status"].Str? && "description" in row && row["description"].Str?
    ensures r.Some? ==>
              && r.value.id == id && row["name"] == Str(r.value.name)
              && row["status"] == Str(r.value.status) && row["description"] == Str(r.value.description)
  {
    match (TextAt(row, "name"), TextAt(row, "status"), TextAt(row, "description"))
    case (Some(n), Some(s), Some(d)) => Some(EquipmentSafetyPublic(id, n, s, d))
    case _ => None
  }

  // Users and authentication

  /** The registration body and the `/auth/me` response: it carries the password field. */
  datatype UserBase = UserBase(name: string, email: string, password: string, admin: bool := false)

  /** The public user shape: no password. No route responds with it. */
  datatype UserPublic = UserPublic(id: nat, name: string, email: string, admin: bool)

  datatype UserLogin = UserLogin(email: string, password: string)

  /** The OAuth2 password form of `/auth/login-form`: `username` carries the email. */
  datatype PasswordForm = PasswordForm(username: string, password: string)

  datatype Message = Message(mensagem: string)

  datatype LoginTokens = LoginTokens(accessToken: string, refreshToken: string, tokenType: string)

  datatype AccessToken = AccessToken(accessToken: string, tokenType: string)
}
