/**
 * The table declarations: which attributes each table stores, which may be NULL,
 * and the user record. Keys are not attributes: the tables assign them.
 */
module Models {
  import opened Rows

  /** `vehicles`: `type` and `year` may be NULL, `model` may not. */
  const VehicleColumns: seq<Column> :=
    [Column("type", Text, true), Column("model", Text, false), Column("year", Integer, true)]

  /** `equipment`: `name` NOT NULL, `description` nullable. */
  const EquipmentColumns: seq<Column> :=
    [Column("name", Text, false), Column("description", Text, true)]

  /** `equipment_safety` as declared: `status` is a Boolean column. */
  const EquipmentSafetyColumnsAsWritten: seq<Column> :=
    [Column("name", Text, false), Column("status", Boolean, true), Column("description", Text, true)]

  /** `equipment_safety` with `status` holding the string the schemas carry. */
  const EquipmentSafetyColumns: seq<Column> :=
    [Column("name", Text, false), Column("status", Text, true), Column("description", Text, true)]

  /** `Vehicle(type, model, year)`: the constructor sets exactly these three attributes. */
  function NewVehicle(vehicleType: Value, model: Value, year: Value): (row: Row)
    ensures row.Keys == set c | c in VehicleColumns :: c.name
  {
    map["type" := vehicleType, "model" := model, "year" := year]
  }

  /** `Equipment(name, description)`. */
  function NewEquipment(name: Value, description: Value): (row: Row)
    ensures row.Keys == set c | c in EquipmentColumns :: c.name
  {
    map["name" := name, "description" := description]
  }

  /** `EquipmentSafety(name, status, description)`. */
  function NewEquipmentSafety(name: Value, status: Value, description: Value): (row: Row)
    ensures row.Keys == set c | c in EquipmentSafetyColumns :: c.name
  {
    map["name" := name, "status" := status, "description" := description]
  }

  /** A row of `users`; `email` is unique across the table, `admin` defaults to false. */
  datatype User = User(name: string, email: string, password: string, admin: bool := false)

  /** The uniqueness constraint on `users.email`. */
  ghost predicate EmailsUnique(users: map<nat, User>): (unique: bool)
    ensures unique <==> forall id :: id in users ==> EmailOwners(users, users[id].email) == {id}
  {
    forall i, j :: i in users && j in users && users[i].email == users[j].email ==> i == j
  }

  /** The keys of the users registered under `email`. */
  ghost function EmailOwners(users: map<nat, User>, email: string): set<nat> {
    set id | id in users && users[id].email == email
  }

  ghost predicate EmailInUse(users: map<nat, User>, email: string) {
    exists id :: id in users && users[id].email == email
  }
}
