/**
 * A stored record as the ORM sees it: attribute names mapped to column values.
 * Constructors and the update handlers fill these attributes one `setattr` at a time.
 */
module Rows {
  import opened Wrappers

  datatype Value = Null | Str(s: string) | Int(i: int) | Bool(b: bool)

  type Row = map<string, Value>

  /** One `(key, value)` pair of a `model_dump()` dictionary. */
  type Item = (string, Value)

  /** The value the last item with key `k` carries, if any item has that key. */
  function Assigned(items: seq<Item>, k: string): (v: Option<Value>)
    ensures v.None? <==> forall i :: 0 <= i < |items| ==> items[i].0 != k
    ensures v.Some? ==> exists i :: 0 <= i < |items| && items[i] == (k, v.value)
  {
    if |items| == 0 then None
    else if items[|items| - 1].0 == k then Some(items[|items| - 1].1)
    else Assigned(items[..|items| - 1], k)
  }

  /**
   * The row after `setattr(row, key, value)` for each item in order: keys the items
   * name take the last value given for them, every other attribute is left as it was.
   */
  function Applied(row: Row, items: seq<Item>): (r: Row)
    ensures forall k :: k in r <==> k in row || Assigned(items, k).Some?
    ensures forall k :: k in r ==> r[k] == if Assigned(items, k).Some? then Assigned(items, k).value else row[k]
  {
    if |items| == 0 then row
    else Applied(row, items[..|items| - 1])[items[|items| - 1].0 := items[|items| - 1].1]
  }

  /** Of two runs of items, the later one decides every key it names. */
  lemma {:induction false} AssignedConcat(a: seq<Item>, b: seq<Item>, k: string)
    ensures Assigned(a + b, k) == if Assigned(b, k).Some? then Assigned(b, k) else Assigned(a, k)
  {
    if |b| > 0 {
      var ab := a + b;
      assert ab[..|ab| - 1] == a + b[..|b| - 1];
      assert ab[|ab| - 1] == b[|b| - 1];
      AssignedConcat(a, b[..|b| - 1], k);
    } else {
      assert a + b == a;
    }
  }

  /** Applying two items is two updates, in order. */
  lemma AppliedTwo(row: Row, x: Item, y: Item)
    ensures Applied(row, [x, y]) == row[x.0 := x.1][y.0 := y.1]
  {
    assert [x, y][..1] == [x];
    assert [x][..0] == [];
  }

  /** Applying three items is three updates, in order. */
  lemma AppliedThree(row: Row, x: Item, y: Item, z: Item)
    ensures Applied(row, [x, y, z]) == row[x.0 := x.1][y.0 := y.1][z.0 := z.1]
  {
    assert [x, y, z][..2] == [x, y];
    AppliedTwo(row, x, y);
  }

  /** Applying items to a row overwrites exactly what applying them to an empty object sets. */
  lemma AppliedOverwrites(row: Row, items: seq<Item>)
    ensures Applied(row, items) == row + Applied(map[], items)
  {
  }

  /** The `for key, value in items: setattr(obj, key, value)` loop. */
  method SetAttrs(row: Row, items: seq<Item>) returns (r: Row)
    ensures r == Applied(row, items)
  {
    r := row;
    var i := 0;
    while i < |items|
      invariant 0 <= i <= |items|
      invariant r == Applied(row, items[..i])
    {
      assert items[..i + 1][..i] == items[..i];
      r := r[items[i].0 := items[i].1];
      i := i + 1;
    }
    assert items[..i] == items;
  }

  /** Column types of the table declarations that matter when a row is flushed. */
  datatype Kind = Text | Integer | Boolean

  datatype Column = Column(name: string, kind: Kind, nullable: bool)

  /**
   * The flush accepts `v` in column `c`: NULL only where the column is nullable. A Boolean
   * column takes a boolean, or 0 or 1, which compare equal to False and True; SQLAlchemy's
   * strict Boolean binding raises TypeError for a string and ValueError for any other integer.
   * Text and Integer columns do not check the Python type of what they get.
   */
  predicate Fits(v: Value, c: Column): (ok: bool)
    ensures !c.nullable && v.Null? ==> !ok
    ensures c.kind == Boolean && (v.Str? || (v.Int? && v.i != 0 && v.i != 1)) ==> !ok
    ensures c.kind != Boolean && !v.Null? ==> ok
    ensures c.nullable && (v.Null? || v.Bool? || v == Int(0) || v == Int(1)) ==> ok
  {
    if v == Null then c.nullable else (c.kind == Boolean ==> v.Bool? || v == Int(0) || v == Int(1))
  }

  /** A row keeps every column it fits when `before` fitted and each column either kept its value or got one that fits. */
  lemma StorableAfter(columns: seq<Column>, before: Row, after: Row)
    requires Storable(columns, before)
    requires forall i :: 0 <= i < |columns| ==>
               columns[i].name in after && (after[columns[i].name] == before[columns[i].name] || Fits(after[columns[i].name], columns[i]))
    ensures Storable(columns, after)
  {
    forall i | 0 <= i < |columns|
      ensures columns[i].name in after && Fits(after[columns[i].name], columns[i])
    {
      assert columns[i].name in before && Fits(before[columns[i].name], columns[i]);
    }
  }

  /** Every column of the table has a value in the row that the flush accepts. */
  predicate Storable(columns: seq<Column>, row: Row): (ok: bool)
    ensures ok ==> forall i :: 0 <= i < |columns| && !columns[i].nullable ==>
                     columns[i].name in row && row[columns[i].name] != Null
    ensures ok ==> forall i :: 0 <= i < |columns| && columns[i].kind == Boolean ==>
                     columns[i].name in row && !row[columns[i].name].Str?
                     && (row[columns[i].name].Int? ==> row[columns[i].name].i == 0 || row[columns[i].name].i == 1)
    ensures (forall i :: 0 <= i < |columns| ==> columns[i].kind != Boolean && columns[i].name in row && row[columns[i].name] != Null) ==> ok
  {
    forall i :: 0 <= i < |columns| ==> columns[i].name in row && Fits(row[columns[i].name], columns[i])
  }
}
