/**
 * An in-memory stand-in for one database table: rows keyed by an autoincrement
 * primary key, and the counter that hands out the next key.
 */
module Tables {
  import opened Wrappers

  /** The keys of `rows` below `bound`, in ascending order. */
  function IdsBelow<R>(rows: map<nat, R>, bound: nat): (ids: seq<nat>)
    ensures forall i :: 0 <= i < |ids| ==> ids[i] in rows && ids[i] < bound
    ensures forall i, j :: 0 <= i < j < |ids| ==> ids[i] < ids[j]
    ensures forall id :: id in rows && id < bound ==> id in ids
  {
    if bound == 0 then []
    else IdsBelow(rows, bound - 1) + (if bound - 1 in rows then [bound - 1] else [])
  }

  /**
   * The part of `s` an SQL `OFFSET offset LIMIT limit` keeps, with SQLite's reading
   * of negative values: a negative offset skips nothing, a negative limit keeps everything.
   */
  function Window<T>(s: seq<T>, offset: int, limit: int): (w: seq<T>)
    ensures var skip := if offset < 0 then 0 else offset;
            && (skip >= |s| ==> w == [])
            && (skip < |s| ==> |w| == if 0 <= limit < |s| - skip then limit else |s| - skip)
            && forall i :: 0 <= i < |w| ==> skip + i < |s| && w[i] == s[skip + i]
  {
    var start := if offset <= 0 then 0 else if offset >= |s| then |s| else offset;
    var end := if limit < 0 || limit >= |s| - start then |s| else start + limit;
    s[start..end]
  }

  /** The (key, row) pair of each key in `ids`, in the order of `ids`. */
  function Entries<R>(rows: map<nat, R>, ids: seq<nat>): (es: seq<(nat, R)>)
    requires forall i :: 0 <= i < |ids| ==> ids[i] in rows
    ensures |es| == |ids|
    ensures forall i :: 0 <= i < |es| ==> es[i] == (ids[i], rows[ids[i]])
  {
    seq(|ids|, i requires 0 <= i < |ids| => (ids[i], rows[ids[i]]))
  }

  /** Paging the (key, row) pairs of `ids` pages `ids` and pairs each kept key with its row. */
  lemma WindowOfEntries<R>(rows: map<nat, R>, ids: seq<nat>, offset: int, limit: int)
    requires forall i :: 0 <= i < |ids| ==> ids[i] in rows
    ensures |Window(Entries(rows, ids), offset, limit)| == |Window(ids, offset, limit)|
    ensures var skip := if offset < 0 then 0 else offset;
            forall i :: 0 <= i < |Window(Entries(rows, ids), offset, limit)| ==>
              skip + i < |ids| && Window(Entries(rows, ids), offset, limit)[i] == (ids[skip + i], rows[ids[skip + i]])
  {
  }

  class Table<R> {
    var rows: map<nat, R>
    var nextId: nat

    /** Keys start at 1 and every key in use was handed out by the counter. */
    ghost predicate Valid()
      reads this
    {
      && 1 <= nextId
      && forall id :: id in rows ==> 1 <= id < nextId
    }

    constructor ()
      ensures Valid()
      ensures rows == map[] && nextId == 1
    {
      rows := map[];
      nextId := 1;
    }

    /** `session.get(Model, id)` finds a row: the id is a key in use. */
    predicate Has(id: int): (found: bool)
      reads this
      ensures found ==> 0 <= id && id as nat in rows
      ensures Valid() && (id < 1 || nextId <= id) ==> !found
    {
      0 <= id && id as nat in rows
    }

    /** The keys in use, in insertion order (which is key order). */
    function Ids(): (ids: seq<nat>)
      reads this
      requires Valid()
      ensures forall id :: id in rows <==> id in ids
      ensures forall i, j :: 0 <= i < j < |ids| ==> ids[i] < ids[j]
    {
      IdsBelow(rows, nextId)
    }

    /**
     * `select(Model).offset(offset).limit(limit)`: (key, row) pairs in key order, starting
     * at the `offset`-th smallest key in use and running on through consecutive keys in use.
     */
    function Page(offset: int, limit: int): (page: seq<(nat, R)>)
      reads this
      requires Valid()
      ensures 0 <= limit ==> |page| <= limit
      ensures forall i :: 0 <= i < |page| ==> page[i].0 in rows && rows[page[i].0] == page[i].1
      ensures forall i, j :: 0 <= i < j < |page| ==> page[i].0 < page[j].0
      ensures |page| == |Window(Ids(), offset, limit)|
      ensures var skip := if offset < 0 then 0 else offset;
              forall i :: 0 <= i < |page| ==> skip + i < |Ids()| && page[i] == (Ids()[skip + i], rows[Ids()[skip + i]])
    {
      WindowOfEntries(rows, Ids(), offset, limit);
      Window(Entries(rows, Ids()), offset, limit)
    }

    /** Without an offset and with a limit no smaller than the table, the page is the whole table. */
    lemma PageOfAll(offset: int, limit: int)
      requires Valid()
      requires offset <= 0 && (limit < 0 || |rows| <= limit)
      ensures |Page(offset, limit)| == |rows|
    {
      IdsCount(Ids());
    }

    /** The store assigns the key: the next value of the counter, never a key in use. */
    method Insert(r: R) returns (id: nat)
      requires Valid()
      modifies this
      ensures Valid()
      ensures id == old(nextId) && id !in old(rows)
      ensures rows == old(rows)[id := r] && nextId == old(nextId) + 1
    {
      id := nextId;
      rows := rows[id := r];
      nextId := nextId + 1;
    }

    method Replace(id: nat, r: R)
      requires Valid() && id in rows
      modifies this
      ensures Valid()
      ensures rows == old(rows)[id := r] && nextId == old(nextId)
    {
      rows := rows[id := r];
    }

    /** Removes exactly one key. */
    method Remove(id: nat)
      requires Valid() && id in rows
      modifies this
      ensures Valid()
      ensures rows == old(rows) - {id} && nextId == old(nextId)
      ensures |rows| == |old(rows)| - 1
    {
      rows := rows - {id};
    }

    lemma IdsCount(ids: seq<nat>)
      requires Valid() && ids == Ids()
      ensures |ids| == |rows|
    {
      var keys := set i | 0 <= i < |ids| :: ids[i];
      assert keys == rows.Keys;
      DistinctCount(ids);
    }
  }

  /** A strictly increasing sequence has as many elements as its set of elements. */
  lemma {:induction false} DistinctCount(ids: seq<nat>)
    requires forall i, j :: 0 <= i < j < |ids| ==> ids[i] < ids[j]
    ensures |set i | 0 <= i < |ids| :: ids[i]| == |ids|
  {
    if |ids| > 0 {
      var last := ids[|ids| - 1];
      var init := ids[..|ids| - 1];
      DistinctCount(init);
      var front := set i | 0 <= i < |init| :: init[i];
      var whole := set i | 0 <= i < |ids| :: ids[i];
      assert whole == front + {last};
      assert last !in front;
    }
  }
}
