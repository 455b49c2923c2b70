/**
 * Database tables as both services see them through the ORM.
 *
 * A table is a sequence of rows in insertion order. Every row carries the
 * primary key the database gave it (an auto-increment id) and its other
 * columns. Because ids are handed out in increasing order, a table is always
 * sorted by id. The model assumes that `first()` and a `get()` without
 * `orderBy` read rows in this order; SQL itself leaves that order unspecified.
 */
module Tables {

  datatype Option<+T> = None | Some(value: T)

  /** A stored record: its primary key and its other columns. */
  datatype Row<+T> = Row(id: int, attrs: T)

  /** Ids strictly increase along the table (and so are unique). */
  ghost predicate Ascending<T>(t: seq<Row<T>>)
  {
    forall i, j :: 0 <= i < j < |t| ==> t[i].id < t[j].id
  }

  /** Ids strictly decrease along the sequence: `orderBy('id', 'desc')`. */
  ghost predicate Descending<T>(t: seq<Row<T>>)
  {
    forall i, j :: 0 <= i < j < |t| ==> t[i].id > t[j].id
  }

  /** What an auto-increment key leaves behind: sorted ids, all below the next one. */
  ghost predicate WellKeyed<T>(t: seq<Row<T>>, nextId: int)
  {
    Ascending(t) && forall k :: 0 <= k < |t| ==> t[k].id < nextId
  }

  /** `Model::find($id)`: the row whose primary key is `id`, if there is one. */
  function FindRow<T>(t: seq<Row<T>>, id: int): (r: Option<Row<T>>)
    ensures r.Some? ==> r.value in t && r.value.id == id
    ensures r.None? <==> forall k :: 0 <= k < |t| ==> t[k].id != id
  {
    if t == [] then None
    else if t[0].id == id then Some(t[0])
    else
      var r := FindRow(t[1..], id);
      assert forall k :: 1 <= k < |t| ==> t[k] == t[1..][k - 1];
      r
  }

  /**
   * `$row->update($attrs)` followed by a save: the row with key `id` gets
   * the new columns, every other row stays as it was.
   */
  function Replace<T>(t: seq<Row<T>>, id: int, attrs: T): (r: seq<Row<T>>)
    ensures |r| == |t|
    ensures forall k :: 0 <= k < |t| ==> r[k].id == t[k].id
    ensures forall k :: 0 <= k < |t| && t[k].id != id ==> r[k] == t[k]
    ensures forall k :: 0 <= k < |t| && t[k].id == id ==> r[k].attrs == attrs
  {
    if t == [] then []
    else
      var rest := Replace(t[1..], id, attrs);
      var head := if t[0].id == id then Row(id, attrs) else t[0];
      assert forall k :: 1 <= k < |t| ==> ([head] + rest)[k] == rest[k - 1] && t[k] == t[1..][k - 1];
      [head] + rest
  }

  /** `$row->delete()`: every row keyed `id` leaves the table, nothing else does. */
  function Remove<T(==)>(t: seq<Row<T>>, id: int): (r: seq<Row<T>>)
    ensures forall k :: 0 <= k < |r| ==> r[k] in t && r[k].id != id
    ensures forall k :: 0 <= k < |t| && t[k].id != id ==> t[k] in r
    ensures |r| <= |t|
  {
    if t == [] then []
    else if t[0].id == id then Remove(t[1..], id)
    else [t[0]] + Remove(t[1..], id)
  }

  /** The rows in the opposite order. */
  function Reversed<T>(t: seq<Row<T>>): (r: seq<Row<T>>)
    ensures |r| == |t|
    ensures forall k :: 0 <= k < |t| ==> r[k] == t[|t| - 1 - k]
  {
    if t == [] then []
    else
      var rest := Reversed(t[1..]);
      assert forall k :: 0 <= k < |rest| ==> (rest + [t[0]])[k] == rest[k];
      rest + [t[0]]
  }

  /** A row whose key is below every key of an ascending table can go in front of it. */
  lemma ConsAscending<T>(x: Row<T>, t: seq<Row<T>>)
    requires Ascending(t)
    requires forall k :: 0 <= k < |t| ==> x.id < t[k].id
    ensures Ascending([x] + t)
  {
  }

  /** Deleting keeps the rest of the table in id order, and the table loses exactly one row when the key was present. */
  lemma {:induction false} RemoveAscending<T>(t: seq<Row<T>>, id: int)
    requires Ascending(t)
    ensures Ascending(Remove(t, id))
    ensures FindRow(t, id).Some? ==> |Remove(t, id)| == |t| - 1
    ensures FindRow(t, id).None? ==> Remove(t, id) == t
  {
    if t != [] {
      assert Ascending(t[1..]);
      RemoveAscending(t[1..], id);
      var rest := Remove(t[1..], id);
      forall k | 0 <= k < |rest|
        ensures t[0].id < rest[k].id
      {
        assert rest[k] in t[1..];
      }
      if t[0].id != id {
        ConsAscending(t[0], rest);
        assert FindRow(t, id) == FindRow(t[1..], id);
      } else {
        assert FindRow(t[1..], id).None? by {
          forall k | 0 <= k < |t| - 1
            ensures t[1..][k].id != id
          {
            assert t[0].id < t[k + 1].id;
          }
        }
      }
    }
  }

  /** In an ascending table the row `find` returns is the only row with that key. */
  lemma FoundRowIsOnly<T>(t: seq<Row<T>>, id: int)
    requires Ascending(t)
    requires FindRow(t, id).Some?
    ensures forall k :: 0 <= k < |t| && t[k].id == id ==> t[k] == FindRow(t, id).value
  {
  }

  /** A fresh row appended with the next auto-increment key keeps the table well keyed. */
  lemma AppendWellKeyed<T>(t: seq<Row<T>>, nextId: int, attrs: T)
    requires WellKeyed(t, nextId)
    ensures WellKeyed(t + [Row(nextId, attrs)], nextId + 1)
  {
  }

  /** Reading an ascending table backwards lists it in strictly descending id order. */
  lemma ReversedDescending<T>(t: seq<Row<T>>)
    requires Ascending(t)
    ensures Descending(Reversed(t))
    ensures forall x :: x in Reversed(t) <==> x in t
  {
  }

  /**
   * One table of the database: its rows and the next value of its
   * auto-increment key. Handlers that write to a table name it in their
   * `modifies` clause; every other table keeps its state.
   */
  class Table<T(==)> {
    var rows: seq<Row<T>>
    var nextId: int

    ghost predicate Valid()
      reads this
    {
      WellKeyed(rows, nextId)
    }

    constructor ()
      ensures Valid() && rows == []
    {
      rows := [];
      nextId := 1;
    }

    /** `Model::create($attrs)`: appends one row under a fresh key and returns it. */
    method Create(attrs: T) returns (row: Row<T>)
      requires Valid()
      modifies this
      ensures Valid()
      ensures row == Row(old(nextId), attrs)
      ensures FindRow(old(rows), row.id).None?
      ensures rows == old(rows) + [row]
      ensures nextId == old(nextId) + 1
    {
      row := Row(nextId, attrs);
      AppendWellKeyed(rows, nextId, attrs);
      rows := rows + [row];
      nextId := nextId + 1;
    }

    /** Saves new columns for the row keyed `id`. */
    method Save(id: int, attrs: T)
      requires Valid()
      modifies this
      ensures Valid()
      ensures rows == Replace(old(rows), id, attrs)
      ensures nextId == old(nextId)
    {
      rows := Replace(rows, id, attrs);
    }

    /** Deletes the row keyed `id`. */
    method Delete(id: int)
      requires Valid()
      modifies this
      ensures Valid()
      ensures rows == Remove(old(rows), id)
      ensures nextId == old(nextId)
    {
      RemoveAscending(rows, id);
      rows := Remove(rows, id);
    }
  }
}
