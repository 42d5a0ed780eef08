/** The batched update of core/models.py: one table update for each slice of keys. */
module MultiUpdate {
  import opened Lists

  const SLICE_LEN := 20000
  const SLICES := 1000
  const LIMIT := 20000000

  /** A row: the key column, the value column, and all the others. */
  datatype Row<T> = Row(key: int, value: int, rest: T)

  /** The extra condition reads a row's own columns, the value column among them. */
  type Where<!T> = Row<T> -> bool

  predicate Hits<T>(row: Row<T>, item: seq<int>, where: Where<T>) {
    row.key in item && where(row)
  }

  function UpdateRow<T>(row: Row<T>, item: seq<int>, res: map<int, int>, where: Where<T>): Row<T>
    requires forall k :: k in item ==> k in res
  {
    if Hits(row, item, where) then row.(value := res[row.key]) else row
  }

  /** One statement: every row is tested and set on its own. */
  function UpdateAll<T>(rows: seq<Row<T>>, item: seq<int>, res: map<int, int>, where: Where<T>): seq<Row<T>>
    requires forall k :: k in item ==> k in res
  {
    seq(|rows|, i requires 0 <= i < |rows| => UpdateRow(rows[i], item, res, where))
  }

  function Min(a: int, b: int): int {
    if a < b then a else b
  }

  /** A slice of a Python list stops at the end of the list. */
  function Slice(keys: seq<int>, i: nat): seq<int> {
    keys[Min(i * SLICE_LEN, |keys|)..Min(i * SLICE_LEN + SLICE_LEN, |keys|)]
  }

  /** Two updates of disjoint keys are one, though the condition is read again after the first. */
  lemma TwoUpdatesAreOne<T>(rows: seq<Row<T>>, a: seq<int>, b: seq<int>, res: map<int, int>, where: Where<T>)
    requires Distinct(a + b) && forall k :: k in a + b ==> k in res
    ensures forall k :: k in a || k in b ==> k in res
    ensures UpdateAll(UpdateAll(rows, a, res, where), b, res, where) == UpdateAll(rows, a + b, res, where)
  {
    forall k | k in a || k in b
      ensures k in a + b && k in res
    {
    }
    forall i | 0 <= i < |rows|
      ensures UpdateRow(UpdateRow(rows[i], a, res, where), b, res, where) == UpdateRow(rows[i], a + b, res, where)
    {
      NotInBoth(a, b, rows[i].key);
    }
  }

  lemma NotInBoth(a: seq<int>, b: seq<int>, k: int)
    requires Distinct(a + b)
    ensures !(k in a && k in b)
  {
    assert forall i :: 0 <= i < |a| ==> (a + b)[i] == a[i];
    assert forall j :: 0 <= j < |b| ==> (a + b)[|a| + j] == b[j];
  }

  /** A table that statements are executed on. */
  class Table<T> {
    var rows: seq<Row<T>>

    method Execute(item: seq<int>, res: map<int, int>, where: Where<T>)
      requires forall k :: k in item ==> k in res
      modifies this
      ensures rows == UpdateAll(old(rows), item, res, where)
    {
      rows := UpdateAll(rows, item, res, where);
    }

    /** `multi_update`, with the keys in the order in which the dictionary lists them. The batches leave
        the table as one update with the first twenty million keys would. */
    method MultiUpdate(keys: seq<int>, res: map<int, int>, where: Where<T>) returns (raised: bool)
      requires Distinct(keys) && forall k :: k in keys <==> k in res
      modifies this
      ensures raised <==> keys == []
      ensures rows == UpdateAll(old(rows), keys[..Min(LIMIT, |keys|)], res, where)
    {
      if keys == [] {
        assert rows == UpdateAll(old(rows), [], res, where);
        return true;
      }
      var slices: seq<seq<int>> := [];
      for i := 0 to SLICES
        invariant |slices| == i && forall j :: 0 <= j < i ==> slices[j] == Slice(keys, j)
      {
        slices := slices + [Slice(keys, i)];
      }
      assert rows == UpdateAll(rows, keys[..0], res, where);
      for i := 0 to SLICES
        invariant rows == UpdateAll(old(rows), keys[..Min(i * SLICE_LEN, |keys|)], res, where)
      {
        var item := slices[i];
        ghost var before := keys[..Min(i * SLICE_LEN, |keys|)];
        assert before + item == keys[..Min((i + 1) * SLICE_LEN, |keys|)];
        assert forall k :: k in before + item ==> k in keys;
        TwoUpdatesAreOne(old(rows), before, item, res, where);
        if item != [] {
          Execute(item, res, where);
        } else {
          assert before + item == before;
        }
      }
      raised := false;
    }
  }

  /** No row is left out that the keys behind the limit would change. */
  predicate NothingBehindLimit<T>(rows: seq<Row<T>>, keys: seq<int>, res: map<int, int>, where: Where<T>)
    requires forall k :: k in keys ==> k in res
  {
    forall i :: 0 <= i < |rows| && rows[i].key in keys[Min(LIMIT, |keys|)..] && where(rows[i]) ==>
                  rows[i].key in res && rows[i].value == res[rows[i].key]
  }

  /** The batches do the whole update exactly when the keys behind the first twenty million change
      nothing; so always with at most that many keys. */
  lemma WholeUpdateIff<T>(rows: seq<Row<T>>, keys: seq<int>, res: map<int, int>, where: Where<T>)
    requires Distinct(keys) && forall k :: k in keys ==> k in res
    ensures UpdateAll(rows, keys[..Min(LIMIT, |keys|)], res, where) == UpdateAll(rows, keys, res, where)
      <==> NothingBehindLimit(rows, keys, res, where)
    ensures |keys| <= LIMIT ==> NothingBehindLimit(rows, keys, res, where)
  {
    var a, b := keys[..Min(LIMIT, |keys|)], keys[Min(LIMIT, |keys|)..];
    assert keys == a + b;
    var part, whole := UpdateAll(rows, a, res, where), UpdateAll(rows, keys, res, where);
    forall i | 0 <= i < |rows|
      ensures part[i] == whole[i] <==> !(rows[i].key in b && where(rows[i]) && rows[i].value != res[rows[i].key])
    {
      NotInBoth(a, b, rows[i].key);
    }
    if part == whole {
      forall i | 0 <= i < |rows| && rows[i].key in b && where(rows[i])
        ensures rows[i].value == res[rows[i].key]
      {
        assert part[i] == whole[i];
      }
    }
  }
}
