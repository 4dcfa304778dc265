/** Sums and selections over the rows of a table. */
module Rows {

  function SumOf<T>(rows: seq<T>, f: T -> int): int {
    if rows == [] then 0 else SumOf(rows[..|rows| - 1], f) + f(rows[|rows| - 1])
  }

  function Filter<T>(rows: seq<T>, keep: T -> bool): seq<T> {
    if rows == [] then []
    else
      var rest := Filter(rows[..|rows| - 1], keep);
      if keep(rows[|rows| - 1]) then rest + [rows[|rows| - 1]] else rest
  }

  lemma TakeOneMore<T>(rows: seq<T>, k: nat)
    requires k < |rows|
    ensures rows[..k + 1] == rows[..k] + [rows[k]]
  {
  }

  lemma TakeOfTake<T>(rows: seq<T>, k: nat)
    requires k < |rows|
    ensures rows[..k + 1][..k] == rows[..k]
  {
  }

  lemma SplitAt<T>(rows: seq<T>, k: nat)
    requires k <= |rows|
    ensures rows[..k] + rows[k..] == rows
  {
  }

  lemma DropOneMore<T>(rows: seq<T>, from: nat)
    requires from < |rows|
    ensures rows[from..] == rows[..|rows| - 1][from..] + [rows[|rows| - 1]]
  {
  }

  lemma TakeOfAppend<T>(rows: seq<T>, row: T, k: nat)
    requires k <= |rows|
    ensures (rows + [row])[..k] == rows[..k]
  {
  }

  lemma TakeAll<T>(rows: seq<T>)
    ensures rows[..|rows|] == rows
  {
  }

  lemma SumOfOneMore<T>(rows: seq<T>, row: T, f: T -> int)
    ensures SumOf(rows + [row], f) == SumOf(rows, f) + f(row)
  {
    assert (rows + [row])[..|rows|] == rows;
  }

  lemma FilterOneMore<T>(rows: seq<T>, row: T, keep: T -> bool)
    ensures Filter(rows + [row], keep) == Filter(rows, keep) + (if keep(row) then [row] else [])
  {
    assert (rows + [row])[..|rows|] == rows;
  }

  lemma {:induction false} SumOfUpdate<T>(rows: seq<T>, k: nat, row: T, f: T -> int)
    requires k < |rows|
    ensures SumOf(rows[k := row], f) == SumOf(rows, f) - f(rows[k]) + f(row)
    decreases |rows|
  {
    var last := |rows| - 1;
    if k == last {
      assert rows[k := row][..last] == rows[..last];
    } else {
      assert rows[k := row][..last] == rows[..last][k := row];
      SumOfUpdate(rows[..last], k, row, f);
    }
  }

  lemma {:induction false} SumOfAtMost<T>(rows: seq<T>, f: T -> int, g: T -> int)
    requires forall row <- rows :: f(row) <= g(row)
    ensures SumOf(rows, f) <= SumOf(rows, g)
    decreases |rows|
  {
    if rows != [] {
      SumOfAtMost(rows[..|rows| - 1], f, g);
    }
  }

  lemma {:induction false} FilterKeeps<T>(rows: seq<T>, keep: T -> bool)
    ensures forall row :: row in Filter(rows, keep) <==> row in rows && keep(row)
    decreases |rows|
  {
    if rows != [] {
      FilterKeeps(rows[..|rows| - 1], keep);
    }
  }

  lemma {:induction false} FilterConcat<T>(a: seq<T>, b: seq<T>, keep: T -> bool)
    ensures Filter(a + b, keep) == Filter(a, keep) + Filter(b, keep)
    decreases |b|
  {
    if b == [] {
      assert a + b == a;
    } else {
      var init, last := b[..|b| - 1], b[|b| - 1];
      assert a + b == (a + init) + [last] && b == init + [last];
      FilterConcat(a, init, keep);
      FilterOneMore(a + init, last, keep);
      FilterOneMore(init, last, keep);
    }
  }

  lemma {:induction false} FilterNone<T>(rows: seq<T>, keep: T -> bool)
    requires forall row <- rows :: !keep(row)
    ensures Filter(rows, keep) == []
    decreases |rows|
  {
    if rows != [] {
      FilterNone(rows[..|rows| - 1], keep);
    }
  }

  lemma {:induction false} FilterAll<T>(rows: seq<T>, keep: T -> bool)
    requires forall row <- rows :: keep(row)
    ensures Filter(rows, keep) == rows
    decreases |rows|
  {
    if rows != [] {
      FilterAll(rows[..|rows| - 1], keep);
    }
  }

  lemma {:induction false} FilterIsShorter<T>(rows: seq<T>, keep: T -> bool)
    ensures |Filter(rows, keep)| <= |rows|
    decreases |rows|
  {
    if rows != [] {
      FilterIsShorter(rows[..|rows| - 1], keep);
    }
  }

  /** `.first()`: the position of the first row a query keeps. */
  function FirstIndex<T>(rows: seq<T>, keep: T -> bool): (k: int)
    ensures -1 <= k < |rows|
    ensures k >= 0 ==> keep(rows[k])
    ensures k == -1 ==> forall i :: 0 <= i < |rows| ==> !keep(rows[i])
    ensures forall i :: 0 <= i < k ==> !keep(rows[i])
  {
    if rows == [] then -1
    else
      var k := FirstIndex(rows[..|rows| - 1], keep);
      if k >= 0 then k else if keep(rows[|rows| - 1]) then |rows| - 1 else -1
  }
}
