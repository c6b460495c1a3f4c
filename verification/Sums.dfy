/** Sums over the rows of a bucket, whatever order the bucket is walked in. */
module Sums {
  import opened Prelude

  ghost function SumOver<T>(rows: map<Id, T>, f: T -> int): int
    decreases |rows|
  {
    if rows == map[] then 0
    else
      var k :| k in rows;
      f(rows[k]) + SumOver(rows - {k}, f)
  }

  /** Any row may be taken out first. */
  lemma {:induction false} SumRemove<T>(rows: map<Id, T>, f: T -> int, k: Id)
    requires k in rows
    ensures SumOver(rows, f) == f(rows[k]) + SumOver(rows - {k}, f)
    decreases |rows|
  {
    var j :| j in rows && SumOver(rows, f) == f(rows[j]) + SumOver(rows - {j}, f);
    if j != k {
      SumRemove(rows - {j}, f, k);
      SumRemove(rows - {k}, f, j);
      assert rows - {j} - {k} == rows - {k} - {j};
    }
  }

  lemma SumInsert<T>(rows: map<Id, T>, f: T -> int, k: Id, row: T)
    requires k !in rows
    ensures SumOver(rows[k := row], f) == SumOver(rows, f) + f(row)
  {
    SumRemove(rows[k := row], f, k);
    assert rows[k := row] - {k} == rows;
  }

  ghost predicate Agree<T>(a: map<Id, T>, b: map<Id, T>) {
    forall k :: k in a && k in b ==> a[k] == b[k]
  }

  /** The rows both logs hold. */
  ghost function Common<T>(a: map<Id, T>, b: map<Id, T>): map<Id, T> {
    map k | k in a && k in b :: a[k]
  }

  lemma MergeStep<T>(a: map<Id, T>, rest: map<Id, T>, f: T -> int, k: Id, row: T)
    requires k !in rest && (k in a ==> a[k] == row)
    ensures SumOver(a + rest[k := row], f) + SumOver(Common(a, rest[k := row]), f)
            == SumOver(a + rest, f) + SumOver(Common(a, rest), f) + f(row)
  {
    if k in a {
      assert a + rest[k := row] == a + rest;
      assert Common(a, rest[k := row]) == Common(a, rest)[k := row];
      SumInsert(Common(a, rest), f, k, row);
    } else {
      assert a + rest[k := row] == (a + rest)[k := row];
      assert Common(a, rest[k := row]) == Common(a, rest);
      SumInsert(a + rest, f, k, row);
    }
  }

  /** Merging two logs counts each row once: the common part is what the plain sum counts twice. */
  lemma {:induction false} SumOfMerge<T>(a: map<Id, T>, b: map<Id, T>, f: T -> int)
    requires Agree(a, b)
    ensures SumOver(a + b, f) + SumOver(Common(a, b), f) == SumOver(a, f) + SumOver(b, f)
    decreases |b|
  {
    if b == map[] {
      assert a + b == a;
      assert Common(a, b) == map[];
    } else {
      var k :| k in b;
      var row, rest := b[k], b - {k};
      assert b == rest[k := row];
      assert |rest| < |b| && Agree(a, rest) && (k in a ==> a[k] == row);
      SumOfMerge(a, rest, f);
      SumInsert(rest, f, k, row);
      MergeStep(a, rest, f, k, row);
    }
  }
}
