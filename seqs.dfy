/**
 * The sequence queries the services run against a table: the first row that
 * satisfies a condition (LINQ `FirstOrDefault`), the rows that satisfy it
 * (`Where`), and distinctness of a key column.
 */
module Seqs {

  /** The index of the first element of `s` that satisfies `p`, or |s| when none does. */
  function FirstIndex<T>(s: seq<T>, p: T -> bool): (i: nat)
    ensures i <= |s|
    ensures i < |s| ==> p(s[i])
    ensures forall j :: 0 <= j < i ==> !p(s[j])
  {
    if s == [] then 0 else if p(s[0]) then 0 else 1 + FirstIndex(s[1..], p)
  }

  /** The elements of `s` that satisfy `p`, in their order in `s`. */
  function Filter<T>(s: seq<T>, p: T -> bool): (r: seq<T>)
    ensures |r| <= |s|
    ensures forall x :: x in r ==> x in s && p(x)
    ensures forall x :: x in s && p(x) ==> x in r
  {
    if s == [] then []
    else (if p(s[0]) then [s[0]] else []) + Filter(s[1..], p)
  }

  /** Filtering twice by the same condition is filtering once. */
  lemma {:induction false} FilterIdempotent<T>(s: seq<T>, p: T -> bool)
    ensures Filter(Filter(s, p), p) == Filter(s, p)
  {
    if s != [] {
      FilterIdempotent(s[1..], p);
      if p(s[0]) {
        assert Filter(s, p) == [s[0]] + Filter(s[1..], p);
        assert Filter(s, p)[1..] == Filter(s[1..], p);
      } else {
        assert Filter(s, p) == Filter(s[1..], p);
      }
    }
  }

  /** No two elements of `rows` have the same key. */
  predicate DistinctKeys<T, K(==)>(rows: seq<T>, key: T -> K)
  {
    forall i, j :: 0 <= i < j < |rows| ==> key(rows[i]) != key(rows[j])
  }

  function Keys<T, K(==)>(rows: seq<T>, key: T -> K): set<K>
  {
    set i | 0 <= i < |rows| :: key(rows[i])
  }

  /** Appending a row keeps the keys distinct exactly when its key is new. */
  lemma DistinctAppend<T, K>(rows: seq<T>, row: T, key: T -> K)
    requires DistinctKeys(rows, key)
    ensures DistinctKeys(rows + [row], key) <==> key(row) !in Keys(rows, key)
  {
    var s := rows + [row];
    if key(row) in Keys(rows, key) {
      var i :| 0 <= i < |rows| && key(rows[i]) == key(row);
      assert key(s[i]) == key(s[|rows|]);
    }
  }

  /** Removing rows keeps the keys distinct. */
  lemma {:induction false} DistinctFilter<T, K>(rows: seq<T>, p: T -> bool, key: T -> K)
    requires DistinctKeys(rows, key)
    ensures DistinctKeys(Filter(rows, p), key)
  {
    if rows != [] {
      DistinctFilter(rows[1..], p, key);
      if p(rows[0]) {
        var r := Filter(rows, p);
        assert r == [rows[0]] + Filter(rows[1..], p);
        forall i | 1 <= i < |r| ensures key(r[i]) != key(rows[0]) {
          assert r[i] in Filter(rows[1..], p);
          var k :| 0 <= k < |rows[1..]| && rows[1..][k] == r[i];
          assert rows[k + 1] == r[i];
        }
      }
    }
  }

  /** Replacing a row by one with the same key leaves the keys, and their distinctness, as they were. */
  lemma DistinctUpdate<T, K>(rows: seq<T>, i: nat, row: T, key: T -> K)
    requires i < |rows| && key(row) == key(rows[i])
    ensures Keys(rows[i := row], key) == Keys(rows, key)
    ensures DistinctKeys(rows[i := row], key) <==> DistinctKeys(rows, key)
  {
    var s := rows[i := row];
    forall j | 0 <= j < |rows| ensures key(s[j]) == key(rows[j]) {
    }
    assert forall j :: 0 <= j < |rows| ==> key(s[j]) == key(rows[j]);
  }

  /** Removing the row at `i` keeps the keys distinct, and its key is then gone. */
  lemma DistinctRemove<T, K>(rows: seq<T>, i: nat, key: T -> K)
    requires i < |rows| && DistinctKeys(rows, key)
    ensures DistinctKeys(rows[..i] + rows[i + 1..], key)
    ensures Keys(rows[..i] + rows[i + 1..], key) == Keys(rows, key) - {key(rows[i])}
  {
    var s := rows[..i] + rows[i + 1..];
    assert forall j :: 0 <= j < |s| ==> s[j] == rows[if j < i then j else j + 1];
    forall k | k in Keys(rows, key) - {key(rows[i])} ensures k in Keys(s, key) {
      var j :| 0 <= j < |rows| && key(rows[j]) == k;
      assert key(s[if j < i then j else j - 1]) == k;
    }
  }
}
