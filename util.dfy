/** Small helpers shared by the whole model: an optional value, Python's `range`,
    and the dictionary that a loop of `d[key] = value` assignments leaves behind. */
module Util {

  datatype Option<+T> = None | Some(value: T)

  /** No element occurs twice (a list made from a Python `set`). */
  predicate Distinct<T(==)>(s: seq<T>) {
    forall i, j :: 0 <= i < j < |s| ==> s[i] != s[j]
  }

  function Min(a: int, b: int): int {
    if a <= b then a else b
  }

  /** Python's `list(range(lo, hi))`. */
  function Range(lo: int, hi: int): seq<int> {
    seq(if lo <= hi then hi - lo else 0, i => lo + i)
  }

  /** Regrouping a concatenation; appending loops use it to fold one more piece into what
      they have appended so far. */
  lemma AppendAssoc<T>(a: seq<T>, b: seq<T>, c: seq<T>)
    ensures (a + b) + c == a + (b + c)
  {
  }

  /** `y in range(lo, hi)` is the interval test. */
  lemma InRange(lo: int, hi: int, y: int)
    ensures y in Range(lo, hi) <==> lo <= y < hi
  {
    if lo <= y < hi {
      assert Range(lo, hi)[y - lo] == y;
    }
  }

  lemma RangeFacts(lo: int, hi: int)
    ensures Distinct(Range(lo, hi))
    ensures forall y :: y in Range(lo, hi) <==> lo <= y < hi
  {
    forall y ensures y in Range(lo, hi) <==> lo <= y < hi {
      InRange(lo, hi, y);
    }
  }

  /** The dictionary `m` after `for r in rows: m[key(r)] = val(r)`. */
  function Index<R, K(==), V>(m: map<K, V>, rows: seq<R>, key: R -> K, val: R -> V): map<K, V>
    decreases |rows|
  {
    if rows == [] then m
    else
      var last := rows[|rows| - 1];
      Index(m, rows[..|rows| - 1], key, val)[key(last) := val(last)]
  }

  /** Row `i` is the last row whose key is `key(rows[i])`. */
  predicate LastWithKey<R, K(==)>(rows: seq<R>, key: R -> K, i: int)
    requires 0 <= i < |rows|
  {
    forall j :: i < j < |rows| ==> key(rows[j]) != key(rows[i])
  }

  /** One more assignment is one more step of the fold. */
  lemma IndexAppend<R, K, V>(m: map<K, V>, rows: seq<R>, r: R, key: R -> K, val: R -> V)
    ensures Index(m, rows + [r], key, val) == Index(m, rows, key, val)[key(r) := val(r)]
  {
    assert (rows + [r])[..|rows|] == rows;
  }

  /** The keys afterwards are the old keys and the keys of the rows. */
  lemma {:induction false} IndexKeys<R, K, V>(m: map<K, V>, rows: seq<R>, key: R -> K, val: R -> V, k: K)
    ensures k in Index(m, rows, key, val) <==> k in m || exists i :: 0 <= i < |rows| && key(rows[i]) == k
    decreases |rows|
  {
    if rows != [] {
      var init := rows[..|rows| - 1];
      IndexKeys(m, init, key, val, k);
      if exists i :: 0 <= i < |init| && key(init[i]) == k {
        var i :| 0 <= i < |init| && key(init[i]) == k;
        assert key(rows[i]) == k;
      }
      if exists i :: 0 <= i < |rows| && key(rows[i]) == k {
        var i :| 0 <= i < |rows| && key(rows[i]) == k;
        if i < |init| {
          assert key(init[i]) == k;
        }
      }
    }
  }

  /** The last row with a given key decides the value: later rows with other keys do not touch it. */
  lemma {:induction false} IndexLast<R, K, V>(m: map<K, V>, rows: seq<R>, key: R -> K, val: R -> V, i: int)
    requires 0 <= i < |rows| && LastWithKey(rows, key, i)
    ensures key(rows[i]) in Index(m, rows, key, val)
    ensures Index(m, rows, key, val)[key(rows[i])] == val(rows[i])
    decreases |rows|
  {
    if i < |rows| - 1 {
      var init := rows[..|rows| - 1];
      assert key(rows[|rows| - 1]) != key(rows[i]);
      assert LastWithKey(init, key, i) by {
        forall j | i < j < |init| ensures key(init[j]) != key(init[i]) {
          assert init[j] == rows[j];
        }
      }
      IndexLast(m, init, key, val, i);
    }
  }

  /** A key no row mentions keeps its old value. */
  lemma {:induction false} IndexUntouched<R, K, V>(m: map<K, V>, rows: seq<R>, key: R -> K, val: R -> V, k: K)
    requires k in m
    requires forall i :: 0 <= i < |rows| ==> key(rows[i]) != k
    ensures k in Index(m, rows, key, val) && Index(m, rows, key, val)[k] == m[k]
    decreases |rows|
  {
    if rows != [] {
      var init := rows[..|rows| - 1];
      assert key(rows[|rows| - 1]) != k;
      forall i | 0 <= i < |init| ensures key(init[i]) != k {
        assert init[i] == rows[i];
      }
      IndexUntouched(m, init, key, val, k);
    }
  }
}
