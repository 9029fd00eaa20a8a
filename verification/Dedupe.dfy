/** `dedupe_shifts` of src/masova_agent/core/ops_contract.py, for rows of any type and
    any key read off a row. */
module Dedupe {

  /** The rows whose key no earlier row has, in order. */
  function FirstOccurrences<R, K(==)>(rows: seq<R>, key: R -> K): seq<R>
  {
    if rows == [] then []
    else
      var n := |rows| - 1;
      var front := FirstOccurrences(rows[..n], key);
      if Repeated(rows, key, n) then front else front + [rows[n]]
  }

  /** Row `n` has the key of an earlier row. */
  predicate Repeated<R, K(==)>(rows: seq<R>, key: R -> K, n: nat)
    requires n < |rows|
  {
    exists i :: 0 <= i < n && key(rows[i]) == key(rows[n])
  }

  method DedupeRows<R, K(==)>(rows: seq<R>, key: R -> K) returns (unique: seq<R>)
    ensures unique == FirstOccurrences(rows, key)
  {
    var seen: set<K> := {};
    unique := [];
    for i := 0 to |rows|
      invariant seen == set j | 0 <= j < i :: key(rows[j])
      invariant unique == FirstOccurrences(rows[..i], key)
    {
      var upTo := rows[..i + 1];
      assert upTo[..i] == rows[..i] && upTo[i] == rows[i];
      assert Repeated(upTo, key, i) <==> key(rows[i]) in seen by {
        if key(rows[i]) in seen {
          var j :| 0 <= j < i && key(rows[j]) == key(rows[i]);
          assert upTo[j] == rows[j];
        }
      }
      if key(rows[i]) !in seen {
        seen := seen + {key(rows[i])};
        unique := unique + [rows[i]];
      }
    }
    assert rows[..|rows|] == rows;
  }

  ghost predicate DistinctKeys<R, K>(rows: seq<R>, key: R -> K) {
    forall i, j :: 0 <= i < j < |rows| ==> key(rows[i]) != key(rows[j])
  }

  ghost predicate HasKey<R, K>(rows: seq<R>, key: R -> K, k: K) {
    exists i :: 0 <= i < |rows| && key(rows[i]) == k
  }

  /** The filter keeps every key. */
  lemma {:induction false} KeepsEveryKey<R, K>(rows: seq<R>, key: R -> K, k: K)
    ensures HasKey(FirstOccurrences(rows, key), key, k) <==> HasKey(rows, key, k)
  {
    if rows != [] {
      var n := |rows| - 1;
      var front, u := FirstOccurrences(rows[..n], key), FirstOccurrences(rows, key);
      KeepsEveryKey(rows[..n], key, k);
      if HasKey(u, key, k) {
        var i :| 0 <= i < |u| && key(u[i]) == k;
        if i < |front| {
          assert HasKey(front, key, k);
          var j :| 0 <= j < n && key(rows[..n][j]) == k;
          assert key(rows[j]) == k;
        } else {
          assert key(rows[n]) == k;
        }
      }
      if HasKey(rows, key, k) {
        var i :| 0 <= i < |rows| && key(rows[i]) == k;
        if i == n && !Repeated(rows, key, n) {
          assert key(u[|front|]) == k;
        } else {
          var j :| 0 <= j < n && key(rows[j]) == k;
          assert key(rows[..n][j]) == k;
          var m :| 0 <= m < |front| && key(front[m]) == k;
          assert key(u[m]) == k;
        }
      }
    }
  }

  /** The filter removes every repetition. */
  lemma {:induction false} ResultDistinct<R, K>(rows: seq<R>, key: R -> K)
    ensures DistinctKeys(FirstOccurrences(rows, key), key)
  {
    if rows != [] {
      var n := |rows| - 1;
      var front := FirstOccurrences(rows[..n], key);
      ResultDistinct(rows[..n], key);
      if !Repeated(rows, key, n) {
        assert forall j :: 0 <= j < n ==> rows[..n][j] == rows[j];
        assert !HasKey(rows[..n], key, key(rows[n]));
        forall i | 0 <= i < |front| ensures key(front[i]) != key(rows[n]) {
          if key(front[i]) == key(rows[n]) {
            KeepsEveryKey(rows[..n], key, key(rows[n]));
            assert false;
          }
        }
      }
    }
  }

  lemma {:induction false} Shrinks<R, K>(rows: seq<R>, key: R -> K)
    ensures |FirstOccurrences(rows, key)| <= |rows|
    ensures forall r :: r in FirstOccurrences(rows, key) ==> r in rows
  {
    if rows != [] {
      Shrinks(rows[..|rows| - 1], key);
    }
  }

  /** What is kept is the first row with its key. */
  lemma {:induction false} KeptIsFirst<R, K>(rows: seq<R>, key: R -> K, u: R)
    requires u in FirstOccurrences(rows, key)
    ensures exists k :: 0 <= k < |rows| && rows[k] == u && !Repeated(rows, key, k)
  {
    var n := |rows| - 1;
    if u in FirstOccurrences(rows[..n], key) {
      KeptIsFirst(rows[..n], key, u);
      var k :| 0 <= k < n && rows[..n][k] == u && !Repeated(rows[..n], key, k);
      assert forall i :: 0 <= i < k ==> rows[..n][i] == rows[i];
      assert rows[k] == u && !Repeated(rows, key, k);
    } else {
      assert rows[n] == u && !Repeated(rows, key, n);
    }
  }

  lemma {:induction false} DistinctUnchanged<R, K>(rows: seq<R>, key: R -> K)
    requires DistinctKeys(rows, key)
    ensures FirstOccurrences(rows, key) == rows
  {
    if rows != [] {
      DistinctUnchanged(rows[..|rows| - 1], key);
    }
  }

  /** A list comes back unchanged exactly if its keys are distinct. */
  lemma UnchangedExactly<R, K>(rows: seq<R>, key: R -> K)
    ensures FirstOccurrences(rows, key) == rows <==> DistinctKeys(rows, key)
  {
    ResultDistinct(rows, key);
    if DistinctKeys(rows, key) {
      DistinctUnchanged(rows, key);
    }
  }
}
