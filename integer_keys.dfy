/**
 * Ascending, duplicate-free key lists: the order in which a `for..in` loop
 * visits the array-index keys (0 to 2^32 - 2) of a plain object, each once.
 */
module IntegerKeys {

  ghost predicate Ascending(ks: seq<int>) {
    forall i, j :: 0 <= i < j < |ks| ==> ks[i] < ks[j]
  }

  lemma {:induction false} ConsAscending(x: int, ks: seq<int>)
    requires Ascending(ks)
    requires forall y :: y in ks ==> x < y
    ensures Ascending([x] + ks)
  {
    forall i, j | 0 <= i < j < |ks| + 1 ensures ([x] + ks)[i] < ([x] + ks)[j] {
      assert ([x] + ks)[j] == ks[j - 1];
      if i > 0 {
        assert ([x] + ks)[i] == ks[i - 1];
      } else {
        assert ks[j - 1] in ks;
      }
    }
  }

  /** Adds `k` to the ascending key list `ks` unless it is already there. */
  function InsertKey(ks: seq<int>, k: int): (r: seq<int>)
    requires Ascending(ks)
    ensures Ascending(r)
    ensures forall x :: x in r <==> x in ks || x == k
    ensures k in ks ==> r == ks
    ensures k !in ks ==> |r| == |ks| + 1
  {
    if ks == [] then [k]
    else if k == ks[0] then ks
    else
      AscendingSuffix(ks, 0);
      if k < ks[0] then
        ConsAscending(k, ks);
        [k] + ks
      else
        var rest := InsertKey(ks[1..], k);
        ConsAscending(ks[0], rest);
        assert ks == [ks[0]] + ks[1..];
        [ks[0]] + rest
  }

  /** In an ascending list, the element at `n` is the least of those from `n` on, and does not recur. */
  lemma {:induction false} AscendingSuffix(ks: seq<int>, n: nat)
    requires Ascending(ks) && n < |ks|
    ensures forall x :: x in ks[n..] ==> ks[n] <= x
    ensures forall x :: x in ks[n + 1..] <==> x in ks[n..] && x != ks[n]
  {
    forall x | x in ks[n..] ensures ks[n] <= x {
      var i :| n <= i < |ks| && ks[i] == x;
    }
    forall x ensures x in ks[n + 1..] <==> x in ks[n..] && x != ks[n] {
      if x in ks[n + 1..] {
        var i :| n + 1 <= i < |ks| && ks[i] == x;
        assert ks[n..][i - n] == x;
      }
      if x in ks[n..] && x != ks[n] {
        var i :| n <= i < |ks| && ks[i] == x;
        assert ks[n + 1..][i - n - 1] == x;
      }
    }
  }
}
