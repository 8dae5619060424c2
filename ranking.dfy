/**
 * The ranking of intraday candidates, `np.argsort(-keys)`: candidate
 * positions by non-increasing key. numpy's default sort does not promise an
 * order among equal keys; this model breaks ties by position (discovery
 * order), and the trading rules are proved for any ranking order.
 */
module Ranking {

  /** Position i goes before position j: larger key first, then smaller position. */
  predicate Before(keys: seq<real>, i: nat, j: nat)
    requires i < |keys| && j < |keys|
  {
    keys[i] > keys[j] || (keys[i] == keys[j] && i < j)
  }

  /** `r` lists positions of `keys`, each strictly before the next. */
  predicate Ranked(keys: seq<real>, r: seq<nat>)
  {
    && (forall a :: 0 <= a < |r| ==> r[a] < |keys|)
    && (forall a, b :: 0 <= a < b < |r| ==> Before(keys, r[a], r[b]))
  }

  /** Insert position i into a ranking where it belongs. */
  function Insert(keys: seq<real>, r: seq<nat>, i: nat): (r': seq<nat>)
    requires Ranked(keys, r) && i < |keys| && i !in r
    ensures Ranked(keys, r')
    ensures |r'| == |r| + 1
    ensures forall x :: x in r' <==> x in r || x == i
  {
    if r == [] then [i]
    else if Before(keys, i, r[0]) then
      [i] + r
    else
      var rest := Insert(keys, r[1..], i);
      assert Before(keys, r[0], i);
      forall b | 0 <= b < |rest| ensures Before(keys, r[0], rest[b]) {
        var x := rest[b];
        assert x in rest;
        if x != i {
          var k :| 0 <= k < |r[1..]| && r[1..][k] == x;
          assert r[k + 1] == x;
        }
      }
      [r[0]] + rest
  }

  /** The positions 0 .. n-1 of `keys`, ranked. */
  function RankPrefix(keys: seq<real>, n: nat): (r: seq<nat>)
    requires n <= |keys|
    ensures Ranked(keys, r)
    ensures |r| == n
    ensures forall x: int :: x in r <==> 0 <= x < n
  {
    if n == 0 then []
    else Insert(keys, RankPrefix(keys, n - 1), n - 1)
  }

  /** `np.argsort(-keys)`, ties in position order. */
  function Rank(keys: seq<real>): (r: seq<nat>)
    ensures |r| == |keys|
  {
    RankPrefix(keys, |keys|)
  }

  /**
   * The ranking is a permutation of the positions of `keys`, ordered by
   * non-increasing key, equal keys in position order.
   */
  lemma RankIsSortedPermutation(keys: seq<real>)
    ensures |Rank(keys)| == |keys|
    ensures forall i :: 0 <= i < |keys| ==> i in Rank(keys)
    ensures forall a :: 0 <= a < |keys| ==> Rank(keys)[a] < |keys|
    ensures forall a, b :: 0 <= a < b < |keys| ==> keys[Rank(keys)[a]] >= keys[Rank(keys)[b]]
    ensures forall a, b :: 0 <= a < b < |keys| && keys[Rank(keys)[a]] == keys[Rank(keys)[b]] ==>
              Rank(keys)[a] < Rank(keys)[b]
  {
  }
}
