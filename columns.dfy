/**
 * The numpy reductions the program applies to one column of numbers:
 * `np.min`, `np.max`, `np.argmin`/`idxmin` and `np.argmax`/`idxmax`.
 * The arg-functions return the FIRST position holding the extremum,
 * as numpy and pandas do.
 */
module Columns {

  /** `np.min`: the smallest entry. */
  function Min(xs: seq<real>): (m: real)
    requires |xs| > 0
    ensures forall i :: 0 <= i < |xs| ==> m <= xs[i]
    ensures exists i :: 0 <= i < |xs| && xs[i] == m
  {
    if |xs| == 1 then xs[0]
    else
      var rest := Min(xs[1..]);
      assert forall i :: 1 <= i < |xs| ==> xs[i] == xs[1..][i - 1];
      if xs[0] <= rest then xs[0] else rest
  }

  /** `np.max`: the largest entry. */
  function Max(xs: seq<real>): (m: real)
    requires |xs| > 0
    ensures forall i :: 0 <= i < |xs| ==> xs[i] <= m
    ensures exists i :: 0 <= i < |xs| && xs[i] == m
  {
    if |xs| == 1 then xs[0]
    else
      var rest := Max(xs[1..]);
      assert forall i :: 1 <= i < |xs| ==> xs[i] == xs[1..][i - 1];
      if rest <= xs[0] then xs[0] else rest
  }

  /** `np.argmin`: the first position of a smallest entry. */
  function ArgMin(xs: seq<real>): (k: nat)
    requires |xs| > 0
    ensures k < |xs|
    ensures forall j :: 0 <= j < |xs| ==> xs[k] <= xs[j]
    ensures forall j :: 0 <= j < k ==> xs[k] < xs[j]
  {
    if |xs| == 1 then 0
    else
      var k := ArgMin(xs[..|xs| - 1]);
      assert forall j :: 0 <= j < |xs| - 1 ==> xs[j] == xs[..|xs| - 1][j];
      if xs[|xs| - 1] < xs[k] then |xs| - 1 else k
  }

  /** `np.argmax`: the first position of a largest entry. */
  function ArgMax(xs: seq<real>): (k: nat)
    requires |xs| > 0
    ensures k < |xs|
    ensures forall j :: 0 <= j < |xs| ==> xs[j] <= xs[k]
    ensures forall j :: 0 <= j < k ==> xs[j] < xs[k]
  {
    if |xs| == 1 then 0
    else
      var k := ArgMax(xs[..|xs| - 1]);
      assert forall j :: 0 <= j < |xs| - 1 ==> xs[j] == xs[..|xs| - 1][j];
      if xs[k] < xs[|xs| - 1] then |xs| - 1 else k
  }

  /** The value `np.min` reports is the one found at `np.argmin`. */
  lemma MinAtArgMin(xs: seq<real>)
    requires |xs| > 0
    ensures xs[ArgMin(xs)] == Min(xs)
  {
    var k := ArgMin(xs);
    var i :| 0 <= i < |xs| && xs[i] == Min(xs);
    assert xs[k] <= xs[i] && Min(xs) <= xs[k];
  }

  /** The value `np.max` reports is the one found at `np.argmax`. */
  lemma MaxAtArgMax(xs: seq<real>)
    requires |xs| > 0
    ensures xs[ArgMax(xs)] == Max(xs)
  {
    var k := ArgMax(xs);
    var i :| 0 <= i < |xs| && xs[i] == Max(xs);
    assert xs[i] <= xs[k] && xs[k] <= Max(xs);
  }

  /** Earliest of a non-empty list of calendar days (day numbers). */
  function MinDay(ds: seq<int>): (m: int)
    requires |ds| > 0
    ensures forall i :: 0 <= i < |ds| ==> m <= ds[i]
    ensures exists i :: 0 <= i < |ds| && ds[i] == m
  {
    if |ds| == 1 then ds[0]
    else
      var rest := MinDay(ds[1..]);
      assert forall i :: 1 <= i < |ds| ==> ds[i] == ds[1..][i - 1];
      if ds[0] <= rest then ds[0] else rest
  }

  /** Latest of a non-empty list of calendar days. */
  function MaxDay(ds: seq<int>): (m: int)
    requires |ds| > 0
    ensures forall i :: 0 <= i < |ds| ==> ds[i] <= m
    ensures exists i :: 0 <= i < |ds| && ds[i] == m
  {
    if |ds| == 1 then ds[0]
    else
      var rest := MaxDay(ds[1..]);
      assert forall i :: 1 <= i < |ds| ==> ds[i] == ds[1..][i - 1];
      if rest <= ds[0] then ds[0] else rest
  }
}
