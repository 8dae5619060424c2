/**
 * A Python `dict` keyed by strings, as an insertion-ordered list of entries.
 * Assigning to a present key replaces its value where it stands, assigning
 * to a new key appends it, and `del` removes the entry and closes the gap;
 * iteration follows the list.
 */
module Dict {
  import opened Basics

  datatype Entry<V> = Entry(key: string, value: V)

  type Dict<V> = seq<Entry<V>>

  /** No key occurs twice: every dict value satisfies this. */
  predicate DistinctKeys<V>(d: Dict<V>)
  {
    forall i, j :: 0 <= i < j < |d| ==> d[i].key != d[j].key
  }

  /** Position of key `k`, if present. */
  function Find<V>(d: Dict<V>, k: string): (r: Option<nat>)
    ensures r.Some? ==> r.value < |d| && d[r.value].key == k
    ensures r.Some? ==> forall j :: 0 <= j < r.value ==> d[j].key != k
    ensures r.None? <==> forall j :: 0 <= j < |d| ==> d[j].key != k
  {
    if d == [] then None
    else if d[0].key == k then Some(0)
    else
      match Find(d[1..], k)
      case None => None
      case Some(i) => Some(i + 1)
  }

  /** `d.get(k)`. */
  function Get<V>(d: Dict<V>, k: string): (r: Option<V>)
    ensures r.Some? <==> Find(d, k).Some?
  {
    match Find(d, k)
    case None => None
    case Some(i) => Some(d[i].value)
  }

  /** `k in d`. */
  predicate Has<V>(d: Dict<V>, k: string)
  {
    Find(d, k).Some?
  }

  /** In a dict with distinct keys, the entry at position i is the one `Get` sees. */
  lemma GetAt<V>(d: Dict<V>, i: nat)
    requires DistinctKeys(d) && i < |d|
    ensures Find(d, d[i].key) == Some(i)
    ensures Get(d, d[i].key) == Some(d[i].value)
  {
  }

  /** Replacing the entry at position i by one with the same key changes `Get` at that key only. */
  lemma ReplaceAt<V>(d: Dict<V>, i: nat, v: V)
    requires DistinctKeys(d) && i < |d|
    ensures DistinctKeys(d[i := Entry(d[i].key, v)])
    ensures Get(d[i := Entry(d[i].key, v)], d[i].key) == Some(v)
    ensures forall k' :: k' != d[i].key ==> Get(d[i := Entry(d[i].key, v)], k') == Get(d, k')
  {
    var r := d[i := Entry(d[i].key, v)];
    assert forall j :: 0 <= j < |r| ==> r[j].key == d[j].key;
    GetAt(r, i);
    forall k' | k' != d[i].key
      ensures Get(r, k') == Get(d, k')
    {
      match Find(d, k')
      case None =>
      case Some(j) => GetAt(r, j);
    }
  }

  /** Appending an entry with a fresh key adds that key and changes nothing else. */
  lemma Append<V>(d: Dict<V>, k: string, v: V)
    requires DistinctKeys(d) && Find(d, k).None?
    ensures DistinctKeys(d + [Entry(k, v)])
    ensures Get(d + [Entry(k, v)], k) == Some(v)
    ensures forall k' :: k' != k ==> Get(d + [Entry(k, v)], k') == Get(d, k')
  {
    var r := d + [Entry(k, v)];
    GetAt(r, |d|);
    forall k' | k' != k
      ensures Get(r, k') == Get(d, k')
    {
      match Find(d, k')
      case None =>
      case Some(j) => GetAt(r, j); GetAt(d, j);
    }
  }

  /** Cutting out the entry at position i removes its key and changes nothing else. */
  lemma CutAt<V>(d: Dict<V>, i: nat)
    requires DistinctKeys(d) && i < |d|
    ensures DistinctKeys(d[..i] + d[i + 1..])
    ensures Get(d[..i] + d[i + 1..], d[i].key) == None
    ensures forall k' :: k' != d[i].key ==> Get(d[..i] + d[i + 1..], k') == Get(d, k')
  {
    var r := d[..i] + d[i + 1..];
    assert |r| == |d| - 1;
    forall j | 0 <= j < |r|
      ensures r[j] == d[if j < i then j else j + 1]
    {
      if j < i {
        assert r[j] == d[..i][j];
      } else {
        assert r[j] == d[i + 1..][j - i];
      }
    }
    forall a, b | 0 <= a < b < |r|
      ensures r[a].key != r[b].key
    {
      var a', b' := if a < i then a else a + 1, if b < i then b else b + 1;
      assert r[a] == d[a'] && r[b] == d[b'] && a' < b';
    }
    forall j | 0 <= j < |r|
      ensures r[j].key != d[i].key
    {
      var j' := if j < i then j else j + 1;
      assert r[j] == d[j'] && j' != i;
    }
    forall k' | k' != d[i].key
      ensures Get(r, k') == Get(d, k')
    {
      match Find(d, k')
      case None =>
        forall j | 0 <= j < |r|
          ensures r[j].key != k'
        {
          assert r[j] == d[if j < i then j else j + 1];
        }
      case Some(j) =>
        if j < i { GetAt(r, j); } else { GetAt(r, j - 1); }
    }
  }

  /** `d[k] = v`. */
  function Put<V>(d: Dict<V>, k: string, v: V): (r: Dict<V>)
    requires DistinctKeys(d)
    ensures DistinctKeys(r)
  {
    match Find(d, k)
    case Some(i) => ReplaceAt(d, i, v); d[i := Entry(k, v)]
    case None => Append(d, k, v); d + [Entry(k, v)]
  }

  /**
   * After `d[k] = v`, `k` maps to `v` and every other key as before; a present
   * key keeps its place and a new one is appended at the end.
   */
  lemma PutFacts<V>(d: Dict<V>, k: string, v: V)
    requires DistinctKeys(d)
    ensures var r := Put(d, k, v);
      && Get(r, k) == Some(v)
      && (forall k' :: k' != k ==> Get(r, k') == Get(d, k'))
      && |r| == (if Has(d, k) then |d| else |d| + 1)
      && (Has(d, k) ==> forall i :: 0 <= i < |d| ==> r[i].key == d[i].key)
      && (!Has(d, k) ==> r == d + [Entry(k, v)])
      && (forall j :: 0 <= j < |r| ==> r[j] == Entry(k, v) || r[j] in d)
  {
    match Find(d, k)
    case Some(i) => ReplaceAt(d, i, v);
    case None => Append(d, k, v);
  }

  /** `del d[k]` (nothing happens when `k` is absent). */
  function Remove<V>(d: Dict<V>, k: string): (r: Dict<V>)
    requires DistinctKeys(d)
    ensures DistinctKeys(r)
  {
    match Find(d, k)
    case None => d
    case Some(i) => CutAt(d, i); d[..i] + d[i + 1..]
  }

  /** After `del d[k]`, `k` is absent, every other key maps as before, and no entry is new. */
  lemma RemoveFacts<V>(d: Dict<V>, k: string)
    requires DistinctKeys(d)
    ensures var r := Remove(d, k);
      && Get(r, k) == None
      && (forall k' :: k' != k ==> Get(r, k') == Get(d, k'))
      && |r| == (if Has(d, k) then |d| - 1 else |d|)
      && (forall j :: 0 <= j < |r| ==> r[j] in d)
  {
    match Find(d, k)
    case None =>
    case Some(i) => CutAt(d, i);
  }
}
