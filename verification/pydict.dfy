/** A Python `dict` with its insertion order: a list of entries with distinct
    keys. Assigning to an existing key replaces the value in place; a new key
    goes to the end. Iterating the dict walks the entries in this order. */
module PyDict {
  import opened Wrappers

  datatype Entry<K, V> = Entry(key: K, value: V)

  ghost predicate DistinctKeys<K, V>(d: seq<Entry<K, V>>)
  {
    forall i, j :: 0 <= i < j < |d| ==> d[i].key != d[j].key
  }

  function Keys<K, V>(d: seq<Entry<K, V>>): (ks: seq<K>)
    ensures |ks| == |d|
    ensures forall i :: 0 <= i < |d| ==> ks[i] == d[i].key
  {
    seq(|d|, i requires 0 <= i < |d| => d[i].key)
  }

  /** A key is present exactly when some entry holds it. */
  lemma KeysIndex<K, V>(d: seq<Entry<K, V>>, k: K)
    ensures k in Keys(d) <==> exists j :: 0 <= j < |d| && d[j].key == k
  {
    if exists j :: 0 <= j < |d| && d[j].key == k {
      var j :| 0 <= j < |d| && d[j].key == k;
      assert Keys(d)[j] == k;
    }
  }

  /** The first position at or after `from` holding key `k`. */
  function IndexFrom<K(==), V>(d: seq<Entry<K, V>>, k: K, from: nat): (r: Option<nat>)
    ensures r.Some? ==> from <= r.value < |d| && d[r.value].key == k
    ensures r.Some? ==> forall j :: from <= j < r.value ==> d[j].key != k
    ensures r.None? ==> forall j :: from <= j < |d| ==> d[j].key != k
    decreases |d| - from
  {
    if from >= |d| then None
    else if d[from].key == k then Some(from)
    else IndexFrom(d, k, from + 1)
  }

  /** Where `k` is stored, if anywhere. */
  function IndexOf<K(==), V>(d: seq<Entry<K, V>>, k: K): (r: Option<nat>)
    ensures r.Some? ==> r.value < |d| && d[r.value].key == k
    ensures r.Some? ==> forall j :: 0 <= j < r.value ==> d[j].key != k
    ensures r.None? <==> k !in Keys(d)
  {
    KeysIndex(d, k);
    IndexFrom(d, k, 0)
  }

  /** `d.get(k)`. */
  function Get<K(==), V>(d: seq<Entry<K, V>>, k: K): (r: Option<V>)
    ensures r.None? <==> k !in Keys(d)
    ensures DistinctKeys(d) ==> forall i :: 0 <= i < |d| && d[i].key == k ==> r == Some(d[i].value)
  {
    match IndexOf(d, k)
    case None => None
    case Some(i) => Some(d[i].value)
  }

  /** `d[k] = v`. */
  function Put<K(==), V>(d: seq<Entry<K, V>>, k: K, v: V): (r: seq<Entry<K, V>>)
    ensures DistinctKeys(d) ==> DistinctKeys(r)
  {
    match IndexOf(d, k)
    case None => d + [Entry(k, v)]
    case Some(i) => d[i := Entry(k, v)]
  }

  /** `IndexOf` is the first position holding the key. */
  lemma IndexOfFirst<K, V>(d: seq<Entry<K, V>>, k: K, i: nat)
    requires i < |d| && d[i].key == k
    requires forall j :: 0 <= j < i ==> d[j].key != k
    ensures IndexOf(d, k) == Some(i)
  {
    assert k in Keys(d) by {
      assert Keys(d)[i] == k;
    }
  }

  /** Writing a key adds it to the keys and keeps every other key. */
  lemma PutKeys<K, V>(d: seq<Entry<K, V>>, k: K, v: V)
    ensures forall x :: x in Keys(Put(d, k, v)) <==> x == k || x in Keys(d)
  {
    var r := Put(d, k, v);
    match IndexOf(d, k)
    case None =>
      assert r == d + [Entry(k, v)];
      assert Keys(r) == Keys(d) + [k];
    case Some(i) =>
      assert r == d[i := Entry(k, v)];
      assert Keys(r) == Keys(d);
  }

  /** Reading back a key just written gives the written value, and writing one
      key leaves every other key's value as it was. */
  lemma GetPut<K, V>(d: seq<Entry<K, V>>, k: K, v: V, k': K)
    ensures Get(Put(d, k, v), k) == Some(v)
    ensures k' != k ==> Get(Put(d, k, v), k') == Get(d, k')
  {
    var r := Put(d, k, v);
    match IndexOf(d, k)
    case None =>
      assert r == d + [Entry(k, v)];
      IndexOfFirst(r, k, |d|);
      if k' != k {
        OtherKeyIndex(d, r, k');
      }
    case Some(i) =>
      assert r == d[i := Entry(k, v)];
      IndexOfFirst(r, k, i);
      if k' != k {
        OtherKeyIndex(d, r, k');
      }
  }

  /** Two dicts that agree on where `k` is, up to the shorter one's length,
      and whose extra entries do not hold `k`, find `k` at the same place. */
  lemma OtherKeyIndex<K, V>(d: seq<Entry<K, V>>, r: seq<Entry<K, V>>, k: K)
    requires |d| <= |r|
    requires forall j :: 0 <= j < |d| ==> (d[j].key == k <==> r[j].key == k) && (d[j].key == k ==> d[j] == r[j])
    requires forall j :: |d| <= j < |r| ==> r[j].key != k
    ensures Get(r, k) == Get(d, k)
  {
    match IndexOf(d, k)
    case None =>
      KeysIndex(r, k);
    case Some(i) =>
      IndexOfFirst(r, k, i);
  }

  /** `for k, v in zip(ks, vs): d[k] = v` over the first n pairs, starting
      from an empty dict. */
  function Assign<K(==), V>(ks: seq<K>, vs: seq<V>, n: nat): (d: seq<Entry<K, V>>)
    requires n <= |ks| == |vs|
  {
    if n == 0 then []
    else Put(Assign(ks, vs, n - 1), ks[n - 1], vs[n - 1])
  }

  /** However often a key is assigned, it appears once. */
  lemma {:induction false} AssignDistinct<K, V>(ks: seq<K>, vs: seq<V>, n: nat)
    requires n <= |ks| == |vs|
    ensures DistinctKeys(Assign(ks, vs, n))
  {
    if n > 0 {
      AssignDistinct(ks, vs, n - 1);
    }
  }

  /** The keys of the assigned dict are exactly the assigned keys. */
  lemma {:induction false} AssignKeys<K, V>(ks: seq<K>, vs: seq<V>, n: nat)
    requires n <= |ks| == |vs|
    ensures forall x :: x in Keys(Assign(ks, vs, n)) <==> x in ks[..n]
  {
    if n > 0 {
      AssignKeys(ks, vs, n - 1);
      PutKeys(Assign(ks, vs, n - 1), ks[n - 1], vs[n - 1]);
      assert ks[..n] == ks[..n - 1] + [ks[n - 1]];
    }
  }

  /** Each key holds the value of its last assignment. */
  lemma {:induction false} AssignLastWins<K, V>(ks: seq<K>, vs: seq<V>, n: nat, i: nat)
    requires n <= |ks| == |vs| && i < n
    requires forall j :: i < j < n ==> ks[j] != ks[i]
    ensures Get(Assign(ks, vs, n), ks[i]) == Some(vs[i])
  {
    GetPut(Assign(ks, vs, n - 1), ks[n - 1], vs[n - 1], ks[i]);
    if i < n - 1 {
      AssignLastWins(ks, vs, n - 1, i);
    }
  }
}
