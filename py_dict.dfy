/**
 * Python's dict as the core uses it: lookup, assignment d[k] = v (an existing
 * key keeps its place, a new key goes to the end) and iteration in insertion
 * order. A dict is the sequence of its items.
 */
module PyDict {
  import opened Wrappers

  type Dict<K, V> = seq<(K, V)>

  /** The keys in insertion order. */
  function Keys<K, V>(d: Dict<K, V>): (ks: seq<K>)
    ensures |ks| == |d|
    ensures forall i :: 0 <= i < |d| ==> ks[i] == d[i].0
  {
    seq(|d|, i requires 0 <= i < |d| => d[i].0)
  }

  /** No key appears twice, as in every dict. */
  predicate DistinctKeys<K(==), V>(d: Dict<K, V>) {
    forall i, j :: 0 <= i < j < |d| ==> d[i].0 != d[j].0
  }

  /** d.get(k). */
  function Get<K(==), V(==)>(d: Dict<K, V>, k: K): (r: Option<V>)
    ensures r.None? <==> k !in Keys(d)
    ensures r.Some? ==> (k, r.value) in d
  {
    if d == [] then None
    else if d[0].0 == k then Some(d[0].1)
    else Get(d[1..], k)
  }

  /** d[k] = v. */
  function Put<K(==), V>(d: Dict<K, V>, k: K, v: V): (r: Dict<K, V>)
    ensures k in Keys(d) ==> |r| == |d| && Keys(r) == Keys(d)
    ensures k !in Keys(d) ==> r == d + [(k, v)]
  {
    if d == [] then [(k, v)]
    else if d[0].0 == k then [(k, v)] + d[1..]
    else [d[0]] + Put(d[1..], k, v)
  }

  /** d[k] = v never doubles a key. */
  lemma {:induction false} PutDistinct<K, V>(d: Dict<K, V>, k: K, v: V)
    requires DistinctKeys(d)
    ensures DistinctKeys(Put(d, k, v))
  {
    var r := Put(d, k, v);
    if k !in Keys(d) {
      forall i, j | 0 <= i < j < |r| ensures r[i].0 != r[j].0 {
        if j == |d| {
          assert r[i].0 == Keys(d)[i];
        }
      }
    } else {
      forall i, j | 0 <= i < j < |r| ensures r[i].0 != r[j].0 {
        assert Keys(r)[i] == Keys(d)[i] && Keys(r)[j] == Keys(d)[j];
      }
    }
  }

  /** After d[k] = v, d[k] is v and every other key keeps its value. */
  lemma {:induction false} GetPut<K, V>(d: Dict<K, V>, k: K, v: V, k2: K)
    ensures Get(Put(d, k, v), k2) == if k2 == k then Some(v) else Get(d, k2)
  {
    if d != [] && d[0].0 != k {
      GetPut(d[1..], k, v, k2);
      assert Put(d, k, v) == [d[0]] + Put(d[1..], k, v);
    }
  }

  /** `for k, v in items: d[k] = v`. */
  function FromItems<K(==), V>(d: Dict<K, V>, items: seq<(K, V)>): Dict<K, V> {
    if items == [] then d
    else Put(FromItems(d, items[..|items| - 1]), items[|items| - 1].0, items[|items| - 1].1)
  }

  /** The value of the last item with key k, if any. */
  function LastValue<K(==), V>(items: seq<(K, V)>, k: K): (r: Option<V>)
    ensures r.None? <==> forall i :: 0 <= i < |items| ==> items[i].0 != k
    ensures r.Some? ==> (k, r.value) in items
  {
    if items == [] then None
    else if items[|items| - 1].0 == k then Some(items[|items| - 1].1)
    else LastValue(items[..|items| - 1], k)
  }

  /** Assigning a run of items: the last assignment to a key wins, other keys keep their value. */
  lemma {:induction false} GetFromItems<K, V>(d: Dict<K, V>, items: seq<(K, V)>, k: K)
    ensures Get(FromItems(d, items), k) == if LastValue(items, k).Some? then LastValue(items, k) else Get(d, k)
  {
    if items != [] {
      var init := items[..|items| - 1];
      GetFromItems(d, init, k);
      GetPut(FromItems(d, init), items[|items| - 1].0, items[|items| - 1].1, k);
    }
  }

  /** Assigning a run of items keeps the keys distinct. */
  lemma {:induction false} FromItemsDistinct<K, V>(d: Dict<K, V>, items: seq<(K, V)>)
    requires DistinctKeys(d)
    ensures DistinctKeys(FromItems(d, items))
  {
    if items != [] {
      FromItemsDistinct(d, items[..|items| - 1]);
      PutDistinct(FromItems(d, items[..|items| - 1]), items[|items| - 1].0, items[|items| - 1].1);
    }
  }

  /** Assigning one more item is one more d[k] = v. */
  lemma FromItemsStep<K, V>(d: Dict<K, V>, items: seq<(K, V)>, i: nat)
    requires i < |items|
    ensures FromItems(d, items[..i + 1]) == Put(FromItems(d, items[..i]), items[i].0, items[i].1)
  {
    assert items[..i + 1][..i] == items[..i];
  }

  /** Two runs of assignments are one run of their concatenation. */
  lemma {:induction false} FromItemsAppend<K, V>(d: Dict<K, V>, a: seq<(K, V)>, b: seq<(K, V)>)
    ensures FromItems(d, a + b) == FromItems(FromItems(d, a), b)
  {
    if b == [] {
      assert a + b == a;
    } else {
      var b' := b[..|b| - 1];
      assert (a + b)[..|a + b| - 1] == a + b';
      FromItemsAppend(d, a, b');
    }
  }

  /** In a dict, looking up the key of an item finds that item's value. */
  lemma {:induction false} GetDistinct<K, V>(d: Dict<K, V>, i: nat)
    requires DistinctKeys(d) && i < |d|
    ensures Get(d, d[i].0) == Some(d[i].1)
  {
    if i > 0 {
      assert DistinctKeys(d[1..]);
      assert d[1..][i - 1] == d[i];
      GetDistinct(d[1..], i - 1);
    }
  }

  /** The keys built from items are exactly the items' keys. */
  lemma FromItemsKeys<K, V>(items: seq<(K, V)>, k: K)
    ensures k in Keys(FromItems([], items)) <==> exists i :: 0 <= i < |items| && items[i].0 == k
  {
    GetFromItems([], items, k);
  }

  /** Each entry built from items holds the last value given for its key. */
  lemma FromItemsEntry<K, V>(items: seq<(K, V)>, i: nat)
    requires i < |FromItems([], items)|
    ensures LastValue(items, FromItems([], items)[i].0) == Some(FromItems([], items)[i].1)
  {
    var d := FromItems([], items);
    FromItemsDistinct([], items);
    GetDistinct(d, i);
    GetFromItems([], items, d[i].0);
  }
}
