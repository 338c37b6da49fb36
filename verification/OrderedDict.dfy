/** Ordered dictionaries as lists of entries, in insertion order. */
module OrderedDict {

  type Dict<K, V> = seq<(K, V)>

  predicate Has<K(==), V>(t: Dict<K, V>, k: K) {
    exists i :: 0 <= i < |t| && t[i].0 == k
  }

  function IndexOf<K(==), V>(t: Dict<K, V>, k: K): (i: nat)
    requires Has(t, k)
    ensures i < |t| && t[i].0 == k
  {
    if t[0].0 == k then 0
    else
      assert Has(t[1..], k) by {
        var i :| 0 <= i < |t| && t[i].0 == k;
        assert t[1..][i - 1].0 == k;
      }
      1 + IndexOf(t[1..], k)
  }

  function Without<K, V>(t: Dict<K, V>, i: nat): Dict<K, V>
    requires i < |t|
  {
    t[..i] + t[i + 1..]
  }

  /** Assignment: in place for a key that is there, at the end for a new one. */
  function Put<K(==), V>(t: Dict<K, V>, k: K, v: V): Dict<K, V> {
    if Has(t, k) then t[IndexOf(t, k) := (k, v)] else t + [(k, v)]
  }
}
