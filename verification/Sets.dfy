/** Facts about finite sets and maps. */
module Sets {

  lemma {:induction false} SubsetSize<T>(a: set<T>, b: set<T>)
    requires a <= b
    ensures |a| <= |b|
  {
    if a != {} {
      var x :| x in a;
      SubsetSize(a - {x}, b - {x});
    }
  }

  /** Maps that differ in one key at most. */
  lemma OneKeyDiffers<K, V>(a: map<K, V>, b: map<K, V>, key: K)
    requires key in a && a.Keys == b.Keys
    requires forall k :: k in a && k != key ==> a[k] == b[k]
    ensures a[key := b[key]] == b
  {
  }
}
