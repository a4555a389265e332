/** Small vocabulary shared by every module. */
module Prelude {
  datatype Option<+T> = None | Some(value: T)

  function Max(a: int, b: int): int {
    if a >= b then a else b
  }

  /** Drops the values outside `keep`, leaving the others in place. */
  function Restrict<K, V>(m: map<K, V>, keep: set<K>): map<K, V> {
    map k | k in m && k in keep :: m[k]
  }

  /** A subset is no larger. */
  lemma {:induction false} SubsetSize<T>(a: set<T>, b: set<T>)
    requires a <= b
    ensures |a| <= |b|
    decreases |a|
  {
    if a != {} {
      var x :| x in a;
      SubsetSize(a - {x}, b - {x});
    }
  }
}
