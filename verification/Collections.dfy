/** A few operations on maps, numbers and sequences that several models share. */
module Collections {
  /** `map.delete(k)`. */
  function Without<K, V>(m: map<K, V>, k: K): map<K, V> {
    map x | x in m && x != k :: m[x]
  }

  function Least(a: nat, b: nat): nat {
    if a <= b then a else b
  }

  lemma Assoc<T>(a: seq<T>, b: seq<T>, c: seq<T>)
    ensures (a + b) + c == a + (b + c)
  {
  }

  /** The parts, one after the other. */
  function Flat<T>(parts: seq<seq<T>>): seq<T> {
    if parts == [] then [] else Flat(parts[..|parts| - 1]) + parts[|parts| - 1]
  }

  /** Each element of the whole comes from one part. */
  lemma {:induction false} FlatAt<T>(parts: seq<seq<T>>, p: nat) returns (k: nat, offset: nat)
    requires p < |Flat(parts)|
    ensures k < |parts| && p == |Flat(parts[..k])| + offset
    ensures offset < |parts[k]| && Flat(parts)[p] == parts[k][offset]
  {
    var n := |parts| - 1;
    if p < |Flat(parts[..n])| {
      k, offset := FlatAt(parts[..n], p);
      assert parts[..n][..k] == parts[..k];
    } else {
      k, offset := n, p - |Flat(parts[..n])|;
    }
  }
}
