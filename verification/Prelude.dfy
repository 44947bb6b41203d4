/** Shared option and result types, and the search for the first entry with a key. */
module Prelude {
  datatype Option<+T> = None | Some(value: T)

  /** `Failure` stands for the exceptions and error returns of the Python code. */
  datatype Result<+T, +E> = Success(value: T) | Failure(error: E)

  /** The position of the first entry whose key is `k`, or the length if there is none. */
  function FirstWith<T, K(==)>(xs: seq<T>, key: T -> K, k: K): (i: nat)
    ensures i <= |xs|
    ensures i < |xs| ==> key(xs[i]) == k
    ensures forall j: nat :: j < i ==> key(xs[j]) != k
  {
    if xs == [] || key(xs[0]) == k then 0 else 1 + FirstWith(xs[1..], key, k)
  }

  lemma FoundAt<T, K>(xs: seq<T>, key: T -> K, k: K, i: nat)
    requires i < |xs| && key(xs[i]) == k && forall j: nat :: j < i ==> key(xs[j]) != k
    ensures FirstWith(xs, key, k) == i
  {
  }

  lemma FoundNowhere<T, K>(xs: seq<T>, key: T -> K, k: K)
    requires forall j: nat :: j < |xs| ==> key(xs[j]) != k
    ensures FirstWith(xs, key, k) == |xs|
  {
  }

  lemma FirstInConcat<T, K>(xs: seq<T>, ys: seq<T>, key: T -> K, k: K)
    ensures var i := FirstWith(xs, key, k);
      FirstWith(xs + ys, key, k) == if i < |xs| then i else |xs| + FirstWith(ys, key, k)
  {
    var i, j := FirstWith(xs, key, k), FirstWith(ys, key, k);
    if i < |xs| {
      FoundAt(xs + ys, key, k, i);
    } else if j < |ys| {
      FoundAt(xs + ys, key, k, |xs| + j);
    } else {
      FoundNowhere(xs + ys, key, k);
    }
  }
}
