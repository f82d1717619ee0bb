/** Last writer wins: a fold that keeps the greatest key, in whatever order the writes arrive. */
module LastWriter {
  import opened Prelude

  /** `gt` orders all keys strictly. */
  ghost predicate Orders<K(!new)>(gt: (K, K) -> bool) {
    && (forall a :: !gt(a, a))
    && (forall a, b, c :: gt(a, b) && gt(b, c) ==> gt(a, c))
    && (forall a, b :: gt(a, b) || a == b || gt(b, a))
  }

  function Fold<T, K>(key: T -> K, gt: (K, K) -> bool, current: Option<T>, xs: seq<T>): (r: Option<T>)
    decreases xs
  {
    if xs == [] then current
    else Fold(key, gt, if current.None? || gt(key(xs[0]), key(current.value)) then Some(xs[0]) else current, xs[1..])
  }

  /** One more write is compared with the winner so far. */
  lemma {:induction false} FoldAppend<T, K>(key: T -> K, gt: (K, K) -> bool, current: Option<T>, xs: seq<T>, x: T)
    ensures var r := Fold(key, gt, current, xs);
            Fold(key, gt, current, xs + [x]) == if r.None? || gt(key(x), key(r.value)) then Some(x) else r
    decreases xs
  {
    if xs == [] {
      assert xs + [x] == [x] && [x][1..] == [];
    } else {
      var next := if current.None? || gt(key(xs[0]), key(current.value)) then Some(xs[0]) else current;
      FoldAppend(key, gt, next, xs[1..], x);
      assert (xs + [x])[1..] == xs[1..] + [x];
    }
  }

  /** The fold ends with one of the values it saw, and no value it saw has a greater key. */
  lemma {:induction false} FoldIsGreatest<T, K(!new)>(key: T -> K, gt: (K, K) -> bool, current: Option<T>, xs: seq<T>)
    requires Orders(gt)
    ensures var r := Fold(key, gt, current, xs);
            && (r.None? <==> current.None? && xs == [])
            && (r.Some? ==>
                  && (r == current || r.value in xs)
                  && (current.Some? ==> !gt(key(current.value), key(r.value)))
                  && forall i :: 0 <= i < |xs| ==> !gt(key(xs[i]), key(r.value)))
    decreases xs
  {
    if xs != [] {
      var next := if current.None? || gt(key(xs[0]), key(current.value)) then Some(xs[0]) else current;
      FoldIsGreatest(key, gt, next, xs[1..]);
    }
  }

  predicate HasKey<T, K(==)>(key: T -> K, xs: seq<T>, k: K) {
    exists i :: 0 <= i < |xs| && key(xs[i]) == k
  }

  lemma {:induction false} WinnerOf<T, K(!new)>(key: T -> K, gt: (K, K) -> bool, xs: seq<T>, k: K)
    requires Orders(gt) && HasKey(key, xs, k)
    ensures var r := Fold(key, gt, None, xs);
            r.Some? && HasKey(key, xs, key(r.value)) && !gt(k, key(r.value))
  {
    FoldIsGreatest(key, gt, None, xs);
    var i :| 0 <= i < |xs| && key(xs[i]) == k;
    var r := Fold(key, gt, None, xs);
    var j :| 0 <= j < |xs| && xs[j] == r.value;
    assert key(xs[j]) == key(r.value);
  }

  /** Replicas that saw the same keys, in any order and with any repetitions, agree on the winning key. */
  lemma {:induction false} FoldsAgree<T, K(!new)>(key: T -> K, gt: (K, K) -> bool, xs: seq<T>, ys: seq<T>)
    requires Orders(gt)
    requires forall k :: HasKey(key, xs, k) <==> HasKey(key, ys, k)
    ensures var r, q := Fold(key, gt, None, xs), Fold(key, gt, None, ys);
            && r.None? == q.None?
            && (r.Some? ==> key(r.value) == key(q.value))
  {
    if xs != [] {
      assert HasKey(key, xs, key(xs[0]));
      WinnerOf(key, gt, xs, key(xs[0]));
      var k := key(Fold(key, gt, None, xs).value);
      WinnerOf(key, gt, ys, k);
      WinnerOf(key, gt, xs, key(Fold(key, gt, None, ys).value));
    } else if ys != [] {
      assert HasKey(key, ys, key(ys[0]));
    }
  }
}
