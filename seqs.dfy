/** Sequence helpers shared by the parsers. */
module Seqs {
  import opened Wrappers

  /** Keep, in order, the images of the elements of `s[lo..n]` that `f` maps
      to a value (a list comprehension `[f(x) for x in s[lo:n] if f(x) is not None]`). */
  function FilterMap<T, U>(s: seq<T>, lo: nat, n: nat, f: T -> Option<U>): (r: seq<U>)
    requires lo <= n <= |s|
    ensures |r| <= n - lo
    decreases n
  {
    if n == lo then []
    else
      var init := FilterMap(s, lo, n - 1, f);
      match f(s[n - 1])
      case Some(y) => init + [y]
      case None => init
  }

  /** `y` occurs in the result exactly when some element of the range is mapped to `y`. */
  lemma {:induction false} FilterMapMember<T, U>(s: seq<T>, lo: nat, n: nat, f: T -> Option<U>, y: U)
    requires lo <= n <= |s|
    ensures y in FilterMap(s, lo, n, f) <==> exists i :: lo <= i < n && f(s[i]) == Some(y)
    decreases n
  {
    if n > lo {
      FilterMapMember(s, lo, n - 1, f, y);
      if y in FilterMap(s, lo, n, f) && y !in FilterMap(s, lo, n - 1, f) {
        assert f(s[n - 1]) == Some(y);
      }
    }
  }

  /** `[f(x) for x in s]`. */
  function Map<T, U>(s: seq<T>, f: T -> U): (r: seq<U>)
    ensures |r| == |s|
  {
    if s == [] then [] else [f(s[0])] + Map(s[1..], f)
  }

  lemma {:induction false} MapAt<T, U>(s: seq<T>, f: T -> U, i: nat)
    requires i < |s|
    ensures Map(s, f)[i] == f(s[i])
  {
    if i > 0 {
      MapAt(s[1..], f, i - 1);
    }
  }
}
