/** Division, powers of two and sizes, as several of the modules need them. */
module Counting {
  function Pow2(k: nat): (p: nat)
    ensures p >= 1
  {
    if k == 0 then 1 else 2 * Pow2(k - 1)
  }

  lemma AtLeastOnce(d: int, m: nat)
    requires d != 0
    ensures d * m + m <= 0 || m <= d * m
  {
    if d > 0 {
      assert (d - 1) * m >= 0;
    } else {
      assert (-d - 1) * m >= 0;
    }
  }

  /** Quotient and remainder are the only numbers that fit. */
  lemma DivIs(x: nat, m: nat, q: nat, r: nat)
    requires r < m && x == q * m + r
    ensures x / m == q && x % m == r
  {
    var d: int := x / m - q;
    assert d * m == r - x % m;
    if d != 0 {
      AtLeastOnce(d, m);
      assert false;
    }
  }

  predicate Distinct<T(==)>(items: seq<T>) {
    forall i, j :: 0 <= i < j < |items| ==> items[i] != items[j]
  }

  lemma {:induction false} SubsetSize<T>(a: set<T>, b: set<T>)
    requires a <= b
    ensures |a| <= |b|
  {
    if a != {} {
      var x :| x in a;
      SubsetSize(a - {x}, b - {x});
    }
  }

  /** `kept` are the images of the good items of `whole`, which stand at the places `at`, in order, none
      left out. */
  ghost predicate Sifted<T, U>(whole: seq<T>, kept: seq<U>, at: seq<nat>, good: T -> bool, image: T -> U) {
    && |kept| == |at|
    && (forall i :: 0 <= i < |at| ==> at[i] < |whole| && good(whole[at[i]]) && kept[i] == image(whole[at[i]]))
    && (forall i, j :: 0 <= i < j < |at| ==> at[i] < at[j])
    && (forall k: nat :: k < |whole| && good(whole[k]) ==> k in at)
  }

  lemma NothingSifted<T, U>(good: T -> bool, image: T -> U)
    ensures Sifted([], [], [], good, image)
  {
  }

  lemma SiftMore<T, U>(whole: seq<T>, kept: seq<U>, at: seq<nat>, good: T -> bool, image: T -> U, last: T)
    requires Sifted(whole, kept, at, good, image)
    ensures Sifted(whole + [last], kept + (if good(last) then [image(last)] else []),
                   at + (if good(last) then [|whole|] else []), good, image)
  {
    var all, places := whole + [last], at + (if good(last) then [|whole|] else []);
    forall k: nat | k < |all| && good(all[k])
      ensures k in places
    {
      if k < |whole| {
        assert all[k] == whole[k];
        assert k in at;
      } else {
        assert places[|at|] == k;
      }
    }
  }
}
