/** How often something occurs in a sequence. */
module Counting {

  function CountOf<T(==)>(xs: seq<T>, x: T): nat {
    if xs == [] then 0 else CountOf(xs[..|xs| - 1], x) + if xs[|xs| - 1] == x then 1 else 0
  }

  lemma {:induction false} CountConcat<T>(a: seq<T>, b: seq<T>, x: T)
    ensures CountOf(a + b, x) == CountOf(a, x) + CountOf(b, x)
    decreases |b|
  {
    if b == [] {
      assert a + b == a;
    } else {
      var n := |b| - 1;
      assert (a + b)[..|a + b| - 1] == a + b[..n];
      CountConcat(a, b[..n], x);
    }
  }

  lemma CountSnoc<T>(xs: seq<T>, x: T, y: T)
    ensures CountOf(xs + [x], y) == CountOf(xs, y) + if x == y then 1 else 0
  {
    assert (xs + [x])[..|xs|] == xs;
  }
}
