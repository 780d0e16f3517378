/** How often a value occurs in a sequence. */
module Counting {

  function Times<T(==)>(x: T, xs: seq<T>): nat {
    if xs == [] then 0 else Times(x, xs[..|xs| - 1]) + (if xs[|xs| - 1] == x then 1 else 0)
  }

  lemma {:induction false} TimesSplit<T>(x: T, a: seq<T>, b: seq<T>)
    ensures Times(x, a + b) == Times(x, a) + Times(x, b)
  {
    if b == [] {
      assert a + b == a;
    } else {
      var n := |b| - 1;
      assert (a + b)[..|a + b| - 1] == a + b[..n];
      TimesSplit(x, a, b[..n]);
    }
  }

  lemma {:induction false} TimesOne<T>(x: T, y: T)
    ensures Times(x, [y]) == if y == x then 1 else 0
  {
    assert [y][..0] == [];
  }
}
