/** Sums of reals, which do not depend on the order of their terms. */
module Reals {
  import opened Sorting

  function Abs(x: real): real {
    if x < 0.0 then -x else x
  }

  function Sum(xs: seq<real>): real {
    if xs == [] then 0.0 else Sum(xs[..|xs| - 1]) + xs[|xs| - 1]
  }

  lemma {:induction false} SumConcat(a: seq<real>, b: seq<real>)
    ensures Sum(a + b) == Sum(a) + Sum(b)
  {
    if b == [] {
      assert a + b == a;
    } else {
      SumConcat(a, b[..|b| - 1]);
      assert (a + b)[..|a + b| - 1] == a + b[..|b| - 1];
    }
  }

  lemma {:induction false} SumPermute(a: seq<real>, b: seq<real>)
    requires multiset(a) == multiset(b)
    ensures Sum(a) == Sum(b)
  {
    if a == [] {
      assert |multiset(b)| == 0;
    } else {
      var k := PullHead(a, b);
      SumPermute(a[1..], b[..k] + b[k + 1..]);
      SumConcat([a[0]], a[1..]);
      SumConcat(b[..k] + [a[0]], b[k + 1..]);
      SumConcat(b[..k], [a[0]]);
      SumConcat(b[..k], b[k + 1..]);
      assert a == [a[0]] + a[1..];
    }
  }
}
