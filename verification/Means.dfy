/** Products, powers and the geometric mean, taken in log space. */
module Means {
  import opened Wrappers
  import opened Sorting

  function Times(x: real, y: real): real { x * y }

  function Product(xs: seq<real>): real {
    if xs == [] then 1.0 else Times(Product(xs[..|xs| - 1]), xs[|xs| - 1])
  }

  function Power(x: real, n: nat): real {
    if n == 0 then 1.0 else Times(Power(x, n - 1), x)
  }

  /** The natural logarithm and its inverse, of which only the laws are used. */
  datatype Logs = Logs(ln: real -> real, exp: real -> real)

  ghost predicate Lawful(l: Logs) {
    && (forall x, y :: l.exp(x + y) == Times(l.exp(x), l.exp(y)))
    && (forall x :: l.exp(x) > 0.0)
    && (forall x | x > 0.0 :: l.exp(l.ln(x)) == x)
  }

  predicate AllPositive(xs: seq<real>) {
    forall i | 0 <= i < |xs| :: xs[i] > 0.0
  }

  function LogSum(l: Logs, xs: seq<real>): real {
    if xs == [] then 0.0 else LogSum(l, xs[..|xs| - 1]) + l.ln(xs[|xs| - 1])
  }

  /** The geometric mean, and nothing for no values or for one that is not above zero. */
  function Geomean(l: Logs, values: seq<real>): Option<real> {
    if values == [] || !AllPositive(values) then None
    else Some(l.exp(LogSum(l, values) / |values| as real))
  }

  method GeomeanOf(l: Logs, values: seq<real>) returns (g: Option<real>)
    ensures g == Geomean(l, values)
  {
    var sum, count := 0.0, 0;
    while count < |values|
      invariant count <= |values|
      invariant sum == LogSum(l, values[..count]) && AllPositive(values[..count])
    {
      if values[count] <= 0.0 {
        return None;
      }
      assert values[..count + 1][..count] == values[..count];
      sum := sum + l.ln(values[count]);
      count := count + 1;
    }
    assert values[..count] == values;
    return if count > 0 then Some(l.exp(sum / count as real)) else None;
  }

  // Multiplication

  lemma Associative(x: real, y: real, z: real)
    ensures Times(Times(x, y), z) == Times(x, Times(y, z))
  {
  }

  lemma Commutative(x: real, y: real)
    ensures Times(x, y) == Times(y, x)
  {
  }

  lemma FourFactors(p: real, q: real, c: real, x: real)
    ensures Times(Times(p, q), Times(c, x)) == Times(Times(p, c), Times(q, x))
  {
    hide Times;
    Associative(p, q, Times(c, x));
    Associative(q, c, x);
    Commutative(q, c);
    Associative(c, q, x);
    Associative(p, c, Times(q, x));
  }

  lemma Unit(x: real)
    ensures Times(1.0, x) == x && Times(x, 1.0) == x
  {
  }

  lemma Positive(x: real, y: real)
    requires x > 0.0
    ensures Times(x, y) > 0.0 <==> y > 0.0
  {
    if y > 0.0 { assert x * y > 0.0; }
    if y < 0.0 { assert x * -y > 0.0; }
  }

  lemma Cancel(p: real, q: real, r: real)
    requires p > 0.0 && Times(p, q) == Times(p, r)
    ensures q == r
  {
    var d := q - r;
    assert p * q == p * r + p * d;
    assert d > 0.0 ==> p * d > 0.0;
    assert d < 0.0 ==> p * -d > 0.0;
  }

  lemma MoreTimes(p: real, q: real, r: real)
    requires p > 0.0 && q < r
    ensures Times(p, q) < Times(p, r)
  {
    var d := r - q;
    assert p * r == p * q + p * d;
    assert p * d > 0.0;
  }

  lemma Larger(a: real, b: real, x: real, y: real)
    requires 0.0 < a <= b && 0.0 < x < y
    ensures Times(a, x) < Times(b, y)
  {
    hide Times;
    MoreTimes(a, x, y);
    Commutative(a, y);
    Commutative(b, y);
    if a < b { MoreTimes(y, a, b); }
  }

  lemma Quotient(x: real, m: real)
    requires m > 0.0
    ensures Times(m, x / m) == x
  {
  }

  lemma QuotientOnly(x: real, m: real, q: real)
    requires m > 0.0 && Times(m, q) == x
    ensures q == x / m
  {
    hide Times;
    Quotient(x, m);
    Cancel(m, q, x / m);
  }

  // Products and powers

  lemma {:induction false} ProductPositive(xs: seq<real>)
    requires AllPositive(xs)
    ensures Product(xs) > 0.0
  {
    hide Times;
    if xs != [] {
      ProductPositive(xs[..|xs| - 1]);
      Positive(Product(xs[..|xs| - 1]), xs[|xs| - 1]);
    }
  }

  lemma {:induction false} PowerPositive(x: real, n: nat)
    requires x > 0.0
    ensures Power(x, n) > 0.0
  {
    hide Times;
    if n > 0 {
      PowerPositive(x, n - 1);
      Positive(Power(x, n - 1), x);
    }
  }

  lemma {:induction false} PowerGrows(x: real, y: real, n: nat)
    requires 0.0 < x < y
    ensures Power(x, n) <= Power(y, n) && (n > 0 ==> Power(x, n) < Power(y, n))
  {
    hide Times;
    if n > 0 {
      PowerGrows(x, y, n - 1);
      PowerPositive(x, n - 1);
      Larger(Power(x, n - 1), Power(y, n - 1), x, y);
    }
  }

  /** There is at most one positive root. */
  lemma RootUnique(g: real, h: real, n: nat)
    requires n > 0 && g > 0.0 && h > 0.0 && Power(g, n) == Power(h, n)
    ensures g == h
  {
    hide Power;
    if g < h { PowerGrows(g, h, n); }
    if h < g { PowerGrows(h, g, n); }
  }

  lemma {:induction false} ProductConcat(a: seq<real>, b: seq<real>)
    ensures Product(a + b) == Times(Product(a), Product(b))
  {
    hide Times;
    if b == [] {
      assert a + b == a;
      Unit(Product(a));
    } else {
      ProductConcat(a, b[..|b| - 1]);
      assert (a + b)[..|a + b| - 1] == a + b[..|b| - 1];
      Associative(Product(a), Product(b[..|b| - 1]), b[|b| - 1]);
    }
  }

  lemma MoveFront(h: real, x: real, y: real)
    ensures Times(Times(x, h), y) == Times(h, Times(x, y))
  {
    hide Times;
    Commutative(x, h);
    Associative(h, x, y);
  }

  lemma {:induction false} ProductPermute(a: seq<real>, b: seq<real>)
    requires multiset(a) == multiset(b)
    ensures Product(a) == Product(b)
  {
    hide Product, Times;
    if a == [] {
      assert |multiset(b)| == 0;
    } else {
      var k := PullHead(a, b);
      ProductPermute(a[1..], b[..k] + b[k + 1..]);
      ProductConcat([a[0]], a[1..]);
      ProductConcat(b[..k] + [a[0]], b[k + 1..]);
      ProductConcat(b[..k], [a[0]]);
      ProductConcat(b[..k], b[k + 1..]);
      assert a == [a[0]] + a[1..];
      MoveFront(Product([a[0]]), Product(b[..k]), Product(b[k + 1..]));
    }
  }

  function Scaled(xs: seq<real>, c: real): (ys: seq<real>)
    ensures |ys| == |xs| && forall i | 0 <= i < |xs| :: ys[i] == Times(c, xs[i])
  {
    seq(|xs|, i requires 0 <= i < |xs| => Times(c, xs[i]))
  }

  /** Elementwise products multiply. */
  lemma {:induction false} ProductZips(xs: seq<real>, ys: seq<real>, zs: seq<real>)
    requires |xs| == |ys| == |zs|
    requires forall i | 0 <= i < |xs| :: zs[i] == Times(xs[i], ys[i])
    ensures Product(zs) == Times(Product(xs), Product(ys))
  {
    hide Times;
    if xs == [] {
      Unit(1.0);
    } else {
      var n := |xs| - 1;
      ProductZips(xs[..n], ys[..n], zs[..n]);
      FourFactors(Product(xs[..n]), Product(ys[..n]), xs[n], ys[n]);
    }
  }

  lemma {:induction false} ProductScales(xs: seq<real>, c: real, zs: seq<real>)
    requires |zs| == |xs| && forall i | 0 <= i < |xs| :: zs[i] == Times(c, xs[i])
    ensures Product(zs) == Times(Power(c, |xs|), Product(xs))
  {
    hide Times;
    if xs == [] {
      Unit(1.0);
    } else {
      var n := |xs| - 1;
      ProductScales(xs[..n], c, zs[..n]);
      FourFactors(Power(c, n), Product(xs[..n]), c, xs[n]);
    }
  }

  lemma {:induction false} PowerScales(c: real, g: real, n: nat)
    ensures Power(Times(c, g), n) == Times(Power(c, n), Power(g, n))
  {
    hide Times;
    if n == 0 {
      Unit(1.0);
    } else {
      PowerScales(c, g, n - 1);
      FourFactors(Power(c, n - 1), Power(g, n - 1), c, g);
    }
  }

  // The mean taken in log space is the positive root of the product

  lemma ExpAdds(l: Logs, x: real, y: real)
    requires Lawful(l)
    ensures l.exp(x + y) == Times(l.exp(x), l.exp(y)) && l.exp(x) > 0.0
  {
  }

  lemma ExpOfLn(l: Logs, x: real)
    requires Lawful(l) && x > 0.0
    ensures l.exp(l.ln(x)) == x
  {
  }

  lemma ExpZero(l: Logs)
    requires Lawful(l)
    ensures l.exp(0.0) == 1.0
  {
    ExpAdds(l, 0.0, 0.0);
    Unit(l.exp(0.0));
    Cancel(l.exp(0.0), l.exp(0.0), 1.0);
  }

  lemma {:induction false} ExpOfLogSum(l: Logs, xs: seq<real>)
    requires Lawful(l) && AllPositive(xs)
    ensures l.exp(LogSum(l, xs)) == Product(xs)
  {
    hide Lawful, Times;
    if xs == [] {
      ExpZero(l);
    } else {
      var n := |xs| - 1;
      ExpOfLogSum(l, xs[..n]);
      ExpAdds(l, LogSum(l, xs[..n]), l.ln(xs[n]));
      ExpOfLn(l, xs[n]);
    }
  }

  lemma OneMore(n: real, x: real)
    ensures Times(n + 1.0, x) == Times(n, x) + x
  {
  }

  lemma {:induction false} ExpOfMultiple(l: Logs, x: real, n: nat)
    requires Lawful(l)
    ensures l.exp(Times(n as real, x)) == Power(l.exp(x), n)
  {
    hide Lawful, Times;
    if n == 0 {
      OneMore(0.0, x);
      Unit(x);
      ExpZero(l);
    } else {
      ExpOfMultiple(l, x, n - 1);
      OneMore((n - 1) as real, x);
      ExpAdds(l, Times((n - 1) as real, x), x);
    }
  }

  /** The mean of the logarithms, exponentiated, is the positive number whose power is the product, and
      there is no other. */
  lemma GeomeanIsRoot(l: Logs, xs: seq<real>)
    requires Lawful(l)
    ensures Geomean(l, xs).Some? <==> xs != [] && AllPositive(xs)
    ensures Geomean(l, xs).Some? ==> Geomean(l, xs).value > 0.0 && Power(Geomean(l, xs).value, |xs|) == Product(xs)
    ensures Geomean(l, xs).Some? ==>
      forall g | g > 0.0 && Power(g, |xs|) == Product(xs) :: g == Geomean(l, xs).value
  {
    hide Lawful, Times, Power, Product, LogSum;
    if Geomean(l, xs).Some? {
      var mean := LogSum(l, xs) / |xs| as real;
      Quotient(LogSum(l, xs), |xs| as real);
      ExpAdds(l, mean, mean);
      ExpOfMultiple(l, mean, |xs|);
      ExpOfLogSum(l, xs);
      forall g | g > 0.0 && Power(g, |xs|) == Product(xs) ensures g == Geomean(l, xs).value {
        RootUnique(g, Geomean(l, xs).value, |xs|);
      }
    }
  }

  lemma GeomeanPermutes(l: Logs, a: seq<real>, b: seq<real>)
    requires Lawful(l) && multiset(a) == multiset(b)
    ensures Geomean(l, a) == Geomean(l, b)
  {
    hide Lawful, Power, Product, Geomean;
    assert |a| == |multiset(a)| == |multiset(b)| == |b|;
    ProductPermute(a, b);
    forall i | 0 <= i < |a| ensures a[i] in b { assert a[i] in multiset(b); }
    forall i | 0 <= i < |b| ensures b[i] in a { assert b[i] in multiset(a); }
    GeomeanIsRoot(l, a);
    GeomeanIsRoot(l, b);
  }

  lemma ScaledPositive(xs: seq<real>, c: real)
    requires c > 0.0
    ensures AllPositive(Scaled(xs, c)) <==> AllPositive(xs)
  {
    hide Times;
    var ys := Scaled(xs, c);
    forall i | 0 <= i < |xs| ensures ys[i] > 0.0 <==> xs[i] > 0.0 {
      Positive(c, xs[i]);
    }
  }

  /** Scaling every value scales the geometric mean. */
  lemma GeomeanScales(l: Logs, xs: seq<real>, c: real)
    requires Lawful(l) && c > 0.0
    ensures Geomean(l, Scaled(xs, c)).Some? <==> Geomean(l, xs).Some?
    ensures Geomean(l, xs).Some? ==> Geomean(l, Scaled(xs, c)) == Some(Times(c, Geomean(l, xs).value))
  {
    hide Lawful, Times, Power, Product, Geomean, AllPositive;
    ScaledPositive(xs, c);
    GeomeanIsRoot(l, xs);
    GeomeanIsRoot(l, Scaled(xs, c));
    if Geomean(l, xs).Some? {
      var g := Geomean(l, xs).value;
      PowerScales(c, g, |xs|);
      ProductScales(xs, c, Scaled(xs, c));
      Positive(c, g);
    }
  }
}
