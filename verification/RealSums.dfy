/** Finite sums of reals, and the lane-wise way in which vector code adds them up. */
module RealSums {
  import opened Arith

  function Sum(s: seq<real>): real {
    if s == [] then 0.0 else Sum(s[..|s| - 1]) + s[|s| - 1]
  }

  lemma SumSnoc(s: seq<real>, x: real)
    ensures Sum(s + [x]) == Sum(s) + x
  {
  }

  lemma {:induction false} SumConcat(a: seq<real>, b: seq<real>)
    ensures Sum(a + b) == Sum(a) + Sum(b)
    decreases |b|
  {
    if b == [] {
      assert a + b == a;
    } else {
      assert (a + b)[..|a + b| - 1] == a + b[..|b| - 1];
      SumConcat(a, b[..|b| - 1]);
    }
  }

  lemma {:induction false} SumZeros(s: seq<real>)
    requires forall i :: 0 <= i < |s| ==> s[i] == 0.0
    ensures Sum(s) == 0.0
    decreases |s|
  {
    if s != [] {
      SumZeros(s[..|s| - 1]);
    }
  }

  /** Sums of scaled terms are scaled sums. */
  lemma {:induction false} SumScaled(s: seq<real>, t: seq<real>, c: real)
    requires |s| == |t| && forall i :: 0 <= i < |s| ==> t[i] == c * s[i]
    ensures Sum(t) == c * Sum(s)
    decreases |s|
  {
    if s != [] {
      var k := |s| - 1;
      SumScaled(s[..k], t[..k], c);
      Distribute(c, Sum(s[..k]), s[k]);
    }
  }

  lemma Distribute(c: real, a: real, b: real)
    ensures c * (a + b) == c * a + c * b
  {
  }

  lemma {:induction false} SumAdded(s: seq<real>, t: seq<real>, u: seq<real>)
    requires |s| == |t| == |u| && forall i :: 0 <= i < |s| ==> u[i] == s[i] + t[i]
    ensures Sum(u) == Sum(s) + Sum(t)
    decreases |s|
  {
    if s != [] {
      var k := |s| - 1;
      SumAdded(s[..k], t[..k], u[..k]);
    }
  }

  /** A sum of positive terms is at least any one of them, and positive. */
  lemma {:induction false} SumPositive(s: seq<real>, k: nat)
    requires k < |s| && forall i :: 0 <= i < |s| ==> s[i] > 0.0
    ensures Sum(s) >= s[k] > 0.0
    decreases |s|
  {
    var n := |s| - 1;
    if k < n {
      SumPositive(s[..n], k);
    } else if n > 0 {
      SumPositive(s[..n], 0);
    }
  }

  /** The pointwise product. */
  function Times(a: seq<real>, b: seq<real>): (r: seq<real>)
    requires |a| == |b|
    ensures |r| == |a| && forall i :: 0 <= i < |a| ==> r[i] == a[i] * b[i]
  {
    seq(|a|, i requires 0 <= i < |a| => a[i] * b[i])
  }

  lemma TimesPrefix(a: seq<real>, b: seq<real>, n: nat)
    requires |a| == |b| && n <= |a|
    ensures Times(a, b)[..n] == Times(a[..n], b[..n])
  {
    var l, r := Times(a, b)[..n], Times(a[..n], b[..n]);
    forall i | 0 <= i < n
      ensures l[i] == r[i]
    {
      assert a[..n][i] == a[i] && b[..n][i] == b[i];
    }
    assert l == r;
  }

  function Dot(a: seq<real>, b: seq<real>): real
    requires |a| == |b|
  {
    Sum(Times(a, b))
  }

  /** Zeros at the end of one factor do not count. */
  lemma DotPadded(a: seq<real>, b: seq<real>, n: nat)
    requires |a| == |b| && n <= |a| && forall i :: n <= i < |a| ==> a[i] == 0.0
    ensures Dot(a, b) == Dot(a[..n], b[..n])
  {
    var w := Times(a, b);
    TimesPrefix(a, b, n);
    assert w == w[..n] + w[n..];
    SumConcat(w[..n], w[n..]);
    SumZeros(w[n..]);
  }

  lemma DotConcat(a: seq<real>, a': seq<real>, b: seq<real>, b': seq<real>)
    requires |a| == |b| && |a'| == |b'|
    ensures Dot(a + a', b + b') == Dot(a, b) + Dot(a', b')
  {
    var r, l := Times(a + a', b + b'), Times(a, b) + Times(a', b');
    forall i | 0 <= i < |r|
      ensures r[i] == l[i]
    {
      assert (a + a')[i] == if i < |a| then a[i] else a'[i - |a|];
      assert (b + b')[i] == if i < |b| then b[i] else b'[i - |b|];
    }
    assert r == l;
    SumConcat(Times(a, b), Times(a', b'));
  }

  lemma DotScaled(a: seq<real>, a': seq<real>, b: seq<real>, c: real)
    requires |a| == |a'| == |b| && forall i :: 0 <= i < |a| ==> a'[i] == c * a[i]
    ensures Dot(a', b) == c * Dot(a, b)
  {
    hide Times, Sum;
    forall i | 0 <= i < |a|
      ensures Times(a', b)[i] == c * Times(a, b)[i]
    {
      Associate(c, a[i], b[i]);
    }
    SumScaled(Times(a, b), Times(a', b), c);
  }

  lemma Associate(a: real, b: real, c: real)
    ensures (a * b) * c == a * (b * c)
  {
  }

  // ----- lanes

  /** What lane `i` has after `n` rows of width `x`. */
  function Lane(p: seq<real>, x: nat, i: nat, n: nat): real
    requires i < x && n * x <= |p|
  {
    if n == 0 then 0.0
    else
      MulStep(n - 1, x);
      Lane(p, x, i, n - 1) + p[(n - 1) * x + i]
  }

  function Lanes(p: seq<real>, x: nat, n: nat): (r: seq<real>)
    requires n * x <= |p|
    ensures |r| == x
  {
    seq(x, i requires 0 <= i < x => Lane(p, x, i, n))
  }

  /** Adding up row by row in `x` lanes and then across the lanes gives the plain sum. */
  lemma {:induction false} LanesSum(p: seq<real>, x: nat, n: nat)
    requires n * x <= |p|
    ensures Sum(Lanes(p, x, n)) == Sum(p[..n * x])
  {
    hide Sum;
    if n == 0 {
      SumZeros(Lanes(p, x, 0));
      SumZeros(p[..n * x]);
    } else {
      MulStep(n - 1, x);
      LanesSum(p, x, n - 1);
      var row := p[(n - 1) * x..n * x];
      SumAdded(Lanes(p, x, n - 1), row, Lanes(p, x, n));
      SumConcat(p[..(n - 1) * x], row);
      assert p[..n * x] == p[..(n - 1) * x] + row;
    }
  }
}
