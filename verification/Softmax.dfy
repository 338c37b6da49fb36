/** The softmax reductions of the attention kernels, over the reals. */
module Softmax {
  import opened RealSums

  type Fn = real -> real

  /** All that is used of the exponential function. */
  ghost predicate IsExp(exp: Fn) {
    && (forall a :: exp(a) > 0.0)
    && exp(0.0) == 1.0
    && (forall a, b :: exp(a + b) == exp(a) * exp(b))
  }

  lemma ExpPositive(exp: Fn, a: real)
    requires IsExp(exp)
    ensures exp(a) > 0.0 && exp(0.0) == 1.0
  {
  }

  lemma ExpAdds(exp: Fn, a: real, b: real)
    requires IsExp(exp)
    ensures exp(a + b) == exp(a) * exp(b)
  {
  }

  /** The exponentials of the logits, shifted by `m`. */
  function Exps(exp: Fn, s: seq<real>, m: real): (r: seq<real>)
    ensures |r| == |s| && forall i :: 0 <= i < |s| ==> r[i] == exp(s[i] - m)
  {
    seq(|s|, i requires 0 <= i < |s| => exp(s[i] - m))
  }

  /** The weighted mean of the values, weights proportional to the exponentials of the logits. */
  ghost function Attend(exp: Fn, s: seq<real>, v: seq<real>): real
    requires |s| == |v| && Sum(Exps(exp, s, 0.0)) != 0.0
  {
    Dot(Exps(exp, s, 0.0), v) / Sum(Exps(exp, s, 0.0))
  }

  ghost predicate IsMax(s: seq<real>, m: real) {
    m in s && forall i :: 0 <= i < |s| ==> s[i] <= m
  }

  lemma ExpsPositive(exp: Fn, s: seq<real>, m: real)
    requires IsExp(exp)
    ensures forall i :: 0 <= i < |s| ==> Exps(exp, s, m)[i] > 0.0
    ensures s != [] ==> Sum(Exps(exp, s, m)) > 0.0
  {
    hide Exps, IsExp;
    forall i | 0 <= i < |s|
      ensures Exps(exp, s, m)[i] > 0.0
    {
      ExpPositive(exp, s[i] - m);
    }
    if s != [] {
      SumPositive(Exps(exp, s, m), 0);
    }
  }

  /** With the maximum as the shift, one of the terms is one. */
  lemma ShiftedSum(exp: Fn, s: seq<real>, m: real)
    requires IsExp(exp) && IsMax(s, m)
    ensures Sum(Exps(exp, s, m)) >= 1.0
  {
    hide Exps, IsExp;
    ExpsPositive(exp, s, m);
    ExpPositive(exp, 0.0);
    var k :| 0 <= k < |s| && s[k] == m;
    SumPositive(Exps(exp, s, m), k);
  }

  /** Changing the shift multiplies all terms by the same factor. */
  lemma Reshift(exp: Fn, s: seq<real>, v: seq<real>, m: real, m': real)
    requires IsExp(exp) && |s| == |v|
    ensures Sum(Exps(exp, s, m')) == exp(m - m') * Sum(Exps(exp, s, m))
    ensures Dot(Exps(exp, s, m'), v) == exp(m - m') * Dot(Exps(exp, s, m), v)
  {
    hide Exps, IsExp, Dot, Sum;
    forall i | 0 <= i < |s|
      ensures Exps(exp, s, m')[i] == exp(m - m') * Exps(exp, s, m)[i]
    {
      ExpAdds(exp, m - m', s[i] - m);
      assert s[i] - m' == (m - m') + (s[i] - m);
    }
    SumScaled(Exps(exp, s, m), Exps(exp, s, m'), exp(m - m'));
    DotScaled(Exps(exp, s, m), Exps(exp, s, m'), v, exp(m - m'));
  }

  // ----- one reduction

  /** Where the logits stood, the weights; beyond them, zeros up to the capacity. */
  ghost predicate Reduced(exp: Fn, s: seq<real>, capacity: nat, after: seq<real>, max: real, sum: real) {
    && IsMax(s, max) && sum == Sum(Exps(exp, s, max)) && sum >= 1.0
    && |s| <= capacity <= |after|
    && (forall i :: 0 <= i < |s| ==> after[i] == exp(s[i] - max) / sum)
    && (forall i :: |s| <= i < capacity ==> after[i] == 0.0)
  }

  method ReduceSoftmax(exp: Fn, data: array<real>, size: nat, capacity: nat) returns (max: real, sum: real)
    requires IsExp(exp) && 0 < size <= capacity <= data.Length
    modifies data
    ensures Reduced(exp, old(data[..size]), capacity, data[..], max, sum)
    ensures forall i :: capacity <= i < data.Length ==> data[i] == old(data[i])
  {
    hide IsExp;
    max := data[0];
    for i := 1 to size
      invariant max in data[..i] && forall k :: 0 <= k < i ==> data[k] <= max
    {
      assert data[..i + 1] == data[..i] + [data[i]];
      max := if max >= data[i] then max else data[i];
    }
    sum := Normalise(exp, data, size, capacity, max);
  }

  function Bias(slope: real, pos: int, seqLen: int): real {
    slope * (pos - seqLen + 1) as real
  }

  /** The linear bias of each position added to its logit; the first logit has position `start`. */
  function Biased(s: seq<real>, slope: real, start: int, seqLen: int): (r: seq<real>)
    ensures |r| == |s| && forall i :: 0 <= i < |s| ==> r[i] == s[i] + Bias(slope, start + i, seqLen)
  {
    seq(|s|, i requires 0 <= i < |s| => s[i] + Bias(slope, start + i, seqLen))
  }

  /**
   * The newest token of the sequence keeps its logit, and going back in the sequence each logit
   * loses the slope once more. The first logit has position `start`.
   */
  ghost predicate LosesWithAge(raw: seq<real>, biased: seq<real>, slope: real, start: int, seqLen: int) {
    && |biased| == |raw|
    && (forall i :: 0 <= i < |raw| && start + i == seqLen - 1 ==> biased[i] == raw[i])
    && (forall i :: 0 < i < |raw| ==> biased[i] - biased[i - 1] == raw[i] - raw[i - 1] + slope)
    && (forall i :: 0 <= i < |raw| ==> raw[i] - biased[i] == slope * (seqLen - 1 - (start + i)) as real)
  }

  lemma BiasedLosesWithAge(s: seq<real>, slope: real, start: int, seqLen: int)
    ensures LosesWithAge(s, Biased(s, slope, start, seqLen), slope, start, seqLen)
  {
    hide Biased;
    var b := Biased(s, slope, start, seqLen);
    forall i | 0 < i < |s|
      ensures b[i] - b[i - 1] == s[i] - s[i - 1] + slope
    {
      BiasStep(slope, start + i - 1, seqLen);
    }
    forall i | 0 <= i < |s|
      ensures s[i] - b[i] == slope * (seqLen - 1 - (start + i)) as real
    {
      BiasBack(slope, start + i, seqLen);
    }
  }

  lemma BiasStep(slope: real, pos: int, seqLen: int)
    ensures Bias(slope, pos + 1, seqLen) == Bias(slope, pos, seqLen) + slope
  {
    var k := (pos - seqLen + 1) as real;
    assert (pos + 1 - seqLen + 1) as real == k + 1.0;
    assert slope * (k + 1.0) == slope * k + slope;
  }

  lemma BiasBack(slope: real, pos: int, seqLen: int)
    ensures Bias(slope, pos, seqLen) == -(slope * (seqLen - 1 - pos) as real)
  {
    var k := (pos - seqLen + 1) as real;
    assert (seqLen - 1 - pos) as real == -k;
    assert slope * -k == -(slope * k);
  }

  method ReduceSoftmaxAlibi(exp: Fn, data: array<real>, size: nat, capacity: nat, slope: real, start: nat, seqLen: nat)
    returns (max: real, sum: real)
    requires IsExp(exp) && 0 < size <= capacity <= data.Length
    modifies data
    ensures Reduced(exp, Biased(old(data[..size]), slope, start, seqLen), capacity, data[..], max, sum)
    ensures LosesWithAge(old(data[..size]), Biased(old(data[..size]), slope, start, seqLen), slope, start, seqLen)
    ensures forall i :: capacity <= i < data.Length ==> data[i] == old(data[i])
  {
    hide Biased, IsExp, Bias, LosesWithAge;
    BiasedLosesWithAge(data[..size], slope, start, seqLen);
    ghost var s := Biased(data[..size], slope, start, seqLen);
    data[0] := data[0] + Bias(slope, start, seqLen);
    max := data[0];
    for i := 1 to size
      invariant forall k :: 0 <= k < i ==> data[k] == s[k]
      invariant forall k :: i <= k < data.Length ==> data[k] == old(data[k])
      invariant max in s[..i] && forall k :: 0 <= k < i ==> s[k] <= max
    {
      var qk := data[i] + Bias(slope, start + i, seqLen);
      data[i] := qk;
      assert s[i] == qk && s[..i + 1] == s[..i] + [qk];
      max := if max >= qk then max else qk;
    }
    assert data[..size] == s;
    sum := Normalise(exp, data, size, capacity, max);
  }

  /** Exponentials, their sum, the division, and the zero fill. */
  method Normalise(exp: Fn, data: array<real>, size: nat, capacity: nat, max: real) returns (sum: real)
    requires IsExp(exp) && 0 < size <= capacity <= data.Length && IsMax(data[..size], max)
    modifies data
    ensures Reduced(exp, old(data[..size]), capacity, data[..], max, sum)
    ensures forall i :: capacity <= i < data.Length ==> data[i] == old(data[i])
  {
    hide Exps, Sum, IsExp;
    ghost var s := data[..size];
    ghost var e := Exps(exp, s, max);
    ShiftedSum(exp, s, max);
    sum := 0.0;
    assert Sum(e[..0]) == 0.0 by { SumZeros(e[..0]); }
    for i := 0 to size
      invariant forall k :: 0 <= k < i ==> data[k] == e[k]
      invariant forall k :: i <= k < data.Length ==> data[k] == old(data[k])
      invariant sum == Sum(e[..i])
    {
      data[i] := exp(data[i] - max);
      SumSnoc(e[..i], e[i]);
      assert e[..i + 1] == e[..i] + [e[i]];
      sum := sum + data[i];
    }
    assert e[..size] == e;
    for i := 0 to size
      invariant forall k :: 0 <= k < i ==> data[k] == e[k] / sum
      invariant forall k :: i <= k < size ==> data[k] == e[k]
      invariant forall k :: size <= k < data.Length ==> data[k] == old(data[k])
    {
      data[i] := data[i] / sum;
    }
    for i := size to capacity
      invariant forall k :: 0 <= k < size ==> data[k] == e[k] / sum
      invariant forall k :: size <= k < i ==> data[k] == 0.0
      invariant forall k :: i <= k < data.Length ==> data[k] == old(data[k])
    {
      data[i] := 0.0;
    }
  }

  // ----- merging the reductions of partitions

  const EPSILON: real := 0.00000001

  function Rescaled(exp: Fn, maxes: seq<real>, sums: seq<real>, max: real): (r: seq<real>)
    requires |maxes| == |sums|
    ensures |r| == |sums| && forall i :: 0 <= i < |sums| ==> r[i] == exp(maxes[i] - max) * sums[i]
  {
    seq(|sums|, i requires 0 <= i < |sums| => exp(maxes[i] - max) * sums[i])
  }

  method ReducePartitionSoftmax(exp: Fn, maxData: array<real>, sumData: array<real>, size: nat)
    returns (ghost max: real)
    requires IsExp(exp) && maxData != sumData && 0 < size <= maxData.Length && size <= sumData.Length
    requires forall i :: 0 <= i < size ==> sumData[i] > 0.0
    modifies sumData
    ensures IsMax(maxData[..size], max)
    ensures var r := Rescaled(exp, maxData[..size], old(sumData[..size]), max);
            Sum(r) > 0.0 && forall i :: 0 <= i < size ==> sumData[i] == r[i] / (Sum(r) + EPSILON)
    ensures forall i :: size <= i < sumData.Length ==> sumData[i] == old(sumData[i])
  {
    hide IsExp, Rescaled, Sum;
    var m := maxData[0];
    for i := 1 to size
      invariant m in maxData[..i] && forall k :: 0 <= k < i ==> maxData[k] <= m
    {
      assert maxData[..i + 1] == maxData[..i] + [maxData[i]];
      m := if m >= maxData[i] then m else maxData[i];
    }
    max := m;
    ghost var r := Rescaled(exp, maxData[..size], sumData[..size], m);
    RescaledPositive(exp, maxData[..size], sumData[..size], m);
    var sum := RescaleSums(exp, maxData, sumData, size, m);
    for i := 0 to size
      invariant forall k :: 0 <= k < i ==> sumData[k] == r[k] / (sum + EPSILON)
      invariant forall k :: i <= k < size ==> sumData[k] == r[k]
      invariant forall k :: size <= k < sumData.Length ==> sumData[k] == old(sumData[k])
    {
      sumData[i] := sumData[i] / (sum + EPSILON);
    }
  }

  method RescaleSums(exp: Fn, maxData: array<real>, sumData: array<real>, size: nat, max: real) returns (sum: real)
    requires maxData != sumData && size <= maxData.Length && size <= sumData.Length
    modifies sumData
    ensures sumData[..size] == Rescaled(exp, maxData[..size], old(sumData[..size]), max) && sum == Sum(sumData[..size])
    ensures forall i :: size <= i < sumData.Length ==> sumData[i] == old(sumData[i])
  {
    hide Rescaled, Sum;
    ghost var r := Rescaled(exp, maxData[..size], sumData[..size], max);
    sum := 0.0;
    assert Sum(r[..0]) == 0.0 by { SumZeros(r[..0]); }
    for i := 0 to size
      invariant sum == Sum(r[..i])
      invariant forall k :: 0 <= k < i ==> sumData[k] == r[k]
      invariant forall k :: i <= k < sumData.Length ==> sumData[k] == old(sumData[k])
    {
      var factor := exp(maxData[i] - max);
      SumSnoc(r[..i], r[i]);
      assert r[..i + 1] == r[..i] + [r[i]];
      sum := sum + factor * sumData[i];
      sumData[i] := factor * sumData[i];
    }
    assert r[..size] == r && sumData[..size] == r;
  }

  lemma RescaledPositive(exp: Fn, maxes: seq<real>, sums: seq<real>, max: real)
    requires IsExp(exp) && |maxes| == |sums| > 0 && forall i :: 0 <= i < |sums| ==> sums[i] > 0.0
    ensures Sum(Rescaled(exp, maxes, sums, max)) > 0.0
  {
    hide IsExp, Rescaled;
    var r := Rescaled(exp, maxes, sums, max);
    forall i | 0 <= i < |sums|
      ensures r[i] > 0.0
    {
      ExpPositive(exp, maxes[i] - max);
      ProductPositive(exp(maxes[i] - max), sums[i]);
    }
    SumPositive(r, 0);
  }

  lemma ProductPositive(a: real, b: real)
    requires a > 0.0 && b > 0.0
    ensures a * b > 0.0
  {
  }

  /** The first `p` partitions of `size` tokens end here. */
  function Cut(len: nat, size: nat, p: nat): nat {
    if p * size < len then p * size else len
  }

  lemma CutMono(len: nat, size: nat, p: nat)
    ensures Cut(len, size, p) <= Cut(len, size, p + 1) <= len
  {
  }

  function Part(s: seq<real>, size: nat, p: nat): seq<real> {
    CutMono(|s|, size, p);
    s[Cut(|s|, size, p)..Cut(|s|, size, p + 1)]
  }

  /** Each partition reduced by itself: its maximum, its sum, and its weighted value. */
  ghost predicate PartsReduced(exp: Fn, s: seq<real>, v: seq<real>, size: nat, maxes: seq<real>, sums: seq<real>,
          outs: seq<real>) {
    && |s| == |v| && |maxes| == |sums| == |outs|
    && forall p :: 0 <= p < |maxes| ==> PartReduced(exp, s, v, size, p, maxes[p], sums[p], outs[p])
  }

  ghost predicate PartReduced(exp: Fn, s: seq<real>, v: seq<real>, size: nat, p: nat, max: real, sum: real, out: real)
    requires |s| == |v|
  {
    && IsMax(Part(s, size, p), max)
    && sum == Sum(Exps(exp, Part(s, size, p), max)) && sum >= 1.0
    && out * sum == Dot(Exps(exp, Part(s, size, p), max), Part(v, size, p))
  }

  lemma CutPart(s: seq<real>, size: nat, p: nat)
    ensures 0 <= Cut(|s|, size, p) <= Cut(|s|, size, p + 1) <= |s|
    ensures s[..Cut(|s|, size, p + 1)] == s[..Cut(|s|, size, p)] + Part(s, size, p)
  {
  }

  lemma ExpsConcat(exp: Fn, a: seq<real>, b: seq<real>, m: real)
    ensures Exps(exp, a + b, m) == Exps(exp, a, m) + Exps(exp, b, m)
  {
  }

  /** The rescaled sums and values of the first `n` partitions add up to those of their tokens. */
  lemma {:induction false} MergeParts(exp: Fn, s: seq<real>, v: seq<real>, size: nat, maxes: seq<real>,
          sums: seq<real>, outs: seq<real>, max: real, n: nat)
    requires IsExp(exp) && PartsReduced(exp, s, v, size, maxes, sums, outs) && n <= |maxes|
    ensures Sum(Rescaled(exp, maxes, sums, max)[..n]) == Sum(Exps(exp, s[..Cut(|s|, size, n)], max))
    ensures Dot(Rescaled(exp, maxes, sums, max)[..n], outs[..n])
            == Dot(Exps(exp, s[..Cut(|s|, size, n)], max), v[..Cut(|v|, size, n)])
  {
    hide IsExp, Exps, Sum, Dot, Cut, Part;
    var r := Rescaled(exp, maxes, sums, max);
    if n == 0 {
      NothingMerged(exp, s, v, size, r[..0], outs[..0], max);
    } else {
      var p := n - 1;
      MergeParts(exp, s, v, size, maxes, sums, outs, max, p);
      CutPart(s, size, p);
      CutPart(v, size, p);
      assert PartReduced(exp, s, v, size, p, maxes[p], sums[p], outs[p]);
      PartMerges(exp, s[..Cut(|s|, size, p)], v[..Cut(|v|, size, p)], Part(s, size, p), Part(v, size, p), maxes[p],
        sums[p], outs[p], max);
      assert r[..n] == r[..p] + [r[p]] && outs[..n] == outs[..p] + [outs[p]];
      SumSnoc(r[..p], r[p]);
      DotSnoc(r[..p], outs[..p], r[p], outs[p]);
    }
  }

  lemma NothingMerged(exp: Fn, s: seq<real>, v: seq<real>, size: nat, r: seq<real>, o: seq<real>, max: real)
    requires |s| == |v| && r == [] && o == []
    ensures Cut(|s|, size, 0) == 0 && Sum(r) == Sum(Exps(exp, s[..0], max))
            && Dot(r, o) == Dot(Exps(exp, s[..0], max), v[..0])
  {
  }

  lemma DotOne(x: real, y: real)
    ensures Dot([x], [y]) == x * y
  {
    var t := Times([x], [y]);
    assert t[0] == [x][0] * [y][0] == x * y;
    assert t == [] + [t[0]];
    SumSnoc([], t[0]);
  }

  lemma DotSnoc(a: seq<real>, b: seq<real>, x: real, y: real)
    requires |a| == |b|
    ensures Dot(a + [x], b + [y]) == Dot(a, b) + x * y
  {
    DotConcat(a, [x], b, [y]);
    DotOne(x, y);
  }

  /** One more partition, with its reduction shifted from its own maximum to `max`. */
  lemma PartMerges(exp: Fn, a: seq<real>, av: seq<real>, b: seq<real>, bv: seq<real>, m: real, sum: real, out: real,
          max: real)
    requires IsExp(exp) && |a| == |av| && |b| == |bv|
    requires sum == Sum(Exps(exp, b, m)) && out * sum == Dot(Exps(exp, b, m), bv)
    ensures Sum(Exps(exp, a + b, max)) == Sum(Exps(exp, a, max)) + exp(m - max) * sum
    ensures Dot(Exps(exp, a + b, max), av + bv) == Dot(Exps(exp, a, max), av) + (exp(m - max) * sum) * out
  {
    hide IsExp, Exps, Sum, Dot;
    Reshift(exp, b, bv, m, max);
    ExpsConcat(exp, a, b, max);
    SumConcat(Exps(exp, a, max), Exps(exp, b, max));
    DotConcat(Exps(exp, a, max), Exps(exp, b, max), av, bv);
    Associate(exp(m - max), sum, out);
    assert sum * out == out * sum;
  }

  /** The maximum of the partitions' maxima is the maximum of all logits. */
  lemma MaxOfParts(exp: Fn, s: seq<real>, v: seq<real>, size: nat, maxes: seq<real>, sums: seq<real>, outs: seq<real>,
          max: real)
    requires PartsReduced(exp, s, v, size, maxes, sums, outs) && size > 0
    requires Cut(|s|, size, |maxes|) == |s| && IsMax(maxes, max)
    ensures IsMax(s, max)
  {
    hide Exps, Sum, Dot, Cut, Part;
    var k :| 0 <= k < |maxes| && maxes[k] == max;
    assert PartReduced(exp, s, v, size, k, maxes[k], sums[k], outs[k]);
    PartWithin(s, size, k);
    forall i | 0 <= i < |s|
      ensures s[i] <= max
    {
      var p := PartOf(|s|, size, |maxes|, i);
      assert PartReduced(exp, s, v, size, p, maxes[p], sums[p], outs[p]);
      PartWithin(s, size, p);
    }
  }

  lemma PartWithin(s: seq<real>, size: nat, p: nat)
    ensures forall x :: x in Part(s, size, p) ==> x in s
    ensures forall i :: 0 <= Cut(|s|, size, p) <= i < Cut(|s|, size, p + 1) && i < |s| ==> s[i] in Part(s, size, p)
  {
  }

  /** The partition that position `i` is in. */
  lemma {:induction false} PartOf(len: nat, size: nat, n: nat, i: nat) returns (p: nat)
    requires size > 0 && i < Cut(len, size, n)
    ensures p < n && Cut(len, size, p) <= i < Cut(len, size, p + 1)
  {
    if n > 0 && Cut(len, size, n - 1) <= i {
      p := n - 1;
    } else {
      p := PartOf(len, size, n - 1, i);
    }
  }

  /**
   * Partitioned softmax: merging the partitions gives the attention of the whole, but for the
   * smoothing term in the denominator.
   */
  lemma MergedAttention(exp: Fn, s: seq<real>, v: seq<real>, size: nat, maxes: seq<real>, sums: seq<real>,
          outs: seq<real>, max: real, out: real)
    requires IsExp(exp) && size > 0 && s != [] && PartsReduced(exp, s, v, size, maxes, sums, outs)
    requires Cut(|s|, size, |maxes|) == |s| && IsMax(maxes, max)
    requires var r := Rescaled(exp, maxes, sums, max);
             Sum(r) + EPSILON > 0.0 && out * (Sum(r) + EPSILON) == Dot(r, outs)
    ensures var total := Sum(Rescaled(exp, maxes, sums, max));
            && total == Sum(Exps(exp, s, max)) && total >= 1.0
            && Sum(Exps(exp, s, 0.0)) != 0.0
            && out * (total + EPSILON) == Attend(exp, s, v) * total
  {
    hide IsExp, Exps, Sum, Dot, Cut, Rescaled;
    var r, n := Rescaled(exp, maxes, sums, max), |maxes|;
    MaxOfParts(exp, s, v, size, maxes, sums, outs, max);
    ShiftedSum(exp, s, max);
    MergeParts(exp, s, v, size, maxes, sums, outs, max, n);
    assert r[..n] == r && outs[..n] == outs && s[..|s|] == s && v[..|v|] == v;
    AttendShifted(exp, s, v, max);
  }

  /** The attention computed with any shift. */
  lemma AttendShifted(exp: Fn, s: seq<real>, v: seq<real>, m: real)
    requires IsExp(exp) && s != [] && |s| == |v|
    ensures Sum(Exps(exp, s, m)) > 0.0 && Sum(Exps(exp, s, 0.0)) > 0.0
    ensures Attend(exp, s, v) * Sum(Exps(exp, s, m)) == Dot(Exps(exp, s, m), v)
  {
    hide IsExp, Exps, Sum, Dot;
    ExpsPositive(exp, s, m);
    ExpsPositive(exp, s, 0.0);
    Reshift(exp, s, v, 0.0, m);
    Quotient(Dot(Exps(exp, s, 0.0), v), Sum(Exps(exp, s, 0.0)), exp(0.0 - m));
  }

  lemma Quotient(a: real, b: real, c: real)
    requires b > 0.0
    ensures (a / b) * (c * b) == c * a
  {
  }
}
