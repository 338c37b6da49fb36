/** Paged attention of one query head over one sequence: in one pass, and split into partitions. */
module Attention {
  import opened Wrappers
  import opened Arith
  import opened RealSums
  import opened Softmax
  import opened KvLayout
  import opened QueryKey
  import Paging

  const HEAD_ELEMS_PER_PARTITION: nat := 16

  /** One query head, the two caches, the used entries of the block table of its sequence, and its length. */
  datatype Problem = Problem(
    g: Geometry, k: Kernel, blocks: nat, keys: seq<real>, values: seq<real>,
    q: seq<real>, head: nat, table: seq<nat>, seqLen: nat, scale: real, slope: Option<real>)

  ghost predicate Valid(a: Problem) {
    && Fitting(a.g, a.k) && HeadSize(a.g) % HEAD_ELEMS_PER_PARTITION == 0
    && |a.keys| == |a.values| == a.blocks * BlockElems(a.g)
    && |a.q| == HeadSize(a.g) && a.head < a.g.heads
    && 0 < a.seqLen <= |a.table| * a.g.blockSize
    && (forall i :: 0 <= i < |a.table| ==> a.table[i] < a.blocks)
  }

  lemma InTable(a: Problem, pos: nat)
    requires Valid(a) && pos < |a.table| * a.g.blockSize
    ensures 0 <= pos / a.g.blockSize < |a.table| && 0 <= pos % a.g.blockSize < a.g.blockSize
    ensures a.table[pos / a.g.blockSize] < a.blocks
  {
  }

  lemma FittingSound(g: Geometry, k: Kernel)
    requires Fitting(g, k)
    ensures Sound(g)
  {
  }

  // ----- what is to be computed

  /** The logit of a position: the scaled dot product with its key. */
  ghost function Logit(a: Problem, pos: nat): real
    requires Valid(a) && pos < |a.table| * a.g.blockSize
  {
    InTable(a, pos);
    a.scale * Dot(a.q, KeyVec(a.g, a.blocks, a.keys, a.table[pos / a.g.blockSize], a.head, pos % a.g.blockSize))
  }

  ghost function Logits(a: Problem): (r: seq<real>)
    requires Valid(a)
    ensures |r| == a.seqLen && forall p :: 0 <= p < a.seqLen ==> r[p] == Logit(a, p)
  {
    seq(a.seqLen, p requires 0 <= p < a.seqLen => Logit(a, p))
  }

  /** The logits with the linear bias, if there is one. */
  ghost function Scores(a: Problem): (r: seq<real>)
    requires Valid(a)
    ensures |r| == a.seqLen
  {
    if a.slope.None? then Logits(a) else Biased(Logits(a), a.slope.value, 0, a.seqLen)
  }

  /** Without a slope a score is the logit; with one, a token loses the slope for each token after it. */
  lemma ScoresLoseWithAge(a: Problem)
    requires Valid(a)
    ensures forall p :: 0 <= p < a.seqLen && a.slope.None? ==> Scores(a)[p] == Logit(a, p)
    ensures a.slope.Some? ==> Scores(a)[a.seqLen - 1] == Logit(a, a.seqLen - 1)
    ensures forall p :: 0 <= p < a.seqLen - 1 && a.slope.Some? ==>
                          Scores(a)[p + 1] - Scores(a)[p] == Logit(a, p + 1) - Logit(a, p) + a.slope.value
  {
    hide Logit, HeadSize, BlockElems;
    if a.slope.Some? {
      BiasedLosesWithAge(Logits(a), a.slope.value, 0, a.seqLen);
      var s := Scores(a);
      forall p | 0 <= p < a.seqLen - 1
        ensures s[p + 1] - s[p] == Logit(a, p + 1) - Logit(a, p) + a.slope.value
      {
        var i := p + 1;
        assert s[i] - s[i - 1] == Logits(a)[i] - Logits(a)[i - 1] + a.slope.value;
      }
    }
  }

  /** Element `d` of the value of a position. */
  ghost function Value(a: Problem, d: nat, pos: nat): real
    requires Valid(a) && pos < |a.table| * a.g.blockSize && d < HeadSize(a.g)
  {
    InTable(a, pos);
    At(a.g, a.blocks, Values, a.values, Cell(a.table[pos / a.g.blockSize], a.head, pos % a.g.blockSize, d))
  }

  /** Element `d` of the values of `n` positions from `start` on. */
  ghost function Column(a: Problem, d: nat, start: nat, n: nat): (r: seq<real>)
    requires Valid(a) && start + n <= |a.table| * a.g.blockSize && d < HeadSize(a.g)
    ensures |r| == n && forall p :: 0 <= p < n ==> r[p] == Value(a, d, start + p)
  {
    seq(n, p requires 0 <= p < n => Value(a, d, start + p))
  }

  // ----- logits

  lemma LogitAt(a: Problem, b: nat, o: nat)
    requires Valid(a) && b < |a.table| && o < a.g.blockSize
    ensures 0 <= b * a.g.blockSize && b * a.g.blockSize + o < |a.table| * a.g.blockSize
    ensures Logit(a, b * a.g.blockSize + o) == a.scale * Dot(a.q, KeyVec(a.g, a.blocks, a.keys, a.table[b], a.head, o))
  {
    hide BlockElems, HeadSize, KeyVec, Dot;
    StepsApart(b, |a.table|, a.g.blockSize);
    Paging.QuotientUnique(b, a.g.blockSize, o);
    Paging.RemainderUnique(b, a.g.blockSize, o);
  }

  /** The logits of `tokens` positions from block `first` on, block by block. */
  method ComputeLogits(a: Problem, first: nat, tokens: nat, logits: array<real>, ghost room: nat)
    returns (blockNum: nat)
    requires Valid(a) && 0 < tokens && first * a.g.blockSize + tokens <= |a.table| * a.g.blockSize
    requires tokens <= logits.Length == room * a.g.blockSize
    modifies logits
    ensures blockNum > 0 && (blockNum - 1) * a.g.blockSize < tokens <= blockNum * a.g.blockSize
    ensures first + blockNum <= |a.table|
    ensures 0 <= blockNum * a.g.blockSize <= logits.Length && 0 <= first * a.g.blockSize
    ensures forall p :: 0 <= p < tokens ==> logits[p] == Logit(a, first * a.g.blockSize + p)
  {
    hide BlockElems, HeadSize, KeyVec, Dot, Fitting, Logit;
    FittingSound(a.g, a.k);
    var bs := a.g.blockSize;
    blockNum := (tokens + bs - 1) / bs;
    BlocksNeeded(tokens, bs, blockNum, first, |a.table|);
    BlocksNeeded(tokens, bs, blockNum, 0, room);
    MulMono(blockNum, room, bs);
    var lastTokens := tokens - (blockNum - 1) * bs;
    for b := 0 to blockNum
      invariant 0 <= b * bs && 0 <= first * bs
      invariant forall p :: 0 <= p < tokens && p < b * bs ==> logits[p] == Logit(a, first * bs + p)
    {
      StepsApart(b, blockNum, bs);
      MulStep(b, bs);
      var n := if b == blockNum - 1 then lastTokens else bs;
      ReduceQKBlock(a.g, a.k, a.blocks, a.q, a.keys, a.table[first + b], a.head, logits, b * bs, a.scale, n);
      forall p | 0 <= p < tokens && p < (b + 1) * bs
        ensures logits[p] == Logit(a, first * bs + p)
      {
        if p >= b * bs {
          LogitAt(a, first + b, p - b * bs);
          assert (first + b) * bs == first * bs + b * bs;
          if b < blockNum - 1 {
            StepsApart(b, blockNum - 1, bs);
          }
          assert p - b * bs < n;
        }
      }
    }
  }

  lemma BlocksNeeded(tokens: nat, bs: nat, n: nat, first: nat, table: nat)
    requires bs > 0 && tokens > 0 && n == (tokens + bs - 1) / bs && first * bs + tokens <= table * bs
    ensures n > 0 && (n - 1) * bs < tokens <= n * bs && first + n <= table && 0 <= first * bs
  {
    Split(tokens + bs - 1, bs);
    MulStep(n, bs);
    assert n > 0;
    assert (n - 1) * bs == n * bs - bs;
    assert (first + n - 1) * bs == first * bs + (n - 1) * bs;
    if first + n > table {
      MulMono(table, first + n - 1, bs);
    }
    MulMono(0, first, bs);
  }

  // ----- values

  lemma ValueAt(a: Problem, d: nat, b: nat, o: nat)
    requires Valid(a) && b < |a.table| && o < a.g.blockSize && d < HeadSize(a.g)
    ensures 0 <= b * a.g.blockSize && b * a.g.blockSize + o < |a.table| * a.g.blockSize
    ensures var at := HeadBase(a.g, a.table[b], a.head) + d * a.g.blockSize + o;
            0 <= at < |a.values| && Value(a, d, b * a.g.blockSize + o) == a.values[at]
  {
    hide BlockElems, HeadSize, HeadBase, ValueAddr;
    StepsApart(b, |a.table|, a.g.blockSize);
    Paging.QuotientUnique(b, a.g.blockSize, o);
    Paging.RemainderUnique(b, a.g.blockSize, o);
    AddrWithin(a.g, a.blocks, Values, Cell(a.table[b], a.head, o, d));
    ValueAddrIs(a.g, a.table[b], a.head, o, d);
  }

  /** The products of the weights and element `d` of the values of the first `n` blocks from `first` on. */
  ghost function Weighted(a: Problem, d: nat, first: nat, prob: seq<real>, n: nat): (r: seq<real>)
    requires Valid(a) && d < HeadSize(a.g) && first + n <= |a.table| && |prob| >= n * a.g.blockSize
    ensures |r| == n * a.g.blockSize
  {
    assert (first + n) * a.g.blockSize == first * a.g.blockSize + n * a.g.blockSize;
    MulMono(first + n, |a.table|, a.g.blockSize);
    Times(prob[..n * a.g.blockSize], Column(a, d, first * a.g.blockSize, n * a.g.blockSize))
  }

  lemma WeightedAt(a: Problem, d: nat, first: nat, prob: seq<real>, n: nat, b: nat, o: nat)
    requires Valid(a) && d < HeadSize(a.g) && first + n <= |a.table| && |prob| >= n * a.g.blockSize
    requires b < n && o < a.g.blockSize
    ensures 0 <= b * a.g.blockSize && b * a.g.blockSize + o < n * a.g.blockSize
    ensures var at := HeadBase(a.g, a.table[first + b], a.head) + d * a.g.blockSize + o;
            && 0 <= at < |a.values|
            && Weighted(a, d, first, prob, n)[b * a.g.blockSize + o] == prob[b * a.g.blockSize + o] * a.values[at]
  {
    hide BlockElems, HeadSize, HeadBase, Value, Times;
    StepsApart(b, n, a.g.blockSize);
    ValueAt(a, d, first + b, o);
    assert (first + b) * a.g.blockSize == first * a.g.blockSize + b * a.g.blockSize;
    assert (first + n) * a.g.blockSize == first * a.g.blockSize + n * a.g.blockSize;
    MulMono(first + n, |a.table|, a.g.blockSize);
  }

  /** The accumulators of part `part` of the head after `b` blocks. */
  ghost predicate ValuesAdded(a: Problem, part: nat, first: nat, prob: seq<real>, n: nat, acc: array2<real>, b: nat)
    requires Valid(a) && (part + 1) * HEAD_ELEMS_PER_PARTITION <= HeadSize(a.g)
    requires first + n <= |a.table| && |prob| >= n * a.g.blockSize && b <= n
    requires acc.Length0 == HEAD_ELEMS_PER_PARTITION && acc.Length1 == a.g.blockSize
    reads acc
  {
    forall e, l :: 0 <= e < HEAD_ELEMS_PER_PARTITION && 0 <= l < a.g.blockSize ==>
      acc[e, l] == LaneOf(a, part * HEAD_ELEMS_PER_PARTITION + e, first, prob, n, l, b)
  }

  /** One block: each element's lanes gain the products of the weights and the values of its tokens. */
  method ReduceValueBlock(a: Problem, part: nat, first: nat, prob: array<real>, ghost n: nat, b: nat, acc: array2<real>)
    requires Valid(a) && (part + 1) * HEAD_ELEMS_PER_PARTITION <= HeadSize(a.g)
    requires first + n <= |a.table| && prob.Length >= n * a.g.blockSize && b < n
    requires acc.Length0 == HEAD_ELEMS_PER_PARTITION && acc.Length1 == a.g.blockSize
    requires ValuesAdded(a, part, first, prob[..], n, acc, b)
    modifies acc
    ensures ValuesAdded(a, part, first, prob[..], n, acc, b + 1)
  {
    hide BlockElems, HeadSize, Weighted, Valid, Lane;
    ghost var p := prob[..];
    for e := 0 to HEAD_ELEMS_PER_PARTITION
      invariant prob[..] == p
      invariant forall f, l :: 0 <= f < HEAD_ELEMS_PER_PARTITION && 0 <= l < a.g.blockSize ==>
                  acc[f, l] == LaneOf(a, part * HEAD_ELEMS_PER_PARTITION + f, first, p, n, l, if f < e then b + 1
                    else b)
    {
      AddProducts(a, part * HEAD_ELEMS_PER_PARTITION + e, first, prob, n, b, acc, e);
    }
  }

  /** What a lane of element `d` holds after `b` blocks. */
  ghost function LaneOf(a: Problem, d: nat, first: nat, prob: seq<real>, n: nat, l: nat, b: nat): real
    requires Valid(a) && d < HeadSize(a.g) && first + n <= |a.table| && |prob| >= n * a.g.blockSize
    requires l < a.g.blockSize && b <= n
  {
    MulMono(b, n, a.g.blockSize);
    Lane(Weighted(a, d, first, prob, n), a.g.blockSize, l, b)
  }

  /** One element: a multiply-add over the lanes. */
  method AddProducts(a: Problem, d: nat, first: nat, prob: array<real>, ghost n: nat, b: nat, acc: array2<real>, e: nat)
    requires Valid(a) && d < HeadSize(a.g) && first + n <= |a.table| && prob.Length >= n * a.g.blockSize && b < n
    requires acc.Length1 == a.g.blockSize && e < acc.Length0
    requires forall l :: 0 <= l < a.g.blockSize ==> acc[e, l] == LaneOf(a, d, first, prob[..], n, l, b)
    modifies acc
    ensures forall l :: 0 <= l < a.g.blockSize ==> acc[e, l] == LaneOf(a, d, first, prob[..], n, l, b + 1)
    ensures forall f, l :: 0 <= f < acc.Length0 && f != e && 0 <= l < a.g.blockSize ==> acc[f, l] == old(acc[f, l])
  {
    hide BlockElems, HeadSize, HeadBase, Weighted, Valid, Fitting, LaneOf;
    var bs := a.g.blockSize;
    ghost var p := prob[..];
    Wellformed(a);
    StepsApart(b, n, bs);
    var base := HeadBase(a.g, a.table[first + b], a.head);
    for l := 0 to bs
      invariant prob[..] == p
      invariant forall m :: 0 <= m < bs ==> acc[e, m] == LaneOf(a, d, first, p, n, m, if m < l then b + 1 else b)
      invariant forall f, m :: 0 <= f < acc.Length0 && f != e && 0 <= m < bs ==> acc[f, m] == old(acc[f, m])
    {
      WeightedAt(a, d, first, p, n, b, l);
      NextLane(a, d, first, p, n, l, b);
      acc[e, l] := acc[e, l] + prob[b * bs + l] * a.values[base + d * bs + l];
    }
  }

  lemma NextLane(a: Problem, d: nat, first: nat, prob: seq<real>, n: nat, l: nat, b: nat)
    requires Valid(a) && d < HeadSize(a.g) && first + n <= |a.table| && |prob| >= n * a.g.blockSize
    requires l < a.g.blockSize && b < n && 0 <= b * a.g.blockSize && b * a.g.blockSize + l < n * a.g.blockSize
    ensures LaneOf(a, d, first, prob, n, l, b + 1)
            == LaneOf(a, d, first, prob, n, l, b) + Weighted(a, d, first, prob, n)[b * a.g.blockSize + l]
  {
    hide BlockElems, HeadSize, Valid, Weighted;
  }

  lemma Wellformed(a: Problem)
    requires Valid(a)
    ensures Fitting(a.g, a.k) && Sound(a.g) && HeadSize(a.g) % HEAD_ELEMS_PER_PARTITION == 0
    ensures |a.keys| == |a.values| == a.blocks * BlockElems(a.g)
    ensures |a.q| == HeadSize(a.g) && a.head < a.g.heads && 0 < a.seqLen <= |a.table| * a.g.blockSize
  {
  }

  /** The weighted values of `n` blocks from `first` on, one head part of 16 elements at a time. */
  method ReduceValues(a: Problem, first: nat, prob: array<real>, n: nat, out: array<real>, at: nat)
    requires Valid(a) && first + n <= |a.table| && prob.Length >= n * a.g.blockSize
    requires out != prob && at + HeadSize(a.g) <= out.Length
    modifies out
    ensures forall d :: 0 <= d < HeadSize(a.g) ==> out[at + d] == Sum(Weighted(a, d, first, prob[..], n))
    ensures forall j :: 0 <= j < out.Length && !(at <= j < at + HeadSize(a.g)) ==> out[j] == old(out[j])
  {
    hide BlockElems, HeadBase, Weighted, Valid, Fitting, HeadSize, Sum;
    Wellformed(a);
    var parts := HeadSize(a.g) / HEAD_ELEMS_PER_PARTITION;
    for part := 0 to parts
      invariant forall d :: 0 <= d < part * HEAD_ELEMS_PER_PARTITION ==>
                out[at + d] == Sum(Weighted(a, d, first, prob[..], n))
      invariant forall j :: 0 <= j < out.Length && !(at <= j < at + HeadSize(a.g)) ==> out[j] == old(out[j])
    {
      ReducePart(a, part, first, prob, n, out, at);
    }
  }

  method ReducePart(a: Problem, part: nat, first: nat, prob: array<real>, n: nat, out: array<real>, at: nat)
    requires Valid(a) && (part + 1) * HEAD_ELEMS_PER_PARTITION <= HeadSize(a.g)
    requires first + n <= |a.table| && prob.Length >= n * a.g.blockSize
    requires out != prob && at + HeadSize(a.g) <= out.Length
    modifies out
    ensures forall d :: part * HEAD_ELEMS_PER_PARTITION <= d < (part + 1) * HEAD_ELEMS_PER_PARTITION ==>
              out[at + d] == Sum(Weighted(a, d, first, prob[..], n))
    ensures forall j :: && 0 <= j < out.Length
                        && !(at + part * HEAD_ELEMS_PER_PARTITION <= j < at + (part + 1) * HEAD_ELEMS_PER_PARTITION) ==>
              out[j] == old(out[j])
  {
    hide BlockElems, HeadBase, Weighted, Valid, Fitting, HeadSize, Sum, ValuesAdded;
    var first16 := part * HEAD_ELEMS_PER_PARTITION;
    ghost var p := prob[..];
    var acc := AccumulateValues(a, part, first, prob, n);
    for e := 0 to HEAD_ELEMS_PER_PARTITION
      invariant prob[..] == p && ValuesAdded(a, part, first, p, n, acc, n)
      invariant forall d :: first16 <= d < first16 + e ==> out[at + d] == Sum(Weighted(a, d, first, p, n))
      invariant forall j :: 0 <= j < out.Length && !(at + first16 <= j < at + first16 + e) ==> out[j] == old(out[j])
    {
      var value := SumLanes(a, part, first, p, n, acc, e);
      out[at + first16 + e] := value;
    }
  }

  method AccumulateValues(a: Problem, part: nat, first: nat, prob: array<real>, n: nat) returns (acc: array2<real>)
    requires Valid(a) && (part + 1) * HEAD_ELEMS_PER_PARTITION <= HeadSize(a.g)
    requires first + n <= |a.table| && prob.Length >= n * a.g.blockSize
    ensures fresh(acc) && acc.Length0 == HEAD_ELEMS_PER_PARTITION && acc.Length1 == a.g.blockSize
    ensures ValuesAdded(a, part, first, prob[..], n, acc, n)
  {
    hide BlockElems, Weighted, Valid, HeadSize;
    acc := new real[HEAD_ELEMS_PER_PARTITION, a.g.blockSize]((_, _) => 0.0);
    for b := 0 to n
      invariant ValuesAdded(a, part, first, prob[..], n, acc, b)
    {
      ReduceValueBlock(a, part, first, prob, n, b, acc);
    }
  }

  /** Adding up the lanes of one element gives the sum over all positions. */
  method SumLanes(a: Problem, ghost part: nat, ghost first: nat, ghost prob: seq<real>, ghost n: nat,
          acc: array2<real>, e: nat) returns (value: real)
    requires Valid(a) && (part + 1) * HEAD_ELEMS_PER_PARTITION <= HeadSize(a.g)
    requires first + n <= |a.table| && |prob| >= n * a.g.blockSize
    requires acc.Length0 == HEAD_ELEMS_PER_PARTITION && acc.Length1 == a.g.blockSize && e < HEAD_ELEMS_PER_PARTITION
    requires ValuesAdded(a, part, first, prob, n, acc, n)
    ensures value == Sum(Weighted(a, part * HEAD_ELEMS_PER_PARTITION + e, first, prob, n))
  {
    hide BlockElems, Weighted, Valid, HeadSize, Sum, Lane;
    ghost var p := Weighted(a, part * HEAD_ELEMS_PER_PARTITION + e, first, prob, n);
    ghost var lanes := Lanes(p, a.g.blockSize, n);
    value := 0.0;
    assert Sum(lanes[..0]) == 0.0 by { SumZeros(lanes[..0]); }
    for l := 0 to a.g.blockSize
      invariant value == Sum(lanes[..l])
    {
      assert lanes[..l + 1] == lanes[..l] + [lanes[l]];
      SumSnoc(lanes[..l], lanes[l]);
      value := value + acc[e, l];
    }
    assert lanes[..a.g.blockSize] == lanes;
    LanesSum(p, a.g.blockSize, n);
    assert p[..n * a.g.blockSize] == p;
  }

  // ----- logits, softmax and values of a range of positions

  /** The bias of a range is the bias of those positions in the whole. */
  lemma ScoresOfRange(a: Problem, start: nat, raw: seq<real>)
    requires Valid(a) && start + |raw| <= a.seqLen
    requires forall p :: 0 <= p < |raw| ==> raw[p] == Logit(a, start + p)
    ensures Scores(a)[start..start + |raw|]
            == if a.slope.None? then raw else Biased(raw, a.slope.value, start, a.seqLen)
  {
    hide BlockElems, HeadSize, Logit, Valid, Fitting;
    Wellformed(a);
    var all := Logits(a);
    forall p | 0 <= p < |raw|
      ensures all[start + p] == raw[p]
      ensures a.slope.Some? ==> Scores(a)[start + p] == Biased(raw, a.slope.value, start, a.seqLen)[p]
    {
      assert all[start + p] == Logit(a, start + p);
    }
  }

  /** The zeros beyond the last token make the padded sum the sum over the tokens. */
  lemma WeightedIsDot(exp: Fn, a: Problem, d: nat, first: nat, s: seq<real>, prob: seq<real>, n: nat, max: real,
          sum: real)
    requires Valid(a) && d < HeadSize(a.g) && first + n <= |a.table| && |prob| >= n * a.g.blockSize
    requires |s| <= n * a.g.blockSize && Reduced(exp, s, n * a.g.blockSize, prob, max, sum)
    requires 0 <= first * a.g.blockSize && first * a.g.blockSize + |s| <= |a.table| * a.g.blockSize
    ensures Sum(Weighted(a, d, first, prob, n)) * sum
            == Dot(Exps(exp, s, max), Column(a, d, first * a.g.blockSize, |s|))
  {
    hide BlockElems, HeadSize, Valid, Sum, Times, Exps, Column, Value, IsMax;
    var cap, start, t := n * a.g.blockSize, first * a.g.blockSize, |s|;
    MulMono(first + n, |a.table|, a.g.blockSize);
    assert (first + n) * a.g.blockSize == start + cap;
    var col := Column(a, d, start, cap);
    assert col[..t] == Column(a, d, start, t);
    assert prob[..cap][..t] == prob[..t];
    DotPadded(prob[..cap], col, t);
    forall i | 0 <= i < t
      ensures Exps(exp, s, max)[i] == sum * prob[..t][i]
    {
      Undivide(exp(s[i] - max), sum);
    }
    DotScaled(prob[..t], Exps(exp, s, max), col[..t], sum);
  }

  lemma Undivide(a: real, b: real)
    requires b >= 1.0
    ensures a == b * (a / b)
  {
  }

  /** The reduction of one range, for every element of the head. */
  ghost predicate RangeReduced(exp: Fn, a: Problem, start: nat, tokens: nat, out: seq<real>, at: nat, max: real,
          sum: real)
    requires Valid(a) && start + tokens <= a.seqLen && at + HeadSize(a.g) <= |out|
  {
    var s := Scores(a)[start..start + tokens];
    && IsMax(s, max) && sum == Sum(Exps(exp, s, max)) && sum >= 1.0
    && forall d :: 0 <= d < HeadSize(a.g) ==> out[at + d] * sum == Dot(Exps(exp, s, max), Column(a, d, start, tokens))
  }

  method AttendRange(exp: Fn, a: Problem, first: nat, tokens: nat, logits: array<real>, ghost room: nat,
          out: array<real>, at: nat)
    returns (max: real, sum: real)
    requires IsExp(exp) && Valid(a) && 0 < tokens && first * a.g.blockSize + tokens <= a.seqLen
    requires tokens <= logits.Length == room * a.g.blockSize
    requires out != logits && at + HeadSize(a.g) <= out.Length
    modifies logits, out
    ensures 0 <= first * a.g.blockSize
    ensures RangeReduced(exp, a, first * a.g.blockSize, tokens, out[..], at, max, sum)
    ensures forall j :: 0 <= j < out.Length && !(at <= j < at + HeadSize(a.g)) ==> out[j] == old(out[j])
  {
    hide BlockElems, HeadSize, Valid, Sum, Times, Exps, Column, Value, Logit, IsExp, Reduced, Weighted, Biased, Scores,
         RangeReduced, Dot;
    Wellformed(a);
    var start := first * a.g.blockSize;
    var n := ComputeLogits(a, first, tokens, logits, room);
    max, sum := SoftmaxRange(exp, a, start, tokens, logits, n * a.g.blockSize);
    ghost var s := Scores(a)[start..start + tokens];
    ghost var prob := logits[..];
    ReduceValues(a, first, logits, n, out, at);
    ghost var after := out[..];
    assert logits[..] == prob;
    forall d | 0 <= d < HeadSize(a.g)
      ensures after[at + d] == Sum(Weighted(a, d, first, prob, n))
    {
      assert after[at + d] == out[at + d];
    }
    RangeFrom(exp, a, first, s, prob, n, after, at, max, sum);
  }

  /** The softmax of a range, with the bias of its positions if there is one. */
  method SoftmaxRange(exp: Fn, a: Problem, start: nat, tokens: nat, logits: array<real>, capacity: nat)
    returns (max: real, sum: real)
    requires IsExp(exp) && Valid(a) && 0 < tokens <= capacity <= logits.Length && start + tokens <= a.seqLen
    requires forall p :: 0 <= p < tokens ==> logits[p] == Logit(a, start + p)
    modifies logits
    ensures Reduced(exp, Scores(a)[start..start + tokens], capacity, logits[..], max, sum)
  {
    hide BlockElems, HeadSize, Valid, Logit, IsExp, Reduced, Biased, Scores;
    ScoresOfRange(a, start, logits[..tokens]);
    if a.slope.Some? {
      max, sum := ReduceSoftmaxAlibi(exp, logits, tokens, capacity, a.slope.value, start, a.seqLen);
    } else {
      max, sum := ReduceSoftmax(exp, logits, tokens, capacity);
    }
  }

  lemma RangeFrom(exp: Fn, a: Problem, first: nat, s: seq<real>, prob: seq<real>, n: nat, out: seq<real>, at: nat,
          max: real, sum: real)
    requires Valid(a) && first + n <= |a.table| && |prob| >= n * a.g.blockSize && at + HeadSize(a.g) <= |out|
    requires |s| <= n * a.g.blockSize && Reduced(exp, s, n * a.g.blockSize, prob, max, sum)
    requires 0 <= first * a.g.blockSize && first * a.g.blockSize + |s| <= a.seqLen
    requires s == Scores(a)[first * a.g.blockSize..first * a.g.blockSize + |s|]
    requires forall d :: 0 <= d < HeadSize(a.g) ==> out[at + d] == Sum(Weighted(a, d, first, prob, n))
    ensures RangeReduced(exp, a, first * a.g.blockSize, |s|, out, at, max, sum)
  {
    hide BlockElems, HeadSize, Valid, Sum, Times, Exps, Column, Value, Weighted, Scores, Dot, IsMax;
    Wellformed(a);
    forall d | 0 <= d < HeadSize(a.g)
      ensures out[at + d] * sum == Dot(Exps(exp, s, max), Column(a, d, first * a.g.blockSize, |s|))
    {
      WeightedIsDot(exp, a, d, first, s, prob, n, max, sum);
    }
  }

  // ----- version 1

  /** Element `d` of the attention of the whole sequence. */
  ghost function Expected(exp: Fn, a: Problem, d: nat): real
    requires IsExp(exp) && Valid(a) && d < HeadSize(a.g)
  {
    ExpsPositive(exp, Scores(a), 0.0);
    Attend(exp, Scores(a), Column(a, d, 0, a.seqLen))
  }

  /** Everything in one pass: the output is the attention. */
  method PagedAttentionV1(exp: Fn, a: Problem, out: array<real>, at: nat)
    requires IsExp(exp) && Valid(a) && at + HeadSize(a.g) <= out.Length
    modifies out
    ensures forall d :: 0 <= d < HeadSize(a.g) ==> out[at + d] == Expected(exp, a, d)
    ensures forall j :: 0 <= j < out.Length && !(at <= j < at + HeadSize(a.g)) ==> out[j] == old(out[j])
  {
    hide BlockElems, HeadSize, Valid, IsExp, RangeReduced, Expected;
    Wellformed(a);
    var logits := new real[|a.table| * a.g.blockSize];
    var max, sum := AttendRange(exp, a, 0, a.seqLen, logits, |a.table|, out, at);
    WholeIsAttention(exp, a, out[..], at, max, sum);
  }

  lemma WholeIsAttention(exp: Fn, a: Problem, out: seq<real>, at: nat, max: real, sum: real)
    requires IsExp(exp) && Valid(a) && at + HeadSize(a.g) <= |out|
    requires RangeReduced(exp, a, 0, a.seqLen, out, at, max, sum)
    ensures forall d :: 0 <= d < HeadSize(a.g) ==> out[at + d] == Expected(exp, a, d)
  {
    hide BlockElems, HeadSize, Valid, IsExp, Exps, Sum, Dot, Column, Attend;
    Wellformed(a);
    var s := Scores(a);
    assert s[0..a.seqLen] == s;
    hide Scores;
    forall d | 0 <= d < HeadSize(a.g)
      ensures out[at + d] == Expected(exp, a, d)
    {
      AttendShifted(exp, s, Column(a, d, 0, a.seqLen), max);
      Cancel(out[at + d], Expected(exp, a, d), sum);
    }
  }

  lemma Cancel(a: real, b: real, c: real)
    requires c > 0.0 && a * c == b * c
    ensures a == b
  {
  }

  // ----- version 2

  /** Partition `p` is reduced, for every element of the head. */
  ghost predicate PartDone(exp: Fn, a: Problem, size: nat, p: nat, max: real, sum: real, tmp: seq<real>)
    requires Valid(a)
  {
    && 0 <= p * HeadSize(a.g) && p * HeadSize(a.g) + HeadSize(a.g) <= |tmp|
    && forall d :: 0 <= d < HeadSize(a.g) ==>
         PartReduced(exp, Scores(a), Column(a, d, 0, a.seqLen), size, p, max, sum, tmp[p * HeadSize(a.g) + d])
  }

  /** The range that starts with a partition and has its tokens is that partition. */
  lemma RangeIsPart(exp: Fn, a: Problem, size: nat, p: nat, out: seq<real>, max: real, sum: real)
    requires Valid(a) && 0 <= p * size < a.seqLen
    requires 0 <= p * HeadSize(a.g) && p * HeadSize(a.g) + HeadSize(a.g) <= |out|
    requires Cut(a.seqLen, size, p) == p * size && p * size <= Cut(a.seqLen, size, p + 1) <= a.seqLen
    requires RangeReduced(exp, a, p * size, Cut(a.seqLen, size, p + 1) - p * size, out, p * HeadSize(a.g), max, sum)
    ensures PartDone(exp, a, size, p, max, sum, out)
  {
    hide BlockElems, HeadSize, Valid, Exps, Sum, Dot, Cut, IsMax, Scores, Value;
    Wellformed(a);
    var start, tokens := p * size, Cut(a.seqLen, size, p + 1) - p * size;
    forall d | 0 <= d < HeadSize(a.g)
      ensures PartReduced(exp, Scores(a), Column(a, d, 0, a.seqLen), size, p, max, sum, out[p * HeadSize(a.g) + d])
    {
      assert Part(Column(a, d, 0, a.seqLen), size, p) == Column(a, d, start, tokens);
    }
  }

  /** A partition keeps being reduced while the others are written. */
  lemma PartKept(exp: Fn, a: Problem, size: nat, p: nat, max: real, sum: real, was: seq<real>, now: seq<real>)
    requires Valid(a) && PartDone(exp, a, size, p, max, sum, was) && |was| == |now|
    requires forall j :: p * HeadSize(a.g) <= j < p * HeadSize(a.g) + HeadSize(a.g) ==> now[j] == was[j]
    ensures PartDone(exp, a, size, p, max, sum, now)
  {
  }

  ghost predicate PartsDone(exp: Fn, a: Problem, size: nat, n: nat, maxes: seq<real>, sums: seq<real>, tmp: seq<real>)
    requires Valid(a)
  {
    n <= |maxes| && n <= |sums| && forall p :: 0 <= p < n ==> PartDone(exp, a, size, p, maxes[p], sums[p], tmp)
  }

  /** The outputs of the first `n` partitions for element `d`. */
  ghost function Outs(a: Problem, n: nat, tmp: seq<real>, d: nat): (r: seq<real>)
    requires d < HeadSize(a.g) && |tmp| >= n * HeadSize(a.g)
    ensures |r| == n
    ensures forall p :: 0 <= p < n ==> 0 <= p * HeadSize(a.g) + d < |tmp| && r[p] == tmp[p * HeadSize(a.g) + d]
  {
    assert forall p :: 0 <= p < n ==> 0 <= p * HeadSize(a.g) + d < n * HeadSize(a.g) by {
      forall p | 0 <= p < n
        ensures 0 <= p * HeadSize(a.g) + d < n * HeadSize(a.g)
      {
        StepsApart(p, n, HeadSize(a.g));
      }
    }
    seq(n, p requires 0 <= p < n => tmp[p * HeadSize(a.g) + d])
  }

  /** What the merge of `n` partitions amounts to. */
  lemma MergeIsAttention(exp: Fn, a: Problem, size: nat, n: nat, maxes: seq<real>, sums: seq<real>, tmp: seq<real>,
          max: real, d: nat, out: real)
    requires IsExp(exp) && Valid(a) && size > 0 && d < HeadSize(a.g) && |maxes| == |sums| == n
             && |tmp| >= n * HeadSize(a.g)
    requires PartsDone(exp, a, size, n, maxes, sums, tmp) && Cut(a.seqLen, size, n) == a.seqLen && IsMax(maxes, max)
    requires var r := Rescaled(exp, maxes, sums, max);
             Sum(r) + EPSILON > 0.0 && out * (Sum(r) + EPSILON) == Dot(r, Outs(a, n, tmp, d))
    ensures IsMax(Scores(a), max)
    ensures var total := Sum(Exps(exp, Scores(a), max));
            total >= 1.0 && out * (total + EPSILON) == Expected(exp, a, d) * total
  {
    hide BlockElems, HeadSize, Valid, IsExp, Exps, Sum, Dot, Cut, IsMax, Scores, Column, PartReduced, Rescaled, Attend;
    Wellformed(a);
    var s, v, outs := Scores(a), Column(a, d, 0, a.seqLen), Outs(a, n, tmp, d);
    assert PartsReduced(exp, s, v, size, maxes, sums, outs) by {
      forall p | 0 <= p < n
        ensures PartReduced(exp, s, v, size, p, maxes[p], sums[p], outs[p])
      {
        assert PartDone(exp, a, size, p, maxes[p], sums[p], tmp);
      }
    }
    MaxOfParts(exp, s, v, size, maxes, sums, outs, max);
    MergedAttention(exp, s, v, size, maxes, sums, outs, max, out);
  }

  /** The merge of the partitions' outputs, 16 elements of the head at a time. */
  method ReduceOutputs(a: Problem, n: nat, factors: array<real>, tmp: array<real>, out: array<real>, at: nat)
    requires Valid(a) && n <= factors.Length && n * HeadSize(a.g) <= tmp.Length
    requires out != tmp && out != factors && at + HeadSize(a.g) <= out.Length
    modifies out
    ensures forall d :: 0 <= d < HeadSize(a.g) ==> out[at + d] == Dot(factors[..n], Outs(a, n, tmp[..], d))
    ensures forall j :: 0 <= j < out.Length && !(at <= j < at + HeadSize(a.g)) ==> out[j] == old(out[j])
  {
    hide BlockElems, HeadSize, Valid, Dot, Outs;
    Wellformed(a);
    var groups := HeadSize(a.g) / HEAD_ELEMS_PER_PARTITION;
    for group := 0 to groups
      invariant forall d :: 0 <= d < group * HEAD_ELEMS_PER_PARTITION ==>
                out[at + d] == Dot(factors[..n], Outs(a, n, tmp[..], d))
      invariant forall j :: 0 <= j < out.Length && !(at <= j < at + HeadSize(a.g)) ==> out[j] == old(out[j])
    {
      for e := 0 to HEAD_ELEMS_PER_PARTITION
        invariant forall d :: 0 <= d < group * HEAD_ELEMS_PER_PARTITION + e ==>
                  out[at + d] == Dot(factors[..n], Outs(a, n, tmp[..], d))
        invariant forall j :: 0 <= j < out.Length && !(at <= j < at + HeadSize(a.g)) ==> out[j] == old(out[j])
      {
        var d := group * HEAD_ELEMS_PER_PARTITION + e;
        var value := MergeElement(a, n, factors, tmp, d);
        out[at + d] := value;
      }
    }
  }

  method MergeElement(a: Problem, n: nat, factors: array<real>, tmp: array<real>, d: nat) returns (value: real)
    requires n <= factors.Length && n * HeadSize(a.g) <= tmp.Length && d < HeadSize(a.g)
    ensures value == Dot(factors[..n], Outs(a, n, tmp[..], d))
  {
    hide HeadSize, Dot;
    ghost var f, outs := factors[..n], Outs(a, n, tmp[..], d);
    value := 0.0;
    assert Dot(f[..0], outs[..0]) == 0.0 by { DotEmpty(f[..0], outs[..0]); }
    for i := 0 to n
      invariant value == Dot(f[..i], outs[..i])
    {
      assert f[..i + 1] == f[..i] + [f[i]] && outs[..i + 1] == outs[..i] + [outs[i]];
      DotSnoc(f[..i], outs[..i], f[i], outs[i]);
      StepsApart(i, n, HeadSize(a.g));
      assert f[i] == factors[i] && outs[i] == tmp[i * HeadSize(a.g) + d];
      value := value + tmp[i * HeadSize(a.g) + d] * factors[i];
    }
    assert f[..n] == f && outs[..n] == outs;
  }

  lemma DotEmpty(f: seq<real>, o: seq<real>)
    requires f == [] && o == []
    ensures Dot(f, o) == 0.0
  {
  }

  /** The tokens of partition `p` that the sequence has, and where they start. */
  lemma PartitionRange(a: Problem, per: nat, p: nat)
    requires Valid(a) && per > 0 && p * (per * a.g.blockSize) < a.seqLen
    ensures var size := per * a.g.blockSize;
            && (p * per) * a.g.blockSize == p * size && size > 0 && 0 <= p * size
            && Cut(a.seqLen, size, p) == p * size
            && Cut(a.seqLen, size, p + 1) == (if a.seqLen < p * size + size then a.seqLen else p * size + size)
  {
    hide BlockElems, HeadSize, Valid, Fitting;
    Wellformed(a);
    MulStep(p, per * a.g.blockSize);
    MulMono(1, per, a.g.blockSize);
    assert (p * per) * a.g.blockSize == p * (per * a.g.blockSize);
  }

  /** The first pass of version 2: every partition that has tokens, by itself. */
  method ReducePartitions(exp: Fn, a: Problem, per: nat, maxPartitions: nat, maxLogits: array<real>,
          expSums: array<real>, tmp: array<real>, n: nat)
    requires IsExp(exp) && Valid(a) && per > 0 && n <= maxPartitions
    requires (n - 1) * (per * a.g.blockSize) < a.seqLen <= n * (per * a.g.blockSize)
    requires maxLogits.Length >= maxPartitions && expSums.Length >= maxPartitions
             && tmp.Length >= maxPartitions * HeadSize(a.g)
    requires maxLogits != expSums && maxLogits != tmp && expSums != tmp
    modifies maxLogits, expSums, tmp
    ensures PartsDone(exp, a, per * a.g.blockSize, n, maxLogits[..], expSums[..], tmp[..])
  {
    hide BlockElems, HeadSize, Valid, IsExp, PartDone, RangeReduced, Cut;
    Wellformed(a);
    var size := per * a.g.blockSize;
    for p := 0 to maxPartitions
      invariant PartsDone(exp, a, size, if p < n then p else n, maxLogits[..], expSums[..], tmp[..])
    {
      var start := p * size;
      if p < n {
        MulMono(p, n - 1, size);
      } else {
        MulMono(n, p, size);
      }
      if start < a.seqLen {
        ReducePartition(exp, a, per, p, maxPartitions, maxLogits, expSums, tmp);
      }
    }
  }

  method ReducePartition(exp: Fn, a: Problem, per: nat, p: nat, maxPartitions: nat, maxLogits: array<real>,
          expSums: array<real>, tmp: array<real>)
    requires IsExp(exp) && Valid(a) && per > 0 && p < maxPartitions && p * (per * a.g.blockSize) < a.seqLen
    requires maxLogits.Length >= maxPartitions && expSums.Length >= maxPartitions
             && tmp.Length >= maxPartitions * HeadSize(a.g)
    requires maxLogits != expSums && maxLogits != tmp && expSums != tmp
    requires PartsDone(exp, a, per * a.g.blockSize, p, maxLogits[..], expSums[..], tmp[..])
    modifies maxLogits, expSums, tmp
    ensures PartsDone(exp, a, per * a.g.blockSize, p + 1, maxLogits[..], expSums[..], tmp[..])
  {
    hide BlockElems, HeadSize, Valid, IsExp, PartDone, RangeReduced, Cut;
    Wellformed(a);
    var size := per * a.g.blockSize;
    PartitionRange(a, per, p);
    StepsApart(p, maxPartitions, HeadSize(a.g));
    var start := p * size;
    var tokens := (if a.seqLen < start + size then a.seqLen else start + size) - start;
    var logits := new real[size];
    ghost var was, m0, s0 := tmp[..], maxLogits[..], expSums[..];
    var max, sum := AttendRange(exp, a, p * per, tokens, logits, per, tmp, p * HeadSize(a.g));
    RangeIsPart(exp, a, size, p, tmp[..], max, sum);
    maxLogits[p] := max;
    expSums[p] := sum;
    forall q | 0 <= q < p
      ensures PartDone(exp, a, size, q, maxLogits[q], expSums[q], tmp[..])
    {
      assert PartDone(exp, a, size, q, m0[q], s0[q], was);
      StepsApart(q, p, HeadSize(a.g));
      PartKept(exp, a, size, q, m0[q], s0[q], was, tmp[..]);
    }
  }

  /**
   * Partitions of `per` blocks, reduced apart and merged. With one partition the output is the
   * attention; with more it is the attention but for the smoothing term of the merge.
   */
  method PagedAttentionV2(exp: Fn, a: Problem, per: nat, maxPartitions: nat, maxLogits: array<real>,
          expSums: array<real>, tmp: array<real>, out: array<real>, at: nat)
    returns (ghost max: real)
    requires IsExp(exp) && Valid(a) && per > 0 && a.seqLen <= maxPartitions * (per * a.g.blockSize)
    requires maxLogits.Length >= maxPartitions && expSums.Length >= maxPartitions
             && tmp.Length >= maxPartitions * HeadSize(a.g)
    requires maxLogits != expSums && maxLogits != tmp && expSums != tmp && out != tmp && out != expSums
             && out != maxLogits
    requires at + HeadSize(a.g) <= out.Length
    modifies maxLogits, expSums, tmp, out
    ensures IsMax(Scores(a), max) && Sum(Exps(exp, Scores(a), max)) >= 1.0
    ensures a.seqLen <= per * a.g.blockSize ==> forall d :: 0 <= d < HeadSize(a.g) ==>
            out[at + d] == Expected(exp, a, d)
    ensures a.seqLen > per * a.g.blockSize ==> forall d :: 0 <= d < HeadSize(a.g) ==>
              MergedAs(out[at + d], Expected(exp, a, d), Sum(Exps(exp, Scores(a), max)))
    ensures forall j :: 0 <= j < out.Length && !(at <= j < at + HeadSize(a.g)) ==> out[j] == old(out[j])
  {
    hide BlockElems, HeadSize, Valid, IsExp, PartsDone, RangeReduced, Expected, MergedAs, Exps, Sum, Scores, IsMax;
    Wellformed(a);
    var size := per * a.g.blockSize;
    MulMono(1, per, a.g.blockSize);
    var n := (a.seqLen + size - 1) / size;
    PartitionCount(a.seqLen, size, n, maxPartitions);
    if n == 1 {
      var logits := new real[size];
      var sum;
      max, sum := AttendRange(exp, a, 0, a.seqLen, logits, per, out, at);
      WholeRange(exp, a, out[..], at, max, sum);
      WholeIsAttention(exp, a, out[..], at, max, sum);
    } else {
      ReducePartitions(exp, a, per, maxPartitions, maxLogits, expSums, tmp, n);
      max := MergePartitions(exp, a, size, n, maxLogits, expSums, tmp, out, at);
    }
  }

  /** The output with the smoothing term in its denominator. */
  ghost predicate MergedAs(out: real, expected: real, total: real) {
    out * (total + EPSILON) == expected * total
  }

  lemma WholeRange(exp: Fn, a: Problem, out: seq<real>, at: nat, max: real, sum: real)
    requires Valid(a) && at + HeadSize(a.g) <= |out| && RangeReduced(exp, a, 0, a.seqLen, out, at, max, sum)
    ensures IsMax(Scores(a), max) && Sum(Exps(exp, Scores(a), max)) >= 1.0
  {
    hide BlockElems, HeadSize, Valid, Exps, Sum, Dot, Column, IsMax, Scores;
    assert Scores(a)[0..a.seqLen] == Scores(a);
  }

  lemma PartitionCount(len: nat, size: nat, n: nat, room: nat)
    requires size > 0 && len > 0 && n == (len + size - 1) / size && len <= room * size
    ensures 0 < n <= room && (n - 1) * size < len <= n * size && Cut(len, size, n) == len
    ensures n == 1 <==> len <= size
  {
    BlocksNeeded(len, size, n, 0, room);
    if n > 1 {
      MulMono(1, n - 1, size);
    }
  }

  method MergePartitions(exp: Fn, a: Problem, size: nat, n: nat, maxLogits: array<real>, expSums: array<real>,
          tmp: array<real>, out: array<real>, at: nat)
    returns (ghost max: real)
    requires IsExp(exp) && Valid(a) && size > 0 && n > 0 && Cut(a.seqLen, size, n) == a.seqLen
    requires n <= maxLogits.Length && n <= expSums.Length && n * HeadSize(a.g) <= tmp.Length
    requires PartsDone(exp, a, size, n, maxLogits[..], expSums[..], tmp[..])
    requires maxLogits != expSums && out != tmp && out != expSums && expSums != tmp && at + HeadSize(a.g) <= out.Length
    modifies expSums, out
    ensures IsMax(Scores(a), max) && Sum(Exps(exp, Scores(a), max)) >= 1.0
    ensures forall d :: 0 <= d < HeadSize(a.g) ==>
              MergedAs(out[at + d], Expected(exp, a, d), Sum(Exps(exp, Scores(a), max)))
    ensures forall j :: 0 <= j < out.Length && !(at <= j < at + HeadSize(a.g)) ==> out[j] == old(out[j])
  {
    hide BlockElems, HeadSize, Valid, IsExp, PartsDone, Expected, Exps, Sum, Scores, IsMax, Cut, Outs, Rescaled, Dot;
    ghost var maxes, sums, partial := maxLogits[..n], expSums[..n], tmp[..];
    PartsPrefix(exp, a, size, n, maxLogits[..], expSums[..], partial);
    max := ReducePartitionSoftmax(exp, maxLogits, expSums, n);
    ghost var r := Rescaled(exp, maxes, sums, max);
    ghost var factors := expSums[..n];
    ReduceOutputs(a, n, expSums, tmp, out, at);
    assert tmp[..] == partial && expSums[..n] == factors;
    Wellformed(a);
    forall d | 0 <= d < HeadSize(a.g)
      ensures MergedAs(out[at + d], Expected(exp, a, d), Sum(Exps(exp, Scores(a), max)))
      ensures IsMax(Scores(a), max) && Sum(Exps(exp, Scores(a), max)) >= 1.0
    {
      MergedElement(exp, a, size, n, maxes, sums, partial, factors, max, d, out[at + d]);
    }
    HeadNotEmpty(a);
    MergedElement(exp, a, size, n, maxes, sums, partial, factors, max, 0, out[at + 0]);
  }

  lemma MergedElement(exp: Fn, a: Problem, size: nat, n: nat, maxes: seq<real>, sums: seq<real>, tmp: seq<real>,
          factors: seq<real>, max: real, d: nat, out: real)
    requires IsExp(exp) && Valid(a) && size > 0 && d < HeadSize(a.g) && |maxes| == |sums| == |factors| == n
             && |tmp| >= n * HeadSize(a.g)
    requires PartsDone(exp, a, size, n, maxes, sums, tmp) && Cut(a.seqLen, size, n) == a.seqLen && IsMax(maxes, max)
    requires var r := Rescaled(exp, maxes, sums, max);
             Sum(r) > 0.0 && forall i :: 0 <= i < n ==> factors[i] == r[i] / (Sum(r) + EPSILON)
    requires out == Dot(factors, Outs(a, n, tmp, d))
    ensures IsMax(Scores(a), max) && Sum(Exps(exp, Scores(a), max)) >= 1.0
    ensures MergedAs(out, Expected(exp, a, d), Sum(Exps(exp, Scores(a), max)))
  {
    hide BlockElems, HeadSize, Valid, IsExp, PartsDone, Expected, Exps, Sum, Scores, IsMax, Cut, Outs, Rescaled, Dot;
    var r := Rescaled(exp, maxes, sums, max);
    Unscale(r, factors, Outs(a, n, tmp, d), Sum(r) + EPSILON);
    MergeIsAttention(exp, a, size, n, maxes, sums, tmp, max, d, out);
  }

  lemma HeadNotEmpty(a: Problem)
    requires Valid(a)
    ensures HeadSize(a.g) > 0
  {
  }

  lemma PartsPrefix(exp: Fn, a: Problem, size: nat, n: nat, maxes: seq<real>, sums: seq<real>, tmp: seq<real>)
    requires Valid(a) && PartsDone(exp, a, size, n, maxes, sums, tmp)
    ensures PartsDone(exp, a, size, n, maxes[..n], sums[..n], tmp)
    ensures forall p :: 0 <= p < n ==> sums[p] > 0.0
  {
    hide BlockElems, HeadSize, Valid, PartReduced, Column, Scores;
    HeadNotEmpty(a);
    forall p | 0 <= p < n
      ensures sums[p] > 0.0
    {
      assert PartDone(exp, a, size, p, maxes[p], sums[p], tmp);
      PartSumPositive(exp, a, size, p, maxes[p], sums[p], tmp);
    }
  }

  lemma PartSumPositive(exp: Fn, a: Problem, size: nat, p: nat, max: real, sum: real, tmp: seq<real>)
    requires Valid(a) && PartDone(exp, a, size, p, max, sum, tmp) && HeadSize(a.g) > 0
    ensures sum >= 1.0
  {
    hide BlockElems, HeadSize, Valid, Column, Scores, Exps, Sum, Dot;
    Wellformed(a);
    assert PartReduced(exp, Scores(a), Column(a, 0, 0, a.seqLen), size, p, max, sum, tmp[p * HeadSize(a.g) + 0]);
  }

  /** Factors divided by a number give the sum divided by it. */
  lemma Unscale(r: seq<real>, f: seq<real>, outs: seq<real>, total: real)
    requires |r| == |f| == |outs| && total > 0.0 && forall i :: 0 <= i < |r| ==> f[i] == r[i] / total
    ensures Dot(f, outs) * total == Dot(r, outs)
  {
    hide Dot;
    forall i | 0 <= i < |r|
      ensures r[i] == total * f[i]
    {
      assert r[i] == total * (r[i] / total);
    }
    DotScaled(f, r, outs, total);
  }

  /** The smoothing term of 1e-8 changes the output by at most that part of it, towards zero. */
  lemma MergeError(out: real, expected: real, total: real)
    requires total >= 1.0 && MergedAs(out, expected, total)
    ensures expected >= 0.0 ==> 0.0 <= expected - out <= 0.00000001 * expected
    ensures expected <= 0.0 ==> 0.0 <= out - expected <= 0.00000001 * -expected
  {
  }

  // ----- from the scattered tokens to the attention

  /** A position reads the key and the value of the token that was scattered to its slot. */
  lemma ReadsItsToken(a: Problem, oldKeys: seq<real>, oldValues: seq<real>, key: Rows<real>, value: Rows<real>,
          slots: seq<int>, pos: nat, t: nat)
    requires Valid(a) && |oldKeys| == |oldValues| == |a.keys| && pos < |a.table| * a.g.blockSize
    requires Holds(a.g, key, |slots|) && Holds(a.g, value, |slots|) && SlotsWithin(a.g, a.blocks, slots)
             && DistinctSlots(slots)
    requires Scattered(a.g, a.blocks, Keys, oldKeys, a.keys, key, slots, |slots|, 0)
    requires Scattered(a.g, a.blocks, Values, oldValues, a.values, value, slots, |slots|, 0)
    requires t < |slots| && pos / a.g.blockSize < |a.table|
    requires slots[t] == a.table[pos / a.g.blockSize] * a.g.blockSize + pos % a.g.blockSize
    ensures Logit(a, pos) == a.scale * Dot(a.q, Head(a.g, key, |slots|, t, a.head))
    ensures forall d :: 0 <= d < HeadSize(a.g) ==> Value(a, d, pos) == Head(a.g, value, |slots|, t, a.head)[d]
  {
    hide BlockElems, HeadSize, Valid, Dot, Scattered, Holds, SlotsWithin, DistinctSlots, Head, At;
    Wellformed(a);
    InTable(a, pos);
    var b, o := a.table[pos / a.g.blockSize], pos % a.g.blockSize;
    MulMono(0, b, a.g.blockSize);
    Paging.QuotientUnique(b, a.g.blockSize, o);
    Paging.RemainderUnique(b, a.g.blockSize, o);
    forall d | 0 <= d < HeadSize(a.g)
      ensures KeyVec(a.g, a.blocks, a.keys, b, a.head, o)[d] == Head(a.g, key, |slots|, t, a.head)[d]
      ensures Value(a, d, pos) == Head(a.g, value, |slots|, t, a.head)[d]
    {
      ScatterRoundTrip(a.g, a.blocks, Keys, oldKeys, a.keys, key, slots, t, a.head, d);
      ScatterRoundTrip(a.g, a.blocks, Values, oldValues, a.values, value, slots, t, a.head, d);
    }
    assert KeyVec(a.g, a.blocks, a.keys, b, a.head, o) == Head(a.g, key, |slots|, t, a.head);
  }
}
