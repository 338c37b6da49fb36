/** The query-key kernel: logits of the tokens of one block, in groups of lanes. */
module QueryKey {
  import opened Arith
  import opened RealSums
  import opened KvLayout
  import Paging

  /** Tokens per vector, vectors per block, and how many of them the partial loop takes at once. */
  datatype Kernel = Kernel(tokensPerGroup: nat, maxGroups: nat, unroll: nat)

  ghost predicate Fitting(g: Geometry, k: Kernel) {
    && Sound(g) && k.tokensPerGroup > 0 && k.unroll > 0
    && k.maxGroups * k.tokensPerGroup == g.blockSize && k.maxGroups % k.unroll == 0
  }

  /** The kernels of 4-byte and of 2-byte elements, for the head sizes and the block size in use. */
  lemma KernelsFit(heads: nat, chunks: nat)
    requires heads > 0 && chunks > 0
    ensures Fitting(Geometry(heads, chunks, 4, 16), Kernel(4, 4, 1))
    ensures Fitting(Geometry(heads, chunks, 8, 16), Kernel(2, 8, 2))
  {
  }

  /** The key of one token in one head. */
  ghost function KeyVec(g: Geometry, blocks: nat, cache: seq<real>, block: nat, head: nat, offset: nat): (r: seq<real>)
    requires Sound(g) && |cache| == blocks * BlockElems(g) && block < blocks && head < g.heads && offset < g.blockSize
    ensures |r| == HeadSize(g)
    ensures forall d :: 0 <= d < HeadSize(g) ==> r[d] == At(g, blocks, Keys, cache, Cell(block, head, offset, d))
  {
    seq(HeadSize(g), d requires 0 <= d < HeadSize(g) => At(g, blocks, Keys, cache, Cell(block, head, offset, d)))
  }

  /** The products of the query and the key of one token. */
  ghost function Products(g: Geometry, blocks: nat, q: seq<real>, cache: seq<real>, block: nat, head: nat,
          offset: nat): (r: seq<real>)
    requires Sound(g) && |cache| == blocks * BlockElems(g) && block < blocks && head < g.heads && offset < g.blockSize
    requires |q| == HeadSize(g)
    ensures |r| == HeadSize(g)
  {
    Times(q, KeyVec(g, blocks, cache, block, head, offset))
  }

  /** What the kernel multiplies in lane `i` of a token in chunk `c` is element `c * x + i` of the products. */
  lemma ProductAt(g: Geometry, blocks: nat, q: seq<real>, cache: seq<real>, block: nat, head: nat, offset: nat, c: nat,
          i: nat)
    requires Sound(g) && |cache| == blocks * BlockElems(g) && block < blocks && head < g.heads && offset < g.blockSize
    requires |q| == HeadSize(g) && c < g.chunks && i < g.x
    ensures 0 <= c * g.x && c * g.x + i < HeadSize(g)
    ensures 0 <= HeadBase(g, block, head) + (c * g.x) * g.blockSize + offset * g.x + i < |cache|
    ensures Products(g, blocks, q, cache, block, head, offset)[c * g.x + i]
            == q[c * g.x + i] * cache[HeadBase(g, block, head) + (c * g.x) * g.blockSize + offset * g.x + i]
  {
    hide HeadBase, BlockElems, KeyAddr, Times;
    StepsApart(c, g.chunks, g.x);
    var p := Cell(block, head, offset, c * g.x + i);
    KeyAddrIs(g, block, head, offset, c, i);
    AddrWithin(g, blocks, Keys, p);
    assert KeyVec(g, blocks, cache, block, head, offset)[c * g.x + i] == At(g, blocks, Keys, cache, p);
  }

  /** The accumulators hold, for tokens below `done`, the lanes of `n` chunks. */
  ghost predicate Accumulated(g: Geometry, blocks: nat, q: seq<real>, cache: seq<real>, block: nat, head: nat,
          acc: array2<real>, done: nat, n: nat)
    requires Sound(g) && |cache| == blocks * BlockElems(g) && block < blocks && head < g.heads && |q| == HeadSize(g)
    requires acc.Length0 == g.blockSize && acc.Length1 == g.x && n <= g.chunks && done <= g.blockSize
    reads acc
  {
    MulMono(n, g.chunks, g.x);
    forall o, i :: 0 <= o < done && 0 <= i < g.x ==>
      acc[o, i] == Lane(Products(g, blocks, q, cache, block, head, o), g.x, i, n)
  }

  /** One fused multiply-add of a vector: the tokens of one group against one chunk of the query. */
  method FmaGroup(g: Geometry, k: Kernel, ghost blocks: nat, q: seq<real>, cache: seq<real>, block: nat, head: nat,
          acc: array2<real>, c: nat, group: nat)
    requires Fitting(g, k) && |cache| == blocks * BlockElems(g) && block < blocks && head < g.heads
             && |q| == HeadSize(g)
    requires acc.Length0 == g.blockSize && acc.Length1 == g.x && c < g.chunks && group < k.maxGroups
    modifies acc
    ensures 0 <= c * g.x && c * g.x + g.x <= HeadSize(g)
    ensures forall o, i :: 0 <= o < g.blockSize && 0 <= i < g.x ==>
              acc[o, i] == old(acc[o, i])
                           + (if group * k.tokensPerGroup <= o < group * k.tokensPerGroup + k.tokensPerGroup
                              then Products(g, blocks, q, cache, block, head, o)[c * g.x + i] else 0.0)
  {
    hide HeadBase, BlockElems, Products;
    StepsApart(group, k.maxGroups, k.tokensPerGroup);
    StepsApart(c, g.chunks, g.x);
    var base, first := HeadBase(g, block, head), group * k.tokensPerGroup;
    for token := 0 to k.tokensPerGroup
      invariant forall o, i :: 0 <= o < g.blockSize && 0 <= i < g.x ==>
                  acc[o, i] == old(acc[o, i])
                               + (if first <= o < first + token then
                                 Products(g, blocks, q, cache, block, head, o)[c * g.x + i] else 0.0)
    {
      for i := 0 to g.x
        invariant forall o, j :: 0 <= o < g.blockSize && 0 <= j < g.x ==>
                    acc[o, j] == old(acc[o, j])
                                 + (if first <= o < first + token || (o == first + token && j < i)
                                    then Products(g, blocks, q, cache, block, head, o)[c * g.x + j] else 0.0)
      {
        ProductAt(g, blocks, q, cache, block, head, first + token, c, i);
        acc[first + token, i] := acc[first + token,
          i] + q[c * g.x + i] * cache[base + (c * g.x) * g.blockSize + (first + token) * g.x + i];
      }
    }
  }

  /** A whole block: every group. */
  method AddChunkFull(g: Geometry, k: Kernel, ghost blocks: nat, q: seq<real>, cache: seq<real>, block: nat, head: nat,
          acc: array2<real>, c: nat)
    requires Fitting(g, k) && |cache| == blocks * BlockElems(g) && block < blocks && head < g.heads
             && |q| == HeadSize(g)
    requires acc.Length0 == g.blockSize && acc.Length1 == g.x && c < g.chunks
    modifies acc
    ensures 0 <= c * g.x && c * g.x + g.x <= HeadSize(g)
    ensures forall o, i :: 0 <= o < g.blockSize && 0 <= i < g.x ==>
              acc[o, i] == old(acc[o, i]) + Products(g, blocks, q, cache, block, head, o)[c * g.x + i]
  {
    hide HeadBase, BlockElems, Products;
    StepsApart(c, g.chunks, g.x);
    for group := 0 to k.maxGroups
      invariant 0 <= group * k.tokensPerGroup <= g.blockSize
      invariant forall o, i :: 0 <= o < g.blockSize && 0 <= i < g.x ==>
                  acc[o, i] == old(acc[o, i])
                               + (if o < group * k.tokensPerGroup then
                                 Products(g, blocks, q, cache, block, head, o)[c * g.x + i] else 0.0)
    {
      StepsApart(group, k.maxGroups, k.tokensPerGroup);
      MulStep(group, k.tokensPerGroup);
      FmaGroup(g, k, blocks, q, cache, block, head, acc, c, group);
    }
  }

  lemma UnrollFits(k: Kernel, start: nat)
    requires k.unroll > 0 && k.maxGroups % k.unroll == 0 && start % k.unroll == 0 && start < k.maxGroups
    ensures start + k.unroll <= k.maxGroups && (start + k.unroll) % k.unroll == 0
  {
    Split(start, k.unroll);
    Split(k.maxGroups, k.unroll);
    var a, b := start / k.unroll, k.maxGroups / k.unroll;
    if b <= a {
      MulMono(b, a, k.unroll);
    }
    StepsApart(a, b, k.unroll);
    MulStep(a, k.unroll);
    Paging.RemainderUnique(a + 1, k.unroll, 0);
  }

  /** A partly filled block: groups in steps of the unrolling, until the first `groups` are covered. */
  method AddChunkPartial(g: Geometry, k: Kernel, ghost blocks: nat, q: seq<real>, cache: seq<real>, block: nat,
          head: nat, acc: array2<real>, c: nat, groups: nat)
    requires Fitting(g, k) && |cache| == blocks * BlockElems(g) && block < blocks && head < g.heads
             && |q| == HeadSize(g)
    requires acc.Length0 == g.blockSize && acc.Length1 == g.x && c < g.chunks && groups <= k.maxGroups
    modifies acc
    ensures 0 <= c * g.x && c * g.x + g.x <= HeadSize(g) && 0 <= groups * k.tokensPerGroup <= g.blockSize
    ensures forall o, i :: 0 <= o < groups * k.tokensPerGroup && 0 <= i < g.x ==>
              acc[o, i] == old(acc[o, i]) + Products(g, blocks, q, cache, block, head, o)[c * g.x + i]
  {
    hide HeadBase, BlockElems, Products;
    StepsApart(c, g.chunks, g.x);
    MulMono(groups, k.maxGroups, k.tokensPerGroup);
    var start := 0;
    while start < groups
      invariant start <= k.maxGroups && start % k.unroll == 0 && 0 <= start * k.tokensPerGroup <= g.blockSize
      invariant forall o, i :: 0 <= o < g.blockSize && 0 <= i < g.x ==>
                  acc[o, i] == old(acc[o, i])
                               + (if o < start * k.tokensPerGroup then
                                 Products(g, blocks, q, cache, block, head, o)[c * g.x + i] else 0.0)
    {
      UnrollFits(k, start);
      for u := 0 to k.unroll
        invariant 0 <= (start + u) * k.tokensPerGroup <= g.blockSize
        invariant forall o, i :: 0 <= o < g.blockSize && 0 <= i < g.x ==>
                    acc[o, i] == old(acc[o, i])
                                 + (if o < (start + u) * k.tokensPerGroup then
                                   Products(g, blocks, q, cache, block, head, o)[c * g.x + i] else 0.0)
      {
        StepsApart(start + u, k.maxGroups, k.tokensPerGroup);
        MulStep(start + u, k.tokensPerGroup);
        FmaGroup(g, k, blocks, q, cache, block, head, acc, c, start + u);
      }
      start := start + k.unroll;
    }
    MulMono(groups, start, k.tokensPerGroup);
  }

  /** The groups that the first `tokens` tokens are in. */
  lemma GroupsCover(k: Kernel, tokens: nat)
    requires k.tokensPerGroup > 0 && tokens <= k.maxGroups * k.tokensPerGroup
    ensures var groups := (tokens + k.tokensPerGroup - 1) / k.tokensPerGroup;
            0 <= groups <= k.maxGroups && tokens <= groups * k.tokensPerGroup
  {
    var t := k.tokensPerGroup;
    var n := tokens + t - 1;
    Split(n, t);
    if n / t > k.maxGroups {
      StepsApart(k.maxGroups, n / t, t);
    }
  }

  /** The logits of the first `tokens` tokens of a block: scaled dot products of the query and their keys. */
  method ReduceQKBlock(g: Geometry, k: Kernel, ghost blocks: nat, q: seq<real>, cache: seq<real>, block: nat,
          head: nat, logits: array<real>, at: nat, scale: real, tokens: nat)
    requires Fitting(g, k) && |cache| == blocks * BlockElems(g) && block < blocks && head < g.heads
             && |q| == HeadSize(g)
    requires tokens <= g.blockSize && at + g.blockSize <= logits.Length
    modifies logits
    ensures forall o :: 0 <= o < tokens ==>
              logits[at + o] == scale * Dot(q, KeyVec(g, blocks, cache, block, head, o))
    ensures forall j :: 0 <= j < logits.Length && !(at <= j < at + g.blockSize) ==> logits[j] == old(logits[j])
  {
    hide HeadBase, BlockElems, HeadSize, Products, Dot, Accumulated, KeyVec;
    var groups := (tokens + k.tokensPerGroup - 1) / k.tokensPerGroup;
    GroupsCover(k, tokens);
    MulMono(groups, k.maxGroups, k.tokensPerGroup);
    var acc := Accumulate(g, k, blocks, q, cache, block, head, tokens, groups);
    for group := 0 to groups
      invariant Accumulated(g, blocks, q, cache, block, head, acc, groups * k.tokensPerGroup, g.chunks)
      invariant 0 <= group * k.tokensPerGroup <= g.blockSize
      invariant Scored(g, blocks, q, cache, block, head, logits[..], at, scale, group * k.tokensPerGroup)
      invariant forall j :: 0 <= j < logits.Length && !(at <= j < at + g.blockSize) ==> logits[j] == old(logits[j])
    {
      StepsApart(group, groups, k.tokensPerGroup);
      MulStep(group, k.tokensPerGroup);
      ScoreGroup(g, k, blocks, q, cache, block, head, acc, groups * k.tokensPerGroup, logits, at, scale,
                 group * k.tokensPerGroup);
    }
  }

  /** The logits of the first `n` tokens of a block are in place. */
  ghost predicate Scored(g: Geometry, blocks: nat, q: seq<real>, cache: seq<real>, block: nat, head: nat,
          logits: seq<real>, at: nat, scale: real, n: nat)
    requires Sound(g) && |cache| == blocks * BlockElems(g) && block < blocks && head < g.heads && |q| == HeadSize(g)
    requires n <= g.blockSize && at + n <= |logits|
  {
    forall o :: 0 <= o < n ==> logits[at + o] == scale * Dot(q, KeyVec(g, blocks, cache, block, head, o))
  }

  /** One group, token by token. */
  method ScoreGroup(g: Geometry, k: Kernel, ghost blocks: nat, q: seq<real>, cache: seq<real>, block: nat, head: nat,
          acc: array2<real>, ghost done: nat, logits: array<real>, at: nat, scale: real, first: nat)
    requires Fitting(g, k) && |cache| == blocks * BlockElems(g) && block < blocks && head < g.heads
             && |q| == HeadSize(g)
    requires acc.Length0 == g.blockSize && acc.Length1 == g.x && first + k.tokensPerGroup <= done <= g.blockSize
    requires at + g.blockSize <= logits.Length
    requires Accumulated(g, blocks, q, cache, block, head, acc, done, g.chunks)
    requires Scored(g, blocks, q, cache, block, head, logits[..], at, scale, first)
    modifies logits
    ensures Scored(g, blocks, q, cache, block, head, logits[..], at, scale, first + k.tokensPerGroup)
    ensures forall j :: 0 <= j < logits.Length && !(at <= j < at + g.blockSize) ==> logits[j] == old(logits[j])
  {
    hide HeadBase, BlockElems, HeadSize, Products, Dot, Accumulated, KeyVec;
    for token := 0 to k.tokensPerGroup
      invariant Accumulated(g, blocks, q, cache, block, head, acc, done, g.chunks)
      invariant Scored(g, blocks, q, cache, block, head, logits[..], at, scale, first + token)
      invariant forall j :: 0 <= j < logits.Length && !(at <= j < at + g.blockSize) ==> logits[j] == old(logits[j])
    {
      var dot := ReduceLanes(g, blocks, q, cache, block, head, acc, done, first + token);
      logits[at + (first + token)] := dot * scale;
      assert dot * scale == scale * Dot(q, KeyVec(g, blocks, cache, block, head, first + token));
    }
  }

  /** All chunks of the query against the groups that are needed. */
  method Accumulate(g: Geometry, k: Kernel, ghost blocks: nat, q: seq<real>, cache: seq<real>, block: nat, head: nat,
          tokens: nat, groups: nat) returns (acc: array2<real>)
    requires Fitting(g, k) && |cache| == blocks * BlockElems(g) && block < blocks && head < g.heads
             && |q| == HeadSize(g)
    requires groups <= k.maxGroups && 0 <= groups * k.tokensPerGroup <= g.blockSize
    ensures fresh(acc) && acc.Length0 == g.blockSize && acc.Length1 == g.x
    ensures Accumulated(g, blocks, q, cache, block, head, acc, groups * k.tokensPerGroup, g.chunks)
  {
    hide HeadBase, BlockElems, Products;
    acc := new real[g.blockSize, g.x]((_, _) => 0.0);
    for c := 0 to g.chunks
      invariant Accumulated(g, blocks, q, cache, block, head, acc, groups * k.tokensPerGroup, c)
    {
      StepsApart(c, g.chunks, g.x);
      if tokens == g.blockSize {
        AddChunkFull(g, k, blocks, q, cache, block, head, acc, c);
      } else {
        AddChunkPartial(g, k, blocks, q, cache, block, head, acc, c, groups);
      }
    }
  }

  /** Adding up the lanes of one token gives its dot product with the query. */
  method ReduceLanes(g: Geometry, ghost blocks: nat, q: seq<real>, cache: seq<real>, block: nat, head: nat,
          acc: array2<real>, ghost done: nat, o: nat) returns (dot: real)
    requires Sound(g) && |cache| == blocks * BlockElems(g) && block < blocks && head < g.heads && |q| == HeadSize(g)
    requires acc.Length0 == g.blockSize && acc.Length1 == g.x && o < done <= g.blockSize
    requires Accumulated(g, blocks, q, cache, block, head, acc, done, g.chunks)
    ensures dot == Dot(q, KeyVec(g, blocks, cache, block, head, o))
  {
    hide BlockElems, Lane, Sum;
    ghost var p := Products(g, blocks, q, cache, block, head, o);
    ghost var lanes := Lanes(p, g.x, g.chunks);
    dot := 0.0;
    assert Sum(lanes[..0]) == 0.0 by { SumZeros(lanes[..0]); }
    for i := 0 to g.x
      invariant dot == Sum(lanes[..i])
    {
      assert lanes[..i + 1] == lanes[..i] + [lanes[i]];
      SumSnoc(lanes[..i], lanes[i]);
      dot := dot + acc[o, i];
    }
    assert lanes[..g.x] == lanes;
    LanesSum(p, g.x, g.chunks);
    assert p[..g.chunks * g.x] == p;
  }
}
