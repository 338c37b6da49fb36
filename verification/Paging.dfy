/** Token positions in a paged sequence: what a reader sees through a list of blocks. */
module Paging {
  import opened Arith
  import opened BlockManager

  /** All blocks but the last are full, and the last is not empty. */
  lemma {:induction false} NBlocksFits(len: nat, bs: nat)
    requires bs > 0
    ensures var n := NBlocks(len, bs);
            if len == 0 then n == 0 else n > 0 && 0 <= (n - 1) * bs < len <= n * bs
    decreases len
  {
    if len > bs {
      NBlocksFits(len - bs, bs);
      var k := NBlocks(len - bs, bs);
      assert (k + 1) * bs == k * bs + bs && (k - 1) * bs + bs == k * bs;
    }
  }

  lemma NBlocksIsCeiling(len: nat, bs: nat)
    requires bs > 0
    ensures NBlocks(len, bs) == (len + bs - 1) / bs
  {
    NBlocksFits(len, bs);
    var n := NBlocks(len, bs);
    var r := len + bs - 1 - n * bs;
    if len > 0 {
      assert n * bs == (n - 1) * bs + bs;
    }
    assert 0 <= r < bs && len + bs - 1 == n * bs + r;
    QuotientUnique(n, bs, r);
  }

  lemma QuotientUnique(n: nat, bs: nat, r: nat)
    requires r < bs
    ensures (n * bs + r) / bs == n
  {
    var q := (n * bs + r) / bs;
    assert n * bs + r == q * bs + (n * bs + r) % bs;
    if q < n {
      MulMono(q + 1, n, bs);
    } else if q > n {
      MulMono(n + 1, q, bs);
    }
  }

  lemma RemainderUnique(n: nat, bs: nat, r: nat)
    requires r < bs
    ensures (n * bs + r) % bs == r
  {
    QuotientUnique(n, bs, r);
    var x := n * bs + r;
    assert x == (x / bs) * bs + x % bs;
  }

  lemma NBlocksUnique(len: nat, bs: nat, n: nat)
    requires bs > 0 && n > 0 && (n - 1) * bs < len <= n * bs
    ensures NBlocks(len, bs) == n
  {
    NBlocksFits(len, bs);
    var k := NBlocks(len, bs);
    if k < n {
      MulMono(k, n - 1, bs);
    } else if k > n {
      MulMono(n, k - 1, bs);
    }
  }

  /** One more token needs a new block exactly when the last block is full. */
  lemma NBlocksNext(len: nat, bs: nat)
    requires bs > 0
    ensures var n := NBlocks(len, bs);
            if len == n * bs then NBlocks(len + 1, bs) == n + 1
            else NBlocks(len + 1, bs) == n && n > 0
  {
    NBlocksFits(len, bs);
    var n := NBlocks(len, bs);
    if len == n * bs {
      assert (n + 1) * bs == n * bs + bs;
      NBlocksUnique(len + 1, bs, n + 1);
    } else {
      NBlocksUnique(len + 1, bs, n);
    }
  }

  ghost function Flatten<V>(blocks: seq<seq<V>>): seq<V> {
    if blocks == [] then [] else Flatten(blocks[..|blocks| - 1]) + blocks[|blocks| - 1]
  }

  ghost predicate Uniform<V>(blocks: seq<seq<V>>, bs: nat) {
    forall i :: 0 <= i < |blocks| ==> |blocks[i]| == bs
  }

  lemma {:induction false} FlattenLength<V>(blocks: seq<seq<V>>, bs: nat)
    requires Uniform(blocks, bs)
    ensures |Flatten(blocks)| == |blocks| * bs
  {
    if blocks != [] {
      FlattenLength(blocks[..|blocks| - 1], bs);
      assert |blocks| * bs == (|blocks| - 1) * bs + bs;
    }
  }

  /** The first `len` tokens held by a list of blocks. */
  ghost function View<V>(blocks: seq<seq<V>>, len: nat, bs: nat): seq<V>
    requires bs > 0 && |blocks| == NBlocks(len, bs) && Uniform(blocks, bs)
  {
    NBlocksFits(len, bs);
    if blocks == [] then []
    else Flatten(blocks[..|blocks| - 1]) + blocks[|blocks| - 1][..len - (|blocks| - 1) * bs]
  }

  lemma ViewLength<V>(blocks: seq<seq<V>>, len: nat, bs: nat)
    requires bs > 0 && |blocks| == NBlocks(len, bs) && Uniform(blocks, bs)
    ensures |View(blocks, len, bs)| == len
  {
    NBlocksFits(len, bs);
    if blocks != [] {
      FlattenLength(blocks[..|blocks| - 1], bs);
    }
  }

  /** The token at position `p` is the one at offset `p % bs` of block `p / bs`. */
  lemma {:induction false} ViewAt<V>(blocks: seq<seq<V>>, len: nat, bs: nat, i: nat, j: nat)
    requires bs > 0 && |blocks| == NBlocks(len, bs) && Uniform(blocks, bs)
    requires j < bs && 0 <= i * bs + j < len
    ensures i < |blocks| && |View(blocks, len, bs)| == len
    ensures View(blocks, len, bs)[i * bs + j] == blocks[i][j]
  {
    NBlocksFits(len, bs);
    ViewLength(blocks, len, bs);
    var n := |blocks|;
    if i >= n {
      MulMono(n, i, bs);
    }
    var init := blocks[..n - 1];
    FlattenLength(init, bs);
    if i < n - 1 {
      FlattenAt(init, bs, i, j);
    }
  }

  lemma {:induction false} FlattenAt<V>(blocks: seq<seq<V>>, bs: nat, i: nat, j: nat)
    requires bs > 0 && Uniform(blocks, bs) && i < |blocks| && j < bs
    ensures 0 <= i * bs + j < |Flatten(blocks)|
    ensures Flatten(blocks)[i * bs + j] == blocks[i][j]
  {
    var n := |blocks|;
    var init := blocks[..n - 1];
    FlattenLength(init, bs);
    FlattenLength(blocks, bs);
    assert n * bs == (n - 1) * bs + bs;
    if i < n - 1 {
      FlattenAt(init, bs, i, j);
    }
  }

  /** A token appended in the last block is seen after all the others. */
  lemma ViewInLastBlock<V>(blocks: seq<seq<V>>, len: nat, bs: nat)
    requires bs > 0 && |blocks| == NBlocks(len, bs) == NBlocks(len + 1, bs) && Uniform(blocks, bs)
    ensures |View(blocks, len, bs)| == len && |View(blocks, len + 1, bs)| == len + 1
    ensures View(blocks, len + 1, bs)[..len] == View(blocks, len, bs)
  {
    NBlocksFits(len, bs);
    NBlocksFits(len + 1, bs);
    ViewLength(blocks, len, bs);
    ViewLength(blocks, len + 1, bs);
    FlattenLength(blocks[..|blocks| - 1], bs);
  }

  /** So is a token that opens a new block. */
  lemma ViewInNewBlock<V>(blocks: seq<seq<V>>, b: seq<V>, len: nat, bs: nat)
    requires bs > 0 && |blocks| == NBlocks(len, bs) && |blocks| + 1 == NBlocks(len + 1, bs)
    requires Uniform(blocks, bs) && |b| == bs
    ensures Uniform(blocks + [b], bs)
    ensures |View(blocks, len, bs)| == len && |View(blocks + [b], len + 1, bs)| == len + 1
    ensures View(blocks + [b], len + 1, bs)[..len] == View(blocks, len, bs)
  {
    NBlocksNext(len, bs);
    ViewLength(blocks, len, bs);
    ViewLength(blocks + [b], len + 1, bs);
    FlattenLength(blocks, bs);
    assert (blocks + [b])[..|blocks|] == blocks;
    if blocks != [] {
      var init, last := blocks[..|blocks| - 1], blocks[|blocks| - 1];
      assert last[..len - (|blocks| - 1) * bs] == last by {
        assert |blocks| * bs == (|blocks| - 1) * bs + bs;
      }
      assert View(blocks, len, bs) == Flatten(blocks);
    }
  }

  /** The offset of the newest token in the last block. */
  ghost function LastOffset(len: nat, bs: nat): nat
    requires bs > 0 && len > 0
  {
    NBlocksFits(len, bs);
    len - 1 - (NBlocks(len, bs) - 1) * bs
  }

  lemma LastOffsetInBlock(len: nat, bs: nat)
    requires bs > 0 && len > 0
    ensures LastOffset(len, bs) < bs
  {
    NBlocksFits(len, bs);
    var n := NBlocks(len, bs);
    assert n * bs == (n - 1) * bs + bs;
  }

  /** Overwriting the newest token. */
  lemma ViewWriteLast<V>(blocks: seq<seq<V>>, len: nat, bs: nat, v: V)
    requires bs > 0 && len > 0 && |blocks| == NBlocks(len, bs) && Uniform(blocks, bs)
    ensures LastOffset(len, bs) < bs && |blocks| > 0
    ensures var n, r := |blocks|, LastOffset(len, bs);
            var blocks' := blocks[n - 1 := blocks[n - 1][r := v]];
            && Uniform(blocks', bs)
            && |View(blocks, len, bs)| == len
            && View(blocks', len, bs) == View(blocks, len, bs)[..len - 1] + [v]
  {
    NBlocksFits(len, bs);
    ViewLength(blocks, len, bs);
    var n, r := |blocks|, LastOffset(len, bs);
    assert n * bs == (n - 1) * bs + bs;
    var blocks' := blocks[n - 1 := blocks[n - 1][r := v]];
    assert blocks'[..n - 1] == blocks[..n - 1];
    FlattenLength(blocks[..n - 1], bs);
  }
}
