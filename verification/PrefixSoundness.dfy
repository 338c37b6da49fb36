/** What every operation of the prefix-caching manager keeps. */
module PrefixSoundness {
  import Arith
  import opened Holding
  import opened Evictor
  import opened CachedAllocator
  import opened PrefixCache
  import Paging
  import BlockManager

  // ----- changing the last block of one table

  /** The two worlds differ, as far as keys and contents go, on block `b` only. */
  ghost predicate OnlyAt<B, V>(w: World<B, V>, w': World<B, V>, b: B) {
    && (forall x :: x in w.mgr.gpu.info && x != b ==> x in w'.mgr.gpu.info && SameFields(w, w', x))
    && (forall x :: x in w'.mgr.gpu.info && x != b ==> x in w.mgr.gpu.info)
    && (forall x :: x in w.store && x != b ==> x in w'.store && w'.store[x] == w.store[x])
  }

  ghost predicate SameFields<B, V>(w: World<B, V>, w': World<B, V>, x: B)
    requires x in w.mgr.gpu.info && x in w'.mgr.gpu.info
  {
    && w'.mgr.gpu.info[x].key == w.mgr.gpu.info[x].key
    && w'.mgr.gpu.info[x].numHashed == w.mgr.gpu.info[x].numHashed
  }

  ghost predicate Kept<B, V>(w: World<B, V>, w': World<B, V>, b: B) {
    && b in w.mgr.gpu.info && b in w'.mgr.gpu.info && SameFields(w, w', b)
    && b in w.store && b in w'.store && w'.store[b] == w.store[b]
  }

  ghost predicate UnheldByOthers<B>(tables: map<nat, seq<B>>, id: nat, b: B) {
    forall k :: k in tables && k != id ==> b !in tables[k]
  }

  /** Table `id` changed its last block to `b`, and its sequence may have grown. */
  ghost predicate LastChanged<B, V>(w: World<B, V>, w': World<B, V>, bs: nat, id: nat, b: B)
    requires bs > 0
  {
    && id in w.mgr.tables && id in w.data && id in w'.mgr.tables && id in w'.data
    && var t, t', d, d' := w.mgr.tables[id], w'.mgr.tables[id], w.data[id], w'.data[id];
    var n := |t'|;
    && w'.mgr.tables == w.mgr.tables[id := t'] && w'.data == w.data[id := d']
    && 0 < n <= |t| + 1 && t' == t[..n - 1] + [b] && b !in t[..n - 1]
    && Tokens(d) <= Tokens(d') && d'.lora == d.lora
    && (n - 1) * bs <= |Tokens(d)| && n <= NBlocks(d', bs)
  }

  lemma SettleLast<B, V>(w: World<B, V>, w': World<B, V>, kv: Kv<V>, bs: nat, id: nat, b: B)
    requires bs > 0 && Inv(w, kv, bs)
    requires LastChanged(w, w', bs, id, b) && OnlyAt(w, w', b)
    requires PoolOk(w'.mgr.gpu) && Counted(w'.mgr.gpu, w'.mgr.tables) && Frame(w', bs)
    requires BlockTrue(w', kv, bs, id, |w'.mgr.tables[id]| - 1) && KeyTrue(w', kv, bs, b)
    requires Kept(w, w', b) || UnheldByOthers(w.mgr.tables, id, b)
    ensures Inv(w', kv, bs)
  {
    hide PoolOk, Counted, Holds, NBlocks, Fits, KeyTokens, BlockEnd;
    forall x | x in w'.mgr.gpu.info
      ensures KeyTrue(w', kv, bs, x)
    {
      if x != b {
        SettleKey(w, w', kv, bs, b, x);
      }
    }
    forall k | k in w'.mgr.tables
      ensures TableTrue(w', kv, bs, k)
    {
      if k == id {
        SettleOwn(w, w', kv, bs, id, b);
      } else {
        SettleOther(w, w', kv, bs, id, b, k);
      }
    }
  }

  lemma SettleKey<B, V>(w: World<B, V>, w': World<B, V>, kv: Kv<V>, bs: nat, b: B, x: B)
    requires bs > 0 && OnlyAt(w, w', b) && x in w'.mgr.gpu.info && x != b
    requires forall b :: b in w.mgr.gpu.info ==> KeyTrue(w, kv, bs, b)
    ensures KeyTrue(w', kv, bs, x)
  {
  }

  lemma SettleOther<B, V>(w: World<B, V>, w': World<B, V>, kv: Kv<V>, bs: nat, id: nat, b: B, k: nat)
    requires bs > 0 && LastChanged(w, w', bs, id, b) && OnlyAt(w, w', b) && k != id && k in w.mgr.tables
    requires TableTrue(w, kv, bs, k)
    requires Kept(w, w', b) || UnheldByOthers(w.mgr.tables, id, b)
    ensures TableTrue(w', kv, bs, k)
  {
    hide Holds, KeyTokens, NBlocks;
    assert w'.mgr.tables[k] == w.mgr.tables[k] && w'.data[k] == w.data[k];
    forall i | 0 <= i < |w'.mgr.tables[k]|
      ensures BlockTrue(w', kv, bs, k, i)
    {
      assert BlockTrue(w, kv, bs, k, i);
      assert w.mgr.tables[k][i] in w.mgr.tables[k];
    }
  }

  lemma SettleOwn<B, V>(w: World<B, V>, w': World<B, V>, kv: Kv<V>, bs: nat, id: nat, b: B)
    requires bs > 0 && LastChanged(w, w', bs, id, b) && OnlyAt(w, w', b)
    requires TableTrue(w, kv, bs, id) && Frame(w, bs)
    requires BlockTrue(w', kv, bs, id, |w'.mgr.tables[id]| - 1)
    ensures TableTrue(w', kv, bs, id)
  {
    hide Holds, KeyTokens, NBlocks, BlockTrue;
    var n := |w'.mgr.tables[id]|;
    forall i | 0 <= i < n
      ensures BlockTrue(w', kv, bs, id, i)
    {
      if i < n - 1 {
        SettleFull(w, w', kv, bs, id, b, i);
      }
    }
  }

  /** The blocks before the last are full, so what they hold of the longer sequence is what they held. */
  lemma SettleFull<B, V>(w: World<B, V>, w': World<B, V>, kv: Kv<V>, bs: nat, id: nat, b: B, i: nat)
    requires bs > 0 && LastChanged(w, w', bs, id, b) && OnlyAt(w, w', b) && Frame(w, bs)
    requires i < |w'.mgr.tables[id]| - 1 && BlockTrue(w, kv, bs, id, i)
    ensures BlockTrue(w', kv, bs, id, i)
  {
    hide Holds, KeyTokens, NBlocks, BlockEnd;
    var n := |w'.mgr.tables[id]|;
    var x := w.mgr.tables[id][i];
    assert w.mgr.tables[id][..n - 1][i] == x;
    assert w'.mgr.tables[id][i] == x;
    assert x != b;
    BlockEndMono(i, n - 1, bs);
    var d, d' := w.data[id], w'.data[id];
    HoldsPrefix(w.store[x], kv, d.lora, Tokens(d), Tokens(d'), BlockEnd(i, bs) - bs);
  }

  // ----- counting

  lemma RetableCounted<B>(p: CPool<B>, q: CPool<B>, tables: map<nat, seq<B>>, id: nat, t: seq<B>)
    requires Counted(p, tables) && q.all == p.all && id in tables
    requires forall x :: x in p.all ==> Refs(q, x) == Refs(p, x) + Bit(x in t) - Bit(x in tables[id])
    ensures Counted(q, tables[id := t])
  {
    forall x | x in p.all
      ensures Refs(q, x) == |Holders(tables[id := t], x)|
    {
      HoldersUpdate(tables, id, t, x);
    }
  }

  lemma HeldHasRefs<B>(p: CPool<B>, tables: map<nat, seq<B>>, id: nat, b: B)
    requires Keyed(p) && Counted(p, tables) && id in tables && b in tables[id] && b in p.info
    ensures p.info[b].refs > 0
    ensures p.info[b].refs == 1 ==> UnheldByOthers(tables, id, b)
  {
    var h := Holders(tables, b);
    assert id in h && b in p.all;
    assert Refs(p, b) == |h|;
    if p.info[b].refs == 1 {
      forall k | k in tables && k != id
        ensures b !in tables[k]
      {
        if b in tables[k] {
          TwoMembers(h, id, k);
        }
      }
    }
  }

  lemma NoRefsUnheld<B>(p: CPool<B>, tables: map<nat, seq<B>>, b: B)
    requires Counted(p, tables) && b in p.all && Refs(p, b) == 0
    ensures forall k :: k in tables ==> b !in tables[k]
  {
    forall k | k in tables
      ensures b !in tables[k]
    {
      assert Holders(tables, b) == {};
      assert k !in Holders(tables, b);
    }
  }

  /** Positions of a table have different block ends, so a table never repeats a block. */
  lemma TableDistinct<B, V>(w: World<B, V>, kv: Kv<V>, bs: nat, id: nat)
    requires bs > 0 && TableTrue(w, kv, bs, id)
    ensures NoDup(w.mgr.tables[id])
    ensures forall i :: 0 <= i < |w.mgr.tables[id]| ==>
              w.mgr.tables[id][i] in w.mgr.gpu.info && w.mgr.gpu.info[w.mgr.tables[id][i]].numHashed == BlockEnd(i, bs)
  {
    hide Holds, KeyTokens, NBlocks, BlockEnd;
    var t := w.mgr.tables[id];
    forall i | 0 <= i < |t|
      ensures t[i] in w.mgr.gpu.info && w.mgr.gpu.info[t[i]].numHashed == BlockEnd(i, bs)
    {
      assert BlockTrue(w, kv, bs, id, i);
    }
    forall i, j | 0 <= i < j < |t|
      ensures t[i] != t[j]
    {
      BlockEndMono(i, j, bs);
    }
  }

  // ----- allocate

  /** The block with the entries of the tokens that reach into it written. */
  ghost function Filled<V>(block: seq<V>, kv: Kv<V>, lora: nat, toks: seq<Token>, start: int): (r: seq<V>)
    ensures |r| == |block| && Holds(r, kv, lora, toks, start)
  {
    seq(|block|, j requires 0 <= j < |block| =>
      if 0 <= start + j < |toks| then kv(lora, toks[..start + j + 1]) else block[j])
  }

  lemma FilledSame<V>(block: seq<V>, kv: Kv<V>, lora: nat, toks: seq<Token>, start: int)
    requires Holds(block, kv, lora, toks, start)
    ensures Filled(block, kv, lora, toks, start) == block
  {
  }

  lemma HoldsClipped<V>(block: seq<V>, kv: Kv<V>, lora: nat, toks: seq<Token>, m: nat, start: int)
    requires m <= |toks| && (m == |toks| || start + |block| <= m)
    requires Holds(block, kv, lora, toks[..m], start)
    ensures Holds(block, kv, lora, toks, start)
  {
    if m == |toks| {
      assert toks[..m] == toks;
    } else {
      HoldsPrefix(block, kv, lora, toks[..m], toks, start);
    }
  }

  /** The key of block `i` of a sequence ends in block `i`. */
  lemma KeyEnds(d: SeqData, i: nat, bs: nat)
    requires bs > 0 && i < NBlocks(d, bs)
    ensures var m := Clip(BlockEnd(i, bs), |Tokens(d)|);
            0 < m && BlockManager.NBlocks(m, bs) == i + 1
  {
    Paging.NBlocksFits(|Tokens(d)|, bs);
    BlockEndBasics(i, bs);
    var n := NBlocks(d, bs);
    Arith.MulMono(i, n - 1, bs);
    Paging.NBlocksUnique(Clip(BlockEnd(i, bs), |Tokens(d)|), bs, i + 1);
  }

  /** What a block acquired for position `i` of a sequence is like. */
  ghost predicate Suits<B>(q: CPool<B>, b: B, d: SeqData, i: nat, bs: nat)
    requires bs > 0
  {
    && Fits(q, b, d, i, bs)
    && (q.info[b].key.Content? ==>
          && KeyTokens(q.info[b].key) != []
          && q.info[b].numHashed == BlockManager.NBlocks(|KeyTokens(q.info[b].key)|, bs) * bs)
  }

  /** A block found under the key of position `i` holds the tokens of that position already. */
  lemma HitHolds<B, V>(w: World<B, V>, kv: Kv<V>, bs: nat, d: SeqData, i: nat, b: B)
    requires bs > 0 && i < NBlocks(d, bs) && b in w.store && |w.store[b]| == bs
    requires KeyTrue(w, kv, bs, b) && w.mgr.gpu.info[b].key == HashOfBlock(d, i, bs)
    ensures w.mgr.gpu.info[b].numHashed == BlockEnd(i, bs)
    ensures Holds(w.store[b], kv, d.lora, Tokens(d), BlockEnd(i, bs) - bs)
  {
    hide Holds, KeyTokens, PrefixKey, NBlocks;
    PrefixKeyTokens(d, BlockEnd(i, bs));
    KeyEnds(d, i, bs);
    HoldsClipped(w.store[b], kv, d.lora, Tokens(d), Clip(BlockEnd(i, bs), |Tokens(d)|), BlockEnd(i, bs) - bs);
  }

  /** A block acquired for position `i` suits it. */
  lemma AcquiredSuits<B, V>(w: World<B, V>, kv: Kv<V>, bs: nat, d: SeqData, i: nat, k: Key, q: CPool<B>, b: B)
    requires bs > 0 && Inv(w, kv, bs) && i < NBlocks(d, bs)
    requires k.Content? ==> k == HashOfBlock(d, i, bs)
    requires k.Counter? ==> !Contains(w.mgr.gpu, k)
    requires Acquired(w.mgr.gpu, k, BlockEnd(i, bs), q, b)
    ensures Suits(q, b, d, i, bs)
    ensures b in w.store && |w.store[b]| == bs
    ensures Contains(w.mgr.gpu, k) ==> Holds(w.store[b], kv, d.lora, Tokens(d), BlockEnd(i, bs) - bs)
  {
    hide Holds, KeyTokens, PrefixKey, NBlocks, CachedOk, TableOk, Counted;
    PrefixKeyTokens(d, BlockEnd(i, bs));
    KeyEnds(d, i, bs);
    assert b in q.all by { hide Frame, Inv; }
    if Contains(w.mgr.gpu, k) {
      HitHolds(w, kv, bs, d, i, b);
    }
  }

  /** The acquired block is not yet in the table of a sequence with fewer blocks. */
  lemma AcquiredIsNew<B, V>(w: World<B, V>, kv: Kv<V>, bs: nat, id: nat, i: nat, k: Key, q: CPool<B>, b: B)
    requires bs > 0 && Inv(w, kv, bs) && id in w.mgr.tables && i <= |w.mgr.tables[id]|
    requires Acquired(w.mgr.gpu, k, BlockEnd(i, bs), q, b) && q.info[b].numHashed == BlockEnd(i, bs)
    ensures b !in w.mgr.tables[id][..i]
    ensures Refs(w.mgr.gpu, b) == 0 ==> forall k :: k in w.mgr.tables ==> b !in w.mgr.tables[k]
  {
    hide Holds, KeyTokens, NBlocks, BlockEnd, CachedOk, TableOk, Frame;
    assert b in q.all by { hide Inv; }
    if Refs(w.mgr.gpu, b) == 0 {
      NoRefsUnheld(w.mgr.gpu, w.mgr.tables, b);
      assert forall x :: x in w.mgr.tables[id][..i] ==> x in w.mgr.tables[id];
    } else {
      assert TableTrue(w, kv, bs, id);
      TableDistinct(w, kv, bs, id);
      var t := w.mgr.tables[id];
      forall j | 0 <= j < i
        ensures t[j] != b
      {
        BlockEndMono(j, i, bs);
      }
    }
  }

  /** The world after block `b` was acquired for the next position and filled. */
  ghost function Pushed<B, V>(w: World<B, V>, kv: Kv<V>, bs: nat, id: nat, q: CPool<B>, b: B): World<B, V>
    requires id in w.mgr.tables && id in w.data && b in w.store
  {
    var t, d := w.mgr.tables[id], w.data[id];
    World(CState(q, w.mgr.tables[id := t + [b]]), w.data,
          w.store[b := Filled(w.store[b], kv, d.lora, Tokens(d), BlockEnd(|t|, bs) - bs)])
  }

  lemma PushKeeps<B, V>(w: World<B, V>, kv: Kv<V>, bs: nat, id: nat, q: CPool<B>, b: B)
    requires bs > 0 && Inv(w, kv, bs) && id in w.mgr.tables && id in w.data
    requires |w.mgr.tables[id]| < NBlocks(w.data[id], bs)
    requires var i := |w.mgr.tables[id]|;
             Acquired(w.mgr.gpu, HashOfBlock(w.data[id], i, bs), BlockEnd(i, bs), q, b)
    ensures b in w.store && Inv(Pushed(w, kv, bs, id, q, b), kv, bs)
  {
    hide Holds, KeyTokens, PrefixKey, NBlocks, PoolOk, Counted, Filled, BlockEnd, KeyTrue, TableTrue, Contains;
    var t, d := w.mgr.tables[id], w.data[id];
    var i := |t|;
    var k := HashOfBlock(d, i, bs);
    PrefixKeyTokens(d, BlockEnd(i, bs));
    AcquiredSuits(w, kv, bs, d, i, k, q, b);
    AcquiredIsNew(w, kv, bs, id, i, k, q, b);
    assert t[..i] == t;
    var w' := Pushed(w, kv, bs, id, q, b);
    PushCounted(w.mgr.gpu, q, w.mgr.tables, id, b);
    PushFrame(w, kv, bs, id, q, b);
    BeforeEnd(d, i, bs);
    NewLastTrue(w', kv, bs, id, b);
    if Contains(w.mgr.gpu, k) {
      FilledSame(w.store[b], kv, d.lora, Tokens(d), BlockEnd(i, bs) - bs);
    }
    SettleLast(w, w', kv, bs, id, b);
  }

  lemma BeforeEnd(d: SeqData, i: nat, bs: nat)
    requires bs > 0 && i < NBlocks(d, bs)
    ensures i * bs <= |Tokens(d)|
  {
    Paging.NBlocksFits(|Tokens(d)|, bs);
    Arith.MulMono(i, NBlocks(d, bs) - 1, bs);
  }

  lemma PushCounted<B>(p: CPool<B>, q: CPool<B>, tables: map<nat, seq<B>>, id: nat, b: B)
    requires Counted(p, tables) && OthersKept(p, q, b) && id in tables && b !in tables[id]
    requires b in q.info && q.info[b].refs == Refs(p, b) + 1
    ensures Counted(q, tables[id := tables[id] + [b]])
  {
    hide Counted;
    RetableCounted(p, q, tables, id, tables[id] + [b]);
  }

  lemma PushFrame<B, V>(w: World<B, V>, kv: Kv<V>, bs: nat, id: nat, q: CPool<B>, b: B)
    requires Frame(w, bs) && id in w.mgr.tables && id in w.data && b in w.store && q.all == w.mgr.gpu.all
    ensures Frame(Pushed(w, kv, bs, id, q, b), bs)
  {
  }

  /** A block that suits the last position and holds its tokens is true to its key and to its place. */
  lemma NewLastTrue<B, V>(w: World<B, V>, kv: Kv<V>, bs: nat, id: nat, b: B)
    requires bs > 0 && id in w.mgr.tables && id in w.data && w.mgr.tables[id] != []
    requires var t, d := w.mgr.tables[id], w.data[id];
             && t[|t| - 1] == b && Suits(w.mgr.gpu, b, d, |t| - 1, bs) && b in w.store
             && Holds(w.store[b], kv, d.lora, Tokens(d), BlockEnd(|t| - 1, bs) - bs)
    ensures BlockTrue(w, kv, bs, id, |w.mgr.tables[id]| - 1) && KeyTrue(w, kv, bs, b)
  {
    hide Holds, KeyTokens;
    var d, i := w.data[id], w.mgr.gpu.info[b];
    if i.key.Content? {
      HoldsShorter(w.store[b], kv, d.lora, KeyTokens(i.key), Tokens(d), i.numHashed - bs);
    }
  }
}
