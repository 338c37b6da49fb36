/** Appending a token to a sequence whose blocks are shared by content. */
module PrefixAppend {
  import opened Wrappers
  import opened Evictor
  import opened CachedAllocator
  import opened Copying
  import opened PrefixCache
  import opened PrefixSoundness
  import BlockManager
  import Paging

  /** The sequence grew by one generated token. */
  predicate Extends(d: SeqData, d': SeqData) {
    d'.prompt == d.prompt && d'.lora == d.lora && |d'.output| == |d.output| + 1 && d.output <= d'.output
  }

  lemma ExtendsTokens(d: SeqData, d': SeqData)
    requires Extends(d, d')
    ensures |Tokens(d')| == |Tokens(d)| + 1 && Tokens(d) <= Tokens(d')
  {
  }

  /** Copies executed, then the entry of the new token written at its slot. */
  ghost function AppendWorld<B, V>(w: World<B, V>, kv: Kv<V>, bs: nat, id: nat, d: SeqData, s: CState<B>,
          pairs: Pairs<B>): World<B, V>
    requires bs > 0
  {
    var copied := SequentialCopy(w.store, pairs);
    World(s, w.data[id := d],
          if id in s.tables && s.tables[id] != [] && |Tokens(d)| > 0 && s.tables[id][|s.tables[id]| - 1] in copied then
            var b := s.tables[id][|s.tables[id]| - 1];
            copied[b := Written(copied[b], (|Tokens(d)| - 1) % bs, kv(d.lora, Tokens(d)))]
          else copied)
  }

  ghost function Written<V>(block: seq<V>, r: nat, v: V): seq<V> {
    if r < |block| then block[r := v] else block
  }

  // ----- contents of the last block

  lemma EntryWritten<V>(c: seq<V>, kv: Kv<V>, d: SeqData, d': SeqData, start: nat, r: nat)
    requires Extends(d, d') && Holds(c, kv, d.lora, Tokens(d), start) && start + r == |Tokens(d)|
    ensures Holds(Written(c, r, kv(d'.lora, Tokens(d'))), kv, d'.lora, Tokens(d'), start)
  {
    hide Tokens;
    ExtendsTokens(d, d');
    var c' := Written(c, r, kv(d'.lora, Tokens(d')));
    forall j | 0 <= j < |c'| && 0 <= start + j < |Tokens(d')|
      ensures c'[j] == kv(d'.lora, Tokens(d')[..start + j + 1])
    {
      if j == r {
        assert Tokens(d')[..start + j + 1] == Tokens(d');
      } else {
        assert Tokens(d')[..start + j + 1] == Tokens(d)[..start + j + 1];
      }
    }
  }

  lemma FullHoldsUnique<V>(a: seq<V>, b: seq<V>, kv: Kv<V>, lora: nat, toks: seq<Token>, start: nat)
    requires Holds(a, kv, lora, toks, start) && Holds(b, kv, lora, toks, start)
    requires |a| == |b| && start + |a| <= |toks|
    ensures a == b
  {
  }

  /** Where the new token goes. */
  lemma NewSlot(d: SeqData, d': SeqData, bs: nat)
    requires bs > 0 && Extends(d, d')
    ensures var n := NBlocks(d', bs);
            && n > 0 && (n - 1) * bs <= |Tokens(d)| < n * bs
            && (|Tokens(d')| - 1) % bs == |Tokens(d)| - (n - 1) * bs
            && BlockEnd(n - 1, bs) - bs == (n - 1) * bs
            && (LastBlockFull(d', bs) ==> n * bs == |Tokens(d')|)
            && NBlocks(d, bs) == (if |Tokens(d)| == (n - 1) * bs then n - 1 else n)
  {
    var l, n := |Tokens(d)|, NBlocks(d', bs);
    ExtendsTokens(d, d');
    Paging.NBlocksFits(l + 1, bs);
    assert n * bs == (n - 1) * bs + bs;
    Paging.RemainderUnique(n - 1, bs, l - (n - 1) * bs);
    PreviousBlocks(l, bs, n);
    if LastBlockFull(d', bs) {
      FullEnds(d', bs);
    }
  }

  lemma PreviousBlocks(l: nat, bs: nat, n: nat)
    requires bs > 0 && n > 0 && (n - 1) * bs <= l < n * bs
    ensures BlockManager.NBlocks(l, bs) == if l == (n - 1) * bs then n - 1 else n
  {
    if l != (n - 1) * bs {
      Paging.NBlocksUnique(l, bs, n);
    } else if n > 1 {
      assert (n - 2) * bs == (n - 1) * bs - bs;
      Paging.NBlocksUnique(l, bs, n - 1);
    }
  }

  lemma FullEnds(d: SeqData, bs: nat)
    requires bs > 0 && LastBlockFull(d, bs)
    ensures NBlocks(d, bs) * bs == |Tokens(d)|
  {
    var l := |Tokens(d)|;
    assert l == (l / bs) * bs + l % bs;
    assert ((l / bs) - 1) * bs == (l / bs) * bs - bs;
    Paging.NBlocksUnique(l, bs, l / bs);
  }

  // ----- the step

  /** Keys and positions changed on block `b` only. */
  ghost predicate KeysKept<B>(p: CPool<B>, q: CPool<B>, b: B) {
    && q.all == p.all
    && (forall x :: x in p.info && x != b ==>
          x in q.info && q.info[x].key == p.info[x].key && q.info[x].numHashed == p.info[x].numHashed)
    && (forall x :: x in q.info && x != b ==> x in p.info)
  }

  /** The world once the last block is `b` and, before the new entry is written, holds `c`. */
  ghost function Finished<B, V>(w: World<B, V>, kv: Kv<V>, bs: nat, id: nat, d': SeqData, q: CPool<B>, t': seq<B>,
          b: B, c: seq<V>): World<B, V>
    requires bs > 0 && |Tokens(d')| > 0
  {
    World(CState(q, w.mgr.tables[id := t']), w.data[id := d'],
          w.store[b := Written(c, (|Tokens(d')| - 1) % bs, kv(d'.lora, Tokens(d')))])
  }

  /** The block already held what it is being given. */
  ghost predicate Matches<B, V>(w: World<B, V>, kv: Kv<V>, bs: nat, d': SeqData, q: CPool<B>, b: B)
    requires bs > 0
  {
    && LastBlockFull(d', bs) && b in w.store && b in w.mgr.gpu.info && b in q.info
    && q.info[b].key == w.mgr.gpu.info[b].key && q.info[b].numHashed == w.mgr.gpu.info[b].numHashed
    && Holds(w.store[b], kv, d'.lora, Tokens(d'), BlockEnd(NBlocks(d', bs) - 1, bs) - bs)
  }

  ghost predicate Retabled<B, V>(w: World<B, V>, bs: nat, id: nat, d': SeqData, q: CPool<B>, t': seq<B>, b: B)
    requires bs > 0 && id in w.mgr.tables
  {
    && PoolOk(q) && Counted(q, w.mgr.tables[id := t']) && KeysKept(w.mgr.gpu, q, b)
    && var t, n := w.mgr.tables[id], NBlocks(d', bs);
    && 0 < n <= |t| + 1 && t' == t[..n - 1] + [b] && b !in t[..n - 1]
    && Suits(q, b, d', n - 1, bs)
  }

  lemma FinishAppend<B, V>(w: World<B, V>, kv: Kv<V>, bs: nat, id: nat, d': SeqData, q: CPool<B>, t': seq<B>, b: B,
          c: seq<V>)
    requires bs > 0 && Inv(w, kv, bs) && id in w.mgr.tables && id in w.data && Extends(w.data[id], d')
    requires Retabled(w, bs, id, d', q, t', b) && b in w.store
    requires |c| == bs && Holds(c, kv, d'.lora, Tokens(w.data[id]), BlockEnd(NBlocks(d', bs) - 1, bs) - bs)
    requires UnheldByOthers(w.mgr.tables, id, b) || Matches(w, kv, bs, d', q, b)
    ensures |Tokens(d')| > 0 && Inv(Finished(w, kv, bs, id, d', q, t', b, c), kv, bs)
  {
    hide Holds, KeyTokens, PrefixKey, NBlocks, PoolOk, Counted, BlockEnd, KeyTrue, TableTrue, Contains, Suits, Tokens,
         LastBlockFull,
      LastChanged, OnlyAt, UnheldByOthers, Written;
    var d := w.data[id];
    var n := NBlocks(d', bs);
    ExtendsTokens(d, d');
    NewSlot(d, d', bs);
    EntryWritten(c, kv, d, d', (n - 1) * bs, |Tokens(d)| - (n - 1) * bs);
    var w' := Finished(w, kv, bs, id, d', q, t', b, c);
    FinishFrame(w, kv, bs, id, d', q, t', b, c);
    NewLastTrue(w', kv, bs, id, b);
    if Matches(w, kv, bs, d', q, b) {
      assert n * bs == (n - 1) * bs + bs;
      FullHoldsUnique(w'.store[b], w.store[b], kv, d'.lora, Tokens(d'), (n - 1) * bs);
    }
    FinishChanged(w, kv, bs, id, d', q, t', b, c);
    SettleLast(w, w', kv, bs, id, b);
  }

  lemma FinishChanged<B, V>(w: World<B, V>, kv: Kv<V>, bs: nat, id: nat, d': SeqData, q: CPool<B>, t': seq<B>, b: B,
          c: seq<V>)
    requires bs > 0 && |Tokens(d')| > 0 && id in w.mgr.tables && id in w.data && Extends(w.data[id], d')
    requires Retabled(w, bs, id, d', q, t', b) && b in w.store
    ensures var w' := Finished(w, kv, bs, id, d', q, t', b, c); LastChanged(w, w', bs, id, b) && OnlyAt(w, w', b)
  {
    hide NBlocks, PoolOk, Counted, Suits, Tokens, LastBlockFull, Written;
    ExtendsTokens(w.data[id], d');
    NewSlot(w.data[id], d', bs);
  }

  lemma FinishFrame<B, V>(w: World<B, V>, kv: Kv<V>, bs: nat, id: nat, d': SeqData, q: CPool<B>, t': seq<B>, b: B,
          c: seq<V>)
    requires bs > 0 && |Tokens(d')| > 0 && Frame(w, bs) && id in w.mgr.tables && id in w.data && b in w.store
    requires q.all == w.mgr.gpu.all && |c| == bs
    ensures |Finished(w, kv, bs, id, d', q, t', b, c).store[b]| == bs
    ensures Frame(Finished(w, kv, bs, id, d', q, t', b, c), bs)
  {
  }

  // ----- the cases of append_slots

  /**
   * What the step does to the manager: the last block of the table, its key once it is full, who may
   * share it, the keys of all other blocks, and the copy it asks for.
   */
  ghost predicate Placed<B>(s: CState<B>, bs: nat, id: nat, d': SeqData, s': CState<B>, pairs: Pairs<B>)
    requires bs > 0
  {
    && id in s.tables && id in s'.tables
    && var t, t', n := s.tables[id], s'.tables[id], NBlocks(d', bs);
    && |t'| == n > 0 && n - 1 <= |t| <= n && s'.tables == s.tables[id := t']
    && t' == t[..n - 1] + [t'[n - 1]] && PlacedBlock(s, bs, id, d', s'.gpu, t'[n - 1], pairs)
  }

  ghost predicate PlacedBlock<B>(s: CState<B>, bs: nat, id: nat, d': SeqData, q: CPool<B>, b: B, pairs: Pairs<B>)
    requires bs > 0 && id in s.tables && NBlocks(d', bs) > 0
  {
    var t, n := s.tables[id], NBlocks(d', bs);
    && KeysKept(s.gpu, q, b) && b in q.info
    && (LastBlockFull(d', bs) ==> q.info[b].key == HashOfBlock(d', n - 1, bs))
    && (UnheldByOthers(s.tables, id, b)
        || (LastBlockFull(d', bs) && b in s.gpu.info && s.gpu.info[b].key == q.info[b].key))
    && (if |t| < n then pairs == []
        else if pairs == [] then b == t[|t| - 1] || LastBlockFull(d', bs)
        else b != t[|t| - 1] && pairs == [(t[|t| - 1], b)] && Refs(s.gpu, t[|t| - 1]) >= 2)
  }

  /** What the step does to the world, and to the number of free blocks. */
  ghost predicate AppendOutcome<B, V>(w: World<B, V>, kv: Kv<V>, bs: nat, id: nat, d': SeqData)
    requires bs > 0
  {
    match AppendSlots(w.mgr, bs, id, d')
    case Err(e) => e == OutOfMemory && NumFree(w.mgr.gpu) == 0
    case Ok((s, pairs)) =>
      var w' := AppendWorld(w, kv, bs, id, d', s, pairs);
      && Inv(w', kv, bs) && Complete(w', bs) && w'.mgr == s && w'.data == w.data[id := d']
      && s.tables.Keys == w.mgr.tables.Keys && Placed(w.mgr, bs, id, d', s, pairs)
      && NumFree(s.gpu) >= NumFree(w.mgr.gpu) - 1
  }

  ghost predicate Ready<B, V>(w: World<B, V>, kv: Kv<V>, bs: nat, id: nat, d': SeqData) {
    && bs > 0 && Inv(w, kv, bs) && Complete(w, bs) && id in w.mgr.tables && id in w.data && Extends(w.data[id], d')
  }

  /** The block allocated as the last one, and the pool after it. */
  ghost predicate LastGot<B, V>(w: World<B, V>, kv: Kv<V>, bs: nat, id: nat, d': SeqData, q: CPool<B>, b: B)
    requires bs > 0 && id in w.mgr.tables
  {
    var n := NBlocks(d', bs);
    && n > 0 && PoolOk(q) && OthersKept(w.mgr.gpu, q, b) && b in w.store && |w.store[b]| == bs
    && b in q.info && q.info[b].refs == Refs(w.mgr.gpu, b) + 1
    && NumFree(q) >= NumFree(w.mgr.gpu) - 1
    && Suits(q, b, d', n - 1, bs)
    && (UnheldByOthers(w.mgr.tables, id, b) || Matches(w, kv, bs, d', q, b))
    && (n - 1 <= |w.mgr.tables[id]| ==> b !in w.mgr.tables[id][..n - 1])
    && q.info[b].key == (if LastBlockFull(d', bs) then HashOfBlock(d', n - 1, bs) else Counter(w.mgr.gpu.ctr))
    && (!LastBlockFull(d', bs) ==> Refs(w.mgr.gpu, b) == 0)
    && (Refs(w.mgr.gpu, b) > 0 ==> w.mgr.gpu.info[b].key == q.info[b].key)
  }

  /** The allocation of a last block: fresh, unless a block with the same content exists. */
  lemma AllocateLastKeeps<B, V>(w: World<B, V>, kv: Kv<V>, bs: nat, id: nat, d': SeqData)
    requires Ready(w, kv, bs, id, d')
    ensures match AllocateLast(w.mgr.gpu, d', bs)
            case Err(e) => e == OutOfMemory && NumFree(w.mgr.gpu) == 0
            case Ok((q, b)) => LastGot(w, kv, bs, id, d', q, b)
  {
    hide Holds, KeyTokens, PrefixKey, NBlocks, PoolOk, Counted, BlockEnd, KeyTrue, TableTrue, Contains, Tokens,
         LastBlockFull, Frame, Inv, Complete, Acquire, UnheldByOthers;
    NewSlot(w.data[id], d', bs);
    var n := NBlocks(d', bs);
    PrefixKeyTokens(d', BlockEnd(n - 1, bs));
    var p := w.mgr.gpu;
    InvParts(w, kv, bs);
    var want := if LastBlockFull(d', bs) then Some(HashOfBlock(d', n - 1, bs)) else None;
    AcquireKeeps(p, want, BlockEnd(n - 1, bs));
    CounterAdvances(p);
    if Acquire(p, want, BlockEnd(n - 1, bs)).Ok? {
      var (q, b) := Acquire(p, want, BlockEnd(n - 1, bs)).value;
      var k := q.info[b].key;
      AcquiredSuits(w, kv, bs, d', n - 1, k, q, b);
      if n - 1 <= |w.mgr.tables[id]| {
        AcquiredIsNew(w, kv, bs, id, n - 1, k, q, b);
      }
      UnlessMatching(w, kv, bs, id, d', k, q, b);
    }
  }

  lemma InvParts<B, V>(w: World<B, V>, kv: Kv<V>, bs: nat)
    requires bs > 0 && Inv(w, kv, bs)
    ensures PoolOk(w.mgr.gpu) && Counted(w.mgr.gpu, w.mgr.tables) && Frame(w, bs)
    ensures forall b :: b in w.mgr.gpu.info ==> KeyTrue(w, kv, bs, b)
    ensures forall id :: id in w.mgr.tables ==> TableTrue(w, kv, bs, id)
  {
  }

  lemma UnlessMatching<B, V>(w: World<B, V>, kv: Kv<V>, bs: nat, id: nat, d': SeqData, k: Key, q: CPool<B>, b: B)
    requires bs > 0 && Inv(w, kv, bs) && id in w.mgr.tables && NBlocks(d', bs) > 0
    requires k.Content? ==> LastBlockFull(d', bs)
    requires Contains(w.mgr.gpu, k) ==> k.Content?
    requires Acquired(w.mgr.gpu, k, BlockEnd(NBlocks(d', bs) - 1, bs), q, b) && b in w.store
    requires Contains(w.mgr.gpu, k) ==> Holds(w.store[b], kv, d'.lora, Tokens(d'),
             BlockEnd(NBlocks(d', bs) - 1, bs) - bs)
    ensures UnheldByOthers(w.mgr.tables, id, b) || Matches(w, kv, bs, d', q, b)
  {
    hide Holds, KeyTokens, PrefixKey, NBlocks, CachedOk, TableOk, BlockEnd, KeyTrue, TableTrue, Contains, Tokens,
         LastBlockFull, Counted, Frame;
    if !Contains(w.mgr.gpu, k) {
      assert b in q.all by { hide Inv; }
      NoRefsUnheld(w.mgr.gpu, w.mgr.tables, b);
    }
  }

  /** Executing the step's copies and writing the entry makes the finished world. */
  lemma AppendWorldIs<B, V>(w: World<B, V>, kv: Kv<V>, bs: nat, id: nat, d': SeqData, q: CPool<B>, t': seq<B>,
          pairs: Pairs<B>, b: B, c: seq<V>)
    requires bs > 0 && |Tokens(d')| > 0 && t' != [] && t'[|t'| - 1] == b && b in w.store
    requires (pairs == [] && c == w.store[b])
          || (|pairs| == 1 && pairs[0].1 == b && pairs[0].0 in w.store && c == w.store[pairs[0].0])
    ensures AppendWorld(w, kv, bs, id, d', CState(q, w.mgr.tables[id := t']), pairs)
            == Finished(w, kv, bs, id, d', q, t', b, c)
  {
    hide Tokens, Written;
    if pairs == [] {
      assert SequentialCopy(w.store, pairs) == w.store[b := c];
    } else {
      assert pairs[..0] == [] && SequentialCopy(w.store, pairs[..0]) == w.store;
      assert SequentialCopy(w.store, pairs) == w.store[b := c];
    }
  }

  lemma FinishComplete<B, V>(w: World<B, V>, kv: Kv<V>, bs: nat, id: nat, d': SeqData, q: CPool<B>, t': seq<B>, b: B,
          c: seq<V>)
    requires bs > 0 && |Tokens(d')| > 0 && Complete(w, bs) && |t'| == NBlocks(d', bs)
    ensures Complete(Finished(w, kv, bs, id, d', q, t', b, c), bs)
  {
  }

  lemma PlacedByMatch<B, V>(w: World<B, V>, kv: Kv<V>, bs: nat, id: nat, d': SeqData, q: CPool<B>, b: B,
          pairs: Pairs<B>)
    requires bs > 0 && id in w.mgr.tables && NBlocks(d', bs) > 0 && KeysKept(w.mgr.gpu, q, b) && b in q.info
    requires LastBlockFull(d', bs) ==> q.info[b].key == HashOfBlock(d', NBlocks(d', bs) - 1, bs)
    requires UnheldByOthers(w.mgr.tables, id, b) || Matches(w, kv, bs, d', q, b)
    requires var t := w.mgr.tables[id];
             if |t| < NBlocks(d', bs) then pairs == []
             else if pairs == [] then b == t[|t| - 1] || LastBlockFull(d', bs)
             else b != t[|t| - 1] && pairs == [(t[|t| - 1], b)] && Refs(w.mgr.gpu, t[|t| - 1]) >= 2
    ensures PlacedBlock(w.mgr, bs, id, d', q, b, pairs)
  {
    hide NBlocks, LastBlockFull, KeysKept, UnheldByOthers, Holds, BlockEnd, PrefixKey, Tokens;
  }

  /** Assembles a case: the result of append_slots is `q`, `t'` and `pairs`. */
  lemma Assemble<B, V>(w: World<B, V>, kv: Kv<V>, bs: nat, id: nat, d': SeqData, q: CPool<B>, t': seq<B>,
          pairs: Pairs<B>, b: B, c: seq<V>)
    requires Ready(w, kv, bs, id, d')
    requires AppendSlots(w.mgr, bs, id, d') == Ok((CState(q, w.mgr.tables[id := t']), pairs))
    requires Retabled(w, bs, id, d', q, t', b) && b in w.store && |t'| == NBlocks(d', bs)
    requires |c| == bs && Holds(c, kv, d'.lora, Tokens(w.data[id]), BlockEnd(NBlocks(d', bs) - 1, bs) - bs)
    requires UnheldByOthers(w.mgr.tables, id, b) || Matches(w, kv, bs, d', q, b)
    requires (pairs == [] && c == w.store[b])
          || (|pairs| == 1 && pairs[0].1 == b && pairs[0].0 in w.store && c == w.store[pairs[0].0])
    requires NumFree(q) >= NumFree(w.mgr.gpu) - 1 && |w.mgr.tables[id]| <= NBlocks(d', bs)
    requires PlacedBlock(w.mgr, bs, id, d', q, b, pairs)
    ensures AppendOutcome(w, kv, bs, id, d')
  {
    hide PlacedBlock, NBlocks, Tokens, Inv, Complete, Suits, Holds, BlockEnd, Counted, PoolOk, KeysKept, Matches,
         UnheldByOthers, AppendSlots, SequentialCopy, Finished, Extends;
    assert t'[|t'| - 1] == b;
    FinishAppend(w, kv, bs, id, d', q, t', b, c);
    AppendWorldIs(w, kv, bs, id, d', q, t', pairs, b, c);
    FinishComplete(w, kv, bs, id, d', q, t', b, c);
  }

  lemma AppendNewBlock<B, V>(w: World<B, V>, kv: Kv<V>, bs: nat, id: nat, d': SeqData)
    requires Ready(w, kv, bs, id, d') && |w.mgr.tables[id]| < NBlocks(d', bs)
    ensures AppendOutcome(w, kv, bs, id, d')
  {
    hide Holds, KeyTokens, PrefixKey, NBlocks, PoolOk, BlockEnd, KeyTrue, TableTrue, Contains, Tokens, LastBlockFull,
         Frame, Inv, AllocateLast, UnheldByOthers, Matches, Suits, AppendWorld, SequentialCopy;
    var t, n, d := w.mgr.tables[id], NBlocks(d', bs), w.data[id];
    NewSlot(d, d', bs);
    InvParts(w, kv, bs);
    AllocateLastKeeps(w, kv, bs, id, d');
    if AllocateLast(w.mgr.gpu, d', bs).Ok? {
      var (q, b) := AllocateLast(w.mgr.gpu, d', bs).value;
      assert t[..n - 1] == t;
      PushCounted(w.mgr.gpu, q, w.mgr.tables, id, b);
      NothingYet(w.store[b], kv, d'.lora, Tokens(d), BlockEnd(n - 1, bs) - bs);
      PlacedByMatch(w, kv, bs, id, d', q, b, []);
      Assemble(w, kv, bs, id, d', q, t + [b], [], b, w.store[b]);
    }
  }

  lemma NothingYet<V>(c: seq<V>, kv: Kv<V>, lora: nat, toks: seq<Token>, start: int)
    requires |toks| <= start
    ensures Holds(c, kv, lora, toks, start)
  {
  }

  /** The last block of a table that has room for the new token. */
  ghost predicate LastFacts<B, V>(w: World<B, V>, kv: Kv<V>, bs: nat, id: nat, d': SeqData, last: B)
    requires bs > 0 && id in w.mgr.tables && id in w.data
  {
    var t, n, d, p := w.mgr.tables[id], NBlocks(d', bs), w.data[id], w.mgr.gpu;
    && |t| == n > 0 && t == t[..n - 1] + [last] && last !in t[..n - 1]
    && last in p.info && p.info[last].refs > 0 && last in w.store && |w.store[last]| == bs
    && Suits(p, last, d', n - 1, bs)
    && Holds(w.store[last], kv, d'.lora, Tokens(d), BlockEnd(n - 1, bs) - bs)
    && p.info[last].key != HashOfBlock(d', n - 1, bs)
    && (p.info[last].refs == 1 ==> UnheldByOthers(w.mgr.tables, id, last))
  }

  lemma LastBlockFacts<B, V>(w: World<B, V>, kv: Kv<V>, bs: nat, id: nat, d': SeqData)
    requires Ready(w, kv, bs, id, d') && |w.mgr.tables[id]| >= NBlocks(d', bs)
    ensures w.mgr.tables[id] != []
    ensures LastFacts(w, kv, bs, id, d', w.mgr.tables[id][|w.mgr.tables[id]| - 1])
  {
    hide Holds, KeyTokens, PrefixKey, NBlocks, CachedOk, TableOk, Counted, BlockEnd, KeyTrue, Contains, Tokens,
         LastBlockFull, Inv, UnheldByOthers;
    var t, n, d, p := w.mgr.tables[id], NBlocks(d', bs), w.data[id], w.mgr.gpu;
    NewSlot(d, d', bs);
    InvParts(w, kv, bs);
    assert |t| == n;
    var last := t[n - 1];
    TableDistinct(w, kv, bs, id);
    assert BlockTrue(w, kv, bs, id, n - 1);
    HeldHasRefs(p, w.mgr.tables, id, last);
    ExtendsTokens(d, d');
    OldKeySuits(w, kv, bs, d, d', last);
    assert t == t[..n - 1] + [last];
  }

  /** A key that was a prefix before the token arrived still is, and is not the key of all the tokens. */
  lemma OldKeySuits<B, V>(w: World<B, V>, kv: Kv<V>, bs: nat, d: SeqData, d': SeqData, last: B)
    requires bs > 0 && Extends(d, d') && last in w.mgr.gpu.info && KeyTrue(w, kv, bs, last)
    requires NBlocks(d', bs) > 0 && Fits(w.mgr.gpu, last, d, NBlocks(d', bs) - 1, bs)
    ensures Suits(w.mgr.gpu, last, d', NBlocks(d', bs) - 1, bs)
    ensures w.mgr.gpu.info[last].key != HashOfBlock(d', NBlocks(d', bs) - 1, bs)
  {
    hide Holds, KeyTokens, PrefixKey, Tokens, LastBlockFull;
    var n := NBlocks(d', bs);
    ExtendsTokens(d, d');
    PrefixKeyTokens(d', BlockEnd(n - 1, bs));
    NewSlot(d, d', bs);
    BlockEndBasics(n - 1, bs);
    Paging.NBlocksFits(|Tokens(d')|, bs);
    assert Clip(BlockEnd(n - 1, bs), |Tokens(d')|) == |Tokens(d')|;
  }

  lemma AppendByCopy<B, V>(w: World<B, V>, kv: Kv<V>, bs: nat, id: nat, d': SeqData)
    requires Ready(w, kv, bs, id, d') && |w.mgr.tables[id]| >= NBlocks(d', bs)
    requires w.mgr.tables[id] != [] && Refs(w.mgr.gpu, w.mgr.tables[id][|w.mgr.tables[id]| - 1]) != 1
    ensures AppendOutcome(w, kv, bs, id, d')
  {
    hide Holds, KeyTokens, PrefixKey, NBlocks, PoolOk, Counted, BlockEnd, KeyTrue, TableTrue, Contains, Tokens,
         LastBlockFull, Frame, Inv, AllocateLast, Release, UnheldByOthers, AppendWorld, SequentialCopy, Fits;
    var t, n, d, p := w.mgr.tables[id], NBlocks(d', bs), w.data[id], w.mgr.gpu;
    var last := t[|t| - 1];
    LastBlockFacts(w, kv, bs, id, d');
    AllocateLastKeeps(w, kv, bs, id, d');
    if AllocateLast(p, d', bs).Ok? {
      var (q, b) := AllocateLast(p, d', bs).value;
      assert b != last;
      ReleaseKeeps(q, last);
      var r := Release(q, last).value;
      InvParts(w, kv, bs);
      ReplaceCounted(p, r, w.mgr.tables, id, last, b);
      assert Suits(r, b, d', n - 1, bs) by { FitsSame(q, r, b, d', n - 1, bs); }
      PlacedByMatch(w, kv, bs, id, d', r, b, [(last, b)]);
      Assemble(w, kv, bs, id, d', r, t[..n - 1] + [b], [(last, b)], b, w.store[last]);
    }
  }

  lemma FitsSame<B>(q: CPool<B>, r: CPool<B>, b: B, d: SeqData, i: nat, bs: nat)
    requires bs > 0 && Suits(q, b, d, i, bs) && b in r.info
    requires r.info[b].key == q.info[b].key && r.info[b].numHashed == q.info[b].numHashed
    ensures Suits(r, b, d, i, bs)
  {
  }

  lemma ReplaceCounted<B>(p: CPool<B>, r: CPool<B>, tables: map<nat, seq<B>>, id: nat, last: B, b: B)
    requires Counted(p, tables) && id in tables && tables[id] != [] && last == tables[id][|tables[id]| - 1]
    requires var init := tables[id][..|tables[id]| - 1]; last !in init && b !in init && b != last
    requires r.all == p.all && Refs(r, b) == Refs(p, b) + 1 && Refs(r, last) == Refs(p, last) - 1
    requires forall x :: x in p.all && x != b && x != last ==> Refs(r, x) == Refs(p, x)
    ensures Counted(r, tables[id := tables[id][..|tables[id]| - 1] + [b]])
  {
    hide Counted, Refs;
    var t := tables[id];
    assert t == t[..|t| - 1] + [last];
    RetableCounted(p, r, tables, id, t[..|t| - 1] + [b]);
  }

  ghost predicate Alone<B, V>(w: World<B, V>, kv: Kv<V>, bs: nat, id: nat, d': SeqData) {
    && Ready(w, kv, bs, id, d') && |w.mgr.tables[id]| >= NBlocks(d', bs)
    && w.mgr.tables[id] != [] && Refs(w.mgr.gpu, w.mgr.tables[id][|w.mgr.tables[id]| - 1]) == 1
  }

  /** Room in a block of its own, which stays partial and keeps its key. */
  lemma AppendInPlace<B, V>(w: World<B, V>, kv: Kv<V>, bs: nat, id: nat, d': SeqData)
    requires Alone(w, kv, bs, id, d') && !LastBlockFull(d', bs)
    ensures AppendOutcome(w, kv, bs, id, d')
  {
    hide Holds, KeyTokens, PrefixKey, NBlocks, PoolOk, Counted, BlockEnd, KeyTrue, TableTrue, Contains, Tokens,
         LastBlockFull, Frame, Inv, AllocateLast, Release, UnheldByOthers, AppendWorld, SequentialCopy, Suits;
    var t, n, d, p := w.mgr.tables[id], NBlocks(d', bs), w.data[id], w.mgr.gpu;
    var last := t[|t| - 1];
    LastBlockFacts(w, kv, bs, id, d');
    InvParts(w, kv, bs);
    assert w.mgr.tables[id := t] == w.mgr.tables;
    PlacedByMatch(w, kv, bs, id, d', p, last, []);
    Assemble(w, kv, bs, id, d', p, t[..n - 1] + [last], [], last, w.store[last]);
  }

  /** The block became full and its content is new: it takes the key of its content. */
  lemma AppendRehashed<B, V>(w: World<B, V>, kv: Kv<V>, bs: nat, id: nat, d': SeqData)
    requires Alone(w, kv, bs, id, d') && LastBlockFull(d', bs) && NBlocks(d', bs) > 0
    requires !Contains(w.mgr.gpu, HashOfBlock(d', NBlocks(d', bs) - 1, bs))
    ensures AppendOutcome(w, kv, bs, id, d')
  {
    hide Holds, KeyTokens, PrefixKey, NBlocks, PoolOk, Counted, BlockEnd, KeyTrue, TableTrue, Contains, Tokens,
         LastBlockFull, Frame, Inv, AllocateLast, Release, UpdateHash, UnheldByOthers, AppendWorld, SequentialCopy;
    var t, n, d, p := w.mgr.tables[id], NBlocks(d', bs), w.data[id], w.mgr.gpu;
    var last, k := t[|t| - 1], HashOfBlock(d', n - 1, bs);
    LastBlockFacts(w, kv, bs, id, d');
    InvParts(w, kv, bs);
    PrefixKeyTokens(d', BlockEnd(n - 1, bs));
    UpdateHashKeeps(p, k, last);
    var q := UpdateHash(p, k, last).value;
    SameRefsCounted(p, q, w.mgr.tables, last);
    OwnKeySuits(q, last, d', n - 1, bs);
    assert w.mgr.tables[id := t] == w.mgr.tables;
    PlacedByMatch(w, kv, bs, id, d', q, last, []);
    Assemble(w, kv, bs, id, d', q, t[..n - 1] + [last], [], last, w.store[last]);
  }

  lemma SameRefsCounted<B>(p: CPool<B>, q: CPool<B>, tables: map<nat, seq<B>>, b: B)
    requires Counted(p, tables) && OthersKept(p, q, b) && Refs(q, b) == Refs(p, b)
    ensures Counted(q, tables)
  {
  }

  /** The key of position `i` suits position `i`. */
  lemma OwnKeySuits<B>(q: CPool<B>, b: B, d: SeqData, i: nat, bs: nat)
    requires bs > 0 && i < NBlocks(d, bs) && b in q.info
    requires q.info[b].key == HashOfBlock(d, i, bs) && q.info[b].numHashed == BlockEnd(i, bs)
    ensures Suits(q, b, d, i, bs)
  {
    hide PrefixKey, Tokens, NBlocks;
    PrefixKeyTokens(d, BlockEnd(i, bs));
    KeyEnds(d, i, bs);
  }

  /** The block became full and its content exists: the existing block replaces it. */
  lemma AppendReplaced<B, V>(w: World<B, V>, kv: Kv<V>, bs: nat, id: nat, d': SeqData)
    requires Alone(w, kv, bs, id, d') && LastBlockFull(d', bs) && NBlocks(d', bs) > 0
    requires Contains(w.mgr.gpu, HashOfBlock(d', NBlocks(d', bs) - 1, bs))
    ensures AppendOutcome(w, kv, bs, id, d')
  {
    hide Holds, KeyTokens, PrefixKey, NBlocks, PoolOk, Counted, BlockEnd, KeyTrue, TableTrue, Contains, Tokens,
         LastBlockFull, Inv, AllocateLast, Release, Acquire, UnheldByOthers, AppendWorld, SequentialCopy;
    var t, n, d, p := w.mgr.tables[id], NBlocks(d', bs), w.data[id], w.mgr.gpu;
    var last, k := t[|t| - 1], HashOfBlock(d', n - 1, bs);
    LastBlockFacts(w, kv, bs, id, d');
    InvParts(w, kv, bs);
    PrefixKeyTokens(d', BlockEnd(n - 1, bs));
    ExchangeKeeps(p, last, k);
    var (r, b) := Acquire(Release(p, last).value, Some(k), 0).value;
    HitInWorld(w, kv, bs, d', n - 1, b);
    OwnKeySuits(r, b, d', n - 1, bs);
    TableDistinct(w, kv, bs, id);
    HitNotEarlier(w, bs, id, n - 1, b);
    ReplaceCounted(p, r, w.mgr.tables, id, last, b);
    ExtendsTokens(d, d');
    HoldsShorter(w.store[b], kv, d'.lora, Tokens(d), Tokens(d'), BlockEnd(n - 1, bs) - bs);
    PlacedByMatch(w, kv, bs, id, d', r, b, []);
    Assemble(w, kv, bs, id, d', r, t[..n - 1] + [b], [], b, w.store[b]);
  }

  /** Giving back a block of one's own and taking an existing one cannot run out. */
  lemma ExchangeKeeps<B>(p: CPool<B>, last: B, k: Key)
    requires PoolOk(p) && last in p.info && p.info[last].refs == 1 && p.info[last].key != k
    requires k.Content? && Contains(p, k)
    ensures Release(p, last).Ok? && Acquire(Release(p, last).value, Some(k), 0).Ok?
    ensures var (r, b) := Acquire(Release(p, last).value, Some(k), 0).value;
            Exchanged(p, last, k, r, b)
  {
    NumFreeNat(p);
    hide PoolOk, Contains, Release, Acquire, NumFree, Exchanged, OthersKept;
    ReleaseKeeps(p, last);
    var q := Release(p, last).value;
    assert Released(p, q, last) && NumFree(q) > 0;
    ContainsKept(p, q, last, k);
    AcquireKeeps(q, Some(k), 0);
    var (r, b) := Acquire(q, Some(k), 0).value;
    ExchangeIs(p, last, k, q, r, b);
  }

  lemma NumFreeNat<B>(p: CPool<B>)
    requires PoolOk(p)
    ensures NumFree(p) >= 0
  {
  }

  ghost predicate Exchanged<B>(p: CPool<B>, last: B, k: Key, r: CPool<B>, b: B) {
    && PoolOk(r) && r.all == p.all && KeysKept(p, r, b) && NumFree(r) >= NumFree(p)
    && b in p.info && b in r.info && b != last && p.info[b].key == k
    && r.info[b].key == k && r.info[b].numHashed == p.info[b].numHashed
    && Refs(r, b) == Refs(p, b) + 1 && Refs(r, last) == Refs(p, last) - 1
    && (forall x :: x in p.all && x != b && x != last ==> Refs(r, x) == Refs(p, x))
  }

  lemma ExchangeIs<B>(p: CPool<B>, last: B, k: Key, q: CPool<B>, r: CPool<B>, b: B)
    requires Released(p, q, last) && p.info[last].refs == 1 && p.info[last].key != k
    requires Acquired(q, k, 0, r, b) && Contains(q, k)
    ensures Exchanged(p, last, k, r, b)
  {
    hide PoolOk, Contains, NumFree;
    assert b != last;
    assert OthersKept(p, q, last) && OthersKept(q, r, b);
  }

  /** Hashes of created blocks are exactly the ones the allocator contains. */
  lemma ContainsKept<B>(p: CPool<B>, q: CPool<B>, last: B, k: Key)
    requires PoolOk(p) && PoolOk(q) && OthersKept(p, q, last) && Contains(p, k)
    requires last in p.info && p.info[last].key != k
    ensures Contains(q, k)
  {
    hide Keyed;
    var b :| b in p.info && p.info[b].key == k;
    if q.info[b].refs == 0 {
      assert (k, b) in q.table;
      var j :| 0 <= j < |q.table| && q.table[j] == (k, b);
      assert q.table[j].0 == k;
    }
  }

  lemma HitInWorld<B, V>(w: World<B, V>, kv: Kv<V>, bs: nat, d: SeqData, i: nat, b: B)
    requires bs > 0 && i < NBlocks(d, bs) && b in w.mgr.gpu.info && Inv(w, kv, bs)
    requires w.mgr.gpu.info[b].key == HashOfBlock(d, i, bs)
    ensures w.mgr.gpu.info[b].numHashed == BlockEnd(i, bs) && b in w.store && |w.store[b]| == bs
    ensures Holds(w.store[b], kv, d.lora, Tokens(d), BlockEnd(i, bs) - bs)
  {
    hide Holds, KeyTokens, PrefixKey, NBlocks, BlockEnd, Tokens, PoolOk, Counted;
    assert KeyTrue(w, kv, bs, b);
    HitHolds(w, kv, bs, d, i, b);
  }

  lemma HitNotEarlier<B, V>(w: World<B, V>, bs: nat, id: nat, i: nat, b: B)
    requires bs > 0 && id in w.mgr.tables && i <= |w.mgr.tables[id]|
    requires forall j :: 0 <= j < |w.mgr.tables[id]| ==>
               w.mgr.tables[id][j] in w.mgr.gpu.info && w.mgr.gpu.info[w.mgr.tables[id][j]].numHashed == BlockEnd(j, bs)
    requires b in w.mgr.gpu.info && w.mgr.gpu.info[b].numHashed == BlockEnd(i, bs)
    ensures b !in w.mgr.tables[id][..i]
  {
  }

  /** One append keeps the invariant and takes at most one block; it can only fail for want of one. */
  lemma AppendKeeps<B, V>(w: World<B, V>, kv: Kv<V>, bs: nat, id: nat, d': SeqData)
    requires Ready(w, kv, bs, id, d')
    ensures AppendOutcome(w, kv, bs, id, d')
  {
    hide Inv, Complete, NBlocks, LastBlockFull, AppendOutcome, Contains, Extends, PrefixKey, BlockEnd, Refs;
    if |w.mgr.tables[id]| < NBlocks(d', bs) {
      AppendNewBlock(w, kv, bs, id, d');
    } else {
      LastBlockFacts(w, kv, bs, id, d');
      if Refs(w.mgr.gpu, w.mgr.tables[id][|w.mgr.tables[id]| - 1]) != 1 {
        AppendByCopy(w, kv, bs, id, d');
      } else if !LastBlockFull(d', bs) {
        AppendInPlace(w, kv, bs, id, d');
      } else if Contains(w.mgr.gpu, HashOfBlock(d', NBlocks(d', bs) - 1, bs)) {
        AppendReplaced(w, kv, bs, id, d');
      } else {
        AppendRehashed(w, kv, bs, id, d');
      }
    }
  }
}
