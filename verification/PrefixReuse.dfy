/**
 * What an allocation reuses: every block of the new table is filed under the tokens up to its end,
 * a block that was filed so before is found again, and only the content that no sequence holds
 * costs a free block.
 */
module PrefixReuse {
  import opened Wrappers
  import opened Holding
  import opened Evictor
  import opened OrderedDict
  import opened CachedAllocator
  import opened PrefixCache
  import opened PrefixSoundness
  import BlockManager

  // ----- the tokens that a key stands for

  /**
   * The key says: the first `n` tokens of the sequence (all of them if it is shorter) under its LoRA
   * id, and where the prompt ends if they reach beyond it.
   */
  ghost predicate FiledUnder(k: Key, d: SeqData, n: nat) {
    && k.Content? && k.lora == d.lora && KeyTokens(k) == Tokens(d)[..Clip(n, |Tokens(d)|)]
    && (k.output.Some? <==> n > |d.prompt|) && (k.output.Some? ==> k.prompt == d.prompt)
  }

  /** Two sequences agree on their first `n` tokens, as far as a key tells. */
  ghost predicate SamePrefix(d: SeqData, d': SeqData, n: nat) {
    && d'.lora == d.lora && Tokens(d')[..Clip(n, |Tokens(d')|)] == Tokens(d)[..Clip(n, |Tokens(d)|)]
    && (n > |d'.prompt| <==> n > |d.prompt|) && (n > |d.prompt| ==> d'.prompt == d.prompt)
  }

  lemma PrefixKeyIff(k: Key, d: SeqData, n: nat)
    ensures FiledUnder(k, d, n) <==> k == PrefixKey(d, n)
  {
    PrefixKeyTokens(d, n);
    var x := PrefixKey(d, n);
    assert FiledUnder(x, d, n);
    if FiledUnder(k, d, n) {
      if n > |d.prompt| {
        var m := |d.prompt|;
        assert k.output.value == KeyTokens(k)[m..] && x.output.value == KeyTokens(x)[m..];
      } else {
        assert k.prompt == KeyTokens(k) && x.prompt == KeyTokens(x);
      }
    }
  }

  /** The hashes of two sequences agree exactly on a common prefix. */
  lemma KeysAgreeIff(d: SeqData, d': SeqData, n: nat)
    ensures PrefixKey(d, n) == PrefixKey(d', n) <==> SamePrefix(d, d', n)
  {
    hide PrefixKey, Tokens;
    PrefixKeyIff(PrefixKey(d, n), d, n);
    PrefixKeyIff(PrefixKey(d, n), d', n);
    PrefixKeyIff(PrefixKey(d', n), d', n);
  }

  /** One key is not that of two blocks of a sequence. */
  lemma FiledOnce(k: Key, d: SeqData, i: nat, j: nat, bs: nat)
    requires bs > 0 && i < NBlocks(d, bs) && j < NBlocks(d, bs)
    requires FiledUnder(k, d, BlockEnd(i, bs)) && FiledUnder(k, d, BlockEnd(j, bs))
    ensures i == j
  {
    hide NBlocks, BlockEnd, Tokens;
    KeyEnds(d, i, bs);
    KeyEnds(d, j, bs);
    assert |KeyTokens(k)| == Clip(BlockEnd(i, bs), |Tokens(d)|) == Clip(BlockEnd(j, bs), |Tokens(d)|);
  }

  // ----- what the pool has for a sequence

  /** Block `x` is filed under the tokens of `d` up to the end of block `i`. */
  ghost predicate FiledAt<B>(p: CPool<B>, x: B, d: SeqData, i: nat, bs: nat) {
    x in p.info && FiledUnder(p.info[x].key, d, (i + 1) * bs)
  }

  /** Some block is; with `live`, some block in use. */
  ghost predicate Present<B>(p: CPool<B>, d: SeqData, i: nat, bs: nat, live: bool) {
    exists x :: x in p.info && FiledAt(p, x, d, i, bs) && (live ==> Refs(p, x) > 0)
  }

  /** How many of the blocks `i` to `n - 1` the pool does not have. */
  ghost function Lacking<B>(p: CPool<B>, d: SeqData, bs: nat, live: bool, i: nat, n: nat): nat
    decreases n - i
  {
    if i >= n then 0 else Bit(!Present(p, d, i, bs, live)) + Lacking(p, d, bs, live, i + 1, n)
  }

  /** The table so far: its blocks are in use and filed under the tokens up to their ends. */
  ghost predicate TableFiled<B>(p: CPool<B>, d: SeqData, bs: nat, t: seq<B>) {
    forall i :: 0 <= i < |t| ==> FiledAt(p, t[i], d, i, bs) && Refs(p, t[i]) > 0
  }

  lemma FiledAtKey<B>(p: CPool<B>, x: B, d: SeqData, i: nat, bs: nat)
    ensures FiledAt(p, x, d, i, bs) <==> x in p.info && p.info[x].key == HashOfBlock(d, i, bs)
  {
    if x in p.info {
      PrefixKeyIff(p.info[x].key, d, BlockEnd(i, bs));
    }
  }

  /** A hash is found exactly if a created block has it. */
  lemma ContainsIff<B>(p: CPool<B>, k: Key)
    requires PoolOk(p)
    ensures Contains(p, k) <==> exists x :: x in p.info && p.info[x].key == k
  {
    hide Keyed;
    forall x | x in p.info && p.info[x].key == k
      ensures Contains(p, k)
    {
      if p.info[x].refs == 0 {
        var j :| 0 <= j < |p.table| && p.table[j] == (k, x);
      }
    }
    if Has(p.table, k) {
      var j :| 0 <= j < |p.table| && p.table[j].0 == k;
      assert p.info[p.table[j].1].key == k;
    }
  }

  // ----- one block

  /** The block acquired for position `i`, and what else the pool has for the sequence after that. */
  ghost predicate BlockGot<B>(p: CPool<B>, d: SeqData, bs: nat, i: nat, q: CPool<B>, b: B) {
    && PoolOk(q) && OthersKept(p, q, b) && FiledAt(q, b, d, i, bs) && Refs(q, b) == Refs(p, b) + 1
    && NumFree(q) == NumFree(p) - Bit(Refs(p, b) == 0)
    && (Refs(p, b) == 0 <==> !Present(p, d, i, bs, true))
    && (forall x :: x in p.info && FiledAt(p, x, d, i, bs) ==> x == b)
    && (b in p.info && !FiledAt(p, b, d, i, bs) ==> p.current >= |p.all|)
    && q.current == p.current + Bit(b !in p.info) && (b !in p.info ==> !Present(p, d, i, bs, false))
  }

  lemma GetBlock<B>(p: CPool<B>, d: SeqData, bs: nat, i: nat)
    requires bs > 0 && PoolOk(p)
    ensures var r := Acquire(p, Some(HashOfBlock(d, i, bs)), BlockEnd(i, bs));
            if r.Ok? then BlockGot(p, d, bs, i, r.value.0, r.value.1)
            else r == Err(OutOfMemory) && NumFree(p) == 0 && !Present(p, d, i, bs, true)
  {
    hide PoolOk, BlockEnd, PrefixKey, FiledAt, AcquireKey;
    var k := HashOfBlock(d, i, bs);
    PrefixKeyTokens(d, BlockEnd(i, bs));
    AcquireKeeps(p, Some(k), BlockEnd(i, bs));
    ContainsIff(p, k);
    var r := Acquire(p, Some(k), BlockEnd(i, bs));
    forall x
      ensures FiledAt(p, x, d, i, bs) <==> x in p.info && p.info[x].key == k
    {
      FiledAtKey(p, x, d, i, bs);
    }
    AcquireSource(p, k, BlockEnd(i, bs));
    if r.Ok? {
      var (q, b) := r.value;
      FiledAtKey(q, b, d, i, bs);
      forall x | x in p.info && p.info[x].key == k
        ensures x == b
      {
        HashesDistinct(p, x, b);
      }
    } else {
      assert !Contains(p, k);
    }
  }

  /** Acquiring block `i` changes nothing about the other blocks of the sequence, unless it evicts. */
  lemma PresentAfter<B>(p: CPool<B>, d: SeqData, bs: nat, i: nat, q: CPool<B>, b: B, j: nat, live: bool)
    requires bs > 0 && BlockGot(p, d, bs, i, q, b) && i != j && i < NBlocks(d, bs) && j < NBlocks(d, bs)
    requires live || p.current < |p.all| || Present(p, d, i, bs, false)
    ensures Present(q, d, j, bs, live) <==> Present(p, d, j, bs, live)
  {
    hide PoolOk, NBlocks, FiledUnder, NumFree;
    forall x | x in p.info && FiledAt(p, x, d, j, bs) && (live ==> Refs(p, x) > 0)
      ensures x != b && FiledAt(q, x, d, j, bs) && Refs(q, x) == Refs(p, x)
    {
      if FiledAt(p, x, d, i, bs) {
        FiledOnce(p.info[x].key, d, i, j, bs);
      }
    }
    forall x | x in q.info && FiledAt(q, x, d, j, bs)
      ensures x != b && FiledAt(p, x, d, j, bs) && Refs(q, x) == Refs(p, x)
    {
      if x == b {
        FiledOnce(q.info[x].key, d, i, j, bs);
      }
    }
  }

  lemma {:induction false} LackingAfter<B>(p: CPool<B>, d: SeqData, bs: nat, i: nat, q: CPool<B>, b: B, live: bool,
          a: nat, n: nat)
    requires bs > 0 && BlockGot(p, d, bs, i, q, b) && i < a && n <= NBlocks(d, bs) && i < NBlocks(d, bs)
    requires live || p.current < |p.all| || Present(p, d, i, bs, false)
    ensures Lacking(q, d, bs, live, a, n) == Lacking(p, d, bs, live, a, n)
    decreases n - a
  {
    hide NBlocks, BlockGot, Present;
    if a < n {
      PresentAfter(p, d, bs, i, q, b, a, live);
      LackingAfter(p, d, bs, i, q, b, live, a + 1, n);
    }
  }

  // ----- the table

  /** Blocks in use keep their hash, and gain a reference if the new part of the table has them. */
  ghost predicate UsesAdded<B>(p: CPool<B>, q: CPool<B>, added: seq<B>) {
    forall x :: x in p.info && Refs(p, x) > 0 ==>
                  x in q.info && q.info[x].key == p.info[x].key && Refs(q, x) == Refs(p, x) + Bit(x in added)
  }

  /** A block that was filed under the right tokens is found again, unless it was evicted for an earlier one. */
  ghost predicate Reuses<B>(p: CPool<B>, d: SeqData, bs: nat, m: nat, t: seq<B>) {
    forall i, x :: m <= i < |t| && x in p.info && FiledAt(p, x, d, i, bs) && x !in t[m..i] ==> t[i] == x
  }

  ghost predicate TableMade<B>(p: CPool<B>, d: SeqData, bs: nat, t: seq<B>, q: CPool<B>, t': seq<B>)
    requires bs > 0
  {
    && PoolOk(q) && q.all == p.all && |t'| == NBlocks(d, bs) && t <= t' && TableFiled(q, d, bs, t')
    && NumFree(q) == NumFree(p) - Lacking(p, d, bs, true, |t|, NBlocks(d, bs))
    && UsesAdded(p, q, t'[|t|..]) && Reuses(p, d, bs, |t|, t')
  }

  /**
   * The rest of a table: it is made exactly if there is a free block for each of its blocks whose
   * content no sequence holds, and it uses up just those.
   */
  lemma {:induction false} AllocateTableExact<B>(p: CPool<B>, d: SeqData, bs: nat, t: seq<B>)
    requires bs > 0 && PoolOk(p) && TableFiled(p, d, bs, t) && |t| <= NBlocks(d, bs)
    ensures var r := AllocateTable(p, d, bs, t);
            if Lacking(p, d, bs, true, |t|, NBlocks(d, bs)) <= NumFree(p)
            then r.Ok? && TableMade(p, d, bs, t, r.value.0, r.value.1)
            else r == Err(OutOfMemory)
    decreases NBlocks(d, bs) - |t|
  {
    hide PoolOk, NumFree, NBlocks, FiledAt, Present, Acquire, BlockEnd, PrefixKey, BlockGot, TableMade;
    var i := |t|;
    FreeNotNegative(p);
    if i == NBlocks(d, bs) {
      NothingAdded(p, d, bs, t);
    } else {
      GetBlock(p, d, bs, i);
      var r := Acquire(p, Some(HashOfBlock(d, i, bs)), BlockEnd(i, bs));
      if r.Ok? {
        var (q, b) := r.value;
        OneAdded(p, d, bs, t, q, b);
        LackingAfter(p, d, bs, i, q, b, true, i + 1, NBlocks(d, bs));
        AllocateTableExact(q, d, bs, t + [b]);
        var r' := AllocateTable(q, d, bs, t + [b]);
        if r'.Ok? {
          MoreAdded(p, d, bs, t, q, b, r'.value.0, r'.value.1);
        }
      }
    }
  }

  lemma FreeNotNegative<B>(p: CPool<B>)
    requires PoolOk(p)
    ensures NumFree(p) >= 0
  {
  }

  lemma NothingAdded<B>(p: CPool<B>, d: SeqData, bs: nat, t: seq<B>)
    requires bs > 0 && PoolOk(p) && TableFiled(p, d, bs, t) && |t| == NBlocks(d, bs)
    ensures TableMade(p, d, bs, t, p, t)
  {
    hide PoolOk, NumFree, NBlocks, FiledAt, Present;
  }

  lemma OneAdded<B>(p: CPool<B>, d: SeqData, bs: nat, t: seq<B>, q: CPool<B>, b: B)
    requires bs > 0 && TableFiled(p, d, bs, t) && |t| < NBlocks(d, bs) && BlockGot(p, d, bs, |t|, q, b)
    ensures PoolOk(q) && b !in t && TableFiled(q, d, bs, t + [b])
    ensures NumFree(q) == NumFree(p) - Bit(!Present(p, d, |t|, bs, true))
  {
    hide PoolOk, NumFree, NBlocks, FiledUnder;
    forall j | 0 <= j < |t|
      ensures t[j] != b && FiledAt(q, t[j], d, j, bs) && Refs(q, t[j]) > 0
    {
      if t[j] == b && FiledAt(p, b, d, |t|, bs) {
        FiledOnce(p.info[b].key, d, j, |t|, bs);
      }
    }
  }

  /** A block that was in use has been found by its hash. */
  lemma BlockKeepsKey<B>(p: CPool<B>, d: SeqData, bs: nat, i: nat, q: CPool<B>, b: B)
    requires bs > 0 && BlockGot(p, d, bs, i, q, b)
    ensures Refs(p, b) > 0 ==> b in q.info && q.info[b].key == p.info[b].key
  {
    hide PoolOk, NumFree, FiledUnder;
    if Refs(p, b) > 0 {
      PrefixKeyIff(p.info[b].key, d, (i + 1) * bs);
      PrefixKeyIff(q.info[b].key, d, (i + 1) * bs);
    }
  }

  lemma MoreAdded<B>(p: CPool<B>, d: SeqData, bs: nat, t: seq<B>, q: CPool<B>, b: B, q': CPool<B>, t': seq<B>)
    requires bs > 0 && |t| < NBlocks(d, bs) && TableFiled(p, d, bs, t) && BlockGot(p, d, bs, |t|, q, b)
    requires TableMade(q, d, bs, t + [b], q', t')
    requires Lacking(q, d, bs, true, |t| + 1, NBlocks(d, bs)) == Lacking(p, d, bs, true, |t| + 1, NBlocks(d, bs))
    ensures TableMade(p, d, bs, t, q', t')
  {
    hide PoolOk, NumFree, NBlocks, TableFiled, UsesAdded, Reuses, Present;
    var i := |t|;
    OneAdded(p, d, bs, t, q, b);
    assert t'[i] == b && t'[i..] == [b] + t'[i + 1..];
    TableNoDup(q', d, bs, t');
    BlockKeepsKey(p, d, bs, i, q, b);
    hide FiledAt;
    MoreUses(p, q, b, q', t'[i + 1..]);
    MoreReuses(p, q, b, d, bs, i, t');
  }

  lemma MoreUses<B>(p: CPool<B>, q: CPool<B>, b: B, q': CPool<B>, added: seq<B>)
    requires OthersKept(p, q, b) && Refs(q, b) == Refs(p, b) + 1 && b !in added
    requires Refs(p, b) > 0 ==> b in q.info && q.info[b].key == p.info[b].key
    requires UsesAdded(q, q', added)
    ensures UsesAdded(p, q', [b] + added)
  {
    forall x | x in p.info && Refs(p, x) > 0
      ensures x in q'.info && q'.info[x].key == p.info[x].key && Refs(q', x) == Refs(p, x) + Bit(x in [b] + added)
    {
      assert x in q.info && Refs(q, x) == Refs(p, x) + Bit(x == b);
    }
  }

  lemma MoreReuses<B>(p: CPool<B>, q: CPool<B>, b: B, d: SeqData, bs: nat, i: nat, t': seq<B>)
    requires OthersKept(p, q, b) && i < |t'| && t'[i] == b
    requires forall x :: x in p.info && FiledAt(p, x, d, i, bs) ==> x == b
    requires Reuses(q, d, bs, i + 1, t')
    ensures Reuses(p, d, bs, i, t')
  {
    hide FiledUnder;
    forall j, x | i <= j < |t'| && x in p.info && FiledAt(p, x, d, j, bs) && x !in t'[i..j]
      ensures t'[j] == x
    {
      if j > i {
        assert t'[i..j] == [b] + t'[i + 1..j];
        assert x in q.info && FiledAt(q, x, d, j, bs);
      }
    }
  }

  /** A filed table never repeats a block. */
  lemma TableNoDup<B>(p: CPool<B>, d: SeqData, bs: nat, t: seq<B>)
    requires bs > 0 && TableFiled(p, d, bs, t) && |t| <= NBlocks(d, bs)
    ensures NoDup(t)
  {
    hide NBlocks, FiledUnder, Refs;
    forall i, j | 0 <= i < j < |t|
      ensures t[i] != t[j]
    {
      if t[i] == t[j] {
        FiledOnce(p.info[t[i]].key, d, i, j, bs);
      }
    }
  }

  /**
   * A block that was filed under the right tokens is found again if it is in use, or if the blocks
   * that were never used suffice for what is missing before it: then nothing is evicted.
   */
  lemma {:induction false} FoundAgain<B>(p: CPool<B>, d: SeqData, bs: nat, t: seq<B>, i: nat, x: B)
    requires bs > 0 && PoolOk(p) && TableFiled(p, d, bs, t) && |t| <= i < NBlocks(d, bs)
    requires x in p.info && FiledAt(p, x, d, i, bs)
    requires Refs(p, x) > 0 || p.current + Lacking(p, d, bs, false, |t|, i) <= |p.all|
    ensures var r := AllocateTable(p, d, bs, t);
            r.Ok? ==> |r.value.1| == NBlocks(d, bs) && r.value.1[i] == x
    decreases NBlocks(d, bs) - |t|
  {
    hide PoolOk, NumFree, NBlocks, FiledAt, Present, Acquire, BlockEnd, PrefixKey, BlockGot, TableFiled;
    var a := |t|;
    GetBlock(p, d, bs, a);
    var r := Acquire(p, Some(HashOfBlock(d, a, bs)), BlockEnd(a, bs));
    if r.Ok? {
      var (q, b) := r.value;
      OneAdded(p, d, bs, t, q, b);
      if a < i {
        NotYetTaken(p, d, bs, a, i, q, b, x);
        FoundAgain(q, d, bs, t + [b], i, x);
      } else {
        TakenNow(p, d, bs, a, q, b, x);
        AllocateTableExact(q, d, bs, t + [b]);
      }
    }
  }

  lemma TakenNow<B>(p: CPool<B>, d: SeqData, bs: nat, i: nat, q: CPool<B>, b: B, x: B)
    requires BlockGot(p, d, bs, i, q, b) && x in p.info && FiledAt(p, x, d, i, bs)
    ensures b == x
  {
  }

  lemma NotYetTaken<B>(p: CPool<B>, d: SeqData, bs: nat, a: nat, i: nat, q: CPool<B>, b: B, x: B)
    requires bs > 0 && BlockGot(p, d, bs, a, q, b) && a < i < NBlocks(d, bs)
    requires x in p.info && FiledAt(p, x, d, i, bs)
    requires Refs(p, x) > 0 || p.current + Lacking(p, d, bs, false, a, i) <= |p.all|
    ensures b != x && x in q.info && FiledAt(q, x, d, i, bs)
    ensures Refs(q, x) > 0 || q.current + Lacking(q, d, bs, false, a + 1, i) <= |q.all|
  {
    hide PoolOk, NumFree, NBlocks, FiledUnder;
    if FiledAt(p, x, d, a, bs) {
      FiledOnce(p.info[x].key, d, a, i, bs);
    }
    if Refs(p, x) == 0 {
      LackingAfter(p, d, bs, a, q, b, false, a + 1, i);
    }
  }

  // ----- the operation

  /** The number of blocks whose content no sequence holds: what an allocation costs. */
  ghost function Cost<B>(p: CPool<B>, d: SeqData, bs: nat): nat
    requires bs > 0
  {
    Lacking(p, d, bs, true, 0, NBlocks(d, bs))
  }

  /**
   * `allocate`: it succeeds exactly if the free blocks cover the blocks whose content no sequence
   * holds, and uses up just those; every block of the new table is filed under the tokens up to its
   * end, and other tables keep theirs.
   */
  lemma AllocateExact<B>(s: CState<B>, bs: nat, id: nat, d: SeqData)
    requires bs > 0 && PoolOk(s.gpu)
    ensures var r := Allocate(s, bs, id, d);
            if Cost(s.gpu, d, bs) <= NumFree(s.gpu) then
              r.Ok? && r.value.tables.Keys == s.tables.Keys + {id}
              && r.value.tables == s.tables[id := r.value.tables[id]]
              && TableMade(s.gpu, d, bs, [], r.value.gpu, r.value.tables[id])
            else r == Err(OutOfMemory)
  {
    hide PoolOk, NumFree, NBlocks, TableMade, AllocateTable, FiledAt, Lacking;
    AllocateTableExact(s.gpu, d, bs, []);
  }

  /** The same tokens once more, while the first table lives: the same blocks, and none of the free ones. */
  lemma SecondIsFree<B>(s: CState<B>, bs: nat, id: nat, d: SeqData, d': SeqData, id': nat)
    requires bs > 0 && PoolOk(s.gpu) && id in s.tables && TableFiled(s.gpu, d, bs, s.tables[id])
    requires |s.tables[id]| == NBlocks(d, bs) == NBlocks(d', bs)
    requires forall i :: 0 <= i < NBlocks(d, bs) ==> SamePrefix(d, d', BlockEnd(i, bs))
    ensures var r := Allocate(s, bs, id', d');
            r.Ok? && r.value.tables[id'] == s.tables[id] && NumFree(r.value.gpu) == NumFree(s.gpu)
  {
    hide PoolOk, NumFree, NBlocks, PrefixKey, AllocateTable, FiledUnder, SamePrefix;
    var t, n := s.tables[id], NBlocks(d, bs);
    forall i | 0 <= i < n
      ensures FiledAt(s.gpu, t[i], d', i, bs)
    {
      FiledAtKey(s.gpu, t[i], d, i, bs);
      FiledAtKey(s.gpu, t[i], d', i, bs);
      KeysAgreeIff(d, d', BlockEnd(i, bs));
    }
    hide FiledAt, BlockEnd;
    NothingLacking(s.gpu, d', bs, t, 0);
    FreeNotNegative(s.gpu);
    AllocateExact(s, bs, id', d');
    var t' := Allocate(s, bs, id', d').value.tables[id'];
    forall i | 0 <= i < n
      ensures t'[i] == t[i]
    {
      FoundAgain(s.gpu, d', bs, [], i, t[i]);
    }
  }

  lemma {:induction false} NothingLacking<B>(p: CPool<B>, d: SeqData, bs: nat, t: seq<B>, i: nat)
    requires forall j :: 0 <= j < |t| ==> t[j] in p.info && FiledAt(p, t[j], d, j, bs) && Refs(p, t[j]) > 0
    ensures Lacking(p, d, bs, true, i, |t|) == 0
    decreases |t| - i
  {
    hide FiledAt;
    if i < |t| {
      NothingLacking(p, d, bs, t, i + 1);
      var x := t[i];
      assert x in p.info && FiledAt(p, x, d, i, bs) && Refs(p, x) > 0;
    }
  }

  // ----- an eviction that takes the table's own block

  /** Block 0 holds the tokens 1 and 2, block 1 holds something used later; nobody uses them. */
  ghost function LastTwo(): CPool<nat> {
    var k, other := Content([1, 2], None, 0), Content([9], None, 0);
    CPool([0, 1], 2, map[0 := Info(k, 0, 2, 0.0), 1 := Info(other, 0, 1, 1.0)], map[], [(k, 0), (other, 1)], 0)
  }

  /**
   * When nothing is left that was never used, the block evicted for the first position may be the
   * one that the second would have found.
   */
  lemma EvictsItsOwn()
    ensures PoolOk(LastTwo())
    ensures var d := SeqData([1, 2], [], 0);
            FiledAt(LastTwo(), 0, d, 1, 1) && AllocateTable(LastTwo(), d, 1, []).Ok?
            && AllocateTable(LastTwo(), d, 1, []).value.1 == [0, 1]
  {
    var p, d := LastTwo(), SeqData([1, 2], [], 0);
    LastTwoOk();
    assert NBlocks(d, 1) == 2 && NumFree(p) == 2 && p.all == [0, 1];
    LackingAtMost(p, d, 1, true, 0, 2);
    FirstEvicted();
    hide PoolOk, NBlocks, Lacking, NumFree, LastTwo, Acquire, PrefixKey, BlockEnd, FiledAt, TableMade, AllocateTable,
      Tokens;
    AllocateTableExact(p, d, 1, []);
    FirstOfTable(p, d, 1);
    OtherOfTwo(p, d, 1);
  }

  lemma FirstOfTable<B>(p: CPool<B>, d: SeqData, bs: nat)
    requires bs > 0 && PoolOk(p) && NBlocks(d, bs) > 0 && AllocateTable(p, d, bs, []).Ok?
    ensures var r := Acquire(p, Some(HashOfBlock(d, 0, bs)), BlockEnd(0, bs));
            var t := AllocateTable(p, d, bs, []).value.1;
            r.Ok? && t != [] && t[0] == r.value.1
  {
    hide PoolOk, NBlocks, Lacking, NumFree, Acquire, PrefixKey, BlockEnd, FiledAt, Refs, UsesAdded, Reuses, Tokens;
    GetBlock(p, d, bs, 0);
    var (q, b) := Acquire(p, Some(HashOfBlock(d, 0, bs)), BlockEnd(0, bs)).value;
    OneAdded(p, d, bs, [], q, b);
    assert [] + [b] == [b];
    assert AllocateTable(p, d, bs, []) == AllocateTable(q, d, bs, [b]);
    AllocateTableExact(q, d, bs, [b]);
  }

  lemma OtherOfTwo(p: CPool<nat>, d: SeqData, bs: nat)
    requires bs > 0 && PoolOk(p) && NBlocks(d, bs) == 2 && p.all == [0, 1] && AllocateTable(p, d, bs, []).Ok?
    requires var t := AllocateTable(p, d, bs, []).value.1; t != [] && t[0] == 0
    ensures AllocateTable(p, d, bs, []).value.1 == [0, 1]
  {
    hide PoolOk, NBlocks, Lacking, NumFree, FiledAt, Refs, AllocateTable, UsesAdded, Reuses, Tokens;
    AllocateTableExact(p, d, bs, []);
    var (q, t) := AllocateTable(p, d, bs, []).value;
    TableNoDup(q, d, bs, t);
    assert FiledAt(q, t[1], d, 1, bs);
    InAll(q, d, t[1], 1, bs);
    assert q.all == [0, 1];
    assert t == [t[0], t[1]];
  }

  lemma LastTwoOk()
    ensures PoolOk(LastTwo()) && FiledAt(LastTwo(), 0, SeqData([1, 2], [], 0), 1, 1)
  {
    var p := LastTwo();
    assert p.table[0] == (p.info[0].key, 0) && p.table[1] == (p.info[1].key, 1);
    assert Keyed(p) && CachedOk(p) && TableOk(p);
  }

  lemma FirstEvicted()
    ensures var d := SeqData([1, 2], [], 0);
            var r := Acquire(LastTwo(), Some(HashOfBlock(d, 0, 1)), BlockEnd(0, 1));
            r.Ok? && r.value.1 == 0
  {
    var p, d := LastTwo(), SeqData([1, 2], [], 0);
    LastTwoOk();
    var k := HashOfBlock(d, 0, 1);
    assert k == Content([1], None, 0);
    assert |[1]| == 1 && |[1, 2]| == 2;
    assert p.table[0].0 != k && p.table[1].0 != k;
    hide PoolOk, AcquireKey;
    AcquireSource(p, k, BlockEnd(0, 1));
    assert Victim(p.table, p.info) == 0;
  }

  lemma InAll<B>(p: CPool<B>, d: SeqData, b: B, i: nat, bs: nat)
    requires PoolOk(p) && FiledAt(p, b, d, i, bs)
    ensures b in p.all
  {
  }

  lemma {:induction false} LackingAtMost<B>(p: CPool<B>, d: SeqData, bs: nat, live: bool, i: nat, n: nat)
    requires i <= n
    ensures Lacking(p, d, bs, live, i, n) <= n - i
    decreases n - i
  {
    hide Present;
    if i < n {
      LackingAtMost(p, d, bs, live, i + 1, n);
    }
  }
}
