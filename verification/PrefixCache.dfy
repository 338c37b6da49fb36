/** The block manager with prefix caching: blocks are shared by the hash of the tokens they hold. */
module PrefixCache {
  import opened Wrappers
  import opened Holding
  import opened Evictor
  import opened CachedAllocator
  import BlockManager

  // ----- the sequence fields it reads

  datatype SeqData = SeqData(prompt: seq<Token>, output: seq<Token>, lora: nat)

  function Tokens(d: SeqData): seq<Token> {
    d.prompt + d.output
  }

  /** `get_prefix_token_ids` with the LoRA id: what `hash_of_block` hashes. */
  function PrefixKey(d: SeqData, n: nat): Key {
    if n > |d.prompt| then
      var m := n - |d.prompt|;
      Content(d.prompt, Some(if m < |d.output| then d.output[..m] else d.output), d.lora)
    else Content(d.prompt[..n], None, d.lora)
  }

  function BlockEnd(i: nat, bs: nat): nat {
    (i + 1) * bs
  }

  function HashOfBlock(d: SeqData, i: nat, bs: nat): Key {
    PrefixKey(d, BlockEnd(i, bs))
  }

  function NBlocks(d: SeqData, bs: nat): nat
    requires bs > 0
  {
    BlockManager.NBlocks(|Tokens(d)|, bs)
  }

  predicate LastBlockFull(d: SeqData, bs: nat)
    requires bs > 0
  {
    |Tokens(d)| > 0 && |Tokens(d)| % bs == 0
  }

  // ----- the operations

  datatype CState<B> = CState(gpu: CPool<B>, tables: map<nat, seq<B>>)

  function AllocateTable<B(==)>(p: CPool<B>, d: SeqData, bs: nat, t: seq<B>): Result<(CPool<B>, seq<B>)>
    requires bs > 0
    decreases NBlocks(d, bs) - |t|
  {
    if |t| >= NBlocks(d, bs) then Ok((p, t))
    else
      var (q, b) :- Acquire(p, Some(HashOfBlock(d, |t|, bs)), BlockEnd(|t|, bs));
      AllocateTable(q, d, bs, t + [b])
  }

  function Allocate<B(==)>(s: CState<B>, bs: nat, id: nat, d: SeqData): Result<CState<B>>
    requires bs > 0
  {
    var (p, t) :- AllocateTable(s.gpu, d, bs, []);
    Ok(CState(p, s.tables[id := t]))
  }

  function AllocateLast<B(==)>(p: CPool<B>, d: SeqData, bs: nat): Result<(CPool<B>, B)>
    requires bs > 0
  {
    var n := NBlocks(d, bs);
    if n == 0 then Err(AssertionFailed)
    else
      var want := if LastBlockFull(d, bs) then Some(HashOfBlock(d, n - 1, bs)) else None;
      var (q, b) :- Acquire(p, want, BlockEnd(n - 1, bs));
      if want.None? && Refs(q, b) != 1 then Err(AssertionFailed) else Ok((q, b))
  }

  /** A block that has just become full takes the hash of its tokens, or gives way to the block that has it. */
  function Promote<B(==)>(p: CPool<B>, d: SeqData, bs: nat, last: B): Result<(CPool<B>, B)>
    requires bs > 0
  {
    if !LastBlockFull(d, bs) then Ok((p, last))
    else
      var k := HashOfBlock(d, NBlocks(d, bs) - 1, bs);
      if Contains(p, k) then
        var q :- Release(p, last);
        Acquire(q, Some(k), 0)
      else
        var q :- UpdateHash(p, k, last);
        Ok((q, last))
  }

  function AppendSlots<B(==)>(s: CState<B>, bs: nat, id: nat, d: SeqData): Result<(CState<B>, seq<(B, B)>)>
    requires bs > 0
  {
    if id !in s.tables then Err(KeyError)
    else
      var t, n := s.tables[id], NBlocks(d, bs);
      if |t| < n then
        if |t| != n - 1 then Err(AssertionFailed)
        else
          var (p, b) :- AllocateLast(s.gpu, d, bs);
          Ok((CState(p, s.tables[id := t + [b]]), []))
      else if t == [] then Err(KeyError)
      else
        var last := t[|t| - 1];
        if Refs(s.gpu, last) == 1 then
          var (p, b) :- Promote(s.gpu, d, bs, last);
          Ok((CState(p, s.tables[id := t[..|t| - 1] + [b]]), []))
        else
          var (p, b) :- AllocateLast(s.gpu, d, bs);
          var q :- Release(p, last);
          Ok((CState(q, s.tables[id := t[..|t| - 1] + [b]]), [(last, b)]))
  }

  function Retain<B(==)>(p: CPool<B>, blocks: seq<B>): CPool<B> {
    p.(info := map b | b in p.info :: if b in blocks then p.info[b].(refs := p.info[b].refs + 1) else p.info[b])
  }

  function Fork<B(==)>(s: CState<B>, parent: nat, child: nat): CState<B> {
    if parent !in s.tables then s
    else CState(Retain(s.gpu, s.tables[parent]), s.tables[child := s.tables[parent]])
  }

  function ReleaseAll<B(==)>(p: CPool<B>, blocks: seq<B>): Result<CPool<B>>
    decreases |blocks|
  {
    if blocks == [] then Ok(p)
    else
      var q :- Release(p, blocks[0]);
      ReleaseAll(q, blocks[1..])
  }

  /** Frees the table, going through the set of its blocks in the order `order`. */
  function Free<B(==)>(s: CState<B>, id: nat, order: seq<B>): Result<CState<B>> {
    if id !in s.tables then Ok(s)
    else
      var p :- ReleaseAll(s.gpu, order);
      Ok(CState(p, s.tables - {id}))
  }

  function Access<B(==)>(s: CState<B>, id: nat, time: real): Result<CState<B>> {
    if id !in s.tables then Err(KeyError) else Ok(s.(gpu := Touched(s.gpu, s.tables[id], time)))
  }

  function Touched<B(==)>(p: CPool<B>, blocks: seq<B>, time: real): CPool<B> {
    p.(info := map b | b in p.info :: if b in blocks then p.info[b].(last := time) else p.info[b])
  }

  // ----- what a key says

  ghost function KeyTokens(k: Key): seq<Token>
    requires k.Content?
  {
    k.prompt + (if k.output.Some? then k.output.value else [])
  }

  ghost function Clip(n: nat, m: nat): nat {
    if n < m then n else m
  }

  lemma PrefixKeyTokens(d: SeqData, n: nat)
    ensures PrefixKey(d, n).Content? && PrefixKey(d, n).lora == d.lora
    ensures KeyTokens(PrefixKey(d, n)) == Tokens(d)[..Clip(n, |Tokens(d)|)]
  {
  }

  // ----- the world: the manager, the sequences, and the block contents

  datatype World<B, V> = World(mgr: CState<B>, data: map<nat, SeqData>, store: map<B, seq<V>>)

  /** The cache entry computed for the last token of a prefix, under a LoRA id. */
  type Kv<V> = (nat, seq<Token>) -> V

  /** The block, whose first position is `start`, holds the entries of the tokens that reach into it. */
  ghost predicate Holds<V>(block: seq<V>, kv: Kv<V>, lora: nat, toks: seq<Token>, start: int) {
    forall j :: 0 <= j < |block| && 0 <= start + j < |toks| ==> block[j] == kv(lora, toks[..start + j + 1])
  }

  /** The block suits position `i` of the sequence: right index, and its key is a prefix of the sequence. */
  ghost predicate Fits<B>(p: CPool<B>, b: B, d: SeqData, i: nat, bs: nat) {
    && b in p.info && p.info[b].numHashed == BlockEnd(i, bs)
    && (p.info[b].key.Content? ==> p.info[b].key.lora == d.lora && KeyTokens(p.info[b].key) <= Tokens(d))
  }

  /** A content key ends in the block it belongs to, and the block holds what the key says. */
  ghost predicate KeyTrue<B, V>(w: World<B, V>, kv: Kv<V>, bs: nat, b: B)
    requires bs > 0
  {
    && b in w.mgr.gpu.info && b in w.store
    && var i := w.mgr.gpu.info[b];
    i.key.Content? ==>
      && KeyTokens(i.key) != []
      && i.numHashed == BlockManager.NBlocks(|KeyTokens(i.key)|, bs) * bs
      && Holds(w.store[b], kv, i.key.lora, KeyTokens(i.key), i.numHashed - bs)
  }

  ghost predicate TableTrue<B, V>(w: World<B, V>, kv: Kv<V>, bs: nat, id: nat)
    requires bs > 0
  {
    && id in w.mgr.tables && id in w.data && |w.mgr.tables[id]| <= NBlocks(w.data[id], bs)
    && (forall i :: 0 <= i < |w.mgr.tables[id]| ==> BlockTrue(w, kv, bs, id, i))
  }

  ghost predicate BlockTrue<B, V>(w: World<B, V>, kv: Kv<V>, bs: nat, id: nat, i: nat)
    requires id in w.mgr.tables && id in w.data && i < |w.mgr.tables[id]|
  {
    var b, d := w.mgr.tables[id][i], w.data[id];
    && Fits(w.mgr.gpu, b, d, i, bs)
    && b in w.store && Holds(w.store[b], kv, d.lora, Tokens(d), BlockEnd(i, bs) - bs)
  }

  ghost predicate Frame<B, V>(w: World<B, V>, bs: nat) {
    && w.data.Keys == w.mgr.tables.Keys
    && w.store.Keys == Elems(w.mgr.gpu.all)
    && (forall b :: b in w.store ==> |w.store[b]| == bs)
  }

  /** The invariant; tables may still be growing. */
  ghost predicate Inv<B, V>(w: World<B, V>, kv: Kv<V>, bs: nat)
    requires bs > 0
  {
    && PoolOk(w.mgr.gpu) && Counted(w.mgr.gpu, w.mgr.tables) && Frame(w, bs)
    && (forall b :: b in w.mgr.gpu.info ==> KeyTrue(w, kv, bs, b))
    && (forall id :: id in w.mgr.tables ==> TableTrue(w, kv, bs, id))
  }

  ghost predicate Complete<B, V>(w: World<B, V>, bs: nat)
    requires bs > 0
  {
    forall id :: id in w.mgr.tables && id in w.data ==> |w.mgr.tables[id]| == NBlocks(w.data[id], bs)
  }

  // ----- positions

  lemma BlockEndBasics(i: nat, bs: nat)
    requires bs > 0
    ensures BlockEnd(i, bs) == i * bs + bs && BlockEnd(i, bs) >= bs
  {
  }

  lemma BlockEndMono(i: nat, j: nat, bs: nat)
    requires bs > 0 && i < j
    ensures BlockEnd(i, bs) <= j * bs && BlockEnd(i, bs) < BlockEnd(j, bs)
  {
  }

  lemma HoldsPrefix<V>(block: seq<V>, kv: Kv<V>, lora: nat, toks: seq<Token>, toks': seq<Token>, start: int)
    requires Holds(block, kv, lora, toks, start) && toks <= toks'
    requires start + |block| <= |toks|
    ensures Holds(block, kv, lora, toks', start)
  {
    forall j | 0 <= j < |block| && 0 <= start + j < |toks'|
      ensures block[j] == kv(lora, toks'[..start + j + 1])
    {
      assert toks'[..start + j + 1] == toks[..start + j + 1];
    }
  }

  lemma HoldsShorter<V>(block: seq<V>, kv: Kv<V>, lora: nat, toks: seq<Token>, toks': seq<Token>, start: int)
    requires Holds(block, kv, lora, toks', start) && toks <= toks'
    ensures Holds(block, kv, lora, toks, start)
  {
    forall j | 0 <= j < |block| && 0 <= start + j < |toks|
      ensures block[j] == kv(lora, toks[..start + j + 1])
    {
      assert toks'[..start + j + 1] == toks[..start + j + 1];
    }
  }
}
