/** Runs of the prefix-caching manager: shared blocks always hold what each of their owners expects. */
module PrefixRuns {
  import opened Wrappers
  import opened Holding
  import opened Evictor
  import opened CachedAllocator
  import opened PrefixCache
  import opened PrefixSoundness
  import opened PrefixAppend
  import opened PrefixReuse
  import Arith
  import BlockManager
  import Paging

  // ----- allocate

  /** The entries of a prompt written into the blocks of its table. */
  ghost function PromptStore<B, V>(store: map<B, seq<V>>, kv: Kv<V>, bs: nat, d: SeqData, t: seq<B>): map<B, seq<V>>
    decreases |t|
  {
    if t == [] then store
    else
      var s, b := PromptStore(store, kv, bs, d, t[..|t| - 1]), t[|t| - 1];
      if b in s then s[b := Filled(s[b], kv, d.lora, Tokens(d), BlockEnd(|t| - 1, bs) - bs)] else s
  }

  ghost function Growing<B, V>(w: World<B, V>, kv: Kv<V>, bs: nat, id: nat, d: SeqData, p: CPool<B>,
          t: seq<B>): World<B, V> {
    World(CState(p, w.mgr.tables[id := t]), w.data[id := d], PromptStore(w.store, kv, bs, d, t))
  }

  lemma GrowStart<B, V>(w: World<B, V>, kv: Kv<V>, bs: nat, id: nat, d: SeqData)
    requires bs > 0 && Inv(w, kv, bs) && id !in w.mgr.tables
    ensures Inv(Growing(w, kv, bs, id, d, w.mgr.gpu, []), kv, bs)
  {
    hide Holds, KeyTokens, NBlocks, PoolOk, BlockEnd, Tokens, Fits;
    var w' := Growing(w, kv, bs, id, d, w.mgr.gpu, []);
    EmptyCounted(w.mgr.gpu, w.mgr.tables, id);
    hide Counted;
    forall b | b in w'.mgr.gpu.info
      ensures KeyTrue(w', kv, bs, b)
    {
      assert KeyTrue(w, kv, bs, b);
    }
    forall k | k in w'.mgr.tables
      ensures TableTrue(w', kv, bs, k)
    {
      if k != id {
        SameTableTrue(w, w', kv, bs, k);
      }
    }
  }

  lemma EmptyCounted<B>(p: CPool<B>, tables: map<nat, seq<B>>, id: nat)
    requires Counted(p, tables) && id !in tables
    ensures Counted(p, tables[id := []])
  {
    forall b | b in p.all
      ensures Refs(p, b) == |Holders(tables[id := []], b)|
    {
      HoldersUpdate(tables, id, [], b);
    }
  }

  /** A table whose blocks keep key, position and contents stays true. */
  lemma SameTableTrue<B, V>(w: World<B, V>, w': World<B, V>, kv: Kv<V>, bs: nat, k: nat)
    requires bs > 0 && TableTrue(w, kv, bs, k) && k in w'.mgr.tables && k in w'.data
    requires w'.mgr.tables[k] == w.mgr.tables[k] && w'.data[k] == w.data[k]
    requires forall b :: b in w.mgr.tables[k] && b in w.mgr.gpu.info && b in w.store ==> Kept(w, w', b)
    ensures TableTrue(w', kv, bs, k)
  {
    hide Holds, KeyTokens, NBlocks, BlockEnd, Tokens;
    forall i | 0 <= i < |w'.mgr.tables[k]|
      ensures BlockTrue(w', kv, bs, k, i)
    {
      assert BlockTrue(w, kv, bs, k, i);
      assert w.mgr.tables[k][i] in w.mgr.tables[k];
    }
  }

  lemma GrowPush<B, V>(w: World<B, V>, kv: Kv<V>, bs: nat, id: nat, d: SeqData, p: CPool<B>, t: seq<B>, q: CPool<B>,
          b: B)
    requires var g := Growing(w, kv, bs, id, d, p, t); b in g.store
    ensures Pushed(Growing(w, kv, bs, id, d, p, t), kv, bs, id, q, b) == Growing(w, kv, bs, id, d, q, t + [b])
  {
    hide Filled, Tokens, BlockEnd;
    assert (t + [b])[..|t|] == t;
  }

  /** The rest of the table: it fails only if there are fewer free blocks than are still needed. */
  lemma {:induction false} AllocateRest<B, V>(w: World<B, V>, kv: Kv<V>, bs: nat, id: nat, d: SeqData, p: CPool<B>,
          t: seq<B>)
    requires bs > 0 && Inv(Growing(w, kv, bs, id, d, p, t), kv, bs) && |t| <= NBlocks(d, bs)
    ensures match AllocateTable(p, d, bs, t)
            case Err(e) => e == OutOfMemory && NumFree(p) < NBlocks(d, bs) - |t|
            case Ok((q, t')) =>
              && Inv(Growing(w, kv, bs, id, d, q, t'), kv, bs) && |t'| == NBlocks(d, bs)
              && NumFree(q) >= NumFree(p) - (NBlocks(d, bs) - |t|)
    decreases NBlocks(d, bs) - |t|
  {
    hide Inv, NBlocks, NumFree, PrefixKey, BlockEnd, Tokens, PromptStore, Acquire, PoolOk;
    if |t| < NBlocks(d, bs) {
      var g := Growing(w, kv, bs, id, d, p, t);
      InvParts(g, kv, bs);
      PrefixKeyTokens(d, BlockEnd(|t|, bs));
      AcquireKeeps(p, Some(HashOfBlock(d, |t|, bs)), BlockEnd(|t|, bs));
      var r := Acquire(p, Some(HashOfBlock(d, |t|, bs)), BlockEnd(|t|, bs));
      if r.Ok? {
        var (q, b) := r.value;
        PushKeeps(g, kv, bs, id, q, b);
        GrowPush(w, kv, bs, id, d, p, t, q, b);
        AllocateRest(w, kv, bs, id, d, q, t + [b]);
      }
    }
  }

  ghost function AllocateWorld<B, V>(w: World<B, V>, kv: Kv<V>, bs: nat, id: nat, d: SeqData, s: CState<B>): World<B,
          V> {
    World(s, w.data[id := d], if id in s.tables then PromptStore(w.store, kv, bs, d, s.tables[id]) else w.store)
  }

  /**
   * `allocate` of a new sequence keeps the invariant; it succeeds exactly if the free blocks cover
   * the blocks whose content nobody holds, files every block under its tokens, and reuses what is there.
   */
  lemma AllocateKeeps<B, V>(w: World<B, V>, kv: Kv<V>, bs: nat, id: nat, d: SeqData)
    requires bs > 0 && Inv(w, kv, bs) && Complete(w, bs) && id !in w.mgr.tables
    ensures match Allocate(w.mgr, bs, id, d)
            case Err(e) => e == OutOfMemory && NumFree(w.mgr.gpu) < Cost(w.mgr.gpu, d, bs)
            case Ok(s) =>
              var w' := AllocateWorld(w, kv, bs, id, d, s);
              && Inv(w', kv, bs) && Complete(w', bs) && s.tables == w.mgr.tables[id := s.tables[id]]
              && TableMade(w.mgr.gpu, d, bs, [], s.gpu, s.tables[id])
              && NumFree(s.gpu) == NumFree(w.mgr.gpu) - Cost(w.mgr.gpu, d, bs)
  {
    hide Inv, NBlocks, NumFree, Tokens, PromptStore, AllocateTable, UsesAdded, Reuses, TableFiled, Lacking, PoolOk;
    InvParts(w, kv, bs);
    AllocateExact(w.mgr, bs, id, d);
    GrowStart(w, kv, bs, id, d);
    AllocateRest(w, kv, bs, id, d, w.mgr.gpu, []);
  }

  // ----- operations that only move references

  ghost predicate RefsOnly<B>(p: CPool<B>, q: CPool<B>) {
    && q.all == p.all && q.info.Keys == p.info.Keys
    && (forall b :: b in p.info && b in q.info ==>
          q.info[b].key == p.info[b].key && q.info[b].numHashed == p.info[b].numHashed)
  }

  /** Every table of `w'` is one of `w`, perhaps under another name. */
  ghost predicate OldTables<B, V>(w: World<B, V>, w': World<B, V>) {
    forall k :: k in w'.mgr.tables ==> k in w'.data && exists o :: HasTable(w, o, w'.mgr.tables[k], w'.data[k])
  }

  ghost predicate HasTable<B, V>(w: World<B, V>, o: nat, t: seq<B>, d: SeqData) {
    o in w.mgr.tables && o in w.data && w.mgr.tables[o] == t && w.data[o] == d
  }

  lemma RefsOnlyKeeps<B, V>(w: World<B, V>, w': World<B, V>, kv: Kv<V>, bs: nat)
    requires bs > 0 && Inv(w, kv, bs) && Complete(w, bs)
    requires w'.store == w.store && RefsOnly(w.mgr.gpu, w'.mgr.gpu) && OldTables(w, w')
             && w'.data.Keys == w'.mgr.tables.Keys
    requires PoolOk(w'.mgr.gpu) && Counted(w'.mgr.gpu, w'.mgr.tables)
    ensures Inv(w', kv, bs) && Complete(w', bs)
  {
    hide Holds, KeyTokens, NBlocks, PoolOk, BlockEnd, Tokens, Counted;
    forall b | b in w'.mgr.gpu.info
      ensures KeyTrue(w', kv, bs, b)
    {
      assert KeyTrue(w, kv, bs, b);
    }
    forall k | k in w'.mgr.tables
      ensures TableTrue(w', kv, bs, k) && |w'.mgr.tables[k]| == NBlocks(w'.data[k], bs)
    {
      var o :| HasTable(w, o, w'.mgr.tables[k], w'.data[k]);
      assert TableTrue(w, kv, bs, o);
      forall i | 0 <= i < |w'.mgr.tables[k]|
        ensures BlockTrue(w', kv, bs, k, i)
      {
        assert BlockTrue(w, kv, bs, o, i);
      }
    }
  }

  // ----- fork

  lemma RetainKeeps<B>(p: CPool<B>, blocks: seq<B>)
    requires PoolOk(p) && forall b :: b in blocks ==> b in p.info && p.info[b].refs > 0
    ensures PoolOk(Retain(p, blocks)) && RefsOnly(p, Retain(p, blocks)) && NumFree(Retain(p, blocks)) == NumFree(p)
    ensures forall b :: b in p.all ==> Refs(Retain(p, blocks), b) == Refs(p, b) + Bit(b in blocks)
  {
    hide Keyed, CachedOk, TableOk;
    RetainKeyed(p, blocks);
    RetainCached(p, blocks);
    RetainTable(p, blocks);
  }

  lemma RetainKeyed<B>(p: CPool<B>, blocks: seq<B>)
    requires Keyed(p)
    ensures Keyed(Retain(p, blocks))
  {
  }

  lemma RetainCached<B>(p: CPool<B>, blocks: seq<B>)
    requires CachedOk(p) && forall b :: b in blocks ==> b in p.info && p.info[b].refs > 0
    ensures CachedOk(Retain(p, blocks))
  {
  }

  lemma RetainTable<B>(p: CPool<B>, blocks: seq<B>)
    requires TableOk(p) && forall b :: b in blocks ==> b in p.info && p.info[b].refs > 0
    ensures TableOk(Retain(p, blocks))
  {
  }

  lemma HeldInUse<B, V>(w: World<B, V>, kv: Kv<V>, bs: nat, id: nat)
    requires bs > 0 && Inv(w, kv, bs) && id in w.mgr.tables
    ensures NoDup(w.mgr.tables[id])
    ensures forall b :: b in w.mgr.tables[id] ==> b in w.mgr.gpu.info && w.mgr.gpu.info[b].refs > 0
  {
    hide Holds, KeyTokens, NBlocks, CachedOk, TableOk, BlockEnd, Tokens, Counted, Frame, KeyTrue, BlockTrue;
    assert TableTrue(w, kv, bs, id);
    TableDistinct(w, kv, bs, id);
    hide TableTrue;
    forall b | b in w.mgr.tables[id]
      ensures b in w.mgr.gpu.info && w.mgr.gpu.info[b].refs > 0
    {
      HeldHasRefs(w.mgr.gpu, w.mgr.tables, id, b);
    }
  }

  ghost function ForkWorld<B, V>(w: World<B, V>, parent: nat, child: nat): World<B, V> {
    World(Fork(w.mgr, parent, child), if parent in w.data then w.data[child := w.data[parent]] else w.data, w.store)
  }

  lemma ForkKeeps<B, V>(w: World<B, V>, kv: Kv<V>, bs: nat, parent: nat, child: nat)
    requires bs > 0 && Inv(w, kv, bs) && Complete(w, bs) && child !in w.mgr.tables
    ensures Inv(ForkWorld(w, parent, child), kv, bs) && Complete(ForkWorld(w, parent, child), bs)
    ensures NumFree(ForkWorld(w, parent, child).mgr.gpu) == NumFree(w.mgr.gpu)
  {
    hide Holds, KeyTokens, NBlocks, PoolOk, BlockEnd, Tokens, KeyTrue, TableTrue, Retain, Complete;
    var w' := ForkWorld(w, parent, child);
    if parent in w.mgr.tables {
      var t := w.mgr.tables[parent];
      HeldInUse(w, kv, bs, parent);
      RetainKeeps(w.mgr.gpu, t);
      forall b | b in w.mgr.gpu.all
        ensures Refs(w'.mgr.gpu, b) == |Holders(w'.mgr.tables, b)|
      {
        HoldersUpdate(w.mgr.tables, child, t, b);
      }
      forall k | k in w'.mgr.tables
        ensures k in w'.data && exists o :: HasTable(w, o, w'.mgr.tables[k], w'.data[k])
      {
        var o := if k == child then parent else k;
        assert HasTable(w, o, w'.mgr.tables[k], w'.data[k]);
      }
      RefsOnlyKeeps(w, w', kv, bs);
    }
  }

  // ----- free

  lemma {:induction false} ReleaseAllKeeps<B>(p: CPool<B>, blocks: seq<B>)
    requires PoolOk(p) && NoDup(blocks) && forall b :: b in blocks ==> b in p.info && p.info[b].refs > 0
    ensures var r := ReleaseAll(p, blocks);
            && r.Ok? && PoolOk(r.value) && RefsOnly(p, r.value) && NumFree(r.value) >= NumFree(p)
            && (forall b :: b in p.all ==> Refs(r.value, b) == Refs(p, b) - Bit(b in blocks))
    decreases |blocks|
  {
    hide PoolOk, NumFree, Release;
    if blocks != [] {
      NoDupHead(blocks);
      ReleaseKeeps(p, blocks[0]);
      var q := Release(p, blocks[0]).value;
      ReleaseAllKeeps(q, blocks[1..]);
      ReleaseTwice(p, q, ReleaseAll(q, blocks[1..]).value, blocks);
    }
  }

  lemma ReleaseTwice<B>(p: CPool<B>, q: CPool<B>, r: CPool<B>, blocks: seq<B>)
    requires blocks != [] && Released(p, q, blocks[0]) && RefsOnly(q, r) && blocks[0] !in blocks[1..]
    requires forall b :: b in q.all ==> Refs(r, b) == Refs(q, b) - Bit(b in blocks[1..])
    ensures RefsOnly(p, r)
    ensures forall b :: b in p.all ==> Refs(r, b) == Refs(p, b) - Bit(b in blocks)
  {
    hide PoolOk, NumFree;
    assert blocks == [blocks[0]] + blocks[1..];
    forall b | b in p.all
      ensures Refs(r, b) == Refs(p, b) - Bit(b in blocks)
    {
      assert b in blocks <==> b == blocks[0] || b in blocks[1..];
    }
  }

  ghost function FreeWorld<B, V>(w: World<B, V>, id: nat, s: CState<B>): World<B, V> {
    World(s, w.data - {id}, w.store)
  }

  lemma FreeKeeps<B, V>(w: World<B, V>, kv: Kv<V>, bs: nat, id: nat, order: seq<B>)
    requires bs > 0 && Inv(w, kv, bs) && Complete(w, bs)
    requires id in w.mgr.tables ==> BlockManager.EnumeratesSet(order, w.mgr.tables[id])
    ensures var r := Free(w.mgr, id, order);
            && r.Ok? && var w' := FreeWorld(w, id, r.value);
            Inv(w', kv, bs) && Complete(w', bs) && NumFree(w'.mgr.gpu) >= NumFree(w.mgr.gpu)
  {
    hide Holds, KeyTokens, NBlocks, PoolOk, BlockEnd, Tokens, KeyTrue, TableTrue, ReleaseAll, Complete, NumFree;
    if id in w.mgr.tables {
      var t := w.mgr.tables[id];
      HeldInUse(w, kv, bs, id);
      ReleaseAllKeeps(w.mgr.gpu, order);
      var w' := FreeWorld(w, id, Free(w.mgr, id, order).value);
      forall b | b in w.mgr.gpu.all
        ensures Refs(w'.mgr.gpu, b) == |Holders(w'.mgr.tables, b)|
      {
        HoldersRemove(w.mgr.tables, id, b);
      }
      forall k | k in w'.mgr.tables
        ensures k in w'.data && exists o :: HasTable(w, o, w'.mgr.tables[k], w'.data[k])
      {
        assert HasTable(w, k, w'.mgr.tables[k], w'.data[k]);
      }
      RefsOnlyKeeps(w, w', kv, bs);
    } else {
      assert w.data - {id} == w.data;
    }
  }

  // ----- access

  /** The blocks of `t` have the new access time and nothing else new; all other blocks are as before. */
  ghost predicate AccessedAt<B>(p: CPool<B>, q: CPool<B>, t: seq<B>, time: real) {
    && q.info.Keys == p.info.Keys && q.(info := p.info) == p
    && (forall b :: b in t && b in p.info ==>
          && q.info[b].last == time && q.info[b].key == p.info[b].key
          && q.info[b].refs == p.info[b].refs && q.info[b].numHashed == p.info[b].numHashed)
    && (forall b :: b in p.info && b !in t ==> q.info[b] == p.info[b])
  }

  lemma TouchedIs<B>(p: CPool<B>, t: seq<B>, time: real)
    ensures AccessedAt(p, Touched(p, t, time), t, time)
  {
  }

  lemma AccessKeeps<B, V>(w: World<B, V>, kv: Kv<V>, bs: nat, id: nat, time: real)
    requires bs > 0 && Inv(w, kv, bs) && Complete(w, bs) && id in w.mgr.tables
    ensures Access(w.mgr, id, time).Ok?
    ensures var w' := w.(mgr := Access(w.mgr, id, time).value);
            && Inv(w', kv, bs) && Complete(w', bs) && NumFree(w'.mgr.gpu) == NumFree(w.mgr.gpu)
            && w'.mgr.tables == w.mgr.tables && AccessedAt(w.mgr.gpu, w'.mgr.gpu, w.mgr.tables[id], time)
  {
    hide Inv, Complete, Touched, NumFree, AccessedAt;
    TouchedIs(w.mgr.gpu, w.mgr.tables[id], time);
    AccessInv(w, kv, bs, id, time);
  }

  lemma AccessInv<B, V>(w: World<B, V>, kv: Kv<V>, bs: nat, id: nat, time: real)
    requires bs > 0 && Inv(w, kv, bs) && Complete(w, bs) && id in w.mgr.tables
    ensures var w' := w.(mgr := Access(w.mgr, id, time).value);
            Inv(w', kv, bs) && Complete(w', bs) && NumFree(w'.mgr.gpu) == NumFree(w.mgr.gpu)
  {
    hide Holds, KeyTokens, NBlocks, BlockEnd, Tokens, KeyTrue, TableTrue, Complete, PoolOk, Counted, Frame, Touched,
         Inv, RefsOnly, NumFree, OldTables;
    var w' := w.(mgr := Access(w.mgr, id, time).value);
    InvParts(w, kv, bs);
    TouchedPool(w.mgr.gpu, w.mgr.tables, w.mgr.tables[id], time);
    FrameKeys(w, bs);
    SameTables(w, w');
    RefsOnlyKeeps(w, w', kv, bs);
  }

  lemma SameTables<B, V>(w: World<B, V>, w': World<B, V>)
    requires w'.mgr.tables == w.mgr.tables && w'.data == w.data && w.data.Keys == w.mgr.tables.Keys
    ensures OldTables(w, w')
  {
    forall k | k in w'.mgr.tables
      ensures k in w'.data && exists o :: HasTable(w, o, w'.mgr.tables[k], w'.data[k])
    {
      assert HasTable(w, k, w'.mgr.tables[k], w'.data[k]);
    }
  }

  lemma FrameKeys<B, V>(w: World<B, V>, bs: nat)
    requires Frame(w, bs)
    ensures w.data.Keys == w.mgr.tables.Keys
  {
  }

  lemma TouchedPool<B>(p: CPool<B>, tables: map<nat, seq<B>>, blocks: seq<B>, time: real)
    requires PoolOk(p) && Counted(p, tables)
    ensures var q := Touched(p, blocks, time);
            PoolOk(q) && Counted(q, tables) && RefsOnly(p, q) && NumFree(q) == NumFree(p)
  {
    hide PoolOk;
    TouchedPoolOk(p, Touched(p, blocks, time));
  }

  lemma TouchedPoolOk<B>(p: CPool<B>, q: CPool<B>)
    requires PoolOk(p) && q.all == p.all && q.current == p.current && q.cached == p.cached && q.table == p.table
             && q.ctr == p.ctr
    requires q.info.Keys == p.info.Keys
    requires forall b :: b in q.info ==> q.info[b].key == p.info[b].key && q.info[b].refs == p.info[b].refs
    ensures PoolOk(q)
  {
    assert Keyed(q) by { hide CachedOk, TableOk; }
    assert CachedOk(q) by { hide Keyed, TableOk; }
    assert TableOk(q) by { hide Keyed, CachedOk; }
  }

  // ----- runs

  datatype Op<B> =
    | OpAllocate(id: nat, data: SeqData)
    | OpAppend(id: nat, token: Token)
    | OpFork(parent: nat, child: nat)
    | OpFree(id: nat, order: seq<B>)
    | OpAccess(id: nat, time: real)

  function Grown(d: SeqData, token: Token): SeqData {
    d.(output := d.output + [token])
  }

  /** What the engine calls: new sequences have new ids, only live sequences grow. */
  ghost predicate Enabled<B, V>(w: World<B, V>, op: Op<B>) {
    match op
    case OpAllocate(id, _) => id !in w.mgr.tables
    case OpAppend(id, _) => id in w.mgr.tables && id in w.data
    case OpFork(_, child) => child !in w.mgr.tables
    case OpFree(id, order) => id in w.mgr.tables ==> BlockManager.EnumeratesSet(order, w.mgr.tables[id])
    case OpAccess(id, _) => id in w.mgr.tables
  }

  ghost function Step<B, V>(w: World<B, V>, kv: Kv<V>, bs: nat, op: Op<B>): Result<World<B, V>>
    requires bs > 0 && Enabled(w, op)
  {
    match op
    case OpAllocate(id, d) =>
      var s :- Allocate(w.mgr, bs, id, d);
      Ok(AllocateWorld(w, kv, bs, id, d, s))
    case OpAppend(id, token) =>
      var d := Grown(w.data[id], token);
      var (s, pairs) :- AppendSlots(w.mgr, bs, id, d);
      Ok(AppendWorld(w, kv, bs, id, d, s, pairs))
    case OpFork(parent, child) => Ok(ForkWorld(w, parent, child))
    case OpFree(id, order) =>
      var s :- Free(w.mgr, id, order);
      Ok(FreeWorld(w, id, s))
    case OpAccess(id, time) =>
      var s :- Access(w.mgr, id, time);
      Ok(w.(mgr := s))
  }

  /** The sequences, as far as nothing but the operations says. */
  ghost function DataStep<B>(data: map<nat, SeqData>, op: Op<B>): map<nat, SeqData> {
    match op
    case OpAllocate(id, d) => data[id := d]
    case OpAppend(id, token) => if id in data then data[id := Grown(data[id], token)] else data
    case OpFork(parent, child) => if parent in data then data[child := data[parent]] else data
    case OpFree(id, _) => data - {id}
    case OpAccess(_, _) => data
  }

  lemma StepSound<B, V>(w: World<B, V>, kv: Kv<V>, bs: nat, op: Op<B>)
    requires bs > 0 && Inv(w, kv, bs) && Complete(w, bs) && Enabled(w, op)
    ensures var r := Step(w, kv, bs, op);
            if r.Ok? then Inv(r.value, kv, bs) && Complete(r.value, bs) && r.value.data == DataStep(w.data, op)
            else r == Err(OutOfMemory)
  {
    hide Inv, Complete, Allocate, AppendSlots, AppendWorld, AllocateWorld, Free, Access, NumFree, NBlocks;
    match op {
      case OpAllocate(id, d) =>
        AllocateKeeps(w, kv, bs, id, d);
        if Allocate(w.mgr, bs, id, d).Ok? {
          AllocateData(w, kv, bs, id, d, Allocate(w.mgr, bs, id, d).value);
        }
      case OpAppend(id, token) =>
        AppendKeeps(w, kv, bs, id, Grown(w.data[id], token));
      case OpFork(parent, child) =>
        ForkKeeps(w, kv, bs, parent, child);
      case OpFree(id, order) =>
        FreeKeeps(w, kv, bs, id, order);
      case OpAccess(id, time) =>
        AccessKeeps(w, kv, bs, id, time);
    }
  }

  lemma AllocateData<B, V>(w: World<B, V>, kv: Kv<V>, bs: nat, id: nat, d: SeqData, s: CState<B>)
    ensures AllocateWorld(w, kv, bs, id, d, s).data == w.data[id := d]
  {
  }

  ghost predicate Scheduled<B, V>(w: World<B, V>, kv: Kv<V>, bs: nat, ops: seq<Op<B>>)
    requires bs > 0
    decreases |ops|
  {
    ops != [] ==>
      && Enabled(w, ops[0])
      && var r := Step(w, kv, bs, ops[0]);
      r.Ok? ==> Scheduled(r.value, kv, bs, ops[1..])
  }

  ghost function Run<B, V>(w: World<B, V>, kv: Kv<V>, bs: nat, ops: seq<Op<B>>): Result<World<B, V>>
    requires bs > 0 && Scheduled(w, kv, bs, ops)
    decreases |ops|
  {
    if ops == [] then Ok(w)
    else
      var w1 :- Step(w, kv, bs, ops[0]);
      Run(w1, kv, bs, ops[1..])
  }

  ghost function DataRun<B>(data: map<nat, SeqData>, ops: seq<Op<B>>): map<nat, SeqData>
    decreases |ops|
  {
    if ops == [] then data else DataRun(DataStep(data, ops[0]), ops[1..])
  }

  lemma {:induction false} RunKeeps<B, V>(w: World<B, V>, kv: Kv<V>, bs: nat, ops: seq<Op<B>>)
    requires bs > 0 && Inv(w, kv, bs) && Complete(w, bs) && Scheduled(w, kv, bs, ops)
    ensures var r := Run(w, kv, bs, ops);
            if r.Ok? then Inv(r.value, kv, bs) && Complete(r.value, bs) && r.value.data == DataRun(w.data, ops)
            else r == Err(OutOfMemory)
    decreases |ops|
  {
    hide Inv, Complete, Step, DataStep, Enabled;
    if ops != [] {
      StepSound(w, kv, bs, ops[0]);
      var r := Step(w, kv, bs, ops[0]);
      if r.Ok? {
        RunKeeps(r.value, kv, bs, ops[1..]);
      }
    }
  }

  // ----- what the invariant means

  /** The cache entry a sequence reads for its position `pos`. */
  ghost function EntryAt<B, V>(w: World<B, V>, bs: nat, id: nat, pos: nat): Option<V>
    requires bs > 0
  {
    if id in w.mgr.tables && pos / bs < |w.mgr.tables[id]| && w.mgr.tables[id][pos / bs] in w.store
       && pos % bs < |w.store[w.mgr.tables[id][pos / bs]]|
    then Some(w.store[w.mgr.tables[id][pos / bs]][pos % bs])
    else None
  }

  /** Every sequence reads, at each of its positions, the entry computed from its own prefix. */
  ghost predicate ReadsOwn<B, V>(w: World<B, V>, kv: Kv<V>, bs: nat)
    requires bs > 0
  {
    forall id, pos: nat :: id in w.data && pos < |Tokens(w.data[id])| ==>
      EntryAt(w, bs, id, pos) == Some(kv(w.data[id].lora, Tokens(w.data[id])[..pos + 1]))
  }

  ghost predicate SameBlock<B, V>(w: World<B, V>, a: nat, i: int, b: nat, j: int) {
    && a in w.mgr.tables && b in w.mgr.tables && 0 <= i < |w.mgr.tables[a]| && 0 <= j < |w.mgr.tables[b]|
    && w.mgr.tables[a][i] == w.mgr.tables[b][j]
  }

  /** A physical block sits at one logical index, and its content key is a prefix of each owner. */
  ghost predicate SharedRightly<B, V>(w: World<B, V>) {
    forall a, b, i, j :: SameBlock(w, a, i, b, j) && a in w.data ==>
      && i == j && w.mgr.tables[a][i] in w.mgr.gpu.info
      && var k := w.mgr.gpu.info[w.mgr.tables[a][i]].key;
      k.Content? ==> k.lora == w.data[a].lora && KeyTokens(k) <= Tokens(w.data[a])
  }

  lemma InvReadsOwn<B, V>(w: World<B, V>, kv: Kv<V>, bs: nat)
    requires bs > 0 && Inv(w, kv, bs) && Complete(w, bs)
    ensures ReadsOwn(w, kv, bs)
  {
    hide Inv, Complete;
    forall id, pos: nat | id in w.data && pos < |Tokens(w.data[id])|
      ensures EntryAt(w, bs, id, pos) == Some(kv(w.data[id].lora, Tokens(w.data[id])[..pos + 1]))
    {
      InvReads(w, kv, bs, id, pos);
    }
  }

  lemma InvReads<B, V>(w: World<B, V>, kv: Kv<V>, bs: nat, id: nat, pos: nat)
    requires bs > 0 && Inv(w, kv, bs) && Complete(w, bs) && id in w.data && pos < |Tokens(w.data[id])|
    ensures EntryAt(w, bs, id, pos) == Some(kv(w.data[id].lora, Tokens(w.data[id])[..pos + 1]))
  {
    hide KeyTrue, PoolOk, Counted, KeyTokens, Tokens;
    var d, i := w.data[id], pos / bs;
    PosInBlocks(pos, |Tokens(d)|, bs);
    assert TableTrue(w, kv, bs, id);
    assert BlockTrue(w, kv, bs, id, i);
    BlockEndBasics(i, bs);
    assert BlockEnd(i, bs) - bs + pos % bs == pos;
  }

  lemma PosInBlocks(pos: nat, len: nat, bs: nat)
    requires bs > 0 && pos < len
    ensures pos / bs < BlockManager.NBlocks(len, bs) && pos == (pos / bs) * bs + pos % bs && 0 <= pos % bs < bs
  {
    Paging.NBlocksFits(len, bs);
    var n := BlockManager.NBlocks(len, bs);
    if pos / bs >= n {
      Arith.MulMono(n, pos / bs, bs);
    }
  }

  lemma InvShared<B, V>(w: World<B, V>, kv: Kv<V>, bs: nat)
    requires bs > 0 && Inv(w, kv, bs)
    ensures SharedRightly(w)
  {
    hide Holds, KeyTrue, PoolOk, Counted, KeyTokens, Tokens, BlockEnd, Frame, NBlocks;
    forall a, b, i, j | SameBlock(w, a, i, b, j) && a in w.data
      ensures i == j && w.mgr.tables[a][i] in w.mgr.gpu.info
      ensures var k := w.mgr.gpu.info[w.mgr.tables[a][i]].key;
              k.Content? ==> k.lora == w.data[a].lora && KeyTokens(k) <= Tokens(w.data[a])
    {
      assert TableTrue(w, kv, bs, a) && TableTrue(w, kv, bs, b);
      assert BlockTrue(w, kv, bs, a, i) && BlockTrue(w, kv, bs, b, j);
      if i < j {
        BlockEndMono(i, j, bs);
      } else if j < i {
        BlockEndMono(j, i, bs);
      }
    }
  }

  ghost function Initial<B, V>(all: seq<B>, store: map<B, seq<V>>): World<B, V> {
    World(CState(CPool(all, 0, map[], map[], [], 0), map[]), map[], store)
  }

  lemma InitialInv<B, V>(all: seq<B>, store: map<B, seq<V>>, kv: Kv<V>, bs: nat)
    requires bs > 0 && NoDup(all) && store.Keys == Elems(all) && forall b :: b in store ==> |store[b]| == bs
    ensures Inv(Initial(all, store), kv, bs) && Complete(Initial(all, store), bs)
  {
  }

  ghost predicate SoundWorld<B, V>(w: World<B, V>, kv: Kv<V>, bs: nat)
    requires bs > 0
  {
    && w.mgr.tables.Keys == w.data.Keys && ReadsOwn(w, kv, bs) && SharedRightly(w)
    && PoolOk(w.mgr.gpu) && Counted(w.mgr.gpu, w.mgr.tables)
    && NumFree(w.mgr.gpu) == |w.mgr.gpu.all| - |Held(w.mgr.gpu, w.mgr.tables)|
  }

  /**
   * Prefix-cache soundness over whole runs: whatever is allocated, appended, forked and freed, every
   * sequence reads entries computed from its own tokens under its own LoRA id, blocks are shared
   * only at the same index and only under a key that is a prefix of every owner, reference counts
   * and the free count are right, and the only possible error is running out of memory.
   */
  lemma RunSound<B, V>(all: seq<B>, store: map<B, seq<V>>, kv: Kv<V>, bs: nat, ops: seq<Op<B>>)
    requires bs > 0 && NoDup(all) && store.Keys == Elems(all) && forall b :: b in store ==> |store[b]| == bs
    requires Scheduled(Initial(all, store), kv, bs, ops)
    ensures var r := Run(Initial(all, store), kv, bs, ops);
            if r.Ok? then SoundWorld(r.value, kv, bs) && r.value.data == DataRun(map[], ops) else r == Err(OutOfMemory)
  {
    hide Inv, Complete, Run, Scheduled, DataRun, PoolOk, Counted, ReadsOwn, SharedRightly, NumFree, Held;
    InitialInv(all, store, kv, bs);
    RunKeeps(Initial(all, store), kv, bs, ops);
    var r := Run(Initial(all, store), kv, bs, ops);
    if r.Ok? {
      InvReadsOwn(r.value, kv, bs);
      InvShared(r.value, kv, bs);
      InvParts(r.value, kv, bs);
      FreeCount(r.value.mgr.gpu, r.value.mgr.tables);
    }
  }

  // ----- admission

  /** can_allocate for a group of one sequence, with `total` blocks on the GPU. */
  function CanAllocate<B>(p: CPool<B>, d: SeqData, bs: nat, watermark: nat): BlockManager.AllocStatus
    requires bs > 0
  {
    if |p.all| - NBlocks(d, bs) < watermark then BlockManager.NEVER
    else if NumFree(p) - NBlocks(d, bs) >= watermark then BlockManager.OK
    else BlockManager.LATER
  }

  lemma NothingHeld<B>(p: CPool<B>, tables: map<nat, seq<B>>)
    ensures tables == map[] ==> Held(p, tables) == {}
  {
  }

  /** One append for each of a list of sequences, in that order. */
  ghost function AppendEach<B, V>(w: World<B, V>, kv: Kv<V>, bs: nat, ids: seq<nat>,
          tokens: seq<Token>): Result<World<B, V>>
    requires bs > 0 && |ids| == |tokens|
    decreases |ids|
  {
    if ids == [] then Ok(w)
    else if ids[0] !in w.mgr.tables || ids[0] !in w.data then Err(KeyError)
    else
      var d := Grown(w.data[ids[0]], tokens[0]);
      var (s, pairs) :- AppendSlots(w.mgr, bs, ids[0], d);
      AppendEach(AppendWorld(w, kv, bs, ids[0], d, s, pairs), kv, bs, ids[1..], tokens[1..])
  }

  /** can_append_slots: with a free block for each sequence, every one of them can take a token. */
  lemma {:induction false} CanAppendSound<B, V>(w: World<B, V>, kv: Kv<V>, bs: nat, ids: seq<nat>, tokens: seq<Token>)
    requires bs > 0 && Inv(w, kv, bs) && Complete(w, bs) && |ids| == |tokens|
    requires forall id :: id in ids ==> id in w.mgr.tables
    requires |ids| <= NumFree(w.mgr.gpu)
    ensures var r := AppendEach(w, kv, bs, ids, tokens);
            r.Ok? && Inv(r.value, kv, bs) && Complete(r.value, bs) && ReadsOwn(r.value, kv, bs)
    decreases |ids|
  {
    hide Inv, Complete, AppendSlots, AppendWorld, NumFree, ReadsOwn, Frame;
    if ids == [] {
      InvReadsOwn(w, kv, bs);
    } else {
      InvParts(w, kv, bs);
      FrameKeys(w, bs);
      assert ids[0] in ids;
      var d := Grown(w.data[ids[0]], tokens[0]);
      AppendKeeps(w, kv, bs, ids[0], d);
      var (s, pairs) := AppendSlots(w.mgr, bs, ids[0], d).value;
      var w' := AppendWorld(w, kv, bs, ids[0], d, s, pairs);
      assert forall id :: id in ids[1..] ==> id in ids;
      CanAppendSound(w', kv, bs, ids[1..], tokens[1..]);
    }
  }
}
