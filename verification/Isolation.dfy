/**
 * Isolation: with the copies that the manager returns carried out on the block contents, and each
 * token written at its slot, every sequence reads exactly its own tokens, whatever the others do.
 * No prefix caching, no sliding window.
 */
module Isolation {
  import opened Wrappers
  import opened Holding
  import opened BlockManager
  import opened Conservation
  import opened Copying
  import opened Paging

  /** The manager, the number of tokens of each table, and the contents of every block. */
  datatype World<B, V> = World(mgr: State<B>, lens: map<TableId, nat>, store: map<B, seq<V>>)

  ghost predicate StoreOk<B, V>(w: World<B, V>, bs: nat) {
    && w.store.Keys == w.mgr.gpu.refs.Keys + w.mgr.cpu.refs.Keys
    && (forall b :: b in w.store ==> |w.store[b]| == bs)
  }

  ghost predicate Shaped<B, V>(w: World<B, V>, c: Config) {
    && w.lens.Keys == w.mgr.tables.Keys
    && (forall o :: o in w.lens ==> |w.mgr.tables[o]| == NBlocks(w.lens[o], c.blockSize))
  }

  ghost predicate OneDevice<B>(s: State<B>) {
    forall o :: o in s.tables ==> Resident(s.gpu, s.tables[o]) || Resident(s.cpu, s.tables[o])
  }

  ghost predicate ValidWorld<B, V>(w: World<B, V>, c: Config) {
    && Conserved(w.mgr) && Distinct(w.mgr) && OneDevice(w.mgr)
    && Shaped(w, c) && StoreOk(w, c.blockSize)
  }

  ghost function Contents<B, V>(store: map<B, seq<V>>, t: seq<B>): (r: seq<seq<V>>)
    ensures |r| == |t|
  {
    seq(|t|, i requires 0 <= i < |t| => if t[i] in store then store[t[i]] else [])
  }

  lemma ContentsUniform<B, V>(w: World<B, V>, c: Config, o: TableId)
    requires ValidWorld(w, c) && o in w.mgr.tables
    ensures Uniform(Contents(w.store, w.mgr.tables[o]), c.blockSize)
    ensures o in w.lens && |w.mgr.tables[o]| == NBlocks(w.lens[o], c.blockSize)
    ensures forall b :: b in w.mgr.tables[o] ==> b in w.store
  {
    assert Known(w.mgr, w.mgr.tables[o]);
  }

  /** What the owner of table `o` reads. */
  ghost function Read<B, V>(w: World<B, V>, c: Config, o: TableId): seq<V>
    requires ValidWorld(w, c) && o in w.mgr.tables
  {
    ContentsUniform(w, c, o);
    View(Contents(w.store, w.mgr.tables[o]), w.lens[o], c.blockSize)
  }

  lemma ReadLength<B, V>(w: World<B, V>, c: Config, o: TableId)
    requires ValidWorld(w, c) && o in w.mgr.tables
    ensures o in w.lens && |Read(w, c, o)| == w.lens[o]
  {
    ContentsUniform(w, c, o);
    ViewLength(Contents(w.store, w.mgr.tables[o]), w.lens[o], c.blockSize);
  }

  lemma ReadFrame<B, V>(w: World<B, V>, w': World<B, V>, c: Config, o: TableId)
    requires ValidWorld(w, c) && ValidWorld(w', c)
    requires o in w.mgr.tables && o in w'.mgr.tables && w'.mgr.tables[o] == w.mgr.tables[o]
    requires o in w.lens && o in w'.lens && w'.lens[o] == w.lens[o]
    requires forall b :: b in w.mgr.tables[o] ==> b in w.store && b in w'.store && w'.store[b] == w.store[b]
    ensures Read(w', c, o) == Read(w, c, o)
  {
    assert Contents(w'.store, w'.mgr.tables[o]) == Contents(w.store, w.mgr.tables[o]);
  }

  // ----- reserving a slot

  ghost predicate OnGpu<B, V>(w: World<B, V>, o: TableId) {
    o in w.mgr.tables && Resident(w.mgr.gpu, w.mgr.tables[o])
  }

  /** The last block of the table is held by nobody else. */
  ghost predicate Exclusive<B, V>(w: World<B, V>, o: TableId) {
    && o in w.mgr.tables && w.mgr.tables[o] != []
    && var b := w.mgr.tables[o][|w.mgr.tables[o]| - 1];
    b in w.mgr.gpu.refs && w.mgr.gpu.refs[b] == 1
  }

  ghost function Slotted<B, V>(w: World<B, V>, o: TableId, r: (State<B>, seq<(B, B)>)): World<B, V>
    requires o in w.lens
  {
    World(r.0, w.lens[o := w.lens[o] + 1], SequentialCopy(w.store, r.1))
  }

  lemma RunningIsAppendable<B, V>(w: World<B, V>, c: Config, o: TableId)
    requires ValidWorld(w, c) && OnGpu(w, o)
    ensures o in w.lens && Appendable(w.mgr, c, o, w.lens[o] + 1)
  {
    NBlocksNext(w.lens[o], c.blockSize);
  }

  ghost predicate Unheld<B>(tables: map<TableId, seq<B>>, b: B) {
    forall k :: k in tables ==> b !in tables[k]
  }

  /**
   * Only the last block of `o` may change: it is the old one, or a block nobody held, which then
   * carries the old last block's contents if there was one for this position.
   */
  ghost predicate SlotTaken<B, V>(w: World<B, V>, c: Config, o: TableId, w': World<B, V>) {
    && o in w.mgr.tables && o in w.lens && o in w'.mgr.tables
    && w'.mgr.gpu.refs.Keys == w.mgr.gpu.refs.Keys && w'.mgr.cpu == w.mgr.cpu
    && w'.lens == w.lens[o := w.lens[o] + 1]
    && var t, t' := w.mgr.tables[o], w'.mgr.tables[o];
    var n := |t'|;
    && w'.mgr.tables == w.mgr.tables[o := t']
    && 0 < n == NBlocks(w.lens[o] + 1, c.blockSize) && n - 1 <= |t| <= n && t'[..n - 1] == t[..n - 1]
    && var b := t'[n - 1];
    && b in w.mgr.gpu.refs
    && w'.store.Keys == w.store.Keys && b in w.store
    && (forall x :: x in w.store && x != b ==> w'.store[x] == w.store[x])
    && (if t' == t then w'.store == w.store else Unheld(w.mgr.tables, b))
    && (if |t| == n then t[n - 1] in w.store && w'.store[b] == w.store[t[n - 1]] else w'.store == w.store)
  }

  lemma SlotTakes<B, V>(w: World<B, V>, c: Config, o: TableId)
    requires ValidWorld(w, c) && c.window.None? && OnGpu(w, o)
    ensures o in w.lens
    ensures var r := AppendSlots(w.mgr, c, o, w.lens[o] + 1);
            if r.Ok? then
              var w' := Slotted(w, o, r.value);
              Conserved(w'.mgr) && SlotTaken(w, c, o, w') && Exclusive(w', o)
            else r == Err(OutOfMemory) && w.mgr.gpu.free == []
  {
    hide AppendSlots, Conserved, Distinct, OneDevice, Shaped, StoreOk, SlotTaken;
    RunningIsAppendable(w, c, o);
    AppendSlotsKeeps(w.mgr, c, o, w.lens[o] + 1);
    var r := AppendSlots(w.mgr, c, o, w.lens[o] + 1);
    if r.Ok? {
      if AppendTakes(w.mgr, c, o, w.lens[o] + 1) {
        SlotTakesBlock(w, c, o, r.value);
      } else {
        SlotInPlace(w, c, o);
      }
    }
  }

  lemma SlotInPlace<B, V>(w: World<B, V>, c: Config, o: TableId)
    requires ValidWorld(w, c) && OnGpu(w, o) && o in w.lens
    requires Appendable(w.mgr, c, o, w.lens[o] + 1) && !AppendTakes(w.mgr, c, o, w.lens[o] + 1)
    ensures var w' := Slotted(w, o, (w.mgr, []));
            SlotTaken(w, c, o, w') && Exclusive(w', o)
  {
    var t := w.mgr.tables[o];
    ContentsUniform(w, c, o);
    assert w.mgr.tables[o := t] == w.mgr.tables;
    assert t[|t| - 1] in t;
  }

  lemma SlotTakesBlock<B, V>(w: World<B, V>, c: Config, o: TableId, r: (State<B>, seq<(B, B)>))
    requires ValidWorld(w, c) && OnGpu(w, o) && o in w.lens && w.mgr.gpu.free != []
    requires Appendable(w.mgr, c, o, w.lens[o] + 1) && AppendTakes(w.mgr, c, o, w.lens[o] + 1)
    requires r.0.gpu.refs.Keys == w.mgr.gpu.refs.Keys && r.0.cpu == w.mgr.cpu
    requires var b := w.mgr.gpu.free[|w.mgr.gpu.free| - 1];
             var t := w.mgr.tables[o];
             && b in r.0.gpu.refs && r.0.gpu.refs[b] == 1
             && r.0.tables == w.mgr.tables[o := Settled(w.mgr, c, o, w.lens[o] + 1) + [b]]
             && r.1 == (if |t| < NBlocks(w.lens[o] + 1, c.blockSize) then [] else [(t[|t| - 1], b)])
    ensures var w' := Slotted(w, o, r);
            SlotTaken(w, c, o, w') && Exclusive(w', o)
  {
    hide Conserved, Distinct, OneDevice, Shaped, Resident, NBlocks, SequentialCopy, Appendable, AppendTakes, Settled,
         Unheld;
    var b := w.mgr.gpu.free[|w.mgr.gpu.free| - 1];
    var t, t' := w.mgr.tables[o], r.0.tables[o];
    BlockTaken(w, c, b);
    ContentsUniform(w, c, o);
    SettledTable(w.mgr, c, o, w.lens[o] + 1, b);
    assert t != [] ==> t[|t| - 1] in t;
    CopyOne(w.store, r.1);
  }

  lemma BlockTaken<B, V>(w: World<B, V>, c: Config, b: B)
    requires ValidWorld(w, c) && b in w.mgr.gpu.free
    ensures b in w.mgr.gpu.refs && b in w.store && Unheld(w.mgr.tables, b)
    ensures w.store.Keys == w.mgr.gpu.refs.Keys + w.mgr.cpu.refs.Keys
  {
    FreeBlockUnheld(w.mgr, b);
  }

  /** The table of an append that takes the unheld block `b`. */
  lemma SettledTable<B>(s: State<B>, c: Config, o: TableId, len: nat, b: B)
    requires Appendable(s, c, o, len) && AppendTakes(s, c, o, len) && Unheld(s.tables, b)
    ensures o in s.tables
    ensures var t, t' := s.tables[o], Settled(s, c, o, len) + [b];
            && 0 < |t'| == NBlocks(len, c.blockSize) && |t'| - 1 <= |t| <= |t'|
            && t'[..|t'| - 1] == t[..|t'| - 1] && t'[|t'| - 1] == b && t' != t
  {
    NBlocksPositive(len, c.blockSize);
  }

  lemma CopyOne<B, V>(store: map<B, seq<V>>, pairs: seq<(B, B)>)
    requires |pairs| <= 1
    ensures SequentialCopy(store, pairs)
            == if pairs == [] || pairs[0].0 !in store then store else store[pairs[0].1 := store[pairs[0].0]]
  {
    if pairs != [] {
      assert SequentialCopy(store, pairs[..0]) == store;
    }
  }

  /** Reserving a slot for `o` adds one token to what `o` reads and changes nothing for the others. */
  lemma SlotReads<B, V>(w: World<B, V>, c: Config, o: TableId, w': World<B, V>)
    requires ValidWorld(w, c) && OnGpu(w, o)
    requires Conserved(w'.mgr) && SlotTaken(w, c, o, w')
    ensures ValidWorld(w', c) && OnGpu(w', o)
    ensures forall k :: k in w.mgr.tables && k != o ==> Read(w', c, k) == Read(w, c, k)
    ensures |Read(w', c, o)| == w.lens[o] + 1 && Read(w', c, o)[..w.lens[o]] == Read(w, c, o)
  {
    SlotValid(w, c, o, w');
    forall k | k in w.mgr.tables && k != o
      ensures Read(w', c, k) == Read(w, c, k)
    {
      ContentsUniform(w, c, k);
      assert k in w.lens && w'.mgr.tables[k] == w.mgr.tables[k];
      SlotLeavesAlone(w, c, o, w', k);
      ReadFrame(w, w', c, k);
    }
    SlotReadsOwn(w, c, o, w');
  }

  lemma SlotLeavesAlone<B, V>(w: World<B, V>, c: Config, o: TableId, w': World<B, V>, k: TableId)
    requires ValidWorld(w, c) && SlotTaken(w, c, o, w') && k in w.mgr.tables
    ensures forall b :: b in w.mgr.tables[k] ==> b in w.store && w'.store[b] == w.store[b]
  {
    ContentsUniform(w, c, k);
  }

  lemma SlotValid<B, V>(w: World<B, V>, c: Config, o: TableId, w': World<B, V>)
    requires ValidWorld(w, c) && OnGpu(w, o)
    requires Conserved(w'.mgr) && SlotTaken(w, c, o, w')
    ensures ValidWorld(w', c) && OnGpu(w', o)
  {
    SlotTables(w.mgr, w'.mgr, o);
    SlotShape(w, c, o, w');
  }

  lemma SlotTables<B>(s: State<B>, s': State<B>, o: TableId)
    requires o in s.tables && o in s'.tables
    requires Distinct(s) && OneDevice(s) && Resident(s.gpu, s.tables[o])
    requires s'.gpu.refs.Keys == s.gpu.refs.Keys && s'.cpu.refs.Keys == s.cpu.refs.Keys
    requires var t, t' := s.tables[o], s'.tables[o];
             && 0 < |t'| <= |t| + 1 && t'[..|t'| - 1] == t[..|t'| - 1]
             && (t' == t || Unheld(s.tables, t'[|t'| - 1]))
             && t'[|t'| - 1] in s.gpu.refs
             && s'.tables == s.tables[o := t']
    ensures Distinct(s') && OneDevice(s') && Resident(s'.gpu, s'.tables[o])
  {
    LastReplaced(s.tables[o], s'.tables[o]);
    forall k | k in s'.tables && k != o
      ensures Resident(s'.gpu, s'.tables[k]) || Resident(s'.cpu, s'.tables[k])
    {
      assert s'.tables[k] == s.tables[k];
    }
  }

  lemma SlotShape<B, V>(w: World<B, V>, c: Config, o: TableId, w': World<B, V>)
    requires Shaped(w, c) && StoreOk(w, c.blockSize) && SlotTaken(w, c, o, w')
    ensures Shaped(w', c) && StoreOk(w', c.blockSize)
  {
    var t' := w'.mgr.tables[o];
    forall b | b in w'.store
      ensures |w'.store[b]| == c.blockSize
    {
      assert b in w.store;
    }
  }

  lemma LastReplaced<B>(t: seq<B>, t': seq<B>)
    requires NoDup(t) && 0 < |t'| <= |t| + 1 && t'[..|t'| - 1] == t[..|t'| - 1]
    requires t' == t || t'[|t'| - 1] !in t
    ensures NoDup(t')
    ensures forall b :: b in t' ==> b in t || b == t'[|t'| - 1]
  {
    var n := |t'|;
    assert forall i :: 0 <= i < n - 1 ==> t'[i] == t'[..n - 1][i] == t[i];
  }

  lemma SlotReadsOwn<B, V>(w: World<B, V>, c: Config, o: TableId, w': World<B, V>)
    requires ValidWorld(w, c) && ValidWorld(w', c) && SlotTaken(w, c, o, w')
    ensures o in w.lens && o in w.mgr.tables && o in w'.mgr.tables
    ensures |Read(w', c, o)| == w.lens[o] + 1 && Read(w', c, o)[..w.lens[o]] == Read(w, c, o)
  {
    hide Conserved, Distinct, OneDevice, Shaped, StoreOk, Contents, SlotTaken, View, NBlocks, Uniform;
    SlotContentsOf(w, c, o, w');
    ContentsUniform(w, c, o);
    ContentsUniform(w', c, o);
    SlotView(Contents(w.store, w.mgr.tables[o]), Contents(w'.store, w'.mgr.tables[o]), w.lens[o], c.blockSize);
  }

  lemma SlotContentsOf<B, V>(w: World<B, V>, c: Config, o: TableId, w': World<B, V>)
    requires ValidWorld(w, c) && SlotTaken(w, c, o, w')
    ensures o in w.mgr.tables && o in w'.mgr.tables && o in w.lens && o in w'.lens
    ensures w'.lens[o] == w.lens[o] + 1 && 0 < |w'.mgr.tables[o]|
    ensures var t, t' := w.mgr.tables[o], w'.mgr.tables[o];
            var before, after := Contents(w.store, t), Contents(w'.store, t');
            if |t| == |t'| then after == before else after == before + [after[|t'| - 1]]
  {
    ContentsUniform(w, c, o);
    hide Conserved, Distinct, OneDevice, Shaped, StoreOk, Contents;
    var t, t' := w.mgr.tables[o], w'.mgr.tables[o];
    assert t' != t ==> t'[|t'| - 1] !in t;
    SlotContents(w.store, w'.store, t, t');
  }

  lemma SlotView<V>(before: seq<seq<V>>, after: seq<seq<V>>, len: nat, bs: nat)
    requires bs > 0 && |before| == NBlocks(len, bs) && |after| == NBlocks(len + 1, bs)
    requires Uniform(before, bs) && Uniform(after, bs)
    requires if |before| == |after| then after == before else 0 < |after| && after == before + [after[|after| - 1]]
    ensures |View(after, len + 1, bs)| == len + 1 && View(after, len + 1, bs)[..len] == View(before, len, bs)
  {
    if |before| == |after| {
      ViewInLastBlock(before, len, bs);
    } else {
      ViewInNewBlock(before, after[|after| - 1], len, bs);
    }
  }

  lemma SlotContents<B, V>(store: map<B, seq<V>>, store': map<B, seq<V>>, t: seq<B>, t': seq<B>)
    requires 0 < |t'| && |t'| - 1 <= |t| <= |t'| && t'[..|t'| - 1] == t[..|t'| - 1]
    requires store'.Keys == store.Keys
    requires forall b :: b in t ==> b in store
    requires t' == t ==> store' == store
    requires t' != t ==> t'[|t'| - 1] !in t
    requires forall x :: x in store && x != t'[|t'| - 1] ==> store'[x] == store[x]
    requires t'[|t'| - 1] in store
    requires |t| == |t'| ==> store'[t'[|t'| - 1]] == store[t[|t'| - 1]]
    ensures var before, after := Contents(store, t), Contents(store', t');
            if |t| == |t'| then after == before else after == before + [after[|t'| - 1]]
  {
    var n := |t'|;
    forall i | 0 <= i < n - 1
      ensures Contents(store', t')[i] == Contents(store, t)[i]
    {
      assert t'[i] == t'[..n - 1][i] == t[i];
    }
  }
}
