/** Swapping moves data along the returned pairs without changing what anybody reads. */
module SwapReads {
  import opened Wrappers
  import opened Holding
  import opened UncachedAllocator
  import opened BlockManager
  import opened Conservation
  import opened Swapping
  import opened Copying
  import opened Paging
  import opened Isolation

  ghost function FlipWorld<B, V>(w: World<B, V>): World<B, V> {
    w.(mgr := Flip(w.mgr))
  }

  lemma FlipValid<B, V>(w: World<B, V>, c: Config)
    requires ValidWorld(w, c)
    ensures ValidWorld(FlipWorld(w), c)
    ensures forall o :: o in w.mgr.tables ==> Read(FlipWorld(w), c, o) == Read(w, c, o)
  {
  }

  /** The world after the tables of a group moved from the GPU to the CPU. */
  ghost function MovedWorld<B, V>(w: World<B, V>, r: (Pool<B>, Pool<B>, map<TableId, seq<B>>, Mapping<B>)): World<B,
          V> {
    World(State(r.0, r.1, r.2), w.lens, SequentialCopy(w.store, r.3.items))
  }

  /** The pairs of a one-to-one mapping from one device to the other do not conflict. */
  lemma PairsApart<B>(m: Mapping<B>, src: set<B>, dst: set<B>)
    requires Listed(m) && Injective(m.dict) && src !! dst
    requires forall k :: k in m.dict ==> k in src && m.dict[k] in dst
    ensures ConflictFree(m.items) && Within(m.items, src + dst)
  {
    forall i | 0 <= i < |m.items|
      ensures m.items[i].0 in m.dict && m.dict[m.items[i].0] == m.items[i].1
    {
      DictOfItem(m.items, i);
    }
    hide DictOf;
    forall i, j | 0 <= i < j < |m.items|
      ensures m.items[i].1 != m.items[j].1
    {
      assert m.items[i].0 != m.items[j].0;
    }
  }

  /** What the moved data looks like, block by block. */
  ghost predicate DataMoved<B, V>(store: map<B, V>, store': map<B, V>, d: map<B, B>) {
    && store'.Keys == store.Keys
    && (forall k :: k in d ==> k in store && d[k] in store && store'[d[k]] == store[k])
    && (forall b :: b in store && (forall k :: k in d ==> d[k] != b) ==> store'[b] == store[b])
  }

  lemma ItemsMoveData<B, V>(store: map<B, V>, m: Mapping<B>)
    requires Listed(m) && ConflictFree(m.items) && Within(m.items, store.Keys)
    ensures DataMoved(store, SequentialCopy(store, m.items), m.dict)
  {
    SequentialIsAtOnce(store, m.items);
    var store' := SequentialCopy(store, m.items);
    forall k | k in m.dict
      ensures k in store && m.dict[k] in store && store'[m.dict[k]] == store[k]
    {
      var i := DictOfKey(m.items, k);
      DictOfItem(m.items, i);
    }
    forall b | b in store && (forall k :: k in m.dict ==> m.dict[k] != b)
      ensures store'[b] == store[b]
    {
      forall i | 0 <= i < |m.items|
        ensures m.items[i].1 != b
      {
        DictOfItem(m.items, i);
      }
    }
  }

  /** A moved table holds, position by position, what the old one held. */
  lemma MovedContents<B, V>(store: map<B, seq<V>>, store': map<B, seq<V>>, d: map<B, B>, t: seq<B>)
    requires DataMoved(store, store', d)
    requires forall b :: b in t ==> b in d
    ensures Contents(store', Apply(d, t)) == Contents(store, t)
  {
  }

  /** A table of somebody else is not written to. */
  lemma OthersContents<B, V>(s: State<B>, store: map<B, seq<V>>, store': map<B, seq<V>>, d: map<B, B>, o: TableId)
    requires Conserved(s) && DataMoved(store, store', d) && o in s.tables
    requires forall k :: k in d ==> d[k] in s.cpu.refs && s.cpu.refs[d[k]] == 0
    requires forall b :: b in s.tables[o] ==> b in store
    ensures Contents(store', s.tables[o]) == Contents(store, s.tables[o])
  {
    forall b | b in s.tables[o]
      ensures store'[b] == store[b]
    {
      forall k | k in d
        ensures d[k] != b
      {
        assert d[k] in s.cpu.free;
        FlipConserves(s);
        FreeBlockUnheld(Flip(s), d[k]);
      }
    }
  }

  lemma TogetherCovers<B>(tables: map<TableId, seq<B>>, owners: seq<TableId>, o: TableId)
    requires o in owners && o in tables
    ensures forall b :: b in tables[o] ==> b in Together(tables, owners)
    decreases |owners|
  {
  }

  ghost predicate AllSame<B, V>(w: World<B, V>, w': World<B, V>, c: Config) {
    && ValidWorld(w, c) && ValidWorld(w', c) && w'.mgr.tables.Keys == w.mgr.tables.Keys
    && (forall o :: o in w.mgr.tables ==> Read(w', c, o) == Read(w, c, o))
  }

  /** Swapping a group out succeeds exactly when its distinct blocks fit, and nobody's view changes. */
  lemma SwapOutReads<B, V>(w: World<B, V>, c: Config, owners: seq<TableId>)
    requires ValidWorld(w, c) && Swappable(w.mgr, owners)
    ensures var r := SwapTables(w.mgr.gpu, w.mgr.cpu, w.mgr.tables, NoMapping(), owners);
            if |Elems(Together(w.mgr.tables, owners))| <= |w.mgr.cpu.free| then
              && r.Ok? && AllSame(w, MovedWorld(w, r.value), c)
              && (forall o :: o in owners ==> o in r.value.2 && Resident(r.value.1, r.value.2[o]))
            else r == Err(OutOfMemory)
  {
    hide Shaped, StoreOk, OneDevice, Distinct, SwapTables;
    SwapGroupMoves(w.mgr, owners);
    var r := SwapTables(w.mgr.gpu, w.mgr.cpu, w.mgr.tables, NoMapping(), owners);
    if r.Ok? {
      hide GroupMoves, Conserved;
      SwapMovesData(w, c, owners, r.value);
      SwapValid(w, c, owners, r.value);
      forall o | o in w.mgr.tables
        ensures Read(MovedWorld(w, r.value), c, o) == Read(w, c, o)
      {
        SwapReadsOne(w, c, owners, r.value, o);
      }
      SwappedResident(w.mgr, owners, r.value);
    }
  }

  type SwapResult<B> = (Pool<B>, Pool<B>, map<TableId, seq<B>>, Mapping<B>)

  ghost predicate GroupDone<B>(s: State<B>, owners: seq<TableId>, r: SwapResult<B>) {
    GroupMoves(s, NoMapping(), owners, Ok(r)) && Listed(r.3)
  }

  lemma SwapMovesData<B, V>(w: World<B, V>, c: Config, owners: seq<TableId>, r: SwapResult<B>)
    requires ValidWorld(w, c) && GroupDone(w.mgr, owners, r)
    ensures DataMoved(w.store, MovedWorld(w, r).store, r.3.dict)
  {
    hide Distinct, OneDevice, Shaped, Wf, Counted, Listed, DataMoved, TablesMapped, Grown;
    PairsApart(r.3, w.mgr.gpu.refs.Keys, w.mgr.cpu.refs.Keys);
    ItemsMoveData(w.store, r.3);
  }

  lemma SwappedResident<B>(s: State<B>, owners: seq<TableId>, r: SwapResult<B>)
    requires GroupDone(s, owners, r)
    ensures forall o :: o in owners ==> o in r.2 && Resident(r.1, r.2[o])
  {
  }

  lemma SwapValid<B, V>(w: World<B, V>, c: Config, owners: seq<TableId>, r: SwapResult<B>)
    requires ValidWorld(w, c) && GroupDone(w.mgr, owners, r)
    requires DataMoved(w.store, MovedWorld(w, r).store, r.3.dict)
    ensures ValidWorld(MovedWorld(w, r), c)
    ensures MovedWorld(w, r).mgr.tables.Keys == w.mgr.tables.Keys
  {
    hide Conserved, MappingOk, Grown, Listed, SequentialCopy, NoDup, Resident, Swappable;
    var w' := MovedWorld(w, r);
    assert Conserved(w'.mgr);
    assert Shaped(w', c);
    SwapStoreOk(w, w', c, r.3.dict);
    SwapDevices(w.mgr, owners, r);
  }

  lemma SwapStoreOk<B, V>(w: World<B, V>, w': World<B, V>, c: Config, d: map<B, B>)
    requires StoreOk(w, c.blockSize) && DataMoved(w.store, w'.store, d)
    requires w'.mgr.gpu.refs.Keys == w.mgr.gpu.refs.Keys && w'.mgr.cpu.refs.Keys == w.mgr.cpu.refs.Keys
    ensures StoreOk(w', c.blockSize)
  {
  }

  lemma SwapDevices<B>(s: State<B>, owners: seq<TableId>, r: SwapResult<B>)
    requires Distinct(s) && OneDevice(s) && GroupDone(s, owners, r)
    ensures Distinct(State(r.0, r.1, r.2)) && OneDevice(State(r.0, r.1, r.2))
  {
    hide Conserved, MappingOk, Grown, Listed, NoDup;
    forall o | o in r.2
      ensures NoDup(r.2[o]) && (Resident(r.0, r.2[o]) || Resident(r.1, r.2[o]))
    {
      if o !in owners {
        assert r.2[o] == s.tables[o];
      }
    }
  }

  lemma SwapReadsOne<B, V>(w: World<B, V>, c: Config, owners: seq<TableId>, r: SwapResult<B>, o: TableId)
    requires ValidWorld(w, c) && GroupDone(w.mgr, owners, r) && o in w.mgr.tables
    requires DataMoved(w.store, MovedWorld(w, r).store, r.3.dict)
    requires ValidWorld(MovedWorld(w, r), c) && MovedWorld(w, r).mgr.tables.Keys == w.mgr.tables.Keys
    ensures Read(MovedWorld(w, r), c, o) == Read(w, c, o)
  {
    hide DataMoved, SequentialCopy, Listed, Injective, Distinct, OneDevice, Shaped, StoreOk, View;
    ContentsUniform(w, c, o);
    var w' := MovedWorld(w, r);
    if o in owners {
      TogetherCovers(w.mgr.tables, owners, o);
      assert w'.mgr.tables[o] == Apply(r.3.dict, w.mgr.tables[o]);
      MovedContents(w.store, w'.store, r.3.dict, w.mgr.tables[o]);
    } else {
      assert w'.mgr.tables[o] == w.mgr.tables[o];
      OthersContents(w.mgr, w.store, w'.store, r.3.dict, o);
    }
  }
}
