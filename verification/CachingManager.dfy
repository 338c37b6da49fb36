/**
 * The prefix-caching manager as the objects of the program: blocks with mutable fields, the ordered
 * dictionary of the evictor, the allocator and the table dictionary. Every method is proved against
 * the functions of `CachedAllocator` and `PrefixCache` on a snapshot of the objects.
 */
module CachingManager {
  import opened Wrappers
  import opened Holding
  import opened Evictor
  import opened OrderedDict
  import opened CachedAllocator
  import BlockManager
  import PrefixCache
  import PrefixSoundness
  import PrefixAppend
  import PrefixRuns
  import PrefixReuse
  import PrefixAdmission
  import Paging

  class CachedBlock {
    const number: nat
    var blockHash: Key
    var refCount: nat
    var numHashedTokens: nat
    var lastAccessed: real

    constructor (number: nat)
      ensures this.number == number && refCount == 0
    {
      this.number, refCount, blockHash, numHashedTokens := number, 0, Counter(0), 0;
      lastAccessed := DEFAULT_LAST_ACCESSED_TIME;
    }

    ghost function Fields(): Info
      reads this
    {
      Info(blockHash, refCount, numHashedTokens, lastAccessed)
    }
  }

  ghost function FieldsOf(blocks: seq<CachedBlock>): (r: map<CachedBlock, Info>)
    reads blocks
    ensures r.Keys == Elems(blocks) && forall b :: b in blocks ==> r[b] == b.Fields()
  {
    map b | b in blocks :: b.Fields()
  }

  class LRUEvictor {
    var freeTable: FreeTable<CachedBlock>

    constructor ()
      ensures freeTable == []
    {
      freeTable := [];
    }

    /** Hashes are the blocks' own, and differ. */
    ghost predicate Valid()
      reads this, Blocks()
    {
      && (forall i :: 0 <= i < |freeTable| ==> freeTable[i].1.blockHash == freeTable[i].0)
      && (forall i, j :: 0 <= i < j < |freeTable| ==> freeTable[i].0 != freeTable[j].0)
    }

    ghost function Blocks(): set<CachedBlock>
      reads this
    {
      set i | 0 <= i < |freeTable| :: freeTable[i].1
    }

    method Evict(ghost info: map<CachedBlock, Info>) returns (r: Result<CachedBlock>)
      requires Valid() && Described(freeTable, info)
      requires forall b :: b in Blocks() ==> info[b] == b.Fields()
      modifies this
      ensures if old(freeTable) == [] then r == Err(OutOfMemory) && freeTable == []
              else var i := Victim(old(freeTable), info);
                r == Ok(old(freeTable)[i].1) && freeTable == Without(old(freeTable), i)
    {
      if |freeTable| == 0 {
        return Err(OutOfMemory);
      }
      var evicted := freeTable[0].1;
      ghost var best := 0;
      for i := 0 to |freeTable|
        invariant best < |freeTable| && evicted == freeTable[best].1
        invariant Scan(freeTable, info, best, i) == Victim(freeTable, info)
      {
        var block := freeTable[i].1;
        assert block in Blocks() && evicted in Blocks();
        if evicted.lastAccessed < block.lastAccessed {
          break;
        }
        if evicted.numHashedTokens < block.numHashedTokens {
          evicted := block;
          best := i;
        }
      }
      assert freeTable[best].0 == evicted.blockHash;
      var at := IndexOf(freeTable, evicted.blockHash);
      assert at == best;
      freeTable := Without(freeTable, at);
      return Ok(evicted);
    }

    /** The blocks stand in order of access, as the early exit of `Evict` needs it. */
    ghost predicate InOrder()
      reads this, Blocks()
    {
      forall i, j :: 0 <= i < j < |freeTable| ==> freeTable[i].1.lastAccessed <= freeTable[j].1.lastAccessed
    }

    ghost predicate Latest(block: CachedBlock)
      reads this, Blocks(), block
    {
      forall b :: b in Blocks() ==> b.lastAccessed <= block.lastAccessed
    }

    /** The block is filed under its hash, in place of any other; a latecomer with a new hash keeps the order. */
    method Add(block: CachedBlock)
      modifies this
      ensures freeTable == Put(old(freeTable), block.blockHash, block)
      ensures old(Valid()) ==>
                Valid() && forall e :: e in freeTable <==> if e.0 == block.blockHash then e.1 == block
                  else e in old(freeTable)
      ensures old(InOrder() && !Has(freeTable, block.blockHash) && Latest(block)) ==> InOrder()
    {
      hide Put, Has;
      freeTable := Put(freeTable, block.blockHash, block);
      PutNew(old(freeTable), block.blockHash, block);
      if old(Valid()) {
        PutEntries(old(freeTable), block.blockHash, block);
      }
      assert forall i :: 0 <= i < |old(freeTable)| ==> old(freeTable)[i].1 in old(Blocks());
    }

    /** The block under the hash, which is the only entry to go; or ValueError if there is none. */
    method Remove(hash: Key) returns (r: Result<CachedBlock>)
      modifies this
      ensures if Has(old(freeTable), hash) then
                var i := IndexOf(old(freeTable), hash);
                r == Ok(old(freeTable)[i].1) && freeTable == Without(old(freeTable), i)
              else r == Err(ValueError) && freeTable == old(freeTable)
      ensures old(Valid()) ==> Valid() && forall e :: e in freeTable <==> e in old(freeTable) && e.0 != hash
      ensures old(InOrder()) ==> InOrder()
    {
      hide IndexOf, Without;
      if !Has(freeTable, hash) {
        NoneHas(freeTable, hash);
        return Err(ValueError);
      }
      var i := IndexOf(freeTable, hash);
      r := Ok(freeTable[i].1);
      freeTable := Without(freeTable, i);
      WithoutEntry(old(freeTable), i);
    }
  }

  lemma PutNew(t: FreeTable<CachedBlock>, k: Key, b: CachedBlock)
    ensures !Has(t, k) ==> Put(t, k, b) == t + [(k, b)]
  {
  }

  lemma PutEntries(t: FreeTable<CachedBlock>, k: Key, b: CachedBlock)
    requires forall i, j :: 0 <= i < j < |t| ==> t[i].0 != t[j].0
    ensures forall e :: e in Put(t, k, b) <==> if e.0 == k then e.1 == b else e in t
    ensures forall i, j :: 0 <= i < j < |Put(t, k, b)| ==> Put(t, k, b)[i].0 != Put(t, k, b)[j].0
  {
    var r := Put(t, k, b);
    forall e | e in t && e.0 != k
      ensures e in r
    {
      var i :| 0 <= i < |t| && t[i] == e;
      assert r[i] == e;
    }
    assert (k, b) in r by { assert r[if Has(t, k) then IndexOf(t, k) else |t|] == (k, b); }
  }

  lemma NoneHas(t: FreeTable<CachedBlock>, k: Key)
    requires !Has(t, k)
    ensures forall e :: e in t ==> e.0 != k
  {
  }

  lemma WithoutEntry(t: FreeTable<CachedBlock>, i: nat)
    requires i < |t|
    ensures var r := Without(t, i);
            && |r| == |t| - 1 && (forall j :: 0 <= j < |r| ==> r[j] == t[if j < i then j else j + 1])
            && ((forall j, l :: 0 <= j < l < |t| ==> t[j].0 != t[l].0) ==>
              forall e :: e in r <==> e in t && e.0 != t[i].0)
  {
    var r := Without(t, i);
    forall e | e in t && e.0 != t[i].0
      ensures e in r
    {
      var j :| 0 <= j < |t| && t[j] == e;
      assert r[if j < i then j else j - 1] == e;
    }
  }

  lemma AcquireKeyPool<B>(p: CPool<B>, k: Key, numHashed: nat)
    requires PoolOk(p) && (k.Counter? ==> k.n < p.ctr)
    ensures AcquireKey(p, k, numHashed).Ok? ==> PoolOk(AcquireKey(p, k, numHashed).value.0)
    ensures AcquireKey(p, k, numHashed).Err? ==> AcquireKey(p, k, numHashed).error == OutOfMemory
  {
    hide PoolOk, AcquireKey;
    AcquireKeyKeeps(p, k, numHashed);
  }

  lemma AcquireCreates<B>(p: CPool<B>, want: Option<Key>, numHashed: nat)
    requires PoolOk(p) && (want.Some? ==> want.value.Content?)
    ensures var r := Acquire(p, want, numHashed);
            r.Ok? ==> r.value.1 in r.value.0.info && p.info.Keys <= r.value.0.info.Keys
  {
    hide PoolOk, Acquire;
    AcquireKeeps(p, want, numHashed);
  }

  lemma HashCreated<B>(p: CPool<B>, k: Key)
    requires PoolOk(p)
    ensures Contains(p, k) <==> exists b :: b in p.info && p.info[b].key == k
  {
    hide Keyed;
    if b :| b in p.info && p.info[b].key == k {
      if p.info[b].refs == 0 {
        var j :| 0 <= j < |p.table| && p.table[j] == (k, b);
        assert p.table[j].0 == k;
      }
    }
  }

  /** Blocks are numbered by `all`; a block's fields are set when its number comes up. */
  class CachedBlockAllocator {
    const all: seq<CachedBlock>
    const evictor: LRUEvictor
    var currentNumBlocks: nat
    var cachedBlocks: map<Key, CachedBlock>
    var defaultHashCtr: nat

    ghost function Snapshot(): CPool<CachedBlock>
      requires currentNumBlocks <= |all|
      reads this, evictor, all
    {
      CPool(all, currentNumBlocks, FieldsOf(all[..currentNumBlocks]), cachedBlocks, evictor.freeTable, defaultHashCtr)
    }

    ghost predicate Valid()
      reads this, evictor, all
    {
      currentNumBlocks <= |all| && PoolOk(Snapshot())
    }

    constructor (numBlocks: nat)
      ensures Valid() && fresh(evictor) && |all| == numBlocks && (forall b :: b in all ==> fresh(b))
      ensures Snapshot() == CPool(all, 0, map[], map[], [], 0)
      ensures forall i :: 0 <= i < |all| ==> all[i].number == i
    {
      var blocks: seq<CachedBlock> := [];
      for i := 0 to numBlocks
        invariant |blocks| == i && NoDup(blocks) && (forall b :: b in blocks ==> fresh(b))
        invariant forall k :: 0 <= k < i ==> blocks[k].number == k
      {
        var b := new CachedBlock(i);
        blocks := blocks + [b];
      }
      all := blocks;
      var e := new LRUEvictor();
      evictor := e;
      currentNumBlocks, cachedBlocks, defaultHashCtr := 0, map[], 0;
      new;
      assert FieldsOf(all[..0]) == map[];
    }

    method AllocateBlock(hash: Key, numHashed: nat) returns (r: Result<CachedBlock>)
      requires Valid()
      modifies this`currentNumBlocks, evictor, all
      ensures currentNumBlocks <= |all|
      ensures var spec := CachedAllocator.AllocateBlock(old(Snapshot()), hash, numHashed);
              if spec.Ok? then r == Ok(spec.value.1) && r.value in all && Snapshot() == spec.value.0
              else r == Err(spec.error) && Snapshot() == old(Snapshot())
    {
      hide Scan, IndexOf, PoolOk, LRUEvictor.Valid, Victim;
      ghost var p := Snapshot();
      if currentNumBlocks == |all| {
        Tabled();
        var e := evictor.Evict(p.info);
        if e.Err? {
          return Err(e.error);
        }
        var block := e.value;
        assert block in p.info;
        block.blockHash := hash;
        block.numHashedTokens := numHashed;
        OneChanged(p.info, block);
        return Ok(block);
      }
      var block := all[currentNumBlocks];
      block.blockHash, block.refCount, block.numHashedTokens := hash, 0, numHashed;
      block.lastAccessed := DEFAULT_LAST_ACCESSED_TIME;
      currentNumBlocks := currentNumBlocks + 1;
      Created(p.info, block);
      return Ok(block);
    }

    /** The evictor's table holds created blocks under their own, different hashes. */
    lemma Tabled()
      requires Valid()
      ensures evictor.Valid() && Described(evictor.freeTable, Snapshot().info)
      ensures forall b :: b in evictor.Blocks() ==> b in Snapshot().info && Snapshot().info[b] == b.Fields()
    {
      hide Keyed, CachedOk;
      forall i | 0 <= i < |evictor.freeTable|
        ensures evictor.freeTable[i].1 in Snapshot().info
        ensures evictor.freeTable[i].1.blockHash == evictor.freeTable[i].0
      {
        assert evictor.freeTable[i].1 in Snapshot().info;
      }
    }

    lemma Listed(block: CachedBlock)
      requires currentNumBlocks <= |all| && block in Snapshot().info
      ensures block in all
    {
    }

    lemma OneChanged(was: map<CachedBlock, Info>, block: CachedBlock)
      requires currentNumBlocks <= |all| && was.Keys == Elems(all[..currentNumBlocks]) && block in was
      requires forall b :: b in was && b != block ==> was[b] == b.Fields()
      ensures Snapshot().info == was[block := block.Fields()]
    {
    }

    lemma Created(was: map<CachedBlock, Info>, block: CachedBlock)
      requires 0 < currentNumBlocks <= |all| && was.Keys == Elems(all[..currentNumBlocks - 1])
               && block == all[currentNumBlocks - 1]
      requires forall b :: b in was && b != block ==> was[b] == b.Fields()
      ensures Snapshot().info == was[block := block.Fields()]
    {
      var now := all[..currentNumBlocks];
      assert now == all[..currentNumBlocks - 1] + [block];
      assert Elems(now) == was.Keys + {block};
    }
  
    method Retain(block: CachedBlock)
      requires currentNumBlocks <= |all| && block in Snapshot().info
      modifies block`refCount
      ensures block in old(Snapshot().info) && Bump(old(Snapshot()), block) == Ok((Snapshot(), block))
    {
      hide FieldsOf;
      ghost var p := Snapshot();
      block.refCount := block.refCount + 1;
      OneChanged(p.info, block);
    }

    /** Brings a freed block back into use. */
    method TakeBack(hash: Key) returns (r: Result<CachedBlock>)
      requires Valid() && Has(evictor.freeTable, hash)
      modifies this`cachedBlocks, evictor, all
      ensures currentNumBlocks <= |all| && r.Ok? && r.value in all
      ensures forall n: nat :: AcquireKey(old(Snapshot()), hash, n) == Ok((Snapshot(), r.value))
    {
      hide PoolOk, IndexOf, FieldsOf, Bump, Acquired, Has, LRUEvictor.Valid, LRUEvictor.InOrder;
      ghost var p := Snapshot();
      TakeBackKeeps(p, hash);
      if hash in cachedBlocks {
        return Err(AssertionFailed);
      }
      var e := evictor.Remove(hash);
      var block := e.value;
      assert block in p.info;
      if block.refCount != 0 || block.blockHash != hash {
        return Err(AssertionFailed);
      }
      cachedBlocks := cachedBlocks[hash := block];
      Retain(block);
      return Ok(block);
    }

    /** A block for a hash that no block has. */
    method AllocateMissing(hash: Key, numHashed: nat) returns (r: Result<CachedBlock>)
      requires Valid() && (hash.Counter? ==> hash.n < defaultHashCtr)
      requires !Has(evictor.freeTable, hash) && hash !in cachedBlocks
      modifies this`currentNumBlocks, this`cachedBlocks, evictor, all
      ensures currentNumBlocks <= |all|
      ensures var spec := AcquireKey(old(Snapshot()), hash, numHashed);
              if spec.Ok? then r == Ok(spec.value.1) && r.value in all && Snapshot() == spec.value.0
              else r == Err(spec.error) && Snapshot() == old(Snapshot())
    {
      hide PoolOk, CachedAllocator.AllocateBlock, Has, IndexOf, FieldsOf, Bump, Acquired;
      ghost var p := Snapshot();
      NewBlockKeeps(p, hash, numHashed);
      var b := AllocateBlock(hash, numHashed);
      if b.Err? {
        return b;
      }
      ghost var q := Snapshot();
      cachedBlocks := cachedBlocks[hash := b.value];
      assert Snapshot() == q.(cached := q.cached[hash := b.value]);
      assert AcquireKey(p, hash, numHashed) == Bump(Snapshot(), b.value);
      Retain(b.value);
      return b;
    }

    method AllocateKey(hash: Key, numHashed: nat) returns (r: Result<CachedBlock>)
      requires Valid() && (hash.Counter? ==> hash.n < defaultHashCtr)
      modifies this`currentNumBlocks, this`cachedBlocks, evictor, all
      ensures Valid()
      ensures var spec := AcquireKey(old(Snapshot()), hash, numHashed);
              if spec.Ok? then r == Ok(spec.value.1) && r.value in all && Snapshot() == spec.value.0
              else r == Err(spec.error) && Snapshot() == old(Snapshot())
    {
      hide PoolOk, CachedAllocator.AllocateBlock, Has, IndexOf, FieldsOf, Bump, Acquired;
      ghost var p := Snapshot();
      AcquireKeyPool(p, hash, numHashed);
      if Has(evictor.freeTable, hash) {
        r := TakeBack(hash);
        return;
      }
      if hash !in cachedBlocks {
        r := AllocateMissing(hash, numHashed);
        return;
      }
      HitKeeps(p, hash);
      if cachedBlocks[hash].blockHash != hash {
        return Err(AssertionFailed);
      }
      var block := cachedBlocks[hash];
      Retain(block);
      return Ok(block);
    }
  
    method Allocate(hash: Option<Key>, numHashed: nat) returns (r: Result<CachedBlock>)
      requires Valid() && (hash.Some? ==> hash.value.Content?)
      modifies this, evictor, all
      ensures Valid()
      ensures var spec := Acquire(old(Snapshot()), hash, numHashed);
              if spec.Ok? then r == Ok(spec.value.1) && r.value in Snapshot().info && Snapshot() == spec.value.0
              else r == Err(spec.error)
      ensures old(Snapshot().info.Keys) <= Snapshot().info.Keys
    {
      hide PoolOk, AcquireKey, FieldsOf, Acquired;
      AcquireCreates(Snapshot(), hash, numHashed);
      var k;
      if hash.None? {
        CounterAdvances(Snapshot());
        k := Counter(defaultHashCtr);
        defaultHashCtr := defaultHashCtr + 1;
      } else {
        k := hash.value;
      }
      r := AllocateKey(k, numHashed);
    }

    method Free(block: CachedBlock) returns (r: Result<()>)
      requires Valid() && block in Snapshot().info
      modifies this`cachedBlocks, evictor, block`refCount
      ensures Valid()
      ensures var spec := Release(old(Snapshot()), block);
              if spec.Ok? then r == Ok(()) && Snapshot() == spec.value
              else r == Err(spec.error) && Snapshot() == old(Snapshot())
      ensures Snapshot().info.Keys == old(Snapshot().info.Keys)
    {
      hide PoolOk, FieldsOf, Has, IndexOf, Put, LRUEvictor.Valid, LRUEvictor.InOrder, LRUEvictor.Latest;
      ghost var p := Snapshot();
      if block.refCount == 0 {
        return Err(DoubleFree);
      }
      ReleaseKeeps(p, block);
      NotInTable(p, block);
      block.refCount := block.refCount - 1;
      OneChanged(p.info, block);
      if block.refCount == 0 {
        if Has(evictor.freeTable, block.blockHash) {
          return Err(AssertionFailed);
        }
        evictor.Add(block);
        cachedBlocks := cachedBlocks - {block.blockHash};
      }
      return Ok(());
    }

    /** True exactly if some created block, in use or freed, has the hash. */
    function ContainsBlock(hash: Key): (r: bool)
      requires currentNumBlocks <= |all|
      reads this, evictor, all
      ensures r == Contains(Snapshot(), hash)
      ensures Valid() ==> (r <==> exists b :: b in all[..currentNumBlocks] && b.blockHash == hash)
    {
      ContainsCreated(hash);
      hash in cachedBlocks || Has(evictor.freeTable, hash)
    }

    lemma ContainsCreated(hash: Key)
      requires currentNumBlocks <= |all|
      ensures Valid() ==>
                (Contains(Snapshot(), hash) <==> exists b :: b in all[..currentNumBlocks] && b.blockHash == hash)
    {
      hide PoolOk, Contains;
      if Valid() {
        HashCreated(Snapshot(), hash);
        assert forall b :: b in Snapshot().info <==> b in all[..currentNumBlocks];
      }
    }

    method UpdateHash(hash: Key, block: CachedBlock) returns (r: Result<()>)
      requires Valid() && block in Snapshot().info && block.refCount > 0 && hash.Content?
      modifies this`cachedBlocks, block`blockHash
      ensures Valid()
      ensures var spec := CachedAllocator.UpdateHash(old(Snapshot()), hash, block);
              if spec.Ok? then r == Ok(()) && Snapshot() == spec.value
              else r == Err(spec.error) && Snapshot() == old(Snapshot())
      ensures Snapshot().info.Keys == old(Snapshot().info.Keys)
    {
      hide PoolOk, FieldsOf, Has;
      ghost var p := Snapshot();
      if ContainsBlock(hash) {
        return Err(AssertionFailed);
      }
      UpdateHashKeeps(p, hash, block);
      NotInTable(p, block);
      var oldHash := block.blockHash;
      block.blockHash := hash;
      OneChanged(p.info, block);
      cachedBlocks := (cachedBlocks - {oldHash})[hash := block];
      return Ok(());
    }

    /** The reported count is the number of blocks no table holds. */
    method GetNumFreeBlocks(ghost tables: map<nat, seq<CachedBlock>>) returns (n: int)
      requires Valid() && Counted(Snapshot(), tables)
      ensures n == |all| - |Held(Snapshot(), tables)|
    {
      n := |all| - currentNumBlocks + |evictor.freeTable|;
      FreeCount(Snapshot(), tables);
    }
  }

  class Manager {
    const blockSize: nat
    const watermarkBlocks: nat
    const gpu: CachedBlockAllocator
    var tables: map<nat, seq<CachedBlock>>

    ghost predicate Valid()
      reads this, gpu, gpu.evictor, gpu.all
    {
      && blockSize > 0 && gpu.Valid()
      && (forall o :: o in tables ==> Created(tables[o]))
    }

    ghost predicate Created(t: seq<CachedBlock>)
      requires gpu.Valid()
      reads gpu, gpu.evictor, gpu.all
    {
      forall b :: b in t ==> b in gpu.Snapshot().info
    }

    ghost function Snapshot(): PrefixCache.CState<CachedBlock>
      requires gpu.currentNumBlocks <= |gpu.all|
      reads this, gpu, gpu.evictor, gpu.all
    {
      PrefixCache.CState(gpu.Snapshot(), tables)
    }

    /** The manager is part of a world in which every sequence reads the entries of its own prefixes. */
    ghost predicate Sound<V>(w: PrefixCache.World<CachedBlock, V>, kv: PrefixCache.Kv<V>)
      requires blockSize > 0 && gpu.currentNumBlocks <= |gpu.all|
      reads this, gpu, gpu.evictor, gpu.all
    {
      w.mgr == Snapshot() && PrefixCache.Inv(w, kv, blockSize) && PrefixCache.Complete(w, blockSize)
    }

    constructor (blockSize: nat, numGpuBlocks: nat, watermarkBlocks: nat)
      requires blockSize > 0
      ensures Valid() && this.blockSize == blockSize && this.watermarkBlocks == watermarkBlocks
      ensures fresh(gpu) && fresh(gpu.evictor) && (forall b :: b in gpu.all ==> fresh(b)) && |gpu.all| == numGpuBlocks
      ensures Snapshot() == PrefixCache.CState(CPool(gpu.all, 0, map[], map[], [], 0), map[])
    {
      this.blockSize, this.watermarkBlocks := blockSize, watermarkBlocks;
      var g := new CachedBlockAllocator(numGpuBlocks);
      this.gpu, tables := g, map[];
    }

    method AllocateSequence(d: PrefixCache.SeqData) returns (r: Result<seq<CachedBlock>>)
      requires Valid()
      modifies gpu, gpu.evictor, gpu.all
      ensures gpu.Valid() && unchanged(this) && old(gpu.Snapshot().info.Keys) <= gpu.Snapshot().info.Keys
      ensures var spec := PrefixCache.AllocateTable(old(gpu.Snapshot()), d, blockSize, []);
              if spec.Ok? then r == Ok(spec.value.1) && gpu.Snapshot() == spec.value.0 && Created(r.value)
              else r == Err(spec.error)
      ensures if PrefixReuse.Cost(old(gpu.Snapshot()), d, blockSize) <= NumFree(old(gpu.Snapshot()))
              then r.Ok? && PrefixReuse.TableMade(old(gpu.Snapshot()), d, blockSize, [], gpu.Snapshot(), r.value)
              else r == Err(OutOfMemory)
    {
      hide PoolOk, Acquire, FieldsOf, PrefixCache.PrefixKey, PrefixCache.BlockEnd, PrefixReuse.TableMade,
        PrefixReuse.Lacking, NumFree;
      PrefixReuse.AllocateTableExact(gpu.Snapshot(), d, blockSize, []);
      var n := (|PrefixCache.Tokens(d)| + blockSize - 1) / blockSize;
      Paging.NBlocksIsCeiling(|PrefixCache.Tokens(d)|, blockSize);
      ghost var spec := PrefixCache.AllocateTable(gpu.Snapshot(), d, blockSize, []);
      var table: seq<CachedBlock> := [];
      while |table| < n
        invariant gpu.Valid() && |table| <= n && unchanged(this) && Created(table)
        invariant old(gpu.Snapshot().info.Keys) <= gpu.Snapshot().info.Keys
        invariant spec == PrefixCache.AllocateTable(gpu.Snapshot(), d, blockSize, table)
      {
        PrefixCache.PrefixKeyTokens(d, PrefixCache.BlockEnd(|table|, blockSize));
        var a := gpu.Allocate(Some(PrefixCache.HashOfBlock(d, |table|, blockSize)),
            PrefixCache.BlockEnd(|table|, blockSize));
        if a.Err? {
          return Err(a.error);
        }
        table := table + [a.value];
      }
      return Ok(table);
    }
  
    /**
     * Succeeds exactly if the free blocks cover the content that no sequence holds; every block of
     * the new table is filed under the tokens up to its end, and content that was there is reused.
     */
    method Allocate<V>(id: nat, d: PrefixCache.SeqData, ghost w: PrefixCache.World<CachedBlock, V>,
            ghost kv: PrefixCache.Kv<V>) returns (r: Result<()>)
      requires Valid()
      modifies this`tables, gpu, gpu.evictor, gpu.all
      ensures Valid()
      ensures var spec := PrefixCache.Allocate(old(Snapshot()), blockSize, id, d);
              if spec.Ok? then r == Ok(()) && Snapshot() == spec.value else r == Err(spec.error)
      ensures if PrefixReuse.Cost(old(gpu.Snapshot()), d, blockSize) <= NumFree(old(gpu.Snapshot())) then
                && r.Ok? && tables == old(tables)[id := tables[id]]
                && PrefixReuse.TableMade(old(gpu.Snapshot()), d, blockSize, [], gpu.Snapshot(), tables[id])
              else r == Err(OutOfMemory)
      ensures old(Sound(w, kv)) && id !in old(tables) && r.Ok? ==>
                Sound(PrefixRuns.AllocateWorld(w, kv, blockSize, id, d, Snapshot()), kv)
    {
      hide PrefixCache.AllocateTable, FieldsOf, PoolOk, PrefixCache.Inv, PrefixCache.Complete, PrefixRuns.PromptStore,
        PrefixReuse.TableMade, PrefixReuse.Lacking, NumFree;
      if Sound(w, kv) && id !in tables {
        PrefixRuns.AllocateKeeps(w, kv, blockSize, id, d);
      }
      var t := AllocateSequence(d);
      if t.Err? {
        return Err(t.error);
      }
      tables := tables[id := t.value];
      return Ok(());
    }

    method AllocateLastPhysicalBlock(d: PrefixCache.SeqData) returns (r: Result<CachedBlock>)
      requires Valid()
      modifies gpu, gpu.evictor, gpu.all
      ensures Valid() && unchanged(this)
      ensures var spec := PrefixCache.AllocateLast(old(gpu.Snapshot()), d, blockSize);
              if spec.Ok? then r == Ok(spec.value.1) && gpu.Snapshot() == spec.value.0 && r.value in gpu.Snapshot().info
              else r == Err(spec.error)
    {
      hide PoolOk, Acquire, FieldsOf, PrefixCache.PrefixKey, PrefixCache.BlockEnd, PrefixCache.LastBlockFull;
      var n := (|PrefixCache.Tokens(d)| + blockSize - 1) / blockSize;
      Paging.NBlocksIsCeiling(|PrefixCache.Tokens(d)|, blockSize);
      if n == 0 {
        return Err(AssertionFailed);
      }
      var hash: Option<Key> := None;
      if PrefixCache.LastBlockFull(d, blockSize) {
        hash := Some(PrefixCache.HashOfBlock(d, n - 1, blockSize));
      }
      PrefixCache.PrefixKeyTokens(d, PrefixCache.BlockEnd(n - 1, blockSize));
      var a := gpu.Allocate(hash, PrefixCache.BlockEnd(n - 1, blockSize));
      if a.Err? {
        return a;
      }
      if hash.None? && a.value.refCount != 1 {
        return Err(AssertionFailed);
      }
      return a;
    }

    method MaybePromoteLastBlock(d: PrefixCache.SeqData, last: CachedBlock) returns (r: Result<CachedBlock>)
      requires Valid() && last in gpu.Snapshot().info && last.refCount == 1
      modifies gpu, gpu.evictor, gpu.all
      ensures Valid() && unchanged(this)
      ensures var spec := PrefixCache.Promote(old(gpu.Snapshot()), d, blockSize, last);
              if spec.Ok? then r == Ok(spec.value.1) && gpu.Snapshot() == spec.value.0 && r.value in gpu.Snapshot().info
              else r == Err(spec.error)
    {
      hide PoolOk, Acquire, FieldsOf, PrefixCache.PrefixKey, PrefixCache.BlockEnd, PrefixCache.LastBlockFull, Contains,
           Release, UpdateHash,
        CachedBlockAllocator.Snapshot, PrefixCache.Tokens;
      gpu.Listed(last);
      if !PrefixCache.LastBlockFull(d, blockSize) {
        return Ok(last);
      }
      var n := (|PrefixCache.Tokens(d)| + blockSize - 1) / blockSize;
      Paging.NBlocksIsCeiling(|PrefixCache.Tokens(d)|, blockSize);
      HasLastBlock(d, blockSize);
      PrefixCache.PrefixKeyTokens(d, PrefixCache.BlockEnd(n - 1, blockSize));
      var hash := PrefixCache.HashOfBlock(d, n - 1, blockSize);
      if gpu.ContainsBlock(hash) {
        var f := gpu.Free(last);
        if f.Err? {
          return Err(f.error);
        }
        r := gpu.Allocate(Some(hash), 0);
      } else {
        var u := gpu.UpdateHash(hash, last);
        if u.Err? {
          return Err(u.error);
        }
        return Ok(last);
      }
    }

    method AppendSlots<V>(id: nat, d: PrefixCache.SeqData, ghost w: PrefixCache.World<CachedBlock, V>,
            ghost kv: PrefixCache.Kv<V>)
      returns (r: Result<seq<(CachedBlock, CachedBlock)>>)
      requires Valid()
      modifies this`tables, gpu, gpu.evictor, gpu.all
      ensures Valid()
      ensures var spec := PrefixCache.AppendSlots(old(Snapshot()), blockSize, id, d);
              if spec.Ok? then r == Ok(spec.value.1) && Snapshot() == spec.value.0 else r == Err(spec.error)
      ensures old(Sound(w, kv)) && id in old(tables) && id in w.data && PrefixAppend.Extends(w.data[id], d) ==>
                if r.Ok? then Sound(PrefixAppend.AppendWorld(w, kv, blockSize, id, d, Snapshot(), r.value), kv)
                else r == Err(OutOfMemory)
    {
      r := ReserveSlot(id, d);
      hide PoolOk, FieldsOf, PrefixCache.Inv, PrefixCache.Complete, PrefixCache.AppendSlots, PrefixAppend.AppendWorld,
           PrefixAppend.Extends;
      if old(Sound(w, kv)) && id in old(tables) && id in w.data && PrefixAppend.Extends(w.data[id], d) {
        PrefixAppend.AppendKeeps(w, kv, blockSize, id, d);
      }
    }

    method ReserveSlot(id: nat, d: PrefixCache.SeqData) returns (r: Result<seq<(CachedBlock, CachedBlock)>>)
      requires Valid()
      modifies this`tables, gpu, gpu.evictor, gpu.all
      ensures Valid()
      ensures var spec := PrefixCache.AppendSlots(old(Snapshot()), blockSize, id, d);
              if spec.Ok? then r == Ok(spec.value.1) && Snapshot() == spec.value.0 else r == Err(spec.error)
    {
      hide PoolOk, FieldsOf, PrefixCache.AllocateLast, PrefixCache.Promote, Release;
      var n := (|PrefixCache.Tokens(d)| + blockSize - 1) / blockSize;
      Paging.NBlocksIsCeiling(|PrefixCache.Tokens(d)|, blockSize);
      if id !in tables {
        return Err(KeyError);
      }
      if |tables[id]| < n {
        if |tables[id]| != n - 1 {
          return Err(AssertionFailed);
        }
        var a := AllocateLastPhysicalBlock(d);
        if a.Err? {
          return Err(a.error);
        }
        SetTable(id, tables[id] + [a.value]);
        return Ok([]);
      }
      if |tables[id]| == 0 {
        return Err(KeyError);
      }
      var last := tables[id][|tables[id]| - 1];
      if last.refCount == 1 {
        r := AppendInPlace(id, d);
      } else {
        r := CopyOnWrite(id, d);
      }
    }

    /** The last block is this table's own; once full it may give way to a block with the same content. */
    method AppendInPlace(id: nat, d: PrefixCache.SeqData) returns (r: Result<seq<(CachedBlock, CachedBlock)>>)
      requires Valid() && id in tables && tables[id] != [] && tables[id][|tables[id]| - 1].refCount == 1
      modifies this`tables, gpu, gpu.evictor, gpu.all
      ensures Valid()
      ensures var t := old(tables)[id];
              match PrefixCache.Promote(old(gpu.Snapshot()), d, blockSize, t[|t| - 1])
              case Err(e) => r == Err(e)
              case Ok((p, b)) =>
                r == Ok([]) && Snapshot() == PrefixCache.CState(p, old(tables)[id := t[..|t| - 1] + [b]])
    {
      hide PoolOk, FieldsOf, PrefixCache.Promote;
      var t := tables[id];
      assert t[|t| - 1] in t;
      var b := MaybePromoteLastBlock(d, t[|t| - 1]);
      if b.Err? {
        return Err(b.error);
      }
      SetTable(id, t[..|t| - 1] + [b.value]);
      return Ok([]);
    }

    /** The last block is shared: a new one takes its place, to be copied into. */
    method CopyOnWrite(id: nat, d: PrefixCache.SeqData) returns (r: Result<seq<(CachedBlock, CachedBlock)>>)
      requires Valid() && id in tables && tables[id] != []
      modifies this`tables, gpu, gpu.evictor, gpu.all
      ensures Valid()
      ensures var t := old(tables)[id];
              match PrefixCache.AllocateLast(old(gpu.Snapshot()), d, blockSize)
              case Err(e) => r == Err(e)
              case Ok((p, b)) =>
                match Release(p, t[|t| - 1])
                case Err(e) => r == Err(e)
                case Ok(q) =>
                  r == Ok([(t[|t| - 1], b)])
                  && Snapshot() == PrefixCache.CState(q, old(tables)[id := t[..|t| - 1] + [b]])
    {
      hide PoolOk, FieldsOf, PrefixCache.AllocateLast, Release;
      var t := tables[id];
      var last := t[|t| - 1];
      assert last in t;
      var a := AllocateLastPhysicalBlock(d);
      if a.Err? {
        return Err(a.error);
      }
      SetTable(id, t[..|t| - 1] + [a.value]);
      var f := gpu.Free(last);
      if f.Err? {
        return Err(f.error);
      }
      return Ok([(last, a.value)]);
    }

    method Fork<V>(parent: nat, child: nat, ghost w: PrefixCache.World<CachedBlock, V>, ghost kv: PrefixCache.Kv<V>)
      requires Valid()
      modifies this`tables, gpu.all
      ensures gpu.currentNumBlocks <= |gpu.all| && Snapshot() == PrefixCache.Fork(old(Snapshot()), parent, child)
      ensures old(Counted(gpu.Snapshot(), tables)) ==> Valid()
      ensures old(Sound(w, kv)) && child !in old(tables) ==>
              Valid() && Sound(PrefixRuns.ForkWorld(w, parent, child), kv)
    {
      hide PoolOk, FieldsOf, PrefixCache.Fork, PrefixCache.Inv, PrefixCache.Complete, Counted;
      ForkTable(parent, child);
      if old(Sound(w, kv)) && child !in old(tables) {
        PrefixRuns.ForkKeeps(w, kv, blockSize, parent, child);
        PrefixAppend.InvParts(w, kv, blockSize);
      }
    }

    method ForkTable(parent: nat, child: nat)
      requires Valid()
      modifies this`tables, gpu.all
      ensures gpu.currentNumBlocks <= |gpu.all| && Snapshot() == PrefixCache.Fork(old(Snapshot()), parent, child)
      ensures old(Counted(gpu.Snapshot(), tables)) ==> Valid()
    {
      hide PoolOk, FieldsOf, PrefixCache.Retain, Counted;
      if parent !in tables {
        return;
      }
      if Counted(gpu.Snapshot(), tables) {
        HeldCounted(gpu.Snapshot(), tables, parent);
        RetainPool(gpu.Snapshot(), tables[parent]);
      }
      assert Created(tables[parent]);
      RetainAll(tables[parent]);
      tables := tables[child := tables[parent]];
    }

    method RetainAll(t: seq<CachedBlock>)
      requires Valid() && Created(t)
      modifies gpu.all
      ensures gpu.currentNumBlocks <= |gpu.all| && gpu.Snapshot() == PrefixCache.Retain(old(gpu.Snapshot()), t)
      ensures gpu.Snapshot().info.Keys == old(gpu.Snapshot().info.Keys)
    {
      hide PoolOk, FieldsOf, PrefixCache.Retain, Bump;
      ghost var p := gpu.Snapshot();
      RetainNone(p);
      RetainSame(p, t);
      for i := 0 to |t|
        invariant gpu.currentNumBlocks <= |gpu.all| && gpu.Snapshot() == PrefixCache.Retain(p, t[..i])
      {
        assert t[i] in t;
        RetainNext(p, t, i);
        // a block is counted once, at its first occurrence
        if t[i] !in t[..i] {
          gpu.Retain(t[i]);
        }
      }
      assert t[..|t|] == t;
    }

    method SetTable(id: nat, t: seq<CachedBlock>)
      requires Valid() && Created(t)
      modifies this`tables
      ensures Valid() && tables == old(tables)[id := t] && gpu.Snapshot() == old(gpu.Snapshot())
    {
      hide PoolOk, FieldsOf;
      tables := tables[id := t];
    }

    /** Frees the blocks of a table; `order` is the order in which the set of them is gone through. */
    method Free<V>(id: nat, order: seq<CachedBlock>, ghost w: PrefixCache.World<CachedBlock, V>,
            ghost kv: PrefixCache.Kv<V>) returns (r: Result<()>)
      requires Valid() && (id in tables ==> BlockManager.EnumeratesSet(order, tables[id]))
      modifies this`tables, gpu`cachedBlocks, gpu.evictor, gpu.all
      ensures Valid()
      ensures var spec := PrefixCache.Free(old(Snapshot()), id, order);
              if spec.Ok? then r == Ok(()) && Snapshot() == spec.value else r == Err(spec.error)
      ensures old(Sound(w, kv)) ==> r.Ok? && Sound(PrefixRuns.FreeWorld(w, id, Snapshot()), kv)
    {
      hide PoolOk, FieldsOf, PrefixCache.ReleaseAll, PrefixCache.Inv, PrefixCache.Complete;
      if Sound(w, kv) {
        PrefixRuns.FreeKeeps(w, kv, blockSize, id, order);
      }
      if id !in tables {
        return Ok(());
      }
      assert Created(order);
      r := ReleaseBlocks(order);
      if r.Ok? {
        tables := tables - {id};
      }
    }

    method ReleaseBlocks(order: seq<CachedBlock>) returns (r: Result<()>)
      requires Valid() && Created(order)
      modifies gpu`cachedBlocks, gpu.evictor, gpu.all
      ensures Valid() && unchanged(this)
      ensures var spec := PrefixCache.ReleaseAll(old(gpu.Snapshot()), order);
              if spec.Ok? then r == Ok(()) && gpu.Snapshot() == spec.value else r == Err(spec.error)
    {
      hide PoolOk, FieldsOf, Release;
      ghost var spec := PrefixCache.ReleaseAll(gpu.Snapshot(), order);
      assert order[0..] == order;
      for i := 0 to |order|
        invariant Valid() && unchanged(this) && Created(order)
        invariant spec == PrefixCache.ReleaseAll(gpu.Snapshot(), order[i..])
      {
        assert order[i..][0] == order[i] && order[i..][1..] == order[i + 1..];
        assert order[i] in order;
        var f := gpu.Free(order[i]);
        if f.Err? {
          return f;
        }
      }
      return Ok(());
    }

    method AccessAllBlocksInSeq<V>(id: nat, time: real, ghost w: PrefixCache.World<CachedBlock, V>,
            ghost kv: PrefixCache.Kv<V>) returns (r: Result<()>)
      requires Valid()
      modifies gpu.all
      ensures Valid()
      ensures var spec := PrefixCache.Access(old(Snapshot()), id, time);
              if spec.Ok? then r == Ok(()) && Snapshot() == spec.value
              else r == Err(spec.error) && Snapshot() == old(Snapshot())
      ensures tables == old(tables) && (r.Ok? <==> id in tables)
      ensures r.Ok? ==> PrefixRuns.AccessedAt(old(gpu.Snapshot()), gpu.Snapshot(), tables[id], time)
      ensures old(Sound(w, kv)) && id in old(tables) ==> r.Ok? && Sound(w.(mgr := Snapshot()), kv)
    {
      hide PoolOk, FieldsOf, PrefixCache.Touched, PrefixCache.Inv, PrefixCache.Complete, PrefixRuns.AccessedAt;
      if id in tables {
        PrefixRuns.TouchedIs(gpu.Snapshot(), tables[id], time);
      }
      if Sound(w, kv) && id in tables {
        PrefixRuns.AccessKeeps(w, kv, blockSize, id, time);
      }
      if id !in tables {
        return Err(KeyError);
      }
      Touch(tables[id], time);
      return Ok(());
    }

    method Touch(t: seq<CachedBlock>, time: real)
      requires Valid() && Created(t)
      modifies gpu.all
      ensures Valid() && gpu.Snapshot() == PrefixCache.Touched(old(gpu.Snapshot()), t, time)
    {
      hide PoolOk, FieldsOf, PrefixCache.Touched;
      ghost var p := gpu.Snapshot();
      TouchedNone(p, time);
      for i := 0 to |t|
        invariant gpu.currentNumBlocks <= |gpu.all| && gpu.Snapshot() == PrefixCache.Touched(p, t[..i], time)
      {
        assert t[i] in t;
        TouchedNext(p, t, i, time);
        ghost var q := gpu.Snapshot();
        t[i].lastAccessed := time;
        gpu.OneChanged(q.info, t[i]);
      }
      assert t[..|t|] == t;
      TouchedOk(p, t, time);
    }

    /** True exactly if there is a block for each of the running sequences beside those that tables hold. */
    method CanAppendSlots(running: nat) returns (ok: bool)
      requires Valid()
      ensures ok <==> running <= NumFree(gpu.Snapshot())
      ensures Counted(gpu.Snapshot(), tables) ==> (ok <==> |Held(gpu.Snapshot(), tables)| + running <= |gpu.all|)
    {
      hide PoolOk, FieldsOf, Counted, Held;
      if Counted(gpu.Snapshot(), tables) {
        FreeCount(gpu.Snapshot(), tables);
      }
      return running <= |gpu.all| - gpu.currentNumBlocks + |gpu.evictor.freeTable|;
    }

    /**
     * The answer by the rounded-up blocks of the prompt, the blocks held, and the total. OK promises
     * that `allocate` will succeed and leave the watermark; after NEVER it does not do both.
     */
    method CanAllocate<V>(d: PrefixCache.SeqData, ghost id: nat, ghost w: PrefixCache.World<CachedBlock, V>,
            ghost kv: PrefixCache.Kv<V>)
      returns (s: BlockManager.AllocStatus)
      requires Valid()
      ensures s == PrefixRuns.CanAllocate(gpu.Snapshot(), d, blockSize, watermarkBlocks)
      ensures Counted(gpu.Snapshot(), tables) ==>
                var need, total := PrefixAdmission.PromptBlocks(d, blockSize), |gpu.all|;
                s == if need + watermarkBlocks > total then BlockManager.NEVER
                     else if |Held(gpu.Snapshot(), tables)| + need + watermarkBlocks <= total then BlockManager.OK
                     else BlockManager.LATER
      ensures s.OK? ==>
                var a := PrefixCache.Allocate(Snapshot(), blockSize, id, d);
                a.Ok? && NumFree(a.value.gpu) >= watermarkBlocks
      ensures Sound(w, kv) && id !in tables && s.NEVER? ==>
                var a := PrefixCache.Allocate(Snapshot(), blockSize, id, d);
                a.Ok? ==> NumFree(a.value.gpu) < watermarkBlocks
    {
      hide PoolOk, FieldsOf, PrefixCache.Inv, PrefixCache.Complete, PrefixCache.Allocate, Counted, Held,
        PrefixAdmission.PromptBlocks;
      ghost var answer := PrefixRuns.CanAllocate(gpu.Snapshot(), d, blockSize, watermarkBlocks);
      if Counted(gpu.Snapshot(), tables) {
        PrefixAdmission.CanAllocateExact(Snapshot(), d, blockSize, watermarkBlocks);
      }
      if answer.OK? {
        PrefixAdmission.OkFits(Snapshot(), blockSize, id, d, watermarkBlocks);
      } else if answer.NEVER? && Sound(w, kv) && id !in tables {
        PrefixAdmission.NeverFits(gpu.Snapshot(), w, kv, blockSize, id, d, watermarkBlocks);
      }
      var required := (|PrefixCache.Tokens(d)| + blockSize - 1) / blockSize;
      Paging.NBlocksIsCeiling(|PrefixCache.Tokens(d)|, blockSize);
      var free := |gpu.all| - gpu.currentNumBlocks + |gpu.evictor.freeTable|;
      if |gpu.all| - required < watermarkBlocks {
        return BlockManager.NEVER;
      }
      if free - required >= watermarkBlocks {
        return BlockManager.OK;
      }
      return BlockManager.LATER;
    }
  }

  lemma TouchedNone(p: CPool<CachedBlock>, time: real)
    ensures PrefixCache.Touched(p, [], time) == p
  {
  }

  lemma TouchedNext(p: CPool<CachedBlock>, t: seq<CachedBlock>, i: nat, time: real)
    requires i < |t| && t[i] in p.info
    ensures var q := PrefixCache.Touched(p, t[..i], time);
            && t[i] in q.info
            && PrefixCache.Touched(p, t[..i + 1], time) == q.(info := q.info[t[i] := q.info[t[i]].(last := time)])
  {
    assert t[..i + 1] == t[..i] + [t[i]];
    var q, q' := PrefixCache.Touched(p, t[..i], time), PrefixCache.Touched(p, t[..i + 1], time);
    assert q'.info == q.info[t[i] := q.info[t[i]].(last := time)];
  }

  lemma TouchedOk(p: CPool<CachedBlock>, t: seq<CachedBlock>, time: real)
    requires PoolOk(p)
    ensures PoolOk(PrefixCache.Touched(p, t, time)) && PrefixCache.Touched(p, t, time).info.Keys == p.info.Keys
  {
    hide PoolOk;
    PrefixRuns.TouchedPoolOk(p, PrefixCache.Touched(p, t, time));
  }

  lemma RetainSame(p: CPool<CachedBlock>, t: seq<CachedBlock>)
    ensures PrefixCache.Retain(p, t).info.Keys == p.info.Keys
  {
  }

  /** A block of a table has a count, if the counts are right. */
  lemma HeldCounted(p: CPool<CachedBlock>, tables: map<nat, seq<CachedBlock>>, id: nat)
    requires PoolOk(p) && Counted(p, tables) && id in tables && forall b :: b in tables[id] ==> b in p.info
    ensures forall b :: b in tables[id] ==> p.info[b].refs > 0
  {
    hide CachedOk, TableOk, Counted;
    forall b | b in tables[id]
      ensures p.info[b].refs > 0
    {
      PrefixSoundness.HeldHasRefs(p, tables, id, b);
    }
  }

  lemma RetainNone(p: CPool<CachedBlock>)
    ensures PrefixCache.Retain(p, []) == p
  {
  }

  lemma RetainNext(p: CPool<CachedBlock>, t: seq<CachedBlock>, i: nat)
    requires i < |t| && t[i] in p.info
    ensures var q := PrefixCache.Retain(p, t[..i]);
            if t[i] in t[..i] then PrefixCache.Retain(p, t[..i + 1]) == q
            else t[i] in q.info && Bump(q, t[i]) == Ok((PrefixCache.Retain(p, t[..i + 1]), t[i]))
  {
    assert t[..i + 1] == t[..i] + [t[i]];
    var q, q' := PrefixCache.Retain(p, t[..i]), PrefixCache.Retain(p, t[..i + 1]);
    if t[i] !in t[..i] {
      assert q'.info == q.info[t[i] := q.info[t[i]].(refs := q.info[t[i]].refs + 1)];
    }
  }

  lemma RetainPool(p: CPool<CachedBlock>, t: seq<CachedBlock>)
    requires PoolOk(p) && forall b :: b in t ==> b in p.info && p.info[b].refs > 0
    ensures PoolOk(PrefixCache.Retain(p, t)) && PrefixCache.Retain(p, t).info.Keys == p.info.Keys
  {
    hide PoolOk;
    PrefixRuns.RetainKeeps(p, t);
  }

  lemma HasLastBlock(d: PrefixCache.SeqData, bs: nat)
    requires bs > 0 && PrefixCache.LastBlockFull(d, bs)
    ensures PrefixCache.NBlocks(d, bs) > 0
  {
    Paging.NBlocksFits(|PrefixCache.Tokens(d)|, bs);
  }
}
