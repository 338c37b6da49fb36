/**
 * The block manager without prefix caching as the objects of the program: blocks with a mutable
 * reference count, two allocators, and the table dictionary. Every method is proved against the
 * functions of `BlockManager` on a snapshot of the objects.
 */
module BlockSpaceManager {
  import opened Wrappers
  import opened Holding
  import opened UncachedAllocator
  import opened BlockManager
  import opened Paging
  import Admission
  import Conservation
  import GroupSwaps
  import Swapping

  datatype Device = GPU | CPU

  class PhysicalTokenBlock {
    const device: Device
    const number: nat
    var refCount: nat

    constructor (device: Device, number: nat)
      ensures this.device == device && this.number == number && refCount == 0
    {
      this.device, this.number, refCount := device, number, 0;
    }
  }

  class UncachedBlockAllocator {
    const device: Device
    var freeBlocks: seq<PhysicalTokenBlock>
    ghost var blocks: set<PhysicalTokenBlock>

    ghost predicate Valid()
      reads this
    {
      && (forall b :: b in freeBlocks ==> b in blocks)
      && (forall b :: b in blocks ==> b.device == device)
    }

    ghost function Snapshot(): Pool<PhysicalTokenBlock>
      reads this, blocks
    {
      Pool(freeBlocks, map b | b in blocks :: b.refCount)
    }

    constructor (device: Device, numBlocks: nat)
      ensures Valid() && fresh(blocks) && this.device == device
      ensures Wf(Snapshot()) && |freeBlocks| == numBlocks
      ensures forall i :: 0 <= i < numBlocks ==> freeBlocks[i].number == i
      ensures forall b :: b in blocks ==> b in freeBlocks
      ensures |blocks| == numBlocks
    {
      this.device, freeBlocks, blocks := device, [], {};
      new;
      for i := 0 to numBlocks
        invariant |freeBlocks| == i && fresh(blocks) && Valid()
        invariant forall k :: 0 <= k < i ==> freeBlocks[k].number == k
        invariant forall b :: b in blocks ==> b in freeBlocks && b.refCount == 0
        invariant NoDup(freeBlocks) && |blocks| == i
      {
        var block := new PhysicalTokenBlock(device, i);
        freeBlocks := freeBlocks + [block];
        blocks := blocks + {block};
      }
    }

    method Allocate() returns (r: Result<PhysicalTokenBlock>)
      requires Valid()
      modifies this`freeBlocks, blocks`refCount
      ensures Valid()
      ensures var spec := Take(old(Snapshot()));
              if spec.Ok? then r == Ok(spec.value.1) && r.value in blocks && Snapshot() == spec.value.0
              else r == Err(spec.error) && Snapshot() == old(Snapshot())
    {
      if |freeBlocks| == 0 {
        return Err(OutOfMemory);
      }
      var block := freeBlocks[|freeBlocks| - 1];
      freeBlocks := freeBlocks[..|freeBlocks| - 1];
      block.refCount := 1;
      assert Snapshot().refs == old(Snapshot()).refs[block := 1];
      return Ok(block);
    }

    method Free(block: PhysicalTokenBlock) returns (r: Result<()>)
      requires Valid() && block in blocks
      modifies this`freeBlocks, block`refCount
      ensures Valid()
      ensures var spec := Release(old(Snapshot()), block);
              if spec.Ok? then r == Ok(()) && Snapshot() == spec.value
              else r == Err(spec.error) && Snapshot() == old(Snapshot())
      ensures r.Err? ==> r.error == DoubleFree
    {
      if block.refCount == 0 {
        return Err(DoubleFree);
      }
      block.refCount := block.refCount - 1;
      if block.refCount == 0 {
        freeBlocks := freeBlocks + [block];
      }
      assert Snapshot().refs == old(Snapshot()).refs[block := old(block.refCount) - 1];
      return Ok(());
    }

    method SetRefCount(block: PhysicalTokenBlock, n: nat)
      requires Valid() && block in blocks
      modifies block`refCount
      ensures Valid()
      ensures Snapshot() == old(Snapshot()).(refs := old(Snapshot()).refs[block := n])
    {
      block.refCount := n;
    }
  }

  class Manager {
    const config: Config
    const numTotalGpuBlocks: nat
    const gpu: UncachedBlockAllocator
    const cpu: UncachedBlockAllocator
    var tables: map<TableId, seq<PhysicalTokenBlock>>

    ghost predicate Valid()
      reads this, gpu, cpu
    {
      && gpu.Valid() && cpu.Valid() && gpu.device == GPU && cpu.device == CPU
      && gpu != cpu && gpu.blocks !! cpu.blocks && |gpu.blocks| == numTotalGpuBlocks
      && (forall o :: o in tables ==> Owned(tables[o]))
    }

    ghost predicate Owned(t: seq<PhysicalTokenBlock>)
      reads gpu, cpu
    {
      forall b :: b in t ==> b in gpu.blocks || b in cpu.blocks
    }

    ghost function Snapshot(): State<PhysicalTokenBlock>
      reads this, gpu, cpu, gpu.blocks, cpu.blocks
    {
      State(gpu.Snapshot(), cpu.Snapshot(), tables)
    }

    /** Encoder/decoder groups are refused together with a window. */
    predicate Supported(g: Group) {
      g.encoderLen.Some? ==> config.window.None?
    }

    constructor (config: Config, numGpuBlocks: nat, numCpuBlocks: nat)
      ensures Conservation.Conserved(Snapshot())
      ensures Valid() && this.config == config && tables == map[]
      ensures fresh(gpu) && fresh(cpu) && fresh(gpu.blocks) && fresh(cpu.blocks)
      ensures Wf(gpu.Snapshot()) && Wf(cpu.Snapshot())
      ensures |gpu.freeBlocks| == numGpuBlocks && |cpu.freeBlocks| == numCpuBlocks
    {
      this.config, numTotalGpuBlocks := config, numGpuBlocks;
      var g := new UncachedBlockAllocator(GPU, numGpuBlocks);
      var c := new UncachedBlockAllocator(CPU, numCpuBlocks);
      this.gpu, this.cpu, tables := g, c, map[];
    }

    method AllocateSequence(len: nat, refCount: nat) returns (r: Result<seq<PhysicalTokenBlock>>)
      requires Valid()
      modifies gpu`freeBlocks, gpu.blocks`refCount
      ensures Valid() && unchanged(this)
      ensures var spec := BlockManager.AllocateSequence(old(gpu.Snapshot()), [], NBlocks(len, config.blockSize),
                                                        refCount, config.window);
              if spec.Ok? then r == Ok(spec.value.1) && gpu.Snapshot() == spec.value.0 && Owned(r.value)
              else r == Err(spec.error)
    {
      var n := (len + config.blockSize - 1) / config.blockSize;
      NBlocksIsCeiling(len, config.blockSize);
      ghost var spec := BlockManager.AllocateSequence(gpu.Snapshot(), [], n, refCount, config.window);
      var table: seq<PhysicalTokenBlock> := [];
      while |table| < n
        invariant gpu.Valid() && |table| <= n
        invariant forall b :: b in table ==> b in gpu.blocks
        invariant spec == BlockManager.AllocateSequence(gpu.Snapshot(), table, n, refCount, config.window)
        invariant unchanged(this)
      {
        var block;
        if config.window.Some? && |table| >= config.window.value {
          block := table[|table| % config.window.value];
        } else {
          var a := gpu.Allocate();
          if a.Err? {
            return Err(a.error);
          }
          block := a.value;
        }
        gpu.SetRefCount(block, refCount);
        table := table + [block];
      }
      return Ok(table);
    }

    method Allocate(g: Group) returns (r: Result<()>)
      requires Valid()
      modifies this`tables, gpu`freeBlocks, gpu.blocks`refCount
      ensures Valid()
      ensures var spec := BlockManager.Allocate(old(Snapshot()), config, g);
              if spec.Ok? then r == Ok(()) && Snapshot() == spec.value else r == Err(spec.error)
      ensures old(Conservation.Conserved(Snapshot()) && Conservation.Allocatable(Snapshot(), g)) && Supported(g) ==>
                if r.Ok? then Conservation.Conserved(Snapshot()) else r == Err(OutOfMemory)
    {
      hide BlockManager.AllocateSequence, NBlocks, WithStatus, Assign, Elems, SelfTables, Owned, Conservation.Conserved,
        Conservation.Allocatable, UncachedBlockAllocator.Snapshot;
      if Conservation.Conserved(Snapshot()) && Conservation.Allocatable(Snapshot(), g) && Supported(g) {
        Conservation.AllocateConserves(Snapshot(), config, g);
      }
      if g.encoderLen.Some? && config.window.Some? {
        return Err(RuntimeError);
      }
      var waiting := WithStatus(g.seqs, Waiting);
      if |waiting| == 0 {
        return Err(KeyError);
      }
      var t := AllocateSequence(waiting[0].len, |g.seqs|);
      if t.Err? {
        return Err(t.error);
      }
      AssignTables(waiting, t.value);
      if g.encoderLen.Some? {
        var x := AllocateSequence(g.encoderLen.value, 1);
        if x.Err? {
          return Err(x.error);
        }
        tables := tables[CrossTable(g.requestId) := x.value];
      }
      return Ok(());
    }

    /** Every waiting sequence gets its own copy of the table. */
    method AssignTables(waiting: seq<Sequence>, t: seq<PhysicalTokenBlock>)
      requires Valid() && Owned(t)
      modifies this`tables
      ensures Valid() && tables == Assign(old(tables), Elems(SelfTables(waiting)), t)
    {
      for i := 0 to |waiting|
        invariant Valid() && tables == Assign(old(tables), Elems(SelfTables(waiting[..i])), t)
      {
        AssignNext(old(tables), waiting, i, t);
        tables := tables[SelfTable(waiting[i].id) := t];
      }
      assert waiting[..|waiting|] == waiting;
    }

    method AppendSlots(o: TableId, len: nat) returns (r: Result<seq<(PhysicalTokenBlock, PhysicalTokenBlock)>>)
      requires Valid()
      modifies this`tables, gpu`freeBlocks, gpu.blocks`refCount
      ensures Valid()
      ensures var spec := BlockManager.AppendSlots(old(Snapshot()), config, o, len);
              if spec.Ok? then r == Ok(spec.value.1) && Snapshot() == spec.value.0 else r == Err(spec.error)
      ensures old(Conservation.Conserved(Snapshot()) && Conservation.Appendable(Snapshot(), config, o, len))
              && config.window.None? ==>
                if r.Ok? then Conservation.Conserved(Snapshot())
                else r == Err(OutOfMemory) && Snapshot() == old(Snapshot())
    {
      hide NBlocks, BlockManager.WritableLastBlock, Take, Conservation.Conserved, Conservation.Appendable,
        UncachedBlockAllocator.Snapshot;
      if Conservation.Conserved(Snapshot()) && Conservation.Appendable(Snapshot(), config, o, len)
        && config.window.None? {
        Conservation.AppendSlotsOutcome(Snapshot(), config, o, len);
      }
      var n := (len + config.blockSize - 1) / config.blockSize;
      NBlocksIsCeiling(len, config.blockSize);
      if o !in tables {
        return Err(KeyError);
      }
      var t := tables[o];
      if |t| < n {
        if |t| != n - 1 {
          return Err(AssertionFailed);
        }
        if config.window.Some? && |t| >= config.window.value {
          t := t + [t[|t| % config.window.value]];
          tables := tables[o := t];
        } else {
          var a := gpu.Allocate();
          if a.Err? {
            return Err(a.error);
          }
          tables := tables[o := t + [a.value]];
          return Ok([]);
        }
      }
      if |t| == 0 {
        return Err(KeyError);
      }
      r := WritableLastBlock(o);
    }

    method WritableLastBlock(o: TableId) returns (r: Result<seq<(PhysicalTokenBlock, PhysicalTokenBlock)>>)
      requires Valid() && o in tables && tables[o] != []
      modifies this`tables, gpu`freeBlocks, gpu.blocks`refCount
      ensures Valid()
      ensures var spec := BlockManager.WritableLastBlock(old(Snapshot()), o);
              if spec.Ok? then r == Ok(spec.value.1) && Snapshot() == spec.value.0 else r == Err(spec.error)
      ensures r == Err(OutOfMemory) ==> Snapshot() == old(Snapshot())
    {
      hide Release, Take;
      var t := tables[o];
      var last := t[|t| - 1];
      assert last in t;
      if last.device != GPU {
        return Err(AssertionFailed);
      }
      if last.refCount == 1 {
        return Ok([]);
      }
      ghost var q := cpu.Snapshot();
      var a := gpu.Allocate();
      assert cpu.Snapshot() == q;
      if a.Err? {
        return Err(a.error);
      }
      var block := a.value;
      tables := tables[o := t[..|t| - 1] + [block]];
      var f := gpu.Free(last);
      assert cpu.Snapshot() == q;
      if f.Err? {
        return Err(f.error);
      }
      return Ok([(last, block)]);
    }

    method Fork(parent: TableId, child: TableId)
      requires Valid()
      modifies this`tables, gpu.blocks`refCount, cpu.blocks`refCount
      ensures Valid() && Snapshot() == BlockManager.Fork(old(Snapshot()), parent, child)
      ensures old(Conservation.Conserved(Snapshot())) && child !in old(tables) ==> Conservation.Conserved(Snapshot())
    {
      hide Conservation.Conserved;
      if Conservation.Conserved(Snapshot()) && child !in tables {
        Conservation.ForkConserves(Snapshot(), parent, child);
      }
      if parent !in tables {
        return;
      }
      RetainBlocks(tables[parent]);
      tables := tables[child := tables[parent]];
    }

    /** One more reference to each distinct block of a table. */
    method RetainBlocks(t: seq<PhysicalTokenBlock>)
      requires Valid() && Owned(t)
      modifies gpu.blocks`refCount, cpu.blocks`refCount
      ensures Valid()
      ensures gpu.Snapshot() == Retain(old(gpu.Snapshot()), t) && cpu.Snapshot() == Retain(old(cpu.Snapshot()), t)
    {
      for i := 0 to |t|
        invariant Valid()
        invariant forall b :: b in gpu.blocks || b in cpu.blocks ==>
                                b.refCount == old(b.refCount) + (if b in t[..i] then 1 else 0)
      {
        assert t[i] in t;
        assert t[..i + 1] == t[..i] + [t[i]];
        // a block is counted once, at its first occurrence
        if t[i] !in t[..i] {
          t[i].refCount := t[i].refCount + 1;
        }
      }
      assert t[..|t|] == t;
    }

    /** Gives the blocks back in the order `order`, in which the set of them is gone through. */
    method FreeBlockTable(order: seq<PhysicalTokenBlock>) returns (r: Result<()>)
      requires Valid() && Owned(order)
      modifies gpu`freeBlocks, cpu`freeBlocks, gpu.blocks`refCount, cpu.blocks`refCount
      ensures Valid()
      ensures var spec := ReleaseAll(old(gpu.Snapshot()), old(cpu.Snapshot()), order);
              if spec.Ok? then r == Ok(()) && (gpu.Snapshot(), cpu.Snapshot()) == spec.value else r == Err(spec.error)
    {
      hide Release;
      ghost var spec := ReleaseAll(gpu.Snapshot(), cpu.Snapshot(), order);
      assert order[0..] == order;
      for i := 0 to |order|
        invariant Valid()
        invariant spec == ReleaseAll(gpu.Snapshot(), cpu.Snapshot(), order[i..])
      {
        var block := order[i];
        assert order[i..][0] == block && order[i..][1..] == order[i + 1..];
        assert block in order;
        ghost var p, q := gpu.Snapshot(), cpu.Snapshot();
        var f;
        if block.device == GPU {
          f := gpu.Free(block);
          assert cpu.Snapshot() == q;
        } else {
          f := cpu.Free(block);
          assert gpu.Snapshot() == p;
        }
        if f.Err? {
          return Err(f.error);
        }
      }
      return Ok(());
    }

    /** Frees the blocks of a table. */
    method Free(o: TableId, order: seq<PhysicalTokenBlock>) returns (r: Result<()>)
      requires Valid()
      requires o in tables ==> EnumeratesSet(order, FreedPart(tables[o], config.window))
      modifies this`tables, gpu`freeBlocks, cpu`freeBlocks, gpu.blocks`refCount, cpu.blocks`refCount
      ensures Valid() && (r.Ok? ==> tables == old(tables) - {o})
      ensures var spec := BlockManager.Free(old(Snapshot()), o, order);
              if spec.Ok? then r == Ok(()) && Snapshot() == spec.value else r == Err(spec.error)
      ensures old(Conservation.Conserved(Snapshot())) && (o in old(tables) ==> EnumeratesSet(order, old(tables)[o])) ==>
                r.Ok? && Conservation.Conserved(Snapshot())
    {
      hide ReleaseAll, FreedPart, Conservation.Conserved;
      if Conservation.Conserved(Snapshot()) && (o in tables ==> EnumeratesSet(order, tables[o])) {
        Conservation.FreeConserves(Snapshot(), o, order);
      }
      if o !in tables {
        return Ok(());
      }
      FreedPartWithin(tables[o], config.window);
      r := FreeBlockTable(order);
      if r.Ok? {
        tables := tables - {o};
      }
    }

    method SwapBlockTable(t: seq<PhysicalTokenBlock>, src: UncachedBlockAllocator, dst: UncachedBlockAllocator,
                          dict: map<PhysicalTokenBlock, PhysicalTokenBlock>,
                          items: seq<(PhysicalTokenBlock, PhysicalTokenBlock)>)
      returns (r: Result<seq<PhysicalTokenBlock>>, dict': map<PhysicalTokenBlock, PhysicalTokenBlock>,
               items': seq<(PhysicalTokenBlock, PhysicalTokenBlock)>)
      requires src.Valid() && dst.Valid() && src != dst && src.blocks !! dst.blocks
      requires forall b :: b in t ==> b in src.blocks
      requires forall b :: b in dict ==> dict[b] in dst.blocks
      modifies src`freeBlocks, dst`freeBlocks, src.blocks`refCount, dst.blocks`refCount
      ensures src.Valid() && dst.Valid()
      ensures forall b :: b in dict' ==> dict'[b] in dst.blocks
      ensures var spec := SwapTable(old(src.Snapshot()), old(dst.Snapshot()), Mapping(dict, items), [], t);
              if spec.Ok? then
                && r == Ok(spec.value.3) && spec.value.2 == Mapping(dict', items')
                && src.Snapshot() == spec.value.0 && dst.Snapshot() == spec.value.1
                && (forall b :: b in r.value ==> b in dst.blocks)
              else r == Err(spec.error)
    {
      hide Release, Take;
      dict', items' := dict, items;
      ghost var spec := SwapTable(src.Snapshot(), dst.Snapshot(), Mapping(dict, items), [], t);
      var table: seq<PhysicalTokenBlock> := [];
      assert t[0..] == t;
      for i := 0 to |t|
        invariant src.Valid() && dst.Valid()
        invariant forall b :: b in dict' ==> dict'[b] in dst.blocks
        invariant forall b :: b in table ==> b in dst.blocks
        invariant spec == SwapTable(src.Snapshot(), dst.Snapshot(), Mapping(dict', items'), table, t[i..])
      {
        assert t[i..][0] == t[i] && t[i..][1..] == t[i + 1..];
        ghost var p := src.Snapshot();
        var to;
        to, dict', items' := PlaceBlock(t[i], dst, dict', items');
        assert src.Snapshot() == p;
        if to.Err? {
          return to.PropagateFailure(), dict', items';
        }
        table := table + [to.value];
        ghost var q := dst.Snapshot();
        var f := src.Free(t[i]);
        assert dst.Snapshot() == q;
        if f.Err? {
          return f.PropagateFailure(), dict', items';
        }
      }
      return Ok(table), dict', items';
    }

    /** The destination block of `from`: the one it already has, or a new one. */
    method PlaceBlock(from: PhysicalTokenBlock, dst: UncachedBlockAllocator,
                      dict: map<PhysicalTokenBlock, PhysicalTokenBlock>,
                      items: seq<(PhysicalTokenBlock, PhysicalTokenBlock)>)
      returns (r: Result<PhysicalTokenBlock>, dict': map<PhysicalTokenBlock, PhysicalTokenBlock>,
               items': seq<(PhysicalTokenBlock, PhysicalTokenBlock)>)
      requires dst.Valid()
      requires forall b :: b in dict ==> dict[b] in dst.blocks
      modifies dst`freeBlocks, dst.blocks`refCount
      ensures dst.Valid()
      ensures forall b :: b in dict' ==> dict'[b] in dst.blocks
      ensures var p := old(dst.Snapshot());
              if from in dict then
                && r == Ok(dict[from]) && dict' == dict && items' == items
                && dst.Snapshot() == p.(refs := p.refs[dict[from] := p.refs[dict[from]] + 1])
              else if Take(p).Ok? then
                && r == Ok(Take(p).value.1) && r.value in dst.blocks && dst.Snapshot() == Take(p).value.0
                && dict' == dict[from := r.value] && items' == items + [(from, r.value)]
              else r == Err(Take(p).error)
    {
      dict', items' := dict, items;
      if from in dict {
        var to := dict[from];
        dst.SetRefCount(to, to.refCount + 1);
        return Ok(to), dict', items';
      }
      r := dst.Allocate();
      if r.Ok? {
        dict', items' := dict[from := r.value], items + [(from, r.value)];
      }
    }

    /** Moves the given tables from one device to the other. */
    method SwapTables(owners: seq<TableId>, src: UncachedBlockAllocator, dst: UncachedBlockAllocator)
      returns (r: Result<seq<(PhysicalTokenBlock, PhysicalTokenBlock)>>)
      requires Valid() && ((src == gpu && dst == cpu) || (src == cpu && dst == gpu))
      requires NoDup(owners)
      requires forall o :: o in owners && o in tables ==> forall b :: b in tables[o] ==> b in src.blocks
      modifies this`tables, gpu`freeBlocks, cpu`freeBlocks, gpu.blocks`refCount, cpu.blocks`refCount
      ensures Valid()
      ensures var spec := BlockManager.SwapTables(old(src.Snapshot()), old(dst.Snapshot()), old(tables),
                                                  Mapping(map[], []), owners);
              if spec.Ok? then
                && r == Ok(spec.value.3.items) && tables == spec.value.2
                && src.Snapshot() == spec.value.0 && dst.Snapshot() == spec.value.1
              else r == Err(spec.error)
    {
      hide SwapTable, UncachedBlockAllocator.Snapshot;
      var dict: map<PhysicalTokenBlock, PhysicalTokenBlock> := map[];
      var items: seq<(PhysicalTokenBlock, PhysicalTokenBlock)> := [];
      ghost var spec := BlockManager.SwapTables(src.Snapshot(), dst.Snapshot(), tables, Mapping(dict, items), owners);
      assert owners[0..] == owners;
      for i := 0 to |owners|
        invariant Valid()
        invariant forall b :: b in dict ==> dict[b] in dst.blocks
        invariant forall o :: o in owners[i..] && o in tables ==> forall b :: b in tables[o] ==> b in src.blocks
        invariant spec == BlockManager.SwapTables(src.Snapshot(), dst.Snapshot(), tables, Mapping(dict, items),
                  owners[i..])
      {
        var o := owners[i];
        assert owners[i..][0] == o && owners[i..][1..] == owners[i + 1..];
        assert o in owners[i..] && o !in owners[i + 1..];
        if o !in tables {
          return Err(KeyError);
        }
        var t;
        t, dict, items := SwapBlockTable(tables[o], src, dst, dict, items);
        if t.Err? {
          return t.PropagateFailure();
        }
        tables := tables[o := t.value];
      }
      return Ok(items);
    }

    /** Moves the tables of the running sequences, and the cross table of the request, to the CPU. */
    method SwapOut(g: Group) returns (r: Result<seq<(PhysicalTokenBlock, PhysicalTokenBlock)>>)
      requires Valid() && GroupSwaps.OwnIds(g, Running)
      requires forall o :: GroupSwaps.Belongs(g, Running, o) && o in tables ==>
                             forall b :: b in tables[o] ==> b in gpu.blocks
      modifies this`tables, gpu`freeBlocks, cpu`freeBlocks, gpu.blocks`refCount, cpu.blocks`refCount
      ensures Valid()
      ensures var spec := BlockManager.SwapOut(old(Snapshot()), SwapOwners(g, Running));
              if spec.Ok? then r == Ok(spec.value.1) && Snapshot() == spec.value.0 else r == Err(spec.error)
      ensures old(Conservation.Conserved(Snapshot()) && GroupSwaps.LiesOn(gpu.Snapshot(), tables, g, Running)) ==>
                if |GroupSwaps.BlocksOf(old(tables), g, Running)| <= |old(cpu.freeBlocks)|
                then r.Ok? && GroupSwaps.GroupMoved(old(Snapshot()), Snapshot(), r.value, g, Running)
                else r == Err(OutOfMemory)
    {
      hide BlockManager.SwapTables, Conservation.Conserved, SwapOwners, GroupSwaps.LiesOn, GroupSwaps.GroupMoved,
        GroupSwaps.BlocksOf, GroupSwaps.OwnIds, GroupSwaps.Belongs;
      if Conservation.Conserved(Snapshot()) && GroupSwaps.LiesOn(gpu.Snapshot(), tables, g, Running) {
        GroupSwaps.SwapOutMovesGroup(Snapshot(), g);
      }
      GroupSwaps.OwnersBelong(g, Running);
      r := SwapTables(SwapOwners(g, Running), gpu, cpu);
    }

    /** Moves the tables of the swapped sequences, and the cross table of the request, to the GPU. */
    method SwapIn(g: Group) returns (r: Result<seq<(PhysicalTokenBlock, PhysicalTokenBlock)>>)
      requires Valid() && GroupSwaps.OwnIds(g, Swapped)
      requires forall o :: GroupSwaps.Belongs(g, Swapped, o) && o in tables ==>
                             forall b :: b in tables[o] ==> b in cpu.blocks
      modifies this`tables, gpu`freeBlocks, cpu`freeBlocks, gpu.blocks`refCount, cpu.blocks`refCount
      ensures Valid()
      ensures var spec := BlockManager.SwapIn(old(Snapshot()), SwapOwners(g, Swapped));
              if spec.Ok? then r == Ok(spec.value.1) && Snapshot() == spec.value.0 else r == Err(spec.error)
      ensures old(Conservation.Conserved(Snapshot()) && GroupSwaps.LiesOn(cpu.Snapshot(), tables, g, Swapped)) ==>
                if |GroupSwaps.BlocksOf(old(tables), g, Swapped)| <= |old(gpu.freeBlocks)|
                then r.Ok? && GroupSwaps.GroupMoved(Swapping.Flip(old(Snapshot())), Swapping.Flip(Snapshot()),
                                                    r.value, g, Swapped)
                else r == Err(OutOfMemory)
    {
      hide BlockManager.SwapTables, Conservation.Conserved, SwapOwners, GroupSwaps.LiesOn, GroupSwaps.GroupMoved,
        GroupSwaps.BlocksOf, GroupSwaps.OwnIds, GroupSwaps.Belongs;
      if Conservation.Conserved(Snapshot()) && GroupSwaps.LiesOn(cpu.Snapshot(), tables, g, Swapped) {
        GroupSwaps.SwapInMovesGroup(Snapshot(), g);
      }
      GroupSwaps.OwnersBelong(g, Swapped);
      r := SwapTables(SwapOwners(g, Swapped), cpu, gpu);
    }

    /** Every unfinished sequence of the group, and the request of an encoder/decoder group, has a table. */
    ghost predicate Tabled(g: Group)
      reads this
    {
      forall o :: GroupSwaps.Unfinished(g, o) ==> o in tables
    }

    /** The distinct blocks of the unfinished sequences of a group. */
    method GetPhysicalBlocks(g: Group) returns (r: Result<set<PhysicalTokenBlock>>)
      requires Valid()
      ensures r == if Tabled(g) then Ok(GroupSwaps.UsedBlocks(tables, g)) else Err(KeyError)
    {
      var blocks := {};
      for i := 0 to |g.seqs|
        invariant forall k :: 0 <= k < i && g.seqs[k].status != Finished ==> SelfTable(g.seqs[k].id) in tables
        invariant forall b :: b in blocks <==>
                                exists k :: 0 <= k < i && g.seqs[k].status != Finished
                                  && b in tables[SelfTable(g.seqs[k].id)]
      {
        if g.seqs[i].status != Finished {
          if SelfTable(g.seqs[i].id) !in tables {
            assert GroupSwaps.Unfinished(g, SelfTable(g.seqs[i].id)) by { assert g.seqs[i] in g.seqs; }
            return Err(KeyError);
          }
          blocks := blocks + Elems(tables[SelfTable(g.seqs[i].id)]);
        }
      }
      ghost var own := blocks;
      if g.encoderLen.Some? {
        if CrossTable(g.requestId) !in tables {
          assert GroupSwaps.Unfinished(g, CrossTable(g.requestId));
          return Err(KeyError);
        }
        blocks := blocks + Elems(tables[CrossTable(g.requestId)]);
      }
      CollectedBlocks(tables, g, own, blocks);
      return Ok(blocks);
    }

    /** True exactly if the CPU has room for the distinct blocks of the group; then `SwapOut` succeeds. */
    method CanSwapOut(g: Group) returns (r: Result<bool>)
      requires Valid()
      ensures r == if Tabled(g) then Ok(BlockManager.CanSwapOut(Snapshot(), g)) else Err(KeyError)
      ensures Conservation.Conserved(Snapshot()) && r.Ok? ==>
                (r.value <==>
                 |Held(cpu.Snapshot(), tables)| + |GroupSwaps.UsedBlocks(tables, g)| <= |cpu.blocks|)
      ensures Conservation.Conserved(Snapshot()) && GroupSwaps.LiesOn(gpu.Snapshot(), tables, g, Running)
              && r == Ok(true) ==>
                BlockManager.SwapOut(Snapshot(), SwapOwners(g, Running)).Ok?
    {
      hide PhysicalBlocks, Conservation.Conserved, BlockManager.SwapOut, SwapOwners, GroupSwaps.UsedBlocks, Held,
        GroupSwaps.LiesOn, GroupSwaps.AllUnfinishedAre;
      GroupSwaps.CountedBlocks(Snapshot(), g);
      assert cpu.Snapshot().refs.Keys == cpu.blocks;
      assert |cpu.Snapshot().refs| == |cpu.Snapshot().refs.Keys|;
      if Conservation.Conserved(Snapshot()) {
        Admission.CanSwapOutExact(Snapshot(), g);
      }
      var blocks := GetPhysicalBlocks(g);
      if blocks.Err? {
        return Err(blocks.error);
      }
      return Ok(|blocks.value| <= |cpu.freeBlocks|);
    }

    /** NEVER, OK or LATER by the blocks that the group wants, those in use, and the total. */
    method CanSwapIn(g: Group) returns (r: Result<AllocStatus>)
      requires Valid()
      ensures r == if Tabled(g) then Ok(BlockManager.CanSwapIn(Snapshot(), config, g)) else Err(KeyError)
      ensures Conservation.Conserved(Snapshot()) && r.Ok? ==>
                var wanted := Admission.Wanted(tables, g);
                r.value == if wanted > numTotalGpuBlocks then NEVER
                           else if |Held(gpu.Snapshot(), tables)| + wanted + config.watermark <= numTotalGpuBlocks
                           then OK
                           else LATER
      ensures Conservation.Conserved(Snapshot()) && GroupSwaps.LiesOn(cpu.Snapshot(), tables, g, Swapped)
              && r == Ok(OK) ==>
                var s := BlockManager.SwapIn(Snapshot(), SwapOwners(g, Swapped));
                s.Ok? && |s.value.0.gpu.free| >= GroupSwaps.NumWith(g, Swapped) + config.watermark
    {
      hide PhysicalBlocks, WithStatus, Conservation.Conserved, BlockManager.SwapIn, SwapOwners, Held,
        GroupSwaps.UsedBlocks, GroupSwaps.LiesOn, GroupSwaps.AllUnfinishedAre, Admission.Wanted, GroupSwaps.NumWith;
      GroupSwaps.CountedBlocks(Snapshot(), g);
      assert gpu.Snapshot().refs.Keys == gpu.blocks;
      assert |gpu.Snapshot().refs| == |gpu.Snapshot().refs.Keys|;
      if Conservation.Conserved(Snapshot()) {
        Admission.CanSwapInExact(Snapshot(), config, g);
        if GroupSwaps.LiesOn(cpu.Snapshot(), tables, g, Swapped) {
          Admission.CanSwapInFits(Snapshot(), config, g);
        }
      }
      var blocks := GetPhysicalBlocks(g);
      if blocks.Err? {
        return Err(blocks.error);
      }
      var required := |blocks.value| + |WithStatus(g.seqs, Swapped)| + (if g.encoderLen.Some? then 1 else 0);
      if numTotalGpuBlocks < required {
        return Ok(NEVER);
      } else if |gpu.freeBlocks| - required >= config.watermark {
        return Ok(OK);
      } else {
        return Ok(LATER);
      }
    }

    /** Frees all tables; the listing gives the order of the dictionary and of each set of blocks. */
    method Reset(listing: seq<(TableId, seq<PhysicalTokenBlock>)>) returns (r: Result<()>)
      requires Valid()
      requires forall i, j :: 0 <= i < j < |listing| ==> listing[i].0 != listing[j].0
      requires forall i :: 0 <= i < |listing| ==>
                 listing[i].0 in tables && EnumeratesSet(listing[i].1, FreedPart(tables[listing[i].0], config.window))
      modifies this`tables, gpu`freeBlocks, cpu`freeBlocks, gpu.blocks`refCount, cpu.blocks`refCount
      ensures Valid()
      ensures var spec := BlockManager.Reset(old(Snapshot()), listing);
              if spec.Ok? then r == Ok(()) && Snapshot() == spec.value else r == Err(spec.error)
      ensures old(Conservation.Conserved(Snapshot()) && Conservation.ListsAll(Snapshot(), listing)) ==>
                r.Ok? && tables == map[] && |gpu.freeBlocks| == |gpu.blocks| && |cpu.freeBlocks| == |cpu.blocks|
    {
      hide BlockManager.Free, Conservation.Conserved, Conservation.ListsAll;
      if Conservation.Conserved(Snapshot()) && Conservation.ListsAll(Snapshot(), listing) {
        Conservation.ResetFreesEverything(Snapshot(), listing);
      }
      assert Snapshot().gpu.refs.Keys == gpu.blocks && Snapshot().cpu.refs.Keys == cpu.blocks;
      assert |Snapshot().gpu.refs| == |gpu.blocks| && |Snapshot().cpu.refs| == |cpu.blocks|;
      ghost var spec := BlockManager.Reset(Snapshot(), listing);
      assert listing[0..] == listing;
      for i := 0 to |listing|
        invariant Valid()
        invariant spec == BlockManager.Reset(Snapshot(), listing[i..])
        invariant forall k :: i <= k < |listing| ==>
                    && listing[k].0 in tables && listing[k].0 in old(tables)
                    && tables[listing[k].0] == old(tables)[listing[k].0]
      {
        assert listing[i..][0] == listing[i] && listing[i..][1..] == listing[i + 1..];
        var f := Free(listing[i].0, listing[i].1);
        if f.Err? {
          return f;
        }
      }
      return Ok(());
    }

    /** True exactly if there is a block for each running sequence beside those that tables hold. */
    method CanAppendSlots(g: Group) returns (ok: bool)
      requires Valid()
      ensures ok == BlockManager.CanAppendSlots(Snapshot(), g)
      ensures Conservation.Conserved(Snapshot()) ==>
                (ok <==> |Held(gpu.Snapshot(), tables)| + |WithStatus(g.seqs, Running)| <= numTotalGpuBlocks)
    {
      hide WithStatus, Held;
      assert gpu.Snapshot().refs.Keys == gpu.blocks;
      assert |gpu.Snapshot().refs| == |gpu.Snapshot().refs.Keys|;
      if Conservation.Conserved(Snapshot()) {
        FreeCount(gpu.Snapshot(), tables);
      }
      return |WithStatus(g.seqs, Running)| <= |gpu.freeBlocks|;
    }

    /** OK exactly if `allocate` will succeed and leave the watermark. */
    method CanAllocate(g: Group) returns (r: Result<AllocStatus>)
      requires Valid()
      ensures r == if !Supported(g) then Err(RuntimeError)
                   else if WithStatus(g.seqs, Waiting) == [] then Err(KeyError)
                   else Ok(BlockManager.CanAllocate(Snapshot(), config, g))
      ensures Conservation.Conserved(Snapshot()) && Supported(g) ==>
                forall i: nat :: Admission.FirstWaiting(g, i) ==>
                  r == Ok(Admission.Answer(Admission.PromptBlocks(config, g, i), |Held(gpu.Snapshot(), tables)|,
                                           numTotalGpuBlocks, config.watermark))
      ensures Conservation.Conserved(Snapshot()) && Conservation.Allocatable(Snapshot(), g) && Supported(g) ==>
                (r == Ok(OK) <==> var a := BlockManager.Allocate(Snapshot(), config, g);
                                  a.Ok? && |a.value.gpu.free| >= config.watermark)
    {
      hide WithStatus, NBlocks, Conservation.Conserved, Conservation.Allocatable, BlockManager.Allocate,
        Admission.FirstWaiting, Admission.PromptBlocks, Held;
      if Conservation.Conserved(Snapshot()) {
        EveryAnswer(Snapshot(), config, g);
      }
      if !Supported(g) {
        return Err(RuntimeError);
      }
      var waiting := WithStatus(g.seqs, Waiting);
      if |waiting| == 0 {
        if Conservation.Conserved(Snapshot()) && Conservation.Allocatable(Snapshot(), g) {
          Admission.CanAllocateExact(Snapshot(), config, g);
        }
        return Err(KeyError);
      }
      assert gpu.Snapshot().refs.Keys == gpu.blocks;
      assert |gpu.Snapshot().refs| == |gpu.Snapshot().refs.Keys|;
      if Conservation.Conserved(Snapshot()) && Conservation.Allocatable(Snapshot(), g) {
        Admission.CanAllocateExact(Snapshot(), config, g);
      }
      var bs := config.blockSize;
      NBlocksIsCeiling(waiting[0].len, bs);
      var required := (waiting[0].len + bs - 1) / bs;
      if g.encoderLen.Some? {
        NBlocksIsCeiling(g.encoderLen.value, bs);
        required := required + (g.encoderLen.value + bs - 1) / bs;
      }
      if config.window.Some? && config.window.value < required {
        required := config.window.value;
      }
      if numTotalGpuBlocks - required < config.watermark {
        return Ok(NEVER);
      } else if |gpu.freeBlocks| - required >= config.watermark {
        return Ok(OK);
      } else {
        return Ok(LATER);
      }
    }
  }

  lemma AssignNext<T>(tables: map<TableId, T>, seqs: seq<Sequence>, i: nat, t: T)
    requires i < |seqs|
    ensures Assign(tables, Elems(SelfTables(seqs[..i + 1])), t)
            == Assign(tables, Elems(SelfTables(seqs[..i])), t)[SelfTable(seqs[i].id) := t]
  {
    assert SelfTables(seqs[..i + 1]) == SelfTables(seqs[..i]) + [SelfTable(seqs[i].id)];
  }

  lemma EveryAnswer<B>(s: State<B>, c: Config, g: Group)
    requires Conservation.Conserved(s)
    ensures forall i: nat :: Admission.FirstWaiting(g, i) ==>
              && WithStatus(g.seqs, Waiting) != []
              && CanAllocate(s, c, g) == Admission.Answer(Admission.PromptBlocks(c, g, i), |Held(s.gpu, s.tables)|,
                                                          |s.gpu.refs|, c.watermark)
  {
    hide Conservation.Conserved, WithStatus, CanAllocate, Held;
    forall i: nat | Admission.FirstWaiting(g, i)
      ensures WithStatus(g.seqs, Waiting) != []
      ensures CanAllocate(s, c, g) == Admission.Answer(Admission.PromptBlocks(c, g, i), |Held(s.gpu, s.tables)|,
                                                       |s.gpu.refs|, c.watermark)
    {
      Admission.CanAllocateAnswers(s, c, g, i);
    }
  }

  lemma FreedPartWithin<B>(t: seq<B>, window: Option<nat>)
    ensures forall b :: b in FreedPart(t, window) ==> b in t
  {
  }

  lemma CollectedBlocks<B>(tables: map<TableId, seq<B>>, g: Group, own: set<B>, blocks: set<B>)
    requires forall q :: q in g.seqs && q.status != Finished ==> SelfTable(q.id) in tables
    requires g.encoderLen.Some? ==> CrossTable(g.requestId) in tables
    requires forall b :: b in own ==>
               exists k :: 0 <= k < |g.seqs| && g.seqs[k].status != Finished && b in tables[SelfTable(g.seqs[k].id)]
    requires forall k, b ::
               0 <= k < |g.seqs| && g.seqs[k].status != Finished && b in tables[SelfTable(g.seqs[k].id)] ==> b in own
    requires blocks == own + (if g.encoderLen.Some? then Elems(tables[CrossTable(g.requestId)]) else {})
    ensures blocks == GroupSwaps.UsedBlocks(tables, g)
  {
    var used := GroupSwaps.UsedBlocks(tables, g);
    forall b | b in used
      ensures b in blocks
    {
      var o :| o in tables && GroupSwaps.Unfinished(g, o) && b in tables[o];
      if o.SelfTable? {
        var q :| q in g.seqs && q.status != Finished && q.id == o.seqId;
        var k :| 0 <= k < |g.seqs| && g.seqs[k] == q;
      }
    }
    forall b | b in blocks
      ensures b in used
    {
      if b in own {
        var k :| 0 <= k < |g.seqs| && g.seqs[k].status != Finished && b in tables[SelfTable(g.seqs[k].id)];
        assert g.seqs[k] in g.seqs;
        assert GroupSwaps.Unfinished(g, SelfTable(g.seqs[k].id));
      } else {
        assert GroupSwaps.Unfinished(g, CrossTable(g.requestId));
      }
    }
  }
}
