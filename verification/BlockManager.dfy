/**
 * The block manager without prefix caching, as functions on its state: the two allocators and the
 * block tables. `B` stands for the physical block objects; a block belongs to the device whose
 * allocator counts its references.
 */
module BlockManager {
  import opened Wrappers
  import opened Holding
  import opened UncachedAllocator

  /** The keys of the two table dictionaries: sequences (self-attention) and requests (cross-attention). */
  datatype TableId = SelfTable(seqId: nat) | CrossTable(requestId: string)

  datatype State<B> = State(gpu: Pool<B>, cpu: Pool<B>, tables: map<TableId, seq<B>>)

  /** `window` is the sliding window in blocks. */
  datatype RawConfig = Config(blockSize: nat, window: Option<nat>, watermark: nat)

  type Config = c: RawConfig | c.blockSize > 0 && (c.window.Some? ==> c.window.value > 0)
    witness Config(1, None, 0)

  datatype Status = Waiting | Running | Swapped | Finished

  datatype Sequence = Sequence(id: nat, status: Status, len: nat)

  datatype Group = Group(requestId: string, seqs: seq<Sequence>, encoderLen: Option<nat>)

  datatype AllocStatus = OK | LATER | NEVER

  function WithStatus(seqs: seq<Sequence>, status: Status): (r: seq<Sequence>)
    ensures |r| <= |seqs|
    ensures forall q :: q in r <==> q in seqs && q.status == status
  {
    if seqs == [] then []
    else
      var r := WithStatus(seqs[..|seqs| - 1], status);
      assert seqs == seqs[..|seqs| - 1] + [seqs[|seqs| - 1]];
      if seqs[|seqs| - 1].status == status then r + [seqs[|seqs| - 1]] else r
  }

  function SelfTables(seqs: seq<Sequence>): (r: seq<TableId>)
    ensures |r| == |seqs|
    ensures forall i :: 0 <= i < |r| ==> r[i] == SelfTable(seqs[i].id)
  {
    seq(|seqs|, i requires 0 <= i < |seqs| => SelfTable(seqs[i].id))
  }

  /**
   * The number of blocks that `len` tokens occupy. It is the rounded-up quotient of the source
   * (`Paging.NBlocksIsCeiling`), written without a division.
   */
  function NBlocks(len: nat, blockSize: nat): nat
    requires blockSize > 0
    decreases len
  {
    if len == 0 then 0 else if len <= blockSize then 1 else 1 + NBlocks(len - blockSize, blockSize)
  }

  /** Extends `table` to `n` blocks of reference count `refCount`; past the window, blocks are reused. */
  function AllocateSequence<B(==)>(p: Pool<B>, table: seq<B>, n: nat, refCount: nat, window: Option<nat>)
    : Result<(Pool<B>, seq<B>)>
    requires window.Some? ==> window.value > 0
    decreases n - |table|
  {
    if |table| >= n then Ok((p, table))
    else if window.Some? && |table| >= window.value then
      var b := table[|table| % window.value];
      AllocateSequence(p.(refs := p.refs[b := refCount]), table + [b], n, refCount, window)
    else
      var (q, b) :- Take(p);
      AllocateSequence(q.(refs := q.refs[b := refCount]), table + [b], n, refCount, window)
  }

  function Assign<T>(tables: map<TableId, T>, owners: set<TableId>, t: T): map<TableId, T> {
    tables + map o | o in owners :: t
  }

  function Allocate<B(==)>(s: State<B>, c: Config, g: Group): Result<State<B>> {
    var waiting := WithStatus(g.seqs, Waiting);
    if g.encoderLen.Some? && c.window.Some? then Err(RuntimeError)
    else if waiting == [] then Err(KeyError)
    else
      var (p, t) :- AllocateSequence(s.gpu, [], NBlocks(waiting[0].len, c.blockSize), |g.seqs|, c.window);
      var s1 := s.(gpu := p, tables := Assign(s.tables, Elems(SelfTables(waiting)), t));
      if g.encoderLen.None? then Ok(s1)
      else
        var (q, x) :- AllocateSequence(p, [], NBlocks(g.encoderLen.value, c.blockSize), 1, c.window);
        Ok(s1.(gpu := q, tables := s1.tables[CrossTable(g.requestId) := x]))
  }

  /** Makes the last block of a table writable: in place when unshared, else by copy on write. */
  function WritableLastBlock<B(==)>(s: State<B>, o: TableId): Result<(State<B>, seq<(B, B)>)>
    requires o in s.tables && s.tables[o] != []
  {
    var t := s.tables[o];
    var last := t[|t| - 1];
    if last !in s.gpu.refs then Err(AssertionFailed)
    else if s.gpu.refs[last] == 1 then Ok((s, []))
    else
      var (p, b) :- Take(s.gpu);
      var q :- Release(p, last);
      Ok((s.(gpu := q, tables := s.tables[o := t[..|t| - 1] + [b]]), [(last, b)]))
  }

  /** Reserves the slot of a sequence's newest token; returns the block copies to perform. */
  function AppendSlots<B(==)>(s: State<B>, c: Config, o: TableId, len: nat): Result<(State<B>, seq<(B, B)>)> {
    var n := NBlocks(len, c.blockSize);
    if o !in s.tables then Err(KeyError)
    else
      var t := s.tables[o];
      if |t| < n then
        if |t| != n - 1 then Err(AssertionFailed)
        else if c.window.Some? && |t| >= c.window.value then
          WritableLastBlock(s.(tables := s.tables[o := t + [t[|t| % c.window.value]]]), o)
        else
          var (p, b) :- Take(s.gpu);
          Ok((s.(gpu := p, tables := s.tables[o := t + [b]]), []))
      else if t == [] then Err(KeyError)
      else WritableLastBlock(s, o)
  }

  function Retain<B(==)>(p: Pool<B>, blocks: seq<B>): Pool<B> {
    p.(refs := map b | b in p.refs :: p.refs[b] + (if b in blocks then 1 else 0))
  }

  function Fork<B(==)>(s: State<B>, parent: TableId, child: TableId): State<B> {
    if parent !in s.tables then s
    else
      var t := s.tables[parent];
      State(Retain(s.gpu, t), Retain(s.cpu, t), s.tables[child := t])
  }

  /** The dictionary from swapped blocks to their new places, with its items in insertion order. */
  datatype Mapping<B> = Mapping(dict: map<B, B>, items: seq<(B, B)>)

  function SwapTable<B(==)>(src: Pool<B>, dst: Pool<B>, m: Mapping<B>, done: seq<B>, todo: seq<B>)
    : Result<(Pool<B>, Pool<B>, Mapping<B>, seq<B>)>
    decreases |todo|
  {
    if todo == [] then Ok((src, dst, m, done))
    else
      var from := todo[0];
      if from in m.dict then
        var to := m.dict[from];
        if to !in dst.refs then Err(KeyError)
        else
          var src' :- Release(src, from);
          SwapTable(src', dst.(refs := dst.refs[to := dst.refs[to] + 1]), m, done + [to], todo[1..])
      else
        var (dst', to) :- Take(dst);
        var src' :- Release(src, from);
        SwapTable(src', dst', Mapping(m.dict[from := to], m.items + [(from, to)]), done + [to], todo[1..])
  }

  function SwapTables<B(==)>(src: Pool<B>, dst: Pool<B>, tables: map<TableId, seq<B>>, m: Mapping<B>,
                             owners: seq<TableId>)
    : Result<(Pool<B>, Pool<B>, map<TableId, seq<B>>, Mapping<B>)>
    decreases |owners|
  {
    if owners == [] then Ok((src, dst, tables, m))
    else if owners[0] !in tables then Err(KeyError)
    else
      var (src', dst', m', t) :- SwapTable(src, dst, m, [], tables[owners[0]]);
      SwapTables(src', dst', tables[owners[0] := t], m', owners[1..])
  }

  /** The tables that a swap of the group moves, in the order of the loop. */
  function SwapOwners(g: Group, status: Status): seq<TableId> {
    SelfTables(WithStatus(g.seqs, status)) + (if g.encoderLen.Some? then [CrossTable(g.requestId)] else [])
  }

  function SwapOut<B(==)>(s: State<B>, owners: seq<TableId>): Result<(State<B>, seq<(B, B)>)> {
    var (gpu, cpu, tables, m) :- SwapTables(s.gpu, s.cpu, s.tables, Mapping(map[], []), owners);
    Ok((State(gpu, cpu, tables), m.items))
  }

  function SwapIn<B(==)>(s: State<B>, owners: seq<TableId>): Result<(State<B>, seq<(B, B)>)> {
    var (cpu, gpu, tables, m) :- SwapTables(s.cpu, s.gpu, s.tables, Mapping(map[], []), owners);
    Ok((State(gpu, cpu, tables), m.items))
  }

  function ReleaseAll<B(==)>(gpu: Pool<B>, cpu: Pool<B>, blocks: seq<B>): Result<(Pool<B>, Pool<B>)>
    decreases |blocks|
  {
    if blocks == [] then Ok((gpu, cpu))
    else if blocks[0] in gpu.refs then
      var gpu' :- Release(gpu, blocks[0]);
      ReleaseAll(gpu', cpu, blocks[1..])
    else
      var cpu' :- Release(cpu, blocks[0]);
      ReleaseAll(gpu, cpu', blocks[1..])
  }

  /** The part of a table that `_free_block_table` looks at: the last window of it, if there is a window. */
  function FreedPart<B>(t: seq<B>, window: Option<nat>): seq<B> {
    if window.Some? && 0 < window.value < |t| then t[|t| - window.value..] else t
  }

  /** `order` enumerates the set of the blocks of `part`, as a loop over `set(part)` does. */
  ghost predicate EnumeratesSet<B>(order: seq<B>, part: seq<B>) {
    && (forall i, j :: 0 <= i < j < |order| ==> order[i] != order[j])
    && (forall b :: b in order ==> b in part)
    && (forall b :: b in part ==> b in order)
  }

  /** Frees a table, going through the set of its blocks in the order `order`. */
  function Free<B(==)>(s: State<B>, o: TableId, order: seq<B>): Result<State<B>> {
    if o !in s.tables then Ok(s)
    else
      var (gpu, cpu) :- ReleaseAll(s.gpu, s.cpu, order);
      Ok(State(gpu, cpu, s.tables - {o}))
  }

  /** Frees every table, in the order of the listing. */
  function Reset<B(==)>(s: State<B>, listing: seq<(TableId, seq<B>)>): Result<State<B>>
    decreases |listing|
  {
    if listing == [] then Ok(s)
    else
      var s' :- Free(s, listing[0].0, listing[0].1);
      Reset(s', listing[1..])
  }

  function RequiredBlocks(c: Config, g: Group): nat
    requires WithStatus(g.seqs, Waiting) != []
  {
    var n := NBlocks(WithStatus(g.seqs, Waiting)[0].len, c.blockSize)
             + (if g.encoderLen.Some? then NBlocks(g.encoderLen.value, c.blockSize) else 0);
    if c.window.Some? && c.window.value < n then c.window.value else n
  }

  function CanAllocate<B>(s: State<B>, c: Config, g: Group): AllocStatus
    requires WithStatus(g.seqs, Waiting) != []
  {
    var required := RequiredBlocks(c, g);
    if |s.gpu.refs| - required < c.watermark then NEVER
    else if |s.gpu.free| - required >= c.watermark then OK
    else LATER
  }

  predicate CanAppendSlots<B>(s: State<B>, g: Group) {
    |WithStatus(g.seqs, Running)| <= |s.gpu.free|
  }

  /** The distinct blocks of the unfinished sequences of a group and of its cross table. */
  function PhysicalBlocks<B(==)>(s: State<B>, g: Group): set<B> {
    set o, b | o in GroupTables(g) && o in s.tables && b in s.tables[o] :: b
  }

  function GroupTables(g: Group): set<TableId> {
    (set q | q in g.seqs && q.status != Finished :: SelfTable(q.id))
    + (if g.encoderLen.Some? then {CrossTable(g.requestId)} else {})
  }

  function SwapInRequired<B(==)>(s: State<B>, g: Group): nat {
    |PhysicalBlocks(s, g)| + |WithStatus(g.seqs, Swapped)| + (if g.encoderLen.Some? then 1 else 0)
  }

  function CanSwapIn<B(==)>(s: State<B>, c: Config, g: Group): AllocStatus {
    var required := SwapInRequired(s, g);
    if |s.gpu.refs| < required then NEVER
    else if |s.gpu.free| - required >= c.watermark then OK
    else LATER
  }

  predicate CanSwapOut<B(==)>(s: State<B>, g: Group) {
    |PhysicalBlocks(s, g)| <= |s.cpu.free|
  }
}
