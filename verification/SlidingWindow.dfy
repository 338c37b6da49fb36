/**
 * The sliding-window ring: groups of one sequence, neither forked nor swapped. The table of a
 * sequence of any length runs around a ring of at most `window` blocks.
 */
module SlidingWindow {
  import opened Wrappers
  import opened Holding
  import opened UncachedAllocator
  import opened BlockManager
  import opened Conservation
  import opened Paging
  import Arith

  /** The table runs around its first `w` blocks, which are different. */
  ghost predicate Ring<B>(t: seq<B>, w: nat)
    requires w > 0
  {
    && (forall i :: 0 <= i < |t| ==> t[i] == t[RingIndex(i, Some(w))])
    && (forall i, j :: 0 <= i < j < |t| && j < w ==> t[i] != t[j])
  }

  ghost predicate Windowed(c: Config) {
    c.window.Some?
  }

  /** All tables are rings on the GPU that share no block. */
  ghost predicate RingState<B>(s: State<B>, c: Config, lens: map<TableId, nat>)
    requires Windowed(c)
  {
    && Conserved(s) && lens.Keys == s.tables.Keys
    && (forall o :: o in lens ==> RingTable(s, c, o, lens[o]))
    && (forall b :: b in s.gpu.refs ==> s.gpu.refs[b] <= 1)
  }

  ghost predicate RingTable<B>(s: State<B>, c: Config, o: TableId, len: nat)
    requires Windowed(c)
  {
    && o in s.tables && Ring(s.tables[o], c.window.value) && Resident(s.gpu, s.tables[o])
    && |s.tables[o]| == NBlocks(len, c.blockSize)
  }

  // ----- the ring itself

  /** Two positions of a ring hold the same block exactly when they are a multiple of `w` apart. */
  lemma RingEqual<B>(t: seq<B>, w: nat, i: nat, j: nat)
    requires w > 0 && Ring(t, w) && i < |t| && j < |t|
    ensures t[i] == t[j] <==> RingIndex(i, Some(w)) == RingIndex(j, Some(w))
  {
  }

  lemma RingIndexApart(i: nat, k: nat, w: nat)
    requires 0 < k < w
    ensures RingIndex(i, Some(w)) != RingIndex(i + k, Some(w))
  {
    ModApart(i, k, w);
    ModSmall(i, w);
    ModSmall(i + k, w);
  }

  lemma ModSmall(i: nat, w: nat)
    requires w > 0
    ensures RingIndex(i, Some(w)) == i % w
  {
  }

  lemma ModApart(i: nat, k: nat, w: nat)
    requires 0 < k < w
    ensures i % w != (i + k) % w
  {
    var q, r := i / w, i % w;
    assert i == q * w + r;
    if r + k < w {
      RemainderUnique(q, w, r + k);
    } else {
      assert (q + 1) * w == q * w + w;
      RemainderUnique(q + 1, w, r + k - w);
    }
  }

  /** Fresh tables are rings. */
  lemma FreshIsRing<B>(free: seq<B>, n: nat, w: nat)
    requires w > 0 && NoDup(free) && Need(n, Some(w)) <= |free|
    ensures Ring(FreshTable(free, n, Some(w)), w)
  {
  }

  /** Extending a ring: a new block while it is short, then the next block around. */
  lemma RingExtends<B>(t: seq<B>, w: nat, b: B)
    requires w > 0 && Ring(t, w)
    requires if |t| < w then b !in t else b == t[|t| % w]
    ensures Ring(t + [b], w)
  {
  }

  ghost function Cycle<B>(t: seq<B>, w: nat): seq<B> {
    if |t| <= w then t else t[..w]
  }

  lemma RingBlocks<B>(t: seq<B>, w: nat)
    requires w > 0 && Ring(t, w)
    ensures Elems(t) == Elems(Cycle(t, w)) && |Elems(t)| == |Cycle(t, w)| <= w
    ensures Elems(FreedPart(t, Some(w))) == Elems(t)
  {
    var cycle := Cycle(t, w);
    ElemsCardinality(cycle);
    forall b | b in t
      ensures b in cycle && b in FreedPart(t, Some(w))
    {
      var i :| 0 <= i < |t| && t[i] == b;
      var k := RingIndex(i, Some(w));
      assert cycle[k] == b;
      if |t| > w {
        var j := RingReach(k, |t|, w);
        assert t[j] == t[k];
        assert t[|t| - w..][j - (|t| - w)] == b;
      }
    }
  }

  /** Some position among the last `w` has a given ring index. */
  lemma RingReach(k: nat, n: nat, w: nat) returns (j: nat)
    requires k < w < n
    ensures n - w <= j < n && RingIndex(j, Some(w)) == k
  {
    j := k;
    while j < n - w
      invariant j < n && j % w == k
    {
      ModStep(j, w);
      j := j + w;
    }
    ModSmall(j, w);
  }

  lemma ModStep(i: nat, w: nat)
    requires w > 0
    ensures (i + w) % w == i % w
  {
    var q, r := i / w, i % w;
    assert i == q * w + r;
    assert (q + 1) * w == q * w + w;
    RemainderUnique(q + 1, w, r);
  }

  /**
   * Any `window` consecutive token positions occupy different slots: never the same offset of the
   * same block. Positions are written as block index and offset.
   */
  lemma WindowSlotsDistinct<B>(t: seq<B>, c: Config, window: nat, i: nat, j: nat, i': nat, j': nat)
    requires Windowed(c) && Ring(t, c.window.value)
    requires window <= c.window.value * c.blockSize
    requires j < c.blockSize && j' < c.blockSize && i < |t| && i' < |t|
    requires i * c.blockSize + j < i' * c.blockSize + j' < i * c.blockSize + j + window
    ensures t[i] != t[i'] || j != j'
  {
    var w, bs := c.window.value, c.blockSize;
    if j == j' {
      if i' <= i {
        Arith.MulMono(i', i, bs);
      }
      var k := i' - i;
      assert i' * bs == i * bs + k * bs;
      if k >= w {
        Arith.MulMono(w, k, bs);
      }
      RingIndexApart(i, k, w);
      RingEqual(t, w, i, i');
    }
  }

  // ----- what each operation keeps

  lemma AdmitKeepsRings<B>(s: State<B>, c: Config, lens: map<TableId, nat>, q: Sequence, request: string)
    requires Windowed(c) && RingState(s, c, lens)
    requires q.status == Waiting && SelfTable(q.id) !in s.tables && CrossTable(request) !in s.tables
    ensures var r := Allocate(s, c, Group(request, [q], None));
            if r.Ok? then RingState(r.value, c, lens[SelfTable(q.id) := q.len]) else r == Err(OutOfMemory)
  {
    hide Allocate, NBlocks, Ring, FreshTable;
    var g := Group(request, [q], None);
    var o, n := SelfTable(q.id), NBlocks(q.len, c.blockSize);
    AllocateForm(s, c, g);
    if Need(n, c.window) <= |s.gpu.free| {
      assert Decoder(g) == {o} by { assert SelfTables(g.seqs) == [o]; }
      GrantConserves(s, {o}, n, c.window);
      FreshIsRing(s.gpu.free, n, c.window.value);
      GrantedRings(s, c, lens, o, n, q.len);
    }
  }

  lemma GrantedRings<B>(s: State<B>, c: Config, lens: map<TableId, nat>, o: TableId, n: nat, len: nat)
    requires Windowed(c) && RingState(s, c, lens) && o !in s.tables
    requires n == NBlocks(len, c.blockSize) && Need(n, c.window) <= |s.gpu.free|
    requires Conserved(Grant(s, {o}, n, c.window))
    requires Grant(s, {o}, n, c.window).gpu.refs.Keys == s.gpu.refs.Keys
    requires var t := FreshTable(s.gpu.free, n, c.window);
             Ring(t, c.window.value) && Resident(s.gpu, t)
    ensures RingState(Grant(s, {o}, n, c.window), c, lens[o := len])
  {
    hide Conserved, NBlocks, Ring, FreshTable;
    var s' := Grant(s, {o}, n, c.window);
    var lens' := lens[o := len];
    forall k | k in lens'
      ensures RingTable(s', c, k, lens'[k])
    {
      if k != o {
        assert s'.tables[k] == s.tables[k];
        assert RingTable(s, c, k, lens[k]);
      }
    }
  }

  lemma GrowKeepsRings<B>(s: State<B>, c: Config, lens: map<TableId, nat>, o: TableId)
    requires Windowed(c) && RingState(s, c, lens) && o in lens
    ensures var r := AppendSlots(s, c, o, lens[o] + 1);
            if r.Ok? then RingState(r.value.0, c, lens[o := lens[o] + 1]) && r.value.1 == []
            else r == Err(OutOfMemory) && s.gpu.free == [] && |s.tables[o]| < c.window.value
  {
    var t, w, bs := s.tables[o], c.window.value, c.blockSize;
    assert RingTable(s, c, o, lens[o]);
    NBlocksNext(lens[o], bs);
    var r := AppendSlots(s, c, o, lens[o] + 1);
    hide Conserved, NBlocks, Ring;
    if |t| < NBlocks(lens[o] + 1, bs) {
      if |t| >= w {
        GrowAround(s, c, lens, o);
      } else if s.gpu.free != [] {
        GrowFresh(s, c, lens, o);
      }
    } else {
      LastExclusive(s, o);
      GrowInPlace(s, c, lens, o);
    }
  }

  lemma LastExclusive<B>(s: State<B>, o: TableId)
    requires Conserved(s) && o in s.tables && s.tables[o] != [] && Resident(s.gpu, s.tables[o])
    requires forall b :: b in s.gpu.refs ==> s.gpu.refs[b] <= 1
    ensures forall b :: b in s.tables[o] ==> b in s.gpu.refs && s.gpu.refs[b] == 1
  {
    forall b | b in s.tables[o]
      ensures s.gpu.refs[b] == 1
    {
      CountBoundsHolders(s, b, o, o);
    }
  }

  lemma GrowInPlace<B>(s: State<B>, c: Config, lens: map<TableId, nat>, o: TableId)
    requires Windowed(c) && RingState(s, c, lens) && o in lens
    requires |s.tables[o]| == NBlocks(lens[o] + 1, c.blockSize)
    ensures RingState(s, c, lens[o := lens[o] + 1])
  {
  }

  lemma Retabled<B>(s: State<B>, s': State<B>, c: Config, lens: map<TableId, nat>, o: TableId, t: seq<B>)
    requires Windowed(c) && RingState(s, c, lens) && o in lens && Conserved(s')
    requires s'.tables == s.tables[o := t] && s'.gpu.refs.Keys == s.gpu.refs.Keys
    requires forall b :: b in s'.gpu.refs ==> s'.gpu.refs[b] <= 1
    requires Ring(t, c.window.value) && Resident(s.gpu, t) && |t| == NBlocks(lens[o] + 1, c.blockSize)
    ensures RingState(s', c, lens[o := lens[o] + 1])
  {
  }

  lemma GrowFresh<B>(s: State<B>, c: Config, lens: map<TableId, nat>, o: TableId)
    requires Windowed(c) && RingState(s, c, lens) && o in lens && s.gpu.free != []
    requires |s.tables[o]| + 1 == NBlocks(lens[o] + 1, c.blockSize) && |s.tables[o]| < c.window.value
    ensures var (p, b) := Take(s.gpu).value;
            RingState(s.(gpu := p, tables := s.tables[o := s.tables[o] + [b]]), c, lens[o := lens[o] + 1])
  {
    hide NBlocks, Ring;
    ExtendKeeps(s, o);
    var (p, b) := Take(s.gpu).value;
    FreeBlockUnheld(s, b);
    var t := s.tables[o] + [b];
    assert RingTable(s, c, o, lens[o]);
    RingExtends(s.tables[o], c.window.value, b);
    assert Resident(s.gpu, t);
    Retabled(s, State(p, s.cpu, s.tables[o := t]), c, lens, o, t);
  }

  lemma GrowAround<B>(s: State<B>, c: Config, lens: map<TableId, nat>, o: TableId)
    requires Windowed(c) && RingState(s, c, lens) && o in lens
    requires |s.tables[o]| + 1 == NBlocks(lens[o] + 1, c.blockSize) && |s.tables[o]| >= c.window.value
    ensures var t := s.tables[o];
            var b := t[|t| % c.window.value];
            && b in s.gpu.refs && s.gpu.refs[b] == 1
            && RingState(s.(tables := s.tables[o := t + [b]]), c, lens[o := lens[o] + 1])
  {
    hide NBlocks, Ring;
    var t, w := s.tables[o], c.window.value;
    var b := t[|t| % w];
    assert RingTable(s, c, o, lens[o]);
    RingExtends(t, w, b);
    assert b in t;
    LastExclusive(s, o);
    var s' := s.(tables := s.tables[o := t + [b]]);
    assert forall x :: x in t + [b] <==> x in t;
    RetableConserves(s, s', o, t + [b]);
    Retabled(s, s', c, lens, o, t + [b]);
  }

  /** Freeing a ring gives back each of its blocks once. */
  lemma ReleaseKeepsRings<B>(s: State<B>, c: Config, lens: map<TableId, nat>, o: TableId, order: seq<B>)
    requires Windowed(c) && RingState(s, c, lens) && o in lens
    requires EnumeratesSet(order, FreedPart(s.tables[o], c.window))
    ensures Free(s, o, order).Ok? && RingState(Free(s, o, order).value, c, lens - {o})
    ensures |order| == |Cycle(s.tables[o], c.window.value)|
    ensures forall b :: b in s.tables[o] ==> b in Free(s, o, order).value.gpu.free
  {
    hide NBlocks;
    var t, w := s.tables[o], c.window.value;
    assert RingTable(s, c, o, lens[o]);
    RingBlocks(t, w);
    assert forall b :: b in order <==> b in Elems(t);
    ElemsCardinality(order);
    assert Elems(order) == Elems(t);
    FreeConserves(s, o, order);
    var s' := Free(s, o, order).value;
    hide Free;
    RefsShrink(s, s', o);
    forall k | k in lens - {o}
      ensures RingTable(s', c, k, lens[k])
    {
      assert RingTable(s, c, k, lens[k]);
      assert s'.tables[k] == s.tables[k];
    }
  }

  lemma RefsShrink<B>(s: State<B>, s': State<B>, o: TableId)
    requires Conserved(s) && Conserved(s') && s'.tables == s.tables - {o} && o in s.tables
    requires s'.gpu.refs.Keys == s.gpu.refs.Keys && Resident(s.gpu, s.tables[o])
    requires forall b :: b in s.gpu.refs ==> s.gpu.refs[b] <= 1
    ensures forall b :: b in s'.gpu.refs ==> s'.gpu.refs[b] <= 1
    ensures forall b :: b in s.tables[o] ==> b in s'.gpu.free
  {
    forall b | b in s'.gpu.refs
      ensures s'.gpu.refs[b] <= s.gpu.refs[b]
      ensures b in s.tables[o] ==> s'.gpu.refs[b] == 0
    {
      HoldersRemove(s.tables, o, b);
    }
  }

  // ----- runs

  /** The manager before any request. */
  ghost function Empty<B>(gpu: seq<B>): State<B> {
    State(Pool(gpu, map b | b in gpu :: 0), Pool([], map[]), map[])
  }

  lemma EmptyRings<B>(gpu: seq<B>, c: Config)
    requires Windowed(c) && NoDup(gpu)
    ensures RingState(Empty(gpu), c, map[])
  {
  }

  datatype RingOp<B> =
    | Admit(q: Sequence, request: string)
    | Grow(o: TableId)
    | Discard(o: TableId, order: seq<B>)

  ghost predicate RingEnabled<B>(s: State<B>, c: Config, lens: map<TableId, nat>, op: RingOp<B>) {
    match op
    case Admit(q, request) =>
      q.status == Waiting && SelfTable(q.id) !in s.tables && CrossTable(request) !in s.tables
    case Grow(o) => o in lens
    case Discard(o, order) => o in lens && o in s.tables && EnumeratesSet(order, FreedPart(s.tables[o], c.window))
  }

  ghost function RingStep<B>(s: State<B>, c: Config, lens: map<TableId, nat>, op: RingOp<B>)
    : Result<(State<B>, map<TableId, nat>)>
    requires RingEnabled(s, c, lens, op)
  {
    match op
    case Admit(q, request) =>
      var s' :- Allocate(s, c, Group(request, [q], None));
      Ok((s', lens[SelfTable(q.id) := q.len]))
    case Grow(o) =>
      var (s', _) :- AppendSlots(s, c, o, lens[o] + 1);
      Ok((s', lens[o := lens[o] + 1]))
    case Discard(o, order) =>
      var s' :- Free(s, o, order);
      Ok((s', lens - {o}))
  }

  ghost predicate RingScheduled<B>(s: State<B>, c: Config, lens: map<TableId, nat>, ops: seq<RingOp<B>>)
    decreases |ops|
  {
    ops == []
    || (&& RingEnabled(s, c, lens, ops[0])
        && var r := RingStep(s, c, lens, ops[0]);
           r.Ok? ==> RingScheduled(r.value.0, c, r.value.1, ops[1..]))
  }

  ghost function RingRun<B>(s: State<B>, c: Config, lens: map<TableId, nat>, ops: seq<RingOp<B>>)
    : Result<(State<B>, map<TableId, nat>)>
    requires RingScheduled(s, c, lens, ops)
    decreases |ops|
  {
    if ops == [] then Ok((s, lens))
    else
      var (s', lens') :- RingStep(s, c, lens, ops[0]);
      RingRun(s', c, lens', ops[1..])
  }

  lemma RingStepKeeps<B>(s: State<B>, c: Config, lens: map<TableId, nat>, op: RingOp<B>)
    requires Windowed(c) && RingState(s, c, lens) && RingEnabled(s, c, lens, op)
    ensures var r := RingStep(s, c, lens, op);
            if r.Ok? then RingState(r.value.0, c, r.value.1) else r == Err(OutOfMemory)
  {
    hide RingState, Allocate, AppendSlots, Free;
    match op {
      case Admit(q, request) => AdmitKeepsRings(s, c, lens, q, request);
      case Grow(o) => GrowKeepsRings(s, c, lens, o);
      case Discard(o, order) => ReleaseKeepsRings(s, c, lens, o, order);
    }
  }

  /**
   * Over every run, however many tokens are appended: each table is a ring on at most `window`
   * blocks, no two tables share a block, and nothing but running out of memory can fail.
   */
  lemma {:induction false} RingRunKeeps<B>(s: State<B>, c: Config, lens: map<TableId, nat>, ops: seq<RingOp<B>>)
    requires Windowed(c) && RingState(s, c, lens) && RingScheduled(s, c, lens, ops)
    ensures var r := RingRun(s, c, lens, ops);
            if r.Ok? then
              && RingState(r.value.0, c, r.value.1)
              && (forall o :: o in r.value.0.tables ==> |Elems(r.value.0.tables[o])| <= c.window.value)
            else r == Err(OutOfMemory)
    decreases |ops|
  {
    if ops == [] {
      forall o | o in s.tables
        ensures |Elems(s.tables[o])| <= c.window.value
      {
        assert RingTable(s, c, o, lens[o]);
        RingBlocks(s.tables[o], c.window.value);
      }
    } else {
      hide RingState, RingStep, RingEnabled;
      RingStepKeeps(s, c, lens, ops[0]);
      var r := RingStep(s, c, lens, ops[0]);
      if r.Ok? {
        RingRunKeeps(r.value.0, c, r.value.1, ops[1..]);
      }
    }
  }
}
