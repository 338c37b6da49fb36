/**
 * What sequences read under a sliding window: the runs of `SlidingWindow` with the contents of the
 * blocks, the prompt written from the window on and each token at its slot.
 */
module WindowReads {
  import opened Wrappers
  import opened Holding
  import opened BlockManager
  import opened Conservation
  import opened Paging
  import opened SlidingWindow
  import Arith

  /** The manager, all tokens of each sequence, and the contents of every block. */
  datatype RingWorld<B, V> = RingWorld(mgr: State<B>, toks: map<TableId, seq<V>>, store: map<B, seq<V>>)

  ghost function Lens<V>(toks: map<TableId, seq<V>>): map<TableId, nat> {
    map o | o in toks :: |toks[o]|
  }

  /** The window in blocks is the window in tokens, rounded up. */
  ghost predicate WindowFits(c: Config, window: nat) {
    Windowed(c) && window > 0 && c.window.value == NBlocks(window, c.blockSize)
  }

  /** What the table says is at position `p`. */
  ghost function At<B, V>(store: map<B, seq<V>>, t: seq<B>, bs: nat, p: nat): Option<V>
    requires bs > 0
  {
    if p / bs < |t| && t[p / bs] in store && p % bs < |store[t[p / bs]]| then Some(store[t[p / bs]][p % bs]) else None
  }

  /** The sequence reads its tokens from position `lo` on. */
  ghost predicate ReadsFrom<B, V>(store: map<B, seq<V>>, t: seq<B>, bs: nat, toks: seq<V>, lo: int)
    requires bs > 0
  {
    forall p: nat :: lo <= p < |toks| ==> At(store, t, bs, p) == Some(toks[p])
  }

  ghost predicate Sized<B, V>(w: RingWorld<B, V>, bs: nat) {
    w.store.Keys == w.mgr.gpu.refs.Keys && forall b :: b in w.store ==> |w.store[b]| == bs
  }

  /** The tables are rings, and every sequence reads its last `window` tokens. */
  ghost predicate Windows<B, V>(w: RingWorld<B, V>, c: Config, window: nat) {
    && WindowFits(c, window) && RingState(w.mgr, c, Lens(w.toks)) && Sized(w, c.blockSize)
    && (forall o :: o in w.toks ==> o in w.mgr.tables && ReadsFrom(w.store, w.mgr.tables[o], c.blockSize, w.toks[o],
      |w.toks[o]| - window))
  }

  // ----- writing at a slot

  ghost function WriteAt<B, V>(store: map<B, seq<V>>, t: seq<B>, bs: nat, p: nat, v: V): map<B, seq<V>>
    requires bs > 0
  {
    if p / bs < |t| && t[p / bs] in store && p % bs < |store[t[p / bs]]| then
      store[t[p / bs] := store[t[p / bs]][p % bs := v]]
    else store
  }

  /** The prompt, without what is before `lo`. */
  ghost function WritePrompt<B, V>(store: map<B, seq<V>>, t: seq<B>, bs: nat, vs: seq<V>, lo: int): map<B, seq<V>>
    requires bs > 0
    decreases |vs|
  {
    if vs == [] || |vs| <= lo then store
    else WriteAt(WritePrompt(store, t, bs, vs[..|vs| - 1], lo), t, bs, |vs| - 1, vs[|vs| - 1])
  }

  lemma Place(p: nat, bs: nat) returns (i: nat, j: nat)
    requires bs > 0
    ensures i == p / bs && j == p % bs && p == i * bs + j && j < bs
  {
    i, j := p / bs, p % bs;
  }

  lemma BlocksOrdered(i: nat, j: nat, i': nat, j': nat, bs: nat)
    requires j < bs && j' < bs && i * bs + j < i' * bs + j'
    ensures i <= i'
  {
    if i > i' {
      Arith.StepsApart(i', i, bs);
      assert false;
    }
  }

  lemma RowBelow(i: nat, j: nat, w: nat, bs: nat)
    requires bs > 0 && i * bs + j < w * bs
    ensures i < w
  {
    if i >= w {
      Arith.MulMono(w, i, bs);
      assert false;
    }
  }

  lemma InTable(p: nat, len: nat, bs: nat)
    requires bs > 0 && p < len
    ensures 0 <= p / bs < NBlocks(len, bs) && 0 <= p % bs < bs && p == (p / bs) * bs + p % bs
  {
    hide NBlocks;
    NBlocksFits(len, bs);
    var i, j := Place(p, bs);
    RowBelow(i, j, NBlocks(len, bs), bs);
  }

  /** Positions less than a window apart are at different slots. */
  lemma SlotsApart<B>(t: seq<B>, c: Config, window: nat, p: nat, q: nat)
    requires WindowFits(c, window) && Ring(t, c.window.value) && p < q < p + window && q / c.blockSize < |t|
    ensures p / c.blockSize < |t| && (t[p / c.blockSize] != t[q / c.blockSize] || p % c.blockSize != q % c.blockSize)
  {
    hide Ring, NBlocks;
    var bs := c.blockSize;
    NBlocksFits(window, bs);
    var i, j := Place(p, bs);
    var i', j' := Place(q, bs);
    BlocksOrdered(i, j, i', j', bs);
    WindowSlotsDistinct(t, c, window, i, j, i', j');
  }

  lemma WriteAtReads<B, V>(store: map<B, seq<V>>, t: seq<B>, c: Config, window: nat, toks: seq<V>, v: V, lo: int)
    requires WindowFits(c, window) && Ring(t, c.window.value) && NBlocks(|toks| + 1, c.blockSize) <= |t|
    requires forall b :: b in t ==> b in store && |store[b]| == c.blockSize
    requires ReadsFrom(store, t, c.blockSize, toks, lo) && |toks| + 1 - window <= lo
    ensures ReadsFrom(WriteAt(store, t, c.blockSize, |toks|, v), t, c.blockSize, toks + [v], lo)
  {
    hide Ring, NBlocks;
    var bs, q := c.blockSize, |toks|;
    InTable(q, q + 1, bs);
    var store' := WriteAt(store, t, bs, q, v);
    assert t[q / bs] in t;
    forall p: nat | lo <= p < |toks + [v]|
      ensures At(store', t, bs, p) == Some((toks + [v])[p])
    {
      if p < q {
        SlotsApart(t, c, window, p, q);
        assert At(store, t, bs, p) == Some(toks[p]);
      }
    }
  }

  lemma WriteAtFrame<B, V>(store: map<B, seq<V>>, t: seq<B>, bs: nat, p: nat, v: V)
    requires bs > 0
    ensures var r := WriteAt(store, t, bs, p, v);
            r.Keys == store.Keys && forall b :: b in store ==> |r[b]| == |store[b]| && (b !in t ==> r[b] == store[b])
  {
    var i, j := Place(p, bs);
    if i < |t| {
      assert t[i] in t;
    }
  }

  lemma {:induction false} WritePromptReads<B, V>(store: map<B, seq<V>>, t: seq<B>, c: Config, window: nat, vs: seq<V>,
          lo: int)
    requires WindowFits(c, window) && Ring(t, c.window.value) && NBlocks(|vs|, c.blockSize) <= |t|
             && |vs| - window <= lo
    requires forall b :: b in t ==> b in store && |store[b]| == c.blockSize
    ensures var r := WritePrompt(store, t, c.blockSize, vs, lo);
            && r.Keys == store.Keys && ReadsFrom(r, t, c.blockSize, vs, lo)
            && (forall b :: b in store ==> |r[b]| == |store[b]| && (b !in t ==> r[b] == store[b]))
    decreases |vs|
  {
    hide Ring, NBlocks, ReadsFrom, WriteAt;
    if vs == [] || |vs| <= lo {
      assert ReadsFrom(store, t, c.blockSize, vs, lo) by { NothingToRead(store, t, c.blockSize, vs, lo); }
    } else {
      var init, v := vs[..|vs| - 1], vs[|vs| - 1];
      NBlocksMonotone(|init|, |vs|, c.blockSize);
      WritePromptReads(store, t, c, window, init, lo);
      var s := WritePrompt(store, t, c.blockSize, init, lo);
      WriteAtReads(s, t, c, window, init, v, lo);
      WriteAtFrame(s, t, c.blockSize, |init|, v);
      assert init + [v] == vs;
    }
  }

  lemma NothingToRead<B, V>(store: map<B, seq<V>>, t: seq<B>, bs: nat, toks: seq<V>, lo: int)
    requires bs > 0 && (toks == [] || |toks| <= lo)
    ensures ReadsFrom(store, t, bs, toks, lo)
  {
  }

  lemma NBlocksMonotone(a: nat, b: nat, bs: nat)
    requires bs > 0 && a <= b
    ensures NBlocks(a, bs) <= NBlocks(b, bs)
  {
    NBlocksFits(a, bs);
    NBlocksFits(b, bs);
  }

  // ----- the operations

  datatype WindowOp<B, V> =
    | Enter(q: Sequence, request: string, prompt: seq<V>)
    | Token(o: TableId, v: V)
    | Leave(o: TableId, order: seq<B>)

  /** The operation as the manager sees it. */
  function Managed<B, V>(op: WindowOp<B, V>): RingOp<B> {
    match op
    case Enter(q, request, prompt) => Admit(q.(len := |prompt|), request)
    case Token(o, _) => Grow(o)
    case Leave(o, order) => Discard(o, order)
  }

  /** The sequences, as far as nothing but the operations says. */
  ghost function ToksStep<B, V>(toks: map<TableId, seq<V>>, op: WindowOp<B, V>): map<TableId, seq<V>> {
    match op
    case Enter(q, _, prompt) => toks[SelfTable(q.id) := prompt]
    case Token(o, v) => if o in toks then toks[o := toks[o] + [v]] else toks
    case Leave(o, _) => toks - {o}
  }

  ghost function StoreStep<B, V>(w: RingWorld<B, V>, s: State<B>, c: Config, window: nat, op: WindowOp<B, V>): map<B,
          seq<V>> {
    match op
    case Enter(q, _, prompt) =>
      var o := SelfTable(q.id);
      if o in s.tables then WritePrompt(w.store, s.tables[o], c.blockSize, prompt, |prompt| - window) else w.store
    case Token(o, v) =>
      if o in s.tables && o in w.toks then WriteAt(w.store, s.tables[o], c.blockSize, |w.toks[o]|, v) else w.store
    case Leave(_, _) => w.store
  }

  ghost function WindowStep<B, V>(w: RingWorld<B, V>, c: Config, window: nat,
          op: WindowOp<B, V>): Result<RingWorld<B, V>>
    requires RingEnabled(w.mgr, c, Lens(w.toks), Managed(op))
  {
    var (s, _) :- RingStep(w.mgr, c, Lens(w.toks), Managed(op));
    Ok(RingWorld(s, ToksStep(w.toks, op), StoreStep(w, s, c, window, op)))
  }

  // ----- what each keeps

  /** No block is in two tables. */
  lemma TablesApart<B>(s: State<B>, c: Config, lens: map<TableId, nat>, o: TableId, o': TableId)
    requires Windowed(c) && RingState(s, c, lens) && o in s.tables && o' in s.tables && o != o'
    ensures forall b :: b in s.tables[o] ==> b !in s.tables[o']
  {
    assert RingTable(s, c, o, lens[o]);
    forall b | b in s.tables[o]
      ensures b !in s.tables[o']
    {
      CountBoundsHolders(s, b, o, o');
    }
  }

  lemma ReadsKept<B, V>(store: map<B, seq<V>>, store': map<B, seq<V>>, t: seq<B>, bs: nat, toks: seq<V>, lo: int)
    requires bs > 0 && ReadsFrom(store, t, bs, toks, lo)
    requires forall b :: b in t && b in store ==> b in store' && store'[b] == store[b]
    ensures ReadsFrom(store', t, bs, toks, lo)
  {
    forall p: nat | lo <= p < |toks|
      ensures At(store', t, bs, p) == Some(toks[p])
    {
      assert At(store, t, bs, p) == Some(toks[p]);
      assert t[p / bs] in t;
    }
  }

  /** What a successful step does to the tables: the one named may change, the others stay. */
  ghost predicate TablesChange<B>(s: State<B>, s': State<B>, o: TableId) {
    && s'.gpu.refs.Keys == s.gpu.refs.Keys
    && (forall k :: k in s.tables && k != o ==> k in s'.tables && s'.tables[k] == s.tables[k])
  }

  lemma EnterTables<B>(s: State<B>, c: Config, lens: map<TableId, nat>, q: Sequence, request: string)
    requires Windowed(c) && RingState(s, c, lens)
    requires q.status == Waiting && SelfTable(q.id) !in s.tables && CrossTable(request) !in s.tables
    ensures var r := Allocate(s, c, Group(request, [q], None)); r.Ok? ==> TablesChange(s, r.value, SelfTable(q.id))
  {
    hide Allocate, NBlocks, FreshTable;
    var g := Group(request, [q], None);
    AllocateForm(s, c, g);
    assert Decoder(g) == {SelfTable(q.id)} by { assert SelfTables(g.seqs) == [SelfTable(q.id)]; }
    if Allocate(s, c, g).Ok? {
      GrantConserves(s, {SelfTable(q.id)}, NBlocks(q.len, c.blockSize), c.window);
    }
  }

  lemma TokenTables<B>(s: State<B>, c: Config, lens: map<TableId, nat>, o: TableId)
    requires Windowed(c) && RingState(s, c, lens) && o in lens
    ensures var r := AppendSlots(s, c, o, lens[o] + 1);
            r.Ok? ==>
              && TablesChange(s, r.value.0, o)
              && o in s.tables && o in r.value.0.tables && s.tables[o] <= r.value.0.tables[o]
  {
    hide NBlocks, Ring, Conserved, RingTable;
    FreeInPool(s);
    GrowKeepsRings(s, c, lens, o);
    hide RingState;
  }

  lemma FreeInPool<B>(s: State<B>)
    requires Conserved(s)
    ensures forall b :: b in s.gpu.free ==> b in s.gpu.refs
  {
  }

  /** Others read what they did if the store changed only in blocks of the table named. */
  lemma OthersRead<B, V>(w: RingWorld<B, V>, w': RingWorld<B, V>, c: Config, window: nat, o: TableId)
    requires Windows(w, c, window) && RingState(w'.mgr, c, Lens(w'.toks)) && Sized(w', c.blockSize)
    requires TablesChange(w.mgr, w'.mgr, o) && w'.store.Keys == w.store.Keys
    requires forall k :: k in w'.toks && k != o ==> k in w.toks && w'.toks[k] == w.toks[k]
    requires o in w'.toks ==> forall b :: b in w.store && b !in w'.mgr.tables[o] ==> w'.store[b] == w.store[b]
    requires o !in w'.toks ==> w'.store == w.store
    requires o in w'.toks ==> ReadsFrom(w'.store, w'.mgr.tables[o], c.blockSize, w'.toks[o], |w'.toks[o]| - window)
    ensures Windows(w', c, window)
  {
    hide Ring, NBlocks, ReadsFrom, Conserved, RingTable;
    forall k | k in w'.toks
      ensures ReadsFrom(w'.store, w'.mgr.tables[k], c.blockSize, w'.toks[k], |w'.toks[k]| - window)
    {
      if k != o {
        if o in w'.toks {
          TablesApart(w'.mgr, c, Lens(w'.toks), k, o);
        }
        ReadsKept(w.store, w'.store, w.mgr.tables[k], c.blockSize, w.toks[k], |w.toks[k]| - window);
      }
    }
  }

  lemma OwnRing<B, V>(w: RingWorld<B, V>, c: Config, s: State<B>, o: TableId, toks: map<TableId, seq<V>>)
    requires Windowed(c) && RingState(s, c, Lens(toks)) && o in toks && Sized(w, c.blockSize)
             && s.gpu.refs.Keys == w.mgr.gpu.refs.Keys
    ensures o in s.tables && Ring(s.tables[o], c.window.value) && |s.tables[o]| == NBlocks(|toks[o]|, c.blockSize)
    ensures forall b :: b in s.tables[o] ==> b in w.store && |w.store[b]| == c.blockSize
  {
    assert RingTable(s, c, o, Lens(toks)[o]);
  }

  lemma EnterReads<B, V>(w: RingWorld<B, V>, c: Config, window: nat, q: Sequence, request: string, prompt: seq<V>)
    requires Windows(w, c, window) && RingEnabled(w.mgr, c, Lens(w.toks),
             Managed(WindowOp<B, V>.Enter(q, request, prompt)))
    ensures var r := WindowStep(w, c, window, Enter(q, request, prompt));
            if r.Ok? then Windows(r.value, c, window) else r == Err(OutOfMemory)
  {
    hide RingState, Allocate, Ring, NBlocks, ReadsFrom, WritePrompt, Sized;
    var o, q' := SelfTable(q.id), q.(len := |prompt|);
    AdmitKeepsRings(w.mgr, c, Lens(w.toks), q', request);
    EnterTables(w.mgr, c, Lens(w.toks), q', request);
    var r := Allocate(w.mgr, c, Group(request, [q'], None));
    if r.Ok? {
      var toks := w.toks[o := prompt];
      assert Lens(toks) == Lens(w.toks)[o := |prompt|];
      OwnRing(w, c, r.value, o, toks);
      WritePromptReads(w.store, r.value.tables[o], c, window, prompt, |prompt| - window);
      var w' := WindowStep(w, c, window, Enter(q, request, prompt)).value;
      SizedKept(w, w', c.blockSize);
      OthersRead(w, w', c, window, o);
    }
  }

  lemma SizedKept<B, V>(w: RingWorld<B, V>, w': RingWorld<B, V>, bs: nat)
    requires Sized(w, bs) && w'.mgr.gpu.refs.Keys == w.mgr.gpu.refs.Keys && w'.store.Keys == w.store.Keys
    requires forall b :: b in w.store ==> |w'.store[b]| == |w.store[b]|
    ensures Sized(w', bs)
  {
  }

  lemma TokenReads<B, V>(w: RingWorld<B, V>, c: Config, window: nat, o: TableId, v: V)
    requires Windows(w, c, window) && o in w.toks
    ensures var r := WindowStep(w, c, window, Token(o, v));
            if r.Ok? then Windows(r.value, c, window) else r == Err(OutOfMemory)
  {
    hide RingState, AppendSlots, Ring, NBlocks, ReadsFrom, WriteAt, Sized;
    GrowKeepsRings(w.mgr, c, Lens(w.toks), o);
    TokenTables(w.mgr, c, Lens(w.toks), o);
    var r := AppendSlots(w.mgr, c, o, |w.toks[o]| + 1);
    if r.Ok? {
      var s, n := r.value.0, |w.toks[o]|;
      var toks := w.toks[o := w.toks[o] + [v]];
      assert Lens(toks) == Lens(w.toks)[o := n + 1];
      OwnRing(w, c, s, o, toks);
      var t, t' := w.mgr.tables[o], s.tables[o];
      NewestReads(w.store, t, t', c, window, w.toks[o], v);
      WriteAtFrame(w.store, t', c.blockSize, n, v);
      var w' := WindowStep(w, c, window, Token(o, v)).value;
      SizedKept(w, w', c.blockSize);
      OthersRead(w, w', c, window, o);
    }
  }

  lemma NewestReads<B, V>(store: map<B, seq<V>>, t: seq<B>, t': seq<B>, c: Config, window: nat, toks: seq<V>, v: V)
    requires WindowFits(c, window) && Ring(t', c.window.value) && t <= t' && NBlocks(|toks| + 1, c.blockSize) <= |t'|
    requires forall b :: b in t' ==> b in store && |store[b]| == c.blockSize
    requires ReadsFrom(store, t, c.blockSize, toks, |toks| - window)
    ensures ReadsFrom(WriteAt(store, t', c.blockSize, |toks|, v), t', c.blockSize, toks + [v], |toks| + 1 - window)
  {
    hide ReadsFrom, Ring, NBlocks, WriteAt;
    LongerReads(store, t, t', c, toks, |toks| - window);
    ShorterWindow(store, t', c.blockSize, toks, |toks| - window, |toks| + 1 - window);
    WriteAtReads(store, t', c, window, toks, v, |toks| + 1 - window);
  }

  lemma LongerReads<B, V>(store: map<B, seq<V>>, t: seq<B>, t': seq<B>, c: Config, toks: seq<V>, lo: int)
    requires ReadsFrom(store, t, c.blockSize, toks, lo) && t <= t'
    ensures ReadsFrom(store, t', c.blockSize, toks, lo)
  {
    forall p: nat | lo <= p < |toks|
      ensures At(store, t', c.blockSize, p) == Some(toks[p])
    {
      assert At(store, t, c.blockSize, p) == Some(toks[p]);
    }
  }

  lemma ShorterWindow<B, V>(store: map<B, seq<V>>, t: seq<B>, bs: nat, toks: seq<V>, lo: int, lo': int)
    requires bs > 0 && ReadsFrom(store, t, bs, toks, lo) && lo <= lo'
    ensures ReadsFrom(store, t, bs, toks, lo')
  {
  }

  lemma LeaveReads<B, V>(w: RingWorld<B, V>, c: Config, window: nat, o: TableId, order: seq<B>)
    requires Windows(w, c, window) && RingEnabled(w.mgr, c, Lens(w.toks), Managed(WindowOp<B, V>.Leave(o, order)))
    ensures var r := WindowStep(w, c, window, Leave(o, order)); r.Ok? && Windows(r.value, c, window)
  {
    hide RingState, Free, Ring, NBlocks, ReadsFrom, Sized, FreedPart;
    ReleaseKeepsRings(w.mgr, c, Lens(w.toks), o, order);
    LeaveTables(w.mgr, c, Lens(w.toks), o, order);
    var w' := WindowStep(w, c, window, Leave(o, order)).value;
    assert Lens(w'.toks) == Lens(w.toks) - {o};
    SizedKept(w, w', c.blockSize);
    OthersRead(w, w', c, window, o);
  }

  lemma LeaveTables<B>(s: State<B>, c: Config, lens: map<TableId, nat>, o: TableId, order: seq<B>)
    requires Windowed(c) && RingState(s, c, lens) && o in lens && EnumeratesSet(order, FreedPart(s.tables[o], c.window))
    ensures Free(s, o, order).Ok? && TablesChange(s, Free(s, o, order).value, o)
  {
    hide NBlocks;
    var t, w := s.tables[o], c.window.value;
    assert RingTable(s, c, o, lens[o]);
    RingBlocks(t, w);
    assert forall b :: b in order <==> b in Elems(t);
    FreeConserves(s, o, order);
  }

  lemma WindowStepKeeps<B, V>(w: RingWorld<B, V>, c: Config, window: nat, op: WindowOp<B, V>)
    requires Windows(w, c, window) && RingEnabled(w.mgr, c, Lens(w.toks), Managed(op))
    ensures var r := WindowStep(w, c, window, op);
            if r.Ok? then Windows(r.value, c, window) && r.value.toks == ToksStep(w.toks, op) else r == Err(OutOfMemory)
  {
    hide Windows, RingStep, StoreStep;
    match op {
      case Enter(q, request, prompt) => EnterReads(w, c, window, q, request, prompt);
      case Token(o, v) => TokenReads(w, c, window, o, v);
      case Leave(o, order) => LeaveReads(w, c, window, o, order);
    }
  }

  // ----- runs

  ghost predicate WindowScheduled<B, V>(w: RingWorld<B, V>, c: Config, window: nat, ops: seq<WindowOp<B, V>>)
    decreases |ops|
  {
    ops != [] ==>
      && RingEnabled(w.mgr, c, Lens(w.toks), Managed(ops[0]))
      && var r := WindowStep(w, c, window, ops[0]);
      r.Ok? ==> WindowScheduled(r.value, c, window, ops[1..])
  }

  ghost function WindowRun<B, V>(w: RingWorld<B, V>, c: Config, window: nat,
          ops: seq<WindowOp<B, V>>): Result<RingWorld<B, V>>
    requires WindowScheduled(w, c, window, ops)
    decreases |ops|
  {
    if ops == [] then Ok(w)
    else
      var w' :- WindowStep(w, c, window, ops[0]);
      WindowRun(w', c, window, ops[1..])
  }

  ghost function ToksRun<B, V>(toks: map<TableId, seq<V>>, ops: seq<WindowOp<B, V>>): map<TableId, seq<V>>
    decreases |ops|
  {
    if ops == [] then toks else ToksRun(ToksStep(toks, ops[0]), ops[1..])
  }

  lemma {:induction false} WindowRunKeeps<B, V>(w: RingWorld<B, V>, c: Config, window: nat, ops: seq<WindowOp<B, V>>)
    requires Windows(w, c, window) && WindowScheduled(w, c, window, ops)
    ensures var r := WindowRun(w, c, window, ops);
            if r.Ok? then Windows(r.value, c, window) && r.value.toks == ToksRun(w.toks, ops) else r == Err(OutOfMemory)
    decreases |ops|
  {
    hide Windows, WindowStep, ToksStep, RingEnabled, Managed;
    if ops != [] {
      WindowStepKeeps(w, c, window, ops[0]);
      var r := WindowStep(w, c, window, ops[0]);
      if r.Ok? {
        WindowRunKeeps(r.value, c, window, ops[1..]);
      }
    }
  }

  ghost function Start<B, V>(gpu: seq<B>, store: map<B, seq<V>>): RingWorld<B, V> {
    RingWorld(Empty(gpu), map[], store)
  }

  lemma StartWindows<B, V>(gpu: seq<B>, store: map<B, seq<V>>, c: Config, window: nat)
    requires WindowFits(c, window) && NoDup(gpu) && store.Keys == Elems(gpu) && forall b :: b in store ==>
             |store[b]| == c.blockSize
    ensures Windows(Start(gpu, store), c, window)
  {
    hide RingState;
    EmptyRings(gpu, c);
    assert Lens(Start(gpu, store).toks) == map[];
  }

  /**
   * Over every run, from a manager with no requests: each sequence reads its last `window` tokens, or
   * all if it has fewer, and nothing but running out of memory can fail.
   */
  lemma WindowRunReads<B, V>(gpu: seq<B>, store: map<B, seq<V>>, c: Config, window: nat, ops: seq<WindowOp<B, V>>)
    requires WindowFits(c, window) && NoDup(gpu) && store.Keys == Elems(gpu) && forall b :: b in store ==>
             |store[b]| == c.blockSize
    requires WindowScheduled(Start(gpu, store), c, window, ops)
    ensures var r := WindowRun(Start(gpu, store), c, window, ops);
            if r.Ok? then
              && r.value.toks == ToksRun(map[], ops) && r.value.toks.Keys == r.value.mgr.tables.Keys
              && forall o :: o in r.value.toks && o in r.value.mgr.tables ==>
                   ReadsFrom(r.value.store, r.value.mgr.tables[o], c.blockSize, r.value.toks[o],
                     |r.value.toks[o]| - window)
            else r == Err(OutOfMemory)
  {
    hide WindowRun, WindowScheduled, ToksRun, ReadsFrom, Conserved;
    StartWindows(gpu, store, c, window);
    WindowRunKeeps(Start(gpu, store), c, window, ops);
  }

  // ----- what decoding looks at

  /** The last blocks of the table, as many as the window has whole blocks; with none, a slice from 0 is the table. */
  ghost function DecodeTable<B>(t: seq<B>, bs: nat, window: nat): seq<B>
    requires bs > 0
  {
    var k := window / bs;
    if k == 0 || |t| <= k then t else t[|t| - k..]
  }

  ghost function DecodeLen(len: nat, window: nat): nat {
    if len < window then len else window
  }

  /** The block and offset of a position; none beyond the table. */
  ghost function SlotAt<B>(t: seq<B>, bs: nat, p: nat): Option<(B, nat)>
    requires bs > 0
  {
    if p / bs < |t| then Some((t[p / bs], p % bs)) else None
  }

  ghost predicate Seen<B>(t: seq<B>, bs: nat, len: nat, window: nat, p: nat)
    requires bs > 0
  {
    exists q: nat :: q < DecodeLen(len, window) && SlotAt(DecodeTable(t, bs, window), bs, q) == SlotAt(t, bs, p)
  }

  /** Decoding looks at the slot of each of the last `window` positions. */
  ghost predicate SeesWindow<B>(t: seq<B>, bs: nat, len: nat, window: nat)
    requires bs > 0
  {
    forall p: nat :: len - window <= p < len ==> Seen(t, bs, len, window, p)
  }

  lemma Shifted(a: nat, q: nat, bs: nat)
    requires bs > 0
    ensures 0 <= a * bs && (a * bs + q) / bs == a + q / bs && (a * bs + q) % bs == q % bs
  {
    var i, j := Place(q, bs);
    assert (a + i) * bs == a * bs + i * bs;
    QuotientUnique(a + i, bs, j);
    RemainderUnique(a + i, bs, j);
  }

  lemma WholeBlocks(window: nat, bs: nat)
    requires bs > 0 && window > 0 && window % bs == 0
    ensures NBlocks(window, bs) == window / bs > 0 && window == (window / bs) * bs
  {
    var k := window / bs;
    assert window == k * bs;
    assert (k - 1) * bs == k * bs - bs;
    NBlocksUnique(window, bs, k);
  }

  /** The last `w` of the blocks of a sequence that is longer than `w` blocks. */
  lemma LastRows(n: nat, w: nat, len: nat, bs: nat)
    requires bs > 0 && w > 0 && n == NBlocks(len, bs) && len > w * bs >= 0
    ensures n > w && (n - w) * bs == n * bs - w * bs && len - w * bs <= (n - w) * bs < len
  {
    NBlocksFits(len, bs);
    if n <= w {
      Arith.MulMono(n, w, bs);
      assert false;
    }
    Arith.MulMono(n - w, n - 1, bs);
    assert (n - w) * bs == n * bs - w * bs;
  }

  lemma CutSlot<B>(t: seq<B>, bs: nat, a: nat, q: nat)
    requires bs > 0 && a <= |t| && q / bs < |t| - a
    ensures 0 <= a * bs && SlotAt(t[a..], bs, q) == SlotAt(t, bs, a * bs + q) != None
  {
    Shifted(a, q, bs);
  }

  /** A whole ring further, the slot is the same. */
  lemma RingSlot<B>(t: seq<B>, w: nat, bs: nat, p: nat)
    requires bs > 0 && w > 0 && Ring(t, w) && w + p / bs < |t|
    ensures 0 <= w * bs && SlotAt(t, bs, w * bs + p) == SlotAt(t, bs, p)
  {
    hide Ring;
    Shifted(w, p, bs);
    ModStep(p / bs, w);
    ModSmall(p / bs, w);
    ModSmall(w + p / bs, w);
    RingEqual(t, w, p / bs, w + p / bs);
  }

  /** A window of whole blocks: position `q` of the cut table is one of the last positions, in rotated order. */
  lemma DecodeRotates<B>(t: seq<B>, c: Config, len: nat, window: nat, q: nat)
    requires WindowFits(c, window) && Ring(t, c.window.value) && |t| == NBlocks(len, c.blockSize)
    requires window % c.blockSize == 0 && len > window && q < window
    ensures |t| >= c.window.value
    ensures var base := (|t| - c.window.value) * c.blockSize;
            && 0 <= len - window <= base < len && base + q - window < len
            && var p := if base + q < len then base + q else base + q - window;
            && len - window <= p
            && SlotAt(DecodeTable(t, c.blockSize, window), c.blockSize, q) == SlotAt(t, c.blockSize, p) != None
  {
    hide Ring, NBlocks, SlotAt;
    var bs, w, n := c.blockSize, c.window.value, |t|;
    WholeBlocks(window, bs);
    LastRows(n, w, len, bs);
    var i, j := Place(q, bs);
    BlocksOrdered(i, j, w, 0, bs);
    RowBelow(i, j, w, bs);
    CutSlot(t, bs, n - w, q);
    var base := (n - w) * bs;
    Shifted(n - w, q, bs);
    if base + q >= len {
      var p := base + q - window;
      Shifted(w, p, bs);
      RingSlot(t, w, bs, p);
    }
  }

  /** The entries that decoding reads. */
  ghost function DecodeReads<B, V>(store: map<B, seq<V>>, t: seq<B>, bs: nat, len: nat,
          window: nat): (r: seq<Option<V>>)
    requires bs > 0
    ensures |r| == DecodeLen(len, window)
    ensures forall q :: 0 <= q < |r| ==> r[q] == At(store, DecodeTable(t, bs, window), bs, q)
  {
    seq(DecodeLen(len, window), q requires 0 <= q => At(store, DecodeTable(t, bs, window), bs, q))
  }

  lemma SameSlotSameEntry<B, V>(store: map<B, seq<V>>, t: seq<B>, t': seq<B>, bs: nat, p: nat, q: nat)
    requires bs > 0 && SlotAt(t, bs, p) == SlotAt(t', bs, q)
    ensures At(store, t, bs, p) == At(store, t', bs, q)
  {
  }

  /** The last `m` of `toks`, rotated. */
  ghost predicate RotatedEntries<V>(r: seq<Option<V>>, toks: seq<V>, m: nat, cut: nat) {
    && cut <= m <= |toks| && |r| == m
    && var last := toks[|toks| - m..];
    forall q :: 0 <= q < m ==> r[q] == Some((last[cut..] + last[..cut])[q])
  }

  /** With a window of whole blocks, decoding reads each of the last `window` tokens once, in rotated order. */
  lemma DecodeReadsWindow<B, V>(w: RingWorld<B, V>, c: Config, window: nat, o: TableId)
    requires Windows(w, c, window) && o in w.toks && window % c.blockSize == 0
    ensures o in w.mgr.tables
    ensures var toks, t, bs := w.toks[o], w.mgr.tables[o], c.blockSize;
            exists cut :: RotatedEntries(DecodeReads(w.store, t, bs, |toks|, window), toks, DecodeLen(|toks|, window),
              cut)
  {
    hide RingState, NBlocks, Ring, DecodeTable, SlotAt, At;
    var toks, t, bs, n := w.toks[o], w.mgr.tables[o], c.blockSize, |w.toks[o]|;
    OwnRing(w, c, w.mgr, o, w.toks);
    var r := DecodeReads(w.store, t, bs, n, window);
    if n <= window {
      WholeBlocks(window, bs);
      ShortTable(t, n, window, bs);
      forall q | 0 <= q < n
        ensures r[q] == Some((toks[0..] + toks[..0])[q])
      {
        assert At(w.store, t, bs, q) == Some(toks[q]);
      }
      assert RotatedEntries(r, toks, n, 0);
    } else {
      var base := (|t| - c.window.value) * bs;
      DecodeRotates(t, c, n, window, 0);
      var cut := base - (n - window);
      var last := toks[n - window..];
      forall q | 0 <= q < window
        ensures r[q] == Some((last[cut..] + last[..cut])[q])
      {
        DecodeRotates(t, c, n, window, q);
        var p := if base + q < n then base + q else base + q - window;
        SameSlotSameEntry(w.store, DecodeTable(t, bs, window), t, bs, q, p);
        assert At(w.store, t, bs, p) == Some(toks[p]);
      }
      assert RotatedEntries(r, toks, window, cut);
    }
  }

  lemma ShortTable<B>(t: seq<B>, len: nat, window: nat, bs: nat)
    requires bs > 0 && window > 0 && |t| == NBlocks(len, bs)
             && len <= (if window / bs == 0 then window else (window / bs) * bs)
    ensures DecodeTable(t, bs, window) == t
  {
    var k := window / bs;
    if k > 0 {
      NBlocksMonotone(len, k * bs, bs);
      assert (k - 1) * bs == k * bs - bs;
      NBlocksUnique(k * bs, bs, k);
    }
  }

  // ----- exactly when decoding sees the window

  /** The tokens that the whole blocks of the window hold; a window within a block is as long as it is. */
  ghost function Reach(window: nat, bs: nat): nat
    requires bs > 0
    ensures window / bs == 0 ==> Reach(window, bs) == window
  {
    if window / bs == 0 then window else Shifted(window / bs, 0, bs); (window / bs) * bs
  }

  /**
   * Decoding looks at the slot of every position of the window exactly if the window is a number of whole
   * blocks, the sequence has not outgrown those, or the window is within a block and begins at a block's start.
   */
  lemma SeesWindowIff<B>(t: seq<B>, c: Config, len: nat, window: nat)
    requires WindowFits(c, window) && Ring(t, c.window.value) && |t| == NBlocks(len, c.blockSize)
    ensures SeesWindow(t, c.blockSize, len, window) <==>
            window % c.blockSize == 0 || len <= Reach(window, c.blockSize)
            || (window < c.blockSize && (len - window) % c.blockSize == 0)
  {
    hide Ring, NBlocks, Seen;
    var bs := c.blockSize;
    NBlocksFits(len, bs);
    if len <= Reach(window, bs) {
      SeesShort(t, c, len, window);
    } else if window % bs == 0 {
      WholeBlocks(window, bs);
      SeesWhole(t, c, len, window);
    } else if window >= bs {
      MissesCutBlock(t, c, len, window);
    } else {
      SeesWithinBlock(t, c, len, window);
    }
  }

  lemma SeesShort<B>(t: seq<B>, c: Config, len: nat, window: nat)
    requires WindowFits(c, window) && |t| == NBlocks(len, c.blockSize) && len <= Reach(window, c.blockSize)
    ensures SeesWindow(t, c.blockSize, len, window)
  {
    hide NBlocks, SlotAt, DecodeTable;
    var bs := c.blockSize;
    ShortTable(t, len, window, bs);
    ReachBelow(window, bs);
    forall p: nat | len - window <= p < len
      ensures Seen(t, bs, len, window, p)
    {
      assert SlotAt(DecodeTable(t, bs, window), bs, p) == SlotAt(t, bs, p);
    }
  }

  lemma ReachBelow(window: nat, bs: nat)
    requires bs > 0
    ensures Reach(window, bs) <= window
  {
    var i, j := Place(window, bs);
  }

  lemma SeesWhole<B>(t: seq<B>, c: Config, len: nat, window: nat)
    requires WindowFits(c, window) && Ring(t, c.window.value) && |t| == NBlocks(len, c.blockSize)
    requires window % c.blockSize == 0 && len > window
    ensures SeesWindow(t, c.blockSize, len, window)
  {
    hide NBlocks, SlotAt, DecodeTable, Ring;
    var bs := c.blockSize;
    DecodeRotates(t, c, len, window, 0);
    var base := (|t| - c.window.value) * bs;
    forall p: nat | len - window <= p < len
      ensures Seen(t, bs, len, window, p)
    {
      var q := if base <= p then p - base else p - base + window;
      DecodeRotates(t, c, len, window, q);
      assert SlotAt(DecodeTable(t, bs, window), bs, q) == SlotAt(t, bs, p);
    }
  }

  /** Cut to the whole blocks of the window, the table lacks the block before them. */
  lemma MissesCutBlock<B>(t: seq<B>, c: Config, len: nat, window: nat)
    requires WindowFits(c, window) && Ring(t, c.window.value) && |t| == NBlocks(len, c.blockSize)
    requires window % c.blockSize != 0 && window >= c.blockSize && len > Reach(window, c.blockSize)
    ensures !SeesWindow(t, c.blockSize, len, window)
  {
    hide NBlocks, Ring, SlotAt, DecodeTable, Seen;
    var bs, n, k := c.blockSize, |t|, window / c.blockSize;
    RoundedUp(window, bs);
    var p := LastOfCut(n, k, len, window, bs);
    var cut := DecodeTable(t, bs, window);
    CutTable(t, bs, window);
    forall q: nat
      ensures SlotAt(cut, bs, q) != SlotAt(t, bs, p)
    {
      CutBlockUnseen(t, cut, bs, k, p, q);
    }
    Unseen(t, bs, len, window, p);
  }

  lemma Unseen<B>(t: seq<B>, bs: nat, len: nat, window: nat, p: nat)
    requires bs > 0 && forall q: nat :: SlotAt(DecodeTable(t, bs, window), bs, q) != SlotAt(t, bs, p)
    ensures !Seen(t, bs, len, window, p)
  {
    hide SlotAt, DecodeTable;
  }

  lemma CutTable<B>(t: seq<B>, bs: nat, window: nat)
    requires bs > 0 && 0 < window / bs < |t|
    ensures DecodeTable(t, bs, window) == t[|t| - window / bs..]
  {
  }

  /** The last position of the block before the cut is in the window. */
  lemma LastOfCut(n: nat, k: nat, len: nat, window: nat, bs: nat) returns (p: nat)
    requires bs > 0 && n == NBlocks(len, bs) && k == window / bs && window % bs != 0 && window >= bs
             && len > Reach(window, bs)
    ensures 0 < k < n && 0 <= (n - k - 1) * bs && p == (n - k - 1) * bs + (bs - 1) && len - window <= p < len
  {
    hide NBlocks;
    var i, rest := Place(window, bs);
    LastRows(n, k, len, bs);
    Arith.MulStep(n - k - 1, bs);
    p := (n - k - 1) * bs + (bs - 1);
  }

  lemma CutBlockUnseen<B>(t: seq<B>, cut: seq<B>, bs: nat, k: nat, p: nat, q: nat)
    requires bs > 0 && k < |t| && Ring(t, k + 1) && cut == t[|t| - k..]
    requires 0 <= (|t| - k - 1) * bs && p == (|t| - k - 1) * bs + (bs - 1)
    ensures SlotAt(cut, bs, q) != SlotAt(t, bs, p)
  {
    hide Ring;
    var n := |t|;
    QuotientUnique(n - k - 1, bs, bs - 1);
    if q / bs < k {
      RingIndexApart(n - k - 1, q / bs + 1, k + 1);
      RingEqual(t, k + 1, n - k - 1, n - k + q / bs);
    }
  }

  lemma RoundedUp(window: nat, bs: nat)
    requires bs > 0 && window % bs != 0
    ensures NBlocks(window, bs) == window / bs + 1
  {
    var k, r := Place(window, bs);
    assert (k + 1) * bs == k * bs + bs;
    NBlocksUnique(window, bs, k + 1);
  }

  /** A window within a block is read from the start of the block, over and over. */
  lemma SeesWithinBlock<B>(t: seq<B>, c: Config, len: nat, window: nat)
    requires WindowFits(c, window) && Ring(t, c.window.value) && |t| == NBlocks(len, c.blockSize)
    requires window < c.blockSize && len > window
    ensures SeesWindow(t, c.blockSize, len, window) <==> (len - window) % c.blockSize == 0
  {
    hide NBlocks, Ring;
    var bs := c.blockSize;
    NBlocksUnique(window, bs, 1);
    forall p: nat | len - window <= p < len
      ensures Seen(t, bs, len, window, p) <==> p % bs < window
    {
      SeenWithinBlock(t, c, len, window, p);
    }
    var a := len - window;
    var i, j := Place(a, bs);
    if j == 0 {
      forall p: nat | a <= p < len
        ensures p % bs < window
      {
        Shifted(i, p - a, bs);
        RemainderUnique(0, bs, p - a);
      }
    } else {
      var p := if j >= window then a else a + (window - j);
      Shifted(i, p - i * bs, bs);
      RemainderUnique(0, bs, p - i * bs);
      assert !Seen(t, bs, len, window, p);
    }
  }

  lemma SeenWithinBlock<B>(t: seq<B>, c: Config, len: nat, window: nat, p: nat)
    requires WindowFits(c, window) && Ring(t, c.window.value) && |t| == NBlocks(len, c.blockSize) && c.window.value == 1
    requires window < c.blockSize && len - window <= p < len && window < len
    ensures Seen(t, c.blockSize, len, window, p) <==> p % c.blockSize < window
  {
    hide NBlocks, Ring;
    var bs := c.blockSize;
    InTable(p, len, bs);
    ModSmall(0, 1);
    ModSmall(p / bs, 1);
    RingEqual(t, 1, 0, p / bs);
    if p % bs < window {
      assert SlotAt(DecodeTable(t, bs, window), bs, p % bs)
             == SlotAt(t, bs, p) by { RemainderUnique(0, bs, p % bs); QuotientUnique(0, bs, p % bs); }
    } else {
      forall q: nat | q < window
        ensures SlotAt(DecodeTable(t, bs, window), bs, q) != SlotAt(t, bs, p)
      {
        RemainderUnique(0, bs, q);
      }
    }
  }

  /** A window of 6 tokens in blocks of 4: with 5 tokens, decoding misses one. */
  lemma PartBlockWindowMisses()
    ensures !SeesWindow([0, 1], 4, 5, 6)
  {
    var c := Config(4, Some(2), 0);
    assert NBlocks(6, 4) == 1 + NBlocks(2, 4) && NBlocks(5, 4) == 1 + NBlocks(1, 4);
    assert Ring([0, 1], 2);
    SeesWindowIff([0, 1], c, 5, 6);
  }
}
