/** Where keys and values live in the paged cache, and the scatter that puts them there. */
module KvLayout {
  import opened Arith
  import Paging

  /** Heads, elements per head in `chunks` chunks of `x`, tokens per block. */
  datatype Geometry = Geometry(heads: nat, chunks: nat, x: nat, blockSize: nat)

  ghost predicate Sound(g: Geometry) {
    g.heads > 0 && g.chunks > 0 && g.x > 0 && g.blockSize > 0
  }

  function HeadSize(g: Geometry): nat {
    g.chunks * g.x
  }

  function BlockElems(g: Geometry): nat {
    g.heads * HeadSize(g) * g.blockSize
  }

  /** One element of the key, or the value, of one token in one head. */
  datatype Cell = Cell(block: nat, head: nat, offset: nat, elem: nat)

  ghost predicate Within(g: Geometry, blocks: nat, q: Cell) {
    q.block < blocks && q.head < g.heads && q.offset < g.blockSize && q.elem < HeadSize(g)
  }

  /** Position `b` of row `a`, with rows of length `n`. */
  function Index(a: nat, n: nat, b: nat): nat {
    a * n + b
  }

  lemma IndexWithin(a: nat, m: nat, n: nat, b: nat)
    requires a < m && b < n
    ensures Index(a, n, b) < m * n
  {
    StepsApart(a, m, n);
  }

  lemma IndexUnique(a: nat, b: nat, a': nat, b': nat, n: nat)
    requires b < n && b' < n && Index(a, n, b) == Index(a', n, b')
    ensures a == a' && b == b'
  {
    if a < a' {
      StepsApart(a, a', n);
    } else if a' < a {
      StepsApart(a', a, n);
    }
  }

  lemma Split(n: nat, x: nat)
    requires x > 0
    ensures n / x >= 0 && 0 <= n % x < x && n == Index(n / x, x, n % x)
  {
  }

  /** Keys: blocks of heads of chunks of tokens of `x` elements. */
  ghost function KeyAddr(g: Geometry, q: Cell): nat
    requires Sound(g)
  {
    Split(q.elem, g.x);
    Index(Index(Index(Index(q.block, g.heads, q.head), g.chunks, q.elem / g.x), g.blockSize, q.offset), g.x,
      q.elem % g.x)
  }

  /** Values: blocks of heads of elements of tokens. */
  ghost function ValueAddr(g: Geometry, q: Cell): nat {
    Index(Index(Index(q.block, g.heads, q.head), HeadSize(g), q.elem), g.blockSize, q.offset)
  }

  lemma ChunkOf(g: Geometry, elem: nat)
    requires Sound(g) && elem < HeadSize(g)
    ensures 0 <= elem / g.x < g.chunks && 0 <= elem % g.x < g.x
  {
  }

  /** Different elements never share an address. */
  lemma KeyAddrInjective(g: Geometry, blocks: nat, p: Cell, q: Cell)
    requires Sound(g) && Within(g, blocks, p) && Within(g, blocks, q) && KeyAddr(g, p) == KeyAddr(g, q)
    ensures p == q
  {
    hide Index;
    ChunkOf(g, p.elem);
    ChunkOf(g, q.elem);
    var p1, q1 := Index(p.block, g.heads, p.head), Index(q.block, g.heads, q.head);
    var p2, q2 := Index(p1, g.chunks, p.elem / g.x), Index(q1, g.chunks, q.elem / g.x);
    var p3, q3 := Index(p2, g.blockSize, p.offset), Index(q2, g.blockSize, q.offset);
    IndexUnique(p3, p.elem % g.x, q3, q.elem % g.x, g.x);
    IndexUnique(p2, p.offset, q2, q.offset, g.blockSize);
    IndexUnique(p1, p.elem / g.x, q1, q.elem / g.x, g.chunks);
    IndexUnique(p.block, p.head, q.block, q.head, g.heads);
    Split(p.elem, g.x);
    Split(q.elem, g.x);
  }

  lemma ValueAddrInjective(g: Geometry, blocks: nat, p: Cell, q: Cell)
    requires Sound(g) && Within(g, blocks, p) && Within(g, blocks, q) && ValueAddr(g, p) == ValueAddr(g, q)
    ensures p == q
  {
    hide Index, HeadSize;
    var p1, q1 := Index(p.block, g.heads, p.head), Index(q.block, g.heads, q.head);
    IndexUnique(Index(p1, HeadSize(g), p.elem), p.offset, Index(q1, HeadSize(g), q.elem), q.offset, g.blockSize);
    IndexUnique(p1, p.elem, q1, q.elem, HeadSize(g));
    IndexUnique(p.block, p.head, q.block, q.head, g.heads);
  }

  /** Every address is within the cache. */
  lemma KeyAddrWithin(g: Geometry, blocks: nat, q: Cell)
    requires Sound(g) && Within(g, blocks, q)
    ensures KeyAddr(g, q) < blocks * BlockElems(g)
  {
    hide Index;
    ChunkOf(g, q.elem);
    IndexWithin(q.block, blocks, g.heads, q.head);
    var q1 := Index(q.block, g.heads, q.head);
    IndexWithin(q1, blocks * g.heads, g.chunks, q.elem / g.x);
    var q2 := Index(q1, g.chunks, q.elem / g.x);
    IndexWithin(q2, blocks * g.heads * g.chunks, g.blockSize, q.offset);
    IndexWithin(Index(q2, g.blockSize, q.offset), blocks * g.heads * g.chunks * g.blockSize, g.x, q.elem % g.x);
    Regroup(blocks, g.heads, g.chunks, g.blockSize, g.x);
  }

  lemma Regroup(a: nat, b: nat, c: nat, d: nat, e: nat)
    ensures a * b * c * d * e == a * (b * (c * e) * d)
  {
  }

  lemma ValueAddrWithin(g: Geometry, blocks: nat, q: Cell)
    requires Sound(g) && Within(g, blocks, q)
    ensures ValueAddr(g, q) < blocks * BlockElems(g)
  {
    hide Index, HeadSize;
    IndexWithin(q.block, blocks, g.heads, q.head);
    var q1 := Index(q.block, g.heads, q.head);
    IndexWithin(q1, blocks * g.heads, HeadSize(g), q.elem);
    IndexWithin(Index(q1, HeadSize(g), q.elem), blocks * g.heads * HeadSize(g), g.blockSize, q.offset);
    assert blocks * g.heads * HeadSize(g) * g.blockSize == blocks * (g.heads * HeadSize(g) * g.blockSize);
  }

  /** The start of a head within a block, as the code computes it. */
  function HeadBase(g: Geometry, block: nat, head: nat): nat {
    BlockElems(g) * block + head * g.blockSize * HeadSize(g)
  }

  lemma HeadBaseIs(g: Geometry, block: nat, head: nat)
    ensures HeadBase(g, block, head) == Index(block, g.heads, head) * (HeadSize(g) * g.blockSize)
  {
  }

  /** The address of element `c * x + i` as the scatter and the QK kernel compute it. */
  lemma KeyAddrIs(g: Geometry, block: nat, head: nat, offset: nat, c: nat, i: nat)
    requires Sound(g) && c < g.chunks && i < g.x
    ensures KeyAddr(g, Cell(block, head, offset, c * g.x + i))
            == HeadBase(g, block, head) + (c * g.x) * g.blockSize + offset * g.x + i
  {
    hide HeadBase;
    Paging.QuotientUnique(c, g.x, i);
    Paging.RemainderUnique(c, g.x, i);
    HeadBaseIs(g, block, head);
    Expand(Index(block, g.heads, head), g.chunks, c, g.blockSize, offset, g.x, i);
  }

  lemma Expand(a: nat, n: nat, c: nat, m: nat, o: nat, x: nat, i: nat)
    ensures ((a * n + c) * m + o) * x + i == a * ((n * x) * m) + (c * x) * m + o * x + i
  {
  }

  lemma ValueAddrIs(g: Geometry, block: nat, head: nat, offset: nat, d: nat)
    ensures ValueAddr(g, Cell(block, head, offset, d)) == HeadBase(g, block, head) + d * g.blockSize + offset
  {
  }

  // ----- the cache as a table of cells

  datatype Kind = Keys | Values

  ghost function Addr(g: Geometry, kind: Kind, q: Cell): nat
    requires Sound(g)
  {
    if kind == Keys then KeyAddr(g, q) else ValueAddr(g, q)
  }

  lemma AddrWithin(g: Geometry, blocks: nat, kind: Kind, q: Cell)
    requires Sound(g) && Within(g, blocks, q)
    ensures Addr(g, kind, q) < blocks * BlockElems(g)
  {
    hide KeyAddr, ValueAddr, BlockElems;
    if kind == Keys {
      KeyAddrWithin(g, blocks, q);
    } else {
      ValueAddrWithin(g, blocks, q);
    }
  }

  lemma AddrInjective(g: Geometry, blocks: nat, kind: Kind, p: Cell, q: Cell)
    requires Sound(g) && Within(g, blocks, p) && Within(g, blocks, q) && p != q
    ensures Addr(g, kind, p) != Addr(g, kind, q)
  {
    hide KeyAddr, ValueAddr, Within;
    if Addr(g, kind, p) == Addr(g, kind, q) {
      if kind == Keys {
        KeyAddrInjective(g, blocks, p, q);
      } else {
        ValueAddrInjective(g, blocks, p, q);
      }
    }
  }

  /** The element that a cache holds for a cell. */
  ghost function At<T>(g: Geometry, blocks: nat, kind: Kind, cache: seq<T>, q: Cell): T
    requires Sound(g) && Within(g, blocks, q) && |cache| == blocks * BlockElems(g)
  {
    AddrWithin(g, blocks, kind, q);
    cache[Addr(g, kind, q)]
  }

  lemma StoreOne<T>(g: Geometry, blocks: nat, kind: Kind, cache: seq<T>, p: Cell, v: T)
    requires Sound(g) && |cache| == blocks * BlockElems(g) && Within(g, blocks, p)
    ensures Addr(g, kind, p) < |cache|
    ensures forall q :: Within(g, blocks, q) ==>
              At(g, blocks, kind, cache[Addr(g, kind, p) := v], q) == if q == p then v
                else At(g, blocks, kind, cache, q)
  {
    hide Addr, BlockElems, Within;
    AddrWithin(g, blocks, kind, p);
    forall q | Within(g, blocks, q)
      ensures At(g, blocks, kind, cache[Addr(g, kind, p) := v], q) == if q == p then v
              else At(g, blocks, kind, cache, q)
    {
      AddrWithin(g, blocks, kind, q);
      if q != p {
        AddrInjective(g, blocks, kind, p, q);
      }
    }
  }

  // ----- the scatter

  /** The first `n` elements of one token's head hold `src`, every other cell what it held before. */
  ghost predicate HeadWritten<T>(g: Geometry, blocks: nat, kind: Kind, was: seq<T>, now: seq<T>, p: Cell, src: seq<T>,
          n: nat)
    requires Sound(g) && |was| == |now| == blocks * BlockElems(g) && n <= |src|
  {
    forall q :: Within(g, blocks, q) ==>
      At(g, blocks, kind, now, q)
      == if q.block == p.block && q.head == p.head && q.offset == p.offset && q.elem < n then src[q.elem]
         else At(g, blocks, kind, was, q)
  }

  lemma WriteNext<T>(g: Geometry, blocks: nat, kind: Kind, was: seq<T>, now: seq<T>, p: Cell, src: seq<T>)
    requires Sound(g) && |was| == |now| == blocks * BlockElems(g) && |src| == HeadSize(g) && Within(g, blocks, p)
    requires HeadWritten(g, blocks, kind, was, now, p, src, p.elem)
    ensures Addr(g, kind, p) < |now|
    ensures HeadWritten(g, blocks, kind, was, now[Addr(g, kind, p) := src[p.elem]], p, src, p.elem + 1)
  {
    hide Addr, BlockElems, At, HeadSize;
    StoreOne(g, blocks, kind, now, p, src[p.elem]);
  }

  method WriteKeyHead<T>(g: Geometry, ghost blocks: nat, cache: array<T>, block: nat, head: nat, offset: nat,
          src: seq<T>)
    requires Sound(g) && cache.Length == blocks * BlockElems(g) && |src| == HeadSize(g)
    requires Within(g, blocks, Cell(block, head, offset, 0))
    modifies cache
    ensures HeadWritten(g, blocks, Keys, old(cache[..]), cache[..], Cell(block, head, offset, 0), src, HeadSize(g))
  {
    hide KeyAddr, BlockElems, HeadWritten, HeadBase;
    var base := HeadBase(g, block, head);
    ghost var was := cache[..];
    NothingWritten(g, blocks, Keys, was, Cell(block, head, offset, 0), src);
    for c := 0 to g.chunks
      invariant 0 <= c * g.x <= |src| && HeadWritten(g, blocks, Keys, was, cache[..], Cell(block, head, offset, 0),
                src, c * g.x)
    {
      StepsApart(c, g.chunks, g.x);
      MulStep(c, g.x);
      for i := 0 to g.x
        invariant HeadWritten(g, blocks, Keys, was, cache[..], Cell(block, head, offset, 0), src, c * g.x + i)
      {
        ghost var p := Cell(block, head, offset, c * g.x + i);
        KeyAddrIs(g, block, head, offset, c, i);
        SameHead(g, blocks, Keys, was, cache[..], Cell(block, head, offset, 0), p, src, c * g.x + i);
        WriteNext(g, blocks, Keys, was, cache[..], p, src);
        var at := base + (c * g.x) * g.blockSize + offset * g.x + i;
        ghost var now := cache[..];
        cache[at] := src[c * g.x + i];
        assert cache[..] == now[at := src[c * g.x + i]];
        SameHead(g, blocks, Keys, was, cache[..], p, Cell(block, head, offset, 0), src, c * g.x + i + 1);
      }
    }
  }

  lemma NothingWritten<T>(g: Geometry, blocks: nat, kind: Kind, was: seq<T>, p: Cell, src: seq<T>)
    requires Sound(g) && |was| == blocks * BlockElems(g)
    ensures HeadWritten(g, blocks, kind, was, was, p, src, 0)
  {
  }

  lemma SameHead<T>(g: Geometry, blocks: nat, kind: Kind, was: seq<T>, now: seq<T>, p: Cell, q: Cell, src: seq<T>,
          n: nat)
    requires Sound(g) && |was| == |now| == blocks * BlockElems(g) && n <= |src|
    requires HeadWritten(g, blocks, kind, was, now, p, src, n)
    requires q.block == p.block && q.head == p.head && q.offset == p.offset
    ensures HeadWritten(g, blocks, kind, was, now, q, src, n)
  {
  }

  method WriteValueHead<T>(g: Geometry, ghost blocks: nat, cache: array<T>, block: nat, head: nat, offset: nat,
          src: seq<T>)
    requires Sound(g) && cache.Length == blocks * BlockElems(g) && |src| == HeadSize(g)
    requires Within(g, blocks, Cell(block, head, offset, 0))
    modifies cache
    ensures HeadWritten(g, blocks, Values, old(cache[..]), cache[..], Cell(block, head, offset, 0), src, HeadSize(g))
  {
    hide ValueAddr, BlockElems, HeadWritten, HeadBase, HeadSize;
    var base := HeadBase(g, block, head);
    ghost var was := cache[..];
    NothingWritten(g, blocks, Values, was, Cell(block, head, offset, 0), src);
    for d := 0 to HeadSize(g)
      invariant HeadWritten(g, blocks, Values, was, cache[..], Cell(block, head, offset, 0), src, d)
    {
      ghost var p := Cell(block, head, offset, d);
      ValueAddrIs(g, block, head, offset, d);
      SameHead(g, blocks, Values, was, cache[..], Cell(block, head, offset, 0), p, src, d);
      WriteNext(g, blocks, Values, was, cache[..], p, src);
      var at := base + d * g.blockSize + offset;
      ghost var now := cache[..];
      cache[at] := src[d];
      assert cache[..] == now[at := src[d]];
      SameHead(g, blocks, Values, was, cache[..], p, Cell(block, head, offset, 0), src, d + 1);
    }
  }

  /** Tokens with heads of elements: row `t` starts at `t * stride`. */
  datatype Rows<T> = Rows(data: seq<T>, stride: nat)

  ghost predicate Holds<T>(g: Geometry, rows: Rows<T>, tokens: nat) {
    g.heads * HeadSize(g) <= rows.stride && |rows.data| == tokens * rows.stride
  }

  function Head<T>(g: Geometry, rows: Rows<T>, ghost tokens: nat, t: nat, h: nat): (r: seq<T>)
    requires Holds(g, rows, tokens) && t < tokens && h < g.heads
    ensures |r| == HeadSize(g)
  {
    HeadInRow(g, rows, tokens, t, h);
    rows.data[t * rows.stride + h * HeadSize(g)..t * rows.stride + h * HeadSize(g) + HeadSize(g)]
  }

  lemma HeadInRow<T>(g: Geometry, rows: Rows<T>, tokens: nat, t: nat, h: nat)
    requires Holds(g, rows, tokens) && t < tokens && h < g.heads
    ensures 0 <= t * rows.stride && 0 <= h * HeadSize(g)
            && t * rows.stride + h * HeadSize(g) + HeadSize(g) <= |rows.data|
  {
    StepsApart(t, tokens, rows.stride);
    StepsApart(h, g.heads, HeadSize(g));
  }

  /** The last of the first `n` tokens that goes to a slot, if any: negative slots go nowhere. */
  ghost function Writer(slots: seq<int>, n: nat, slot: nat): int
    requires n <= |slots|
  {
    if n == 0 then -1 else if slots[n - 1] == slot then n - 1 else Writer(slots, n - 1, slot)
  }

  lemma {:induction false} WriterRange(slots: seq<int>, n: nat, slot: nat)
    requires n <= |slots|
    ensures -1 <= Writer(slots, n, slot) < n
    ensures Writer(slots, n, slot) >= 0 ==> slots[Writer(slots, n, slot)] == slot
  {
    if n > 0 && slots[n - 1] != slot {
      WriterRange(slots, n - 1, slot);
    }
  }

  ghost predicate DistinctSlots(slots: seq<int>) {
    forall s, t :: 0 <= s < t < |slots| && slots[s] >= 0 ==> slots[s] != slots[t]
  }

  /** Tokens with slots of their own are the writers of those slots. */
  lemma {:induction false} WriterOf(slots: seq<int>, n: nat, t: nat)
    requires DistinctSlots(slots) && t < n <= |slots| && slots[t] >= 0
    ensures Writer(slots, n, slots[t]) == t
  {
    if t < n - 1 {
      WriterOf(slots, n - 1, t);
    }
  }

  function SlotBlock(g: Geometry, slot: nat): nat
    requires g.blockSize > 0
  {
    Split(slot, g.blockSize);
    slot / g.blockSize
  }

  function SlotOffset(g: Geometry, slot: nat): nat
    requires g.blockSize > 0
  {
    Split(slot, g.blockSize);
    slot % g.blockSize
  }

  ghost function SlotOf(g: Geometry, q: Cell): nat {
    Index(q.block, g.blockSize, q.offset)
  }

  /** What a cell holds after the first `n` tokens, or `n + 1` in the heads below `h`, were scattered. */
  ghost predicate Scattered<T>(g: Geometry, blocks: nat, kind: Kind, was: seq<T>, now: seq<T>, rows: Rows<T>,
          slots: seq<int>, n: nat, h: nat)
    requires Sound(g) && |was| == |now| == blocks * BlockElems(g) && Holds(g, rows, |slots|)
    requires n <= |slots| && (h > 0 ==> n < |slots|)
  {
    forall q :: Within(g, blocks, q) ==> CellScattered(g, blocks, kind, was, now, rows, slots, if q.head < h then n + 1
      else n, q)
  }

  ghost predicate CellScattered<T>(g: Geometry, blocks: nat, kind: Kind, was: seq<T>, now: seq<T>, rows: Rows<T>,
          slots: seq<int>, n: nat, q: Cell)
    requires Sound(g) && |was| == |now| == blocks * BlockElems(g) && Holds(g, rows, |slots|) && n <= |slots|
             && Within(g, blocks, q)
  {
    WriterRange(slots, n, SlotOf(g, q));
    var t := Writer(slots, n, SlotOf(g, q));
    At(g, blocks, kind, now, q) == if t >= 0 then Head(g, rows, |slots|, t, q.head)[q.elem]
      else At(g, blocks, kind, was, q)
  }

  /** One head of one more token. */
  lemma ScatterHead<T>(g: Geometry, blocks: nat, kind: Kind, was: seq<T>, now: seq<T>, now': seq<T>, rows: Rows<T>,
          slots: seq<int>, n: nat, h: nat)
    requires Sound(g) && |was| == |now| == |now'| == blocks * BlockElems(g) && Holds(g, rows, |slots|)
    requires n < |slots| && h < g.heads && Scattered(g, blocks, kind, was, now, rows, slots, n, h)
    requires if slots[n] < 0 then now' == now
             else HeadWritten(g, blocks, kind, now, now', Cell(SlotBlock(g, slots[n]), h, SlotOffset(g, slots[n]), 0),
                              Head(g, rows, |slots|, n, h), HeadSize(g))
    ensures Scattered(g, blocks, kind, was, now', rows, slots, n, h + 1)
  {
    hide At, BlockElems, HeadSize, Holds, Head, HeadWritten, SlotBlock, SlotOffset;
    forall q | Within(g, blocks, q)
      ensures CellScattered(g, blocks, kind, was, now', rows, slots, if q.head < h + 1 then n + 1 else n, q)
    {
      ScatterCell(g, blocks, kind, was, now, now', rows, slots, n, h, q);
    }
  }

  lemma ScatterCell<T>(g: Geometry, blocks: nat, kind: Kind, was: seq<T>, now: seq<T>, now': seq<T>, rows: Rows<T>,
          slots: seq<int>, n: nat, h: nat, q: Cell)
    requires Sound(g) && |was| == |now| == |now'| == blocks * BlockElems(g) && Holds(g, rows, |slots|)
    requires n < |slots| && h < g.heads && Within(g, blocks, q)
    requires CellScattered(g, blocks, kind, was, now, rows, slots, if q.head < h then n + 1 else n, q)
    requires if slots[n] < 0 then now' == now
             else HeadWritten(g, blocks, kind, now, now', Cell(SlotBlock(g, slots[n]), h, SlotOffset(g, slots[n]), 0),
                              Head(g, rows, |slots|, n, h), HeadSize(g))
    ensures CellScattered(g, blocks, kind, was, now', rows, slots, if q.head < h + 1 then n + 1 else n, q)
  {
    hide At, BlockElems, HeadSize, Holds, Head, SlotBlock, SlotOffset, SlotOf;
    WriterRange(slots, n, SlotOf(g, q));
    WriterRange(slots, n + 1, SlotOf(g, q));
    if slots[n] >= 0 {
      SlotIsCell(g, slots[n], q);
    }
  }

  lemma SlotIsCell(g: Geometry, slot: nat, q: Cell)
    requires Sound(g) && q.offset < g.blockSize
    ensures slot == SlotOf(g, q) <==> SlotBlock(g, slot) == q.block && SlotOffset(g, slot) == q.offset
  {
    hide Index;
    Split(slot, g.blockSize);
    if slot == SlotOf(g, q) {
      IndexUnique(SlotBlock(g, slot), SlotOffset(g, slot), q.block, q.offset, g.blockSize);
    }
  }

  ghost predicate SlotsWithin(g: Geometry, blocks: nat, slots: seq<int>) {
    forall t :: 0 <= t < |slots| ==> slots[t] < blocks * g.blockSize
  }

  lemma SlotWithin(g: Geometry, blocks: nat, slots: seq<int>, t: nat, h: nat)
    requires Sound(g) && SlotsWithin(g, blocks, slots) && t < |slots| && slots[t] >= 0 && h < g.heads
    ensures Within(g, blocks, Cell(SlotBlock(g, slots[t]), h, SlotOffset(g, slots[t]), 0))
  {
  }

  /** `reshape_and_cache`: every token's keys and values go to its slot; tokens without one are skipped. */
  method ReshapeAndCache<T>(g: Geometry, ghost blocks: nat, key: Rows<T>, value: Rows<T>, keyCache: array<T>,
          valueCache: array<T>, slots: seq<int>)
    requires Sound(g) && keyCache != valueCache
    requires keyCache.Length == blocks * BlockElems(g) && valueCache.Length == blocks * BlockElems(g)
    requires Holds(g, key, |slots|) && Holds(g, value, |slots|) && SlotsWithin(g, blocks, slots)
    modifies keyCache, valueCache
    ensures Scattered(g, blocks, Keys, old(keyCache[..]), keyCache[..], key, slots, |slots|, 0)
    ensures Scattered(g, blocks, Values, old(valueCache[..]), valueCache[..], value, slots, |slots|, 0)
  {
    hide BlockElems, HeadSize, Scattered, HeadWritten, Holds, Head, SlotsWithin, Within, SlotBlock, SlotOffset;
    ghost var k0, v0 := keyCache[..], valueCache[..];
    NothingScattered(g, blocks, Keys, k0, key, slots);
    NothingScattered(g, blocks, Values, v0, value, slots);
    for t := 0 to |slots|
      invariant Scattered(g, blocks, Keys, k0, keyCache[..], key, slots, t, 0)
      invariant Scattered(g, blocks, Values, v0, valueCache[..], value, slots, t, 0)
    {
      for h := 0 to g.heads
        invariant Scattered(g, blocks, Keys, k0, keyCache[..], key, slots, t, h)
        invariant Scattered(g, blocks, Values, v0, valueCache[..], value, slots, t, h)
      {
        ghost var k1, v1 := keyCache[..], valueCache[..];
        var slot := slots[t];
        if slot >= 0 {
          SlotWithin(g, blocks, slots, t, h);
          var block, offset := SlotBlock(g, slot), SlotOffset(g, slot);
          WriteKeyHead(g, blocks, keyCache, block, h, offset, Head(g, key, |slots|, t, h));
          WriteValueHead(g, blocks, valueCache, block, h, offset, Head(g, value, |slots|, t, h));
        }
        ScatterHead(g, blocks, Keys, k0, k1, keyCache[..], key, slots, t, h);
        ScatterHead(g, blocks, Values, v0, v1, valueCache[..], value, slots, t, h);
      }
      TokenScattered(g, blocks, Keys, k0, keyCache[..], key, slots, t);
      TokenScattered(g, blocks, Values, v0, valueCache[..], value, slots, t);
    }
  }

  lemma NothingScattered<T>(g: Geometry, blocks: nat, kind: Kind, was: seq<T>, rows: Rows<T>, slots: seq<int>)
    requires Sound(g) && |was| == blocks * BlockElems(g) && Holds(g, rows, |slots|)
    ensures Scattered(g, blocks, kind, was, was, rows, slots, 0, 0)
  {
  }

  lemma TokenScattered<T>(g: Geometry, blocks: nat, kind: Kind, was: seq<T>, now: seq<T>, rows: Rows<T>,
          slots: seq<int>, n: nat)
    requires Sound(g) && |was| == |now| == blocks * BlockElems(g) && Holds(g, rows, |slots|) && n < |slots|
    requires Scattered(g, blocks, kind, was, now, rows, slots, n, g.heads)
    ensures Scattered(g, blocks, kind, was, now, rows, slots, n + 1, 0)
  {
  }

  /** Round trip: the cell of a token's slot holds that token, if no other token has the slot. */
  lemma ScatterRoundTrip<T>(g: Geometry, blocks: nat, kind: Kind, was: seq<T>, now: seq<T>, rows: Rows<T>,
          slots: seq<int>, t: nat, h: nat, d: nat)
    requires Sound(g) && |was| == |now| == blocks * BlockElems(g) && Holds(g, rows, |slots|)
             && SlotsWithin(g, blocks, slots)
    requires Scattered(g, blocks, kind, was, now, rows, slots, |slots|, 0) && DistinctSlots(slots)
    requires t < |slots| && slots[t] >= 0 && h < g.heads && d < HeadSize(g)
    ensures var q := Cell(SlotBlock(g, slots[t]), h, SlotOffset(g, slots[t]), d);
            Within(g, blocks, q) && At(g, blocks, kind, now, q) == Head(g, rows, |slots|, t, h)[d]
  {
    hide BlockElems, HeadSize, Holds, At, Head;
    SlotWithin(g, blocks, slots, t, h);
    var q := Cell(SlotBlock(g, slots[t]), h, SlotOffset(g, slots[t]), d);
    SlotIsCell(g, slots[t], q);
    WriterOf(slots, |slots|, t);
    assert CellScattered(g, blocks, kind, was, now, rows, slots, |slots|, q);
  }
}
