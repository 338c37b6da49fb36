/**
 * Steps of the caching manager, from runs of it, in which the order of the copies matters, and in
 * which it does not.
 */
module CopyOrder {
  import opened Wrappers
  import opened Holding
  import opened OrderedDict
  import opened Evictor
  import opened CachedAllocator
  import opened Copying
  import opened PrefixCache
  import opened PrefixAppend
  import opened PrefixRuns
  import opened PrefixSteps
  import opened PrefixCopies

  /** Blocks of two tokens, and prompts of one. */
  const BLOCKS: seq<int> := [0, 1, 2, 3, 4]

  function Prompt(t: Token): SeqData {
    SeqData([t], [], 0)
  }

  function Partial(t: Token): Key {
    Content([t], Some([]), 0)
  }

  function Full(t: Token, o: Token): Key {
    Content([t], Some([o]), 0)
  }

  function Block(k: Key, refs: nat): Info {
    Info(k, refs, 2, DEFAULT_LAST_ACCESSED_TIME)
  }

  lemma PromptKeys(t: Token, o: Token)
    ensures NBlocks(Prompt(t), 2) == NBlocks(Grown(Prompt(t), o), 2) == 1 && BlockEnd(0, 2) == 2
    ensures HashOfBlock(Prompt(t), 0, 2) == Partial(t) && HashOfBlock(Grown(Prompt(t), o), 0, 2) == Full(t, o)
    ensures LastBlockFull(Grown(Prompt(t), o), 2)
  {
    assert [] + [o] == [o];
  }

  // ----- one operation

  function NewPrompt(s: CState<int>, id: nat, t: Token): CState<int> {
    if s.gpu.current < |s.gpu.all| then
      var b := s.gpu.all[s.gpu.current];
      CState(s.gpu.(current := s.gpu.current + 1, info := s.gpu.info[b := Block(Partial(t), 1)],
        cached := s.gpu.cached[Partial(t) := b]),
             s.tables[id := [b]])
    else s
  }

  lemma AllocateNew(s: CState<int>, id: nat, t: Token)
    requires s.gpu.current < |s.gpu.all| && !Contains(s.gpu, Partial(t))
    ensures Allocate(s, 2, id, Prompt(t)) == Ok(NewPrompt(s, id, t))
  {
    hide NBlocks, PrefixKey, BlockEnd;
    PromptKeys(t, 0);
    var p, b, k := s.gpu, s.gpu.all[s.gpu.current], Partial(t);
    var q := NewPrompt(s, id, t).gpu;
    assert p.info[b := Block(k, 0)][b := Block(k, 1)] == q.info;
    assert Acquire(p, Some(k), 2) == Ok((q, b));
    assert AllocateTable(q, Prompt(t), 2, [b]) == Ok((q, [b]));
    assert [] + [b] == [b];
  }

  function SamePrompt(s: CState<int>, id: nat, b: int): CState<int> {
    if b in s.gpu.info then
      CState(s.gpu.(info := s.gpu.info[b := s.gpu.info[b].(refs := s.gpu.info[b].refs + 1)]), s.tables[id := [b]])
    else s
  }

  lemma AllocateSame(s: CState<int>, id: nat, t: Token, b: int)
    requires Partial(t) in s.gpu.cached && s.gpu.cached[Partial(t)] == b && !Has(s.gpu.table, Partial(t))
    requires b in s.gpu.info && s.gpu.info[b].key == Partial(t)
    ensures Allocate(s, 2, id, Prompt(t)) == Ok(SamePrompt(s, id, b))
  {
    hide NBlocks, PrefixKey, BlockEnd;
    PromptKeys(t, 0);
    var q := SamePrompt(s, id, b).gpu;
    assert Acquire(s.gpu, Some(Partial(t)), 2) == Ok((q, b));
    assert AllocateTable(q, Prompt(t), 2, [b]) == Ok((q, [b]));
    assert [] + [b] == [b];
  }

  /** The second token fills a block that two sequences share: it is copied to block `b`. */
  lemma AppendCopies(s: CState<int>, id: nat, t: Token, o: Token, last: int, p: CPool<int>, b: int)
    requires id in s.tables && s.tables[id] == [last] && last in s.gpu.info && s.gpu.info[last].refs == 2
    requires !Contains(s.gpu, Full(t, o)) && AllocateBlock(s.gpu, Full(t, o), 2) == Ok((p, b))
    requires last in p.info && p.info[last] == s.gpu.info[last] && b != last && b in p.info && p.info[b].refs == 0
    ensures var q := p.(info := p.info[b := p.info[b].(refs := 1)][last := p.info[last].(refs := 1)],
            cached := p.cached[Full(t, o) := b]);
            AppendSlots(s, 2, id, Grown(Prompt(t), o)) == Ok((CState(q, s.tables[id := [b]]), [(last, b)]))
  {
    hide NBlocks, PrefixKey, BlockEnd, LastBlockFull, AllocateBlock, Contains, Grown;
    PromptKeys(t, o);
    assert AllocateLast(s.gpu, Grown(Prompt(t), o), 2)
        == Ok((p.(cached := p.cached[Full(t, o) := b], info := p.info[b := p.info[b].(refs := 1)]), b)) by {
      assert Acquire(s.gpu, Some(Full(t, o)), 2)
          == Ok((p.(cached := p.cached[Full(t, o) := b], info := p.info[b := p.info[b].(refs := 1)]),
            b)) by { NotContained(s.gpu, Full(t, o)); }
    }
    assert [last][..0] + [b] == [b];
  }

  lemma NotContained(p: CPool<int>, k: Key)
    requires !Contains(p, k)
    ensures !Has(p.table, k) && k !in p.cached
  {
  }

  /** The second token fills a block of its own, whose content block `b` has already: it gives way to `b`. */
  lemma AppendGivesWay(s: CState<int>, id: nat, t: Token, o: Token, last: int, b: int)
    requires id in s.tables && s.tables[id] == [last] && last in s.gpu.info && s.gpu.info[last].refs == 1 && b != last
    requires Full(t, o) in s.gpu.cached && s.gpu.cached[Full(t, o)] == b && b in s.gpu.info
             && s.gpu.info[b].key == Full(t, o)
    requires s.gpu.info[last].key in s.gpu.cached && s.gpu.info[last].key != Full(t, o)
    requires !Has(s.gpu.table, s.gpu.info[last].key) && !Has(s.gpu.table, Full(t, o))
    ensures var p, k := s.gpu, s.gpu.info[last].key;
            var q := p.(info := p.info[last := p.info[last].(refs := 0)][b := p.info[b].(refs := p.info[b].refs + 1)],
                        table := p.table + [(k, last)], cached := p.cached - {k});
            AppendSlots(s, 2, id, Grown(Prompt(t), o)) == Ok((CState(q, s.tables[id := [b]]), []))
  {
    hide NBlocks, PrefixKey, BlockEnd, LastBlockFull, Grown;
    PromptKeys(t, o);
    var p, k := s.gpu, s.gpu.info[last].key;
    var r := p.(info := p.info[last := p.info[last].(refs := 0)], table := p.table + [(k, last)],
        cached := p.cached - {k});
    assert Release(p, last) == Ok(r);
    assert !Has(r.table, Full(t, o));
    var q := r.(info := r.info[b := p.info[b].(refs := p.info[b].refs + 1)]);
    assert Acquire(r, Some(Full(t, o)), 0) == Ok((q, b));
    assert Promote(p, Grown(Prompt(t), o), 2, last) == Ok((q, b));
    assert [last][..0] + [b] == [b];
  }

  // ----- two sequences with each of three prompts

  /** One block for each of the sequences 1 to 6. */
  function Tables(t: seq<int>): map<nat, seq<int>>
    requires |t| == 6
  {
    map[1 := [t[0]], 2 := [t[1]], 3 := [t[2]], 4 := [t[3]], 5 := [t[4]], 6 := [t[5]]]
  }

  lemma TableOf(t: seq<int>, id: nat, b: int)
    requires |t| == 6 && 1 <= id <= 6
    ensures id in Tables(t) && Tables(t)[id] == [t[id - 1]] && Tables(t)[id := [b]] == Tables(t[id - 1 := b])
  {
  }

  /** The first `n` prompts are there, each of two sequences. */
  function Prompted(n: nat): CState<int> {
    if n == 0 then CState(CPool(BLOCKS, 0, map[], map[], [], 0), map[])
    else if n == 1 then
      CState(CPool(BLOCKS, 1, map[0 := Block(Partial(11), 2)], map[Partial(11) := 0], [], 0), map[1 := [0], 2 := [0]])
    else if n == 2 then
      CState(CPool(BLOCKS, 2, map[0 := Block(Partial(11), 2), 1 := Block(Partial(12), 2)],
        map[Partial(11) := 0, Partial(12) := 1], [], 0),
             map[1 := [0], 2 := [0], 3 := [1], 4 := [1]])
    else
      CState(CPool(BLOCKS, 3, map[0 := Block(Partial(11), 2), 1 := Block(Partial(12), 2), 2 := Block(Partial(13), 2)],
                   map[Partial(11) := 0, Partial(12) := 1, Partial(13) := 2], [], 0),
             Tables([0, 0, 1, 1, 2, 2]))
  }

  lemma TwoUses(n: nat)
    requires n < 3
    ensures Prompted(n).gpu.info[n := Block(Partial(11 + n), 1)][n := Block(Partial(11 + n), 2)]
            == Prompted(n + 1).gpu.info
  {
    hide Partial;
  }

  lemma TwoTables(n: nat)
    requires n < 3
    ensures Prompted(n).tables[2 * n + 1 := [n]][2 * n + 2 := [n]] == Prompted(n + 1).tables
  {
  }

  lemma PromptTwice(n: nat)
    requires n < 3
    ensures var s := Allocate(Prompted(n), 2, 2 * n + 1, Prompt(11 + n));
            && s.Ok? && s.value.tables.Keys == Prompted(n).tables.Keys + {2 * n + 1}
            && Allocate(s.value, 2, 2 * n + 2, Prompt(11 + n)) == Ok(Prompted(n + 1))
  {
    hide Allocate, Partial;
    KeysDiffer();
    var s, t := Prompted(n), 11 + n;
    AllocateNew(s, 2 * n + 1, t);
    var r := NewPrompt(s, 2 * n + 1, t);
    assert r.gpu.info[n] == Block(Partial(t), 1);
    AllocateSame(r, 2 * n + 2, t, n);
    var r', s' := SamePrompt(r, 2 * n + 2, n), Prompted(n + 1);
    TwoUses(n);
    TwoTables(n);
    assert r'.gpu.cached == s'.gpu.cached;
  }

  // ----- and a second token for the first five

  /** After `n` of the appends of 7, 7, 8, 8 and 9 to the sequences 1 to 5. */
  function Appended(n: nat): CState<int> {
    var k11, k12, k13, f11, f12, f13 := Partial(11), Partial(12), Partial(13), Full(11, 7), Full(12, 8), Full(13, 9);
    if n == 0 then Prompted(3)
    else if n == 1 then
      CState(CPool(BLOCKS, 4, map[0 := Block(k11, 1), 1 := Block(k12, 2), 2 := Block(k13, 2), 3 := Block(f11, 1)],
                   map[k11 := 0, k12 := 1, k13 := 2, f11 := 3], [], 0),
             Tables([3, 0, 1, 1, 2, 2]))
    else if n == 2 then
      CState(CPool(BLOCKS, 4, map[0 := Block(k11, 0), 1 := Block(k12, 2), 2 := Block(k13, 2), 3 := Block(f11, 2)],
                   map[k12 := 1, k13 := 2, f11 := 3], [(k11, 0)], 0),
             Tables([3, 3, 1, 1, 2, 2]))
    else if n == 3 then
      CState(CPool(BLOCKS, 5, map[0 := Block(k11, 0), 1 := Block(k12, 1), 2 := Block(k13, 2), 3 := Block(f11, 2),
        4 := Block(f12, 1)],
                   map[k12 := 1, k13 := 2, f11 := 3, f12 := 4], [(k11, 0)], 0),
             Tables([3, 3, 4, 1, 2, 2]))
    else if n == 4 then
      CState(CPool(BLOCKS, 5, map[0 := Block(k11, 0), 1 := Block(k12, 0), 2 := Block(k13, 2), 3 := Block(f11, 2),
        4 := Block(f12, 2)],
                   map[k13 := 2, f11 := 3, f12 := 4], [(k11, 0), (k12, 1)], 0),
             Tables([3, 3, 4, 4, 2, 2]))
    else
      CState(CPool(BLOCKS, 5, map[0 := Block(f13, 1), 1 := Block(k12, 0), 2 := Block(k13, 1), 3 := Block(f11, 2),
        4 := Block(f12, 2)],
                   map[k13 := 2, f11 := 3, f12 := 4, f13 := 0], [(k12, 1)], 0),
             Tables([3, 3, 4, 4, 0, 2]))
  }

  const NEWS: News := [(1, 7), (2, 7), (3, 8), (4, 8), (5, 9)]

  function Asked(n: nat): Pairs<int> {
    if n == 0 then [] else if n < 3 then [(0, 3)] else if n < 5 then [(0, 3), (1, 4)] else [(0, 3), (1, 4), (2, 0)]
  }

  lemma NextCreated(p: CPool<int>, k: Key)
    requires p.current < |p.all|
    ensures var b := p.all[p.current];
            AllocateBlock(p, k, 2) == Ok((p.(current := p.current + 1, info := p.info[b := Block(k, 0)]), b))
  {
  }

  lemma KeysDiffer()
    ensures var k11, k12, k13, f11, f12, f13 := Partial(11), Partial(12), Partial(13), Full(11, 7), Full(12, 8),
            Full(13, 9);
            && k11 != k12 && k11 != k13 && k11 != f11 && k11 != f12 && k11 != f13 && k12 != k13 && k12 != f11
              && k12 != f12
            && k12 != f13 && k13 != f11 && k13 != f12 && k13 != f13 && f11 != f12 && f11 != f13 && f12 != f13
  {
    assert [11 as Token] != [12] && [11 as Token] != [13] && [12 as Token] != [13];
    assert [7 as Token] != [] && [8 as Token] != [] && [9 as Token] != [];
  }

  lemma AppendFirst()
    ensures AppendSlots(Appended(0), 2, 1, Grown(Prompt(11), 7)) == Ok((Appended(1), [(0, 3)]))
  {
    hide AppendSlots, AllocateBlock, Partial, Full, Tables;
    KeysDiffer();
    TableOf([0, 0, 1, 1, 2, 2], 1, 3);
    var s, s', k := Appended(0), Appended(1), Full(11, 7);
    var p := s.gpu.(current := 4, info := s.gpu.info[3 := Block(k, 0)]);
    NextCreated(s.gpu, k);
    AppendCopies(s, 1, 11, 7, 0, p, 3);
    assert p.info[3 := Block(k, 1)][0 := Block(Partial(11), 1)] == s'.gpu.info;
    assert s.gpu.cached[k := 3] == s'.gpu.cached && [0, 0, 1, 1, 2, 2][0 := 3] == [3, 0, 1, 1, 2, 2];
  }

  lemma AppendSecond()
    ensures AppendSlots(Appended(1), 2, 2, Grown(Prompt(11), 7)) == Ok((Appended(2), []))
  {
    hide AppendSlots, Partial, Full, Tables;
    KeysDiffer();
    TableOf([3, 0, 1, 1, 2, 2], 2, 3);
    var s, s' := Appended(1), Appended(2);
    AppendGivesWay(s, 2, 11, 7, 0, 3);
    assert s.gpu.info[0 := Block(Partial(11), 0)][3 := Block(Full(11, 7), 2)] == s'.gpu.info;
    assert s.gpu.cached - {Partial(11)} == s'.gpu.cached && [] + [(Partial(11), 0)] == s'.gpu.table;
    assert [3, 0, 1, 1, 2, 2][1 := 3] == [3, 3, 1, 1, 2, 2];
  }

  lemma AppendThird()
    ensures AppendSlots(Appended(2), 2, 3, Grown(Prompt(12), 8)) == Ok((Appended(3), [(1, 4)]))
  {
    hide AppendSlots, AllocateBlock, Partial, Full, Tables;
    KeysDiffer();
    TableOf([3, 3, 1, 1, 2, 2], 3, 4);
    var s, s', k := Appended(2), Appended(3), Full(12, 8);
    var p := s.gpu.(current := 5, info := s.gpu.info[4 := Block(k, 0)]);
    NextCreated(s.gpu, k);
    AppendCopies(s, 3, 12, 8, 1, p, 4);
    assert p.info[4 := Block(k, 1)][1 := Block(Partial(12), 1)] == s'.gpu.info;
    assert s.gpu.cached[k := 4] == s'.gpu.cached && [3, 3, 1, 1, 2, 2][2 := 4] == [3, 3, 4, 1, 2, 2];
  }

  lemma AppendFourth()
    ensures AppendSlots(Appended(3), 2, 4, Grown(Prompt(12), 8)) == Ok((Appended(4), []))
  {
    hide AppendSlots, Partial, Full, Tables;
    KeysDiffer();
    TableOf([3, 3, 4, 1, 2, 2], 4, 4);
    var s, s' := Appended(3), Appended(4);
    AppendGivesWay(s, 4, 12, 8, 1, 4);
    assert s.gpu.info[1 := Block(Partial(12), 0)][4 := Block(Full(12, 8), 2)] == s'.gpu.info;
    assert s.gpu.cached - {Partial(12)} == s'.gpu.cached && [(Partial(11), 0)] + [(Partial(12), 1)] == s'.gpu.table;
    assert [3, 3, 4, 1, 2, 2][3 := 4] == [3, 3, 4, 4, 2, 2];
  }

  lemma FirstEvicted(p: CPool<int>, k: Key)
    requires p.current == |p.all| && p.table == [(Partial(11), 0), (Partial(12), 1)]
    requires 0 in p.info && p.info[0] == Block(Partial(11), 0) && 1 in p.info && p.info[1] == Block(Partial(12), 0)
    ensures AllocateBlock(p, k, 2) == Ok((p.(table := [(Partial(12), 1)], info := p.info[0 := Block(k, 0)]), 0))
  {
    var t := p.table;
    assert Scan(t, p.info, 0, 0) == Scan(t, p.info, 0, 1) == Scan(t, p.info, 0, 2) == 0;
    assert Without(t, 0) == [(Partial(12), 1)];
  }

  lemma FifthInfo()
    ensures var k := Full(13, 9);
            Appended(4).gpu.info[0 := Block(k, 0)][0 := Block(k, 1)][2 := Block(Partial(13), 1)] == Appended(5).gpu.info
  {
    hide Partial, Full, Tables;
  }

  /** No block is new any more: block 0, which the second append gave up, is evicted. */
  lemma AppendFifth()
    ensures AppendSlots(Appended(4), 2, 5, Grown(Prompt(13), 9)) == Ok((Appended(5), [(2, 0)]))
  {
    hide AppendSlots, AllocateBlock, Partial, Full, Tables;
    KeysDiffer();
    TableOf([3, 3, 4, 4, 2, 2], 5, 0);
    var s, s', k := Appended(4), Appended(5), Full(13, 9);
    var p := s.gpu.(table := [(Partial(12), 1)], info := s.gpu.info[0 := Block(k, 0)]);
    FirstEvicted(s.gpu, k);
    AppendCopies(s, 5, 13, 9, 2, p, 0);
    FifthInfo();
    assert s.gpu.cached[k := 0] == s'.gpu.cached && [3, 3, 4, 4, 2, 2][4 := 0] == [3, 3, 4, 4, 0, 2];
  }

  // ----- the run and the step

  const OPS: seq<Op<int>> := [
    OpAllocate(1, Prompt(11)), OpAllocate(2, Prompt(11)), OpAllocate(3, Prompt(12)), OpAllocate(4, Prompt(12)),
    OpAllocate(5, Prompt(13)), OpAllocate(6, Prompt(13))]

  function PromptOf(id: nat): SeqData {
    Prompt(if id <= 2 then 11 else if id <= 4 then 12 else 13)
  }

  ghost predicate HasPrompts<V>(w: World<int, V>, lo: nat, hi: nat) {
    forall id: nat :: lo <= id <= hi ==> id in w.data && w.data[id] == PromptOf(id)
  }

  lemma RunFrom<V>(w: World<int, V>, kv: Kv<V>, n: nat)
    requires n <= 3 && w.mgr == Prompted(n) && HasPrompts(w, 1, 2 * n)
    ensures Scheduled(w, kv, 2, OPS[2 * n..])
    ensures var r := Run(w, kv, 2, OPS[2 * n..]); r.Ok? && r.value.mgr == Prompted(3) && HasPrompts(r.value, 1, 6)
    decreases 3 - n
  {
    hide Allocate, AllocateWorld, Prompted, Run, Scheduled;
    if n == 3 {
      assert OPS[6..] == [];
      NothingRun(w, kv);
    } else {
      var w1, w2 := TwoOps(w, kv, n);
      RunFrom(w2, kv, n + 1);
      var ops := OPS[2 * n..];
      assert ops[0] == OPS[2 * n] && ops[1] == OPS[2 * n + 1] && ops[2..] == OPS[2 * (n + 1)..];
      RunTwo(w, w1, w2, kv, ops);
    }
  }

  lemma NothingRun<V>(w: World<int, V>, kv: Kv<V>)
    ensures Scheduled(w, kv, 2, []) && Run(w, kv, 2, []) == Ok(w)
  {
  }

  lemma RunTwo<V>(w: World<int, V>, w1: World<int, V>, w2: World<int, V>, kv: Kv<V>, ops: seq<Op<int>>)
    requires |ops| >= 2 && Enabled(w, ops[0]) && Step(w, kv, 2, ops[0]) == Ok(w1)
    requires Enabled(w1, ops[1]) && Step(w1, kv, 2, ops[1]) == Ok(w2) && Scheduled(w2, kv, 2, ops[2..])
    ensures Scheduled(w, kv, 2, ops) && Run(w, kv, 2, ops) == Run(w2, kv, 2, ops[2..])
  {
    hide Enabled, Step;
    assert ops[1..][0] == ops[1] && ops[1..][1..] == ops[2..];
    assert Scheduled(w1, kv, 2, ops[1..]);
  }

  lemma PromptedTables(n: nat)
    requires n <= 3
    ensures forall id: nat :: id in Prompted(n).tables <==> 1 <= id <= 2 * n
  {
  }

  lemma TwoOps<V>(w: World<int, V>, kv: Kv<V>, n: nat) returns (w1: World<int, V>, w2: World<int, V>)
    requires n < 3 && w.mgr == Prompted(n) && HasPrompts(w, 1, 2 * n)
    ensures Enabled(w, OPS[2 * n]) && Step(w, kv, 2, OPS[2 * n]) == Ok(w1)
    ensures Enabled(w1, OPS[2 * n + 1]) && Step(w1, kv, 2, OPS[2 * n + 1]) == Ok(w2)
    ensures w2.mgr == Prompted(n + 1) && HasPrompts(w2, 1, 2 * (n + 1))
  {
    hide Allocate, PromptStore, Prompted, Prompt;
    var d, id := Prompt(11 + n), 2 * n + 1;
    PromptTwice(n);
    PromptedTables(n);
    w1 := AllocateWorld(w, kv, 2, id, d, Allocate(w.mgr, 2, id, d).value);
    w2 := AllocateWorld(w1, kv, 2, id + 1, d, Prompted(n + 1));
    assert OPS[2 * n] == OpAllocate(id, d) && OPS[2 * n + 1] == OpAllocate(id + 1, d);
    assert id !in w.mgr.tables && id + 1 !in w1.mgr.tables;
  }

  lemma AppendNth(n: nat)
    requires n < 5
    ensures NEWS[n].0 == n + 1 && n + 1 in Appended(n).tables && NumFree(Appended(n).gpu) > 0
    ensures var r := AppendSlots(Appended(n), 2, n + 1, Grown(PromptOf(n + 1), NEWS[n].1));
            r.Ok? && r.value.0 == Appended(n + 1) && Asked(n) + r.value.1 == Asked(n + 1)
  {
    hide AppendSlots;
    AppendFirst();
    AppendSecond();
    AppendThird();
    AppendFourth();
    AppendFifth();
  }

  /** The first `n` sequences have their second token, the others their prompt. */
  ghost predicate Halfway<V>(u: World<int, V>, n: nat)
    requires n <= 5
  {
    && HasPrompts(u, n + 1, 6)
    && forall id: nat :: 1 <= id <= n ==> id in u.data && u.data[id] == Grown(PromptOf(id), NEWS[id - 1].1)
  }

  lemma {:induction false} StepUpTo<V>(w: World<int, V>, kv: Kv<V>, n: nat)
    requires n <= 5 && w.mgr == Prompted(3) && HasPrompts(w, 1, 6)
    ensures var r := StepAll(w, kv, 2, NEWS[..n]);
            r.Ok? && r.value.0.mgr == Appended(n) && r.value.1 == Asked(n) && Halfway(r.value.0, n)
  {
    hide AppendSlots, Appended, Prompted, Grown, AppendWorld, PromptOf, Asked, StepAll;
    if n == 0 {
      assert NEWS[..0] == [];
      NoneAppended(w, kv);
    } else {
      StepUpTo(w, kv, n - 1);
      var (u, pairs) := StepAll(w, kv, 2, NEWS[..n - 1]).value;
      assert NEWS[..n][..n - 1] == NEWS[..n - 1] && NEWS[..n][n - 1] == NEWS[n - 1];
      AppendNth(n - 1);
      assert n in u.data && u.data[n] == PromptOf(n);
      OneMore(w, kv, NEWS[..n]);
    }
  }

  lemma OneMore<V>(w: World<int, V>, kv: Kv<V>, news: News)
    requires news != [] && StepAll(w, kv, 2, news[..|news| - 1]).Ok?
    requires var u, (id, token) := StepAll(w, kv, 2, news[..|news| - 1]).value.0, news[|news| - 1];
             id in u.mgr.tables && id in u.data && AppendSlots(u.mgr, 2, id, Grown(u.data[id], token)).Ok?
    ensures var (u, pairs) := StepAll(w, kv, 2, news[..|news| - 1]).value;
            var (id, token) := news[|news| - 1];
            var (s, more) := AppendSlots(u.mgr, 2, id, Grown(u.data[id], token)).value;
            var r := StepAll(w, kv, 2, news);
            r.Ok? && r.value.1 == pairs + more && r.value.0.mgr == s
              && r.value.0.data == u.data[id := Grown(u.data[id], token)]
  {
    hide AppendSlots, Grown, SequentialCopy;
  }

  lemma NoneAppended<V>(w: World<int, V>, kv: Kv<V>)
    ensures Appended(0) == Prompted(3) && Asked(0) == [] && StepAll(w, kv, 2, []) == Ok((w, []))
  {
  }

  const LATE: Pairs<int> := [(2, 0), (0, 3), (1, 4)]

  lemma LateIsFirstThen()
    ensures FirstThen([(0, 3), (1, 4), (2, 0)], 2, 0) == LATE
  {
    hide DecidedBy;
    assert Dropped([(0, 3), (1, 4), (2, 0)], 2) == [(0, 3), (1, 4)];
    AlreadyDecided();
  }

  lemma AlreadyDecided()
    ensures DecidedBy([(0, 3), (1, 4)], 0) == [(0, 3), (1, 4)]
  {
    assert Dropped([(0, 3), (1, 4)], 0) == [(1, 4)];
    OneToward((1, 4), 3);
  }

  lemma OneToward(p: (int, int), z: int)
    requires p.1 != z
    ensures Toward([p], z, true) == [] && Toward([p], z, false) == [p]
  {
    assert [p][..0] == [];
  }

  ghost predicate FreeBefore<V>(w: World<int, V>, kv: Kv<V>, i: nat)
    requires i < 5
  {
    var r := StepAll(w, kv, 2, NEWS[..i]);
    r.Ok? && NumFree(r.value.0.mgr.gpu) > 0
  }

  /** Before the step, the block of a prompt holds its entry. */
  lemma PromptEntry<V>(w: World<int, V>, kv: Kv<V>, id: nat, b: int, t: Token)
    requires Inv(w, kv, 2) && id in w.mgr.tables && w.mgr.tables[id] == [b] && id in w.data && w.data[id] == Prompt(t)
    ensures b in w.store && |w.store[b]| == 2 && w.store[b][0] == kv(0, [t])
  {
    hide Inv;
    LastHolds(w, kv, 2, id);
    InvParts(w, kv, 2);
    assert ([t] + [])[..1] == [t];
  }

  lemma OwnBlocks()
    ensures forall id :: 1 <= id <= 2 ==> id in Prompted(3).tables && Prompted(3).tables[id] == [0]
    ensures forall id :: 1 <= id <= 2 ==> id in Appended(5).tables && Appended(5).tables[id] == [3]
  {
  }

  lemma CopiedForFirst<V>(w: World<int, V>, u: World<int, V>, kv: Kv<V>, k: nat)
    requires k < 2 && Inv(w, kv, 2) && w.mgr == Prompted(3) && HasPrompts(w, 1, 6) && u.mgr == Appended(5)
             && Halfway(u, 5)
    ensures CopiedFor(w, u, kv, 2, NEWS, (0, 3), k)
  {
    hide Inv, Holds, Appended, Prompted;
    OwnBlocks();
    LastHolds(w, kv, 2, k + 1);
    assert ([11] + [7])[..1] == [11] + [];
  }

  /**
   * Six sequences are allocated, two for each of three prompts, and the first five take a token, with a
   * free block before each append. Two appends fill blocks by copying them, each is followed by one whose
   * block gives way to the copy, and the last append evicts the block 0 given up by the second and copies
   * to it. Carried out in that order, the copies are right. With the last one first, both sequences of
   * the prompt 11 read the entry of the prompt 13.
   */
  lemma LastCopyFirstReadsWrong<V>(store: map<int, seq<V>>, kv: Kv<V>)
    requires store.Keys == Elems(BLOCKS) && (forall b :: b in store ==> |store[b]| == 2) && kv(0, [13]) != kv(0, [11])
    ensures Scheduled(Initial(BLOCKS, store), kv, 2, OPS) && Run(Initial(BLOCKS, store), kv, 2, OPS).Ok?
    ensures var w := Run(Initial(BLOCKS, store), kv, 2, OPS).value;
            var r := StepAll(w, kv, 2, NEWS);
            && (forall i :: 0 <= i < 5 ==> FreeBefore(w, kv, i))
            && r.Ok? && var (u, pairs) := r.value;
            && pairs == [(0, 3), (1, 4), (2, 0)] && multiset(LATE) == multiset(pairs)
            && Batched(w, u, pairs, kv, 2, NEWS) == u && ReadsOwn(u, kv, 2)
            && var late := Batched(w, u, LATE, kv, 2, NEWS);
            EntryAt(late, 2, 1, 0) == EntryAt(late, 2, 2, 0) == Some(kv(0, [13]))
  {
    hide Inv, Complete, Run, Scheduled, StepAll, Prompted, HasPrompts, FreeBefore, Batched, ReadsOwn, EntryAt, Initial;
    SixPrompts(store, kv);
    var w := Run(Initial(BLOCKS, store), kv, 2, OPS).value;
    TheStep(w, kv);
    forall i: nat | i < 5
      ensures FreeBefore(w, kv, i)
    {
      IsFree(w, kv, i);
    }
  }

  lemma SixPrompts<V>(store: map<int, seq<V>>, kv: Kv<V>)
    requires store.Keys == Elems(BLOCKS) && (forall b :: b in store ==> |store[b]| == 2)
    ensures Scheduled(Initial(BLOCKS, store), kv, 2, OPS) && Run(Initial(BLOCKS, store), kv, 2, OPS).Ok?
    ensures var w := Run(Initial(BLOCKS, store), kv, 2, OPS).value;
            Inv(w, kv, 2) && Complete(w, 2) && w.mgr == Prompted(3) && HasPrompts(w, 1, 6)
  {
    hide Inv, Complete, Run, Scheduled;
    var start := Initial(BLOCKS, store);
    InitialInv(BLOCKS, store, kv, 2);
    RunFrom(start, kv, 0);
    assert OPS[0..] == OPS;
    RunKeeps(start, kv, 2, OPS);
  }

  lemma IsFree<V>(w: World<int, V>, kv: Kv<V>, i: nat)
    requires i < 5 && w.mgr == Prompted(3) && HasPrompts(w, 1, 6)
    ensures FreeBefore(w, kv, i)
  {
    hide StepAll, Appended, Prompted, Asked;
    StepUpTo(w, kv, i);
    AppendNth(i);
  }

  lemma TheStep<V>(w: World<int, V>, kv: Kv<V>)
    requires Inv(w, kv, 2) && Complete(w, 2) && w.mgr == Prompted(3) && HasPrompts(w, 1, 6)
             && kv(0, [13]) != kv(0, [11])
    ensures var r := StepAll(w, kv, 2, NEWS);
            && r.Ok? && var (u, pairs) := r.value;
            && pairs == [(0, 3), (1, 4), (2, 0)] && multiset(LATE) == multiset(pairs)
            && Batched(w, u, pairs, kv, 2, NEWS) == u && ReadsOwn(u, kv, 2)
            && var late := Batched(w, u, LATE, kv, 2, NEWS);
            EntryAt(late, 2, 1, 0) == EntryAt(late, 2, 2, 0) == Some(kv(0, [13]))
  {
    hide Inv, Complete, StepAll, Appended, Prompted, HasPrompts, Halfway, ReadsOwn, EntryAt, Batched;
    StepUpTo(w, kv, 5);
    assert NEWS[..5] == NEWS;
    var (u, pairs) := StepAll(w, kv, 2, NEWS).value;
    StepIsRight(w, u, pairs, kv);
    LateReads(w, u, kv, 0);
    LateReads(w, u, kv, 1);
  }

  lemma StepIsRight<V>(w: World<int, V>, u: World<int, V>, pairs: Pairs<int>, kv: Kv<V>)
    requires Inv(w, kv, 2) && Complete(w, 2) && w.mgr == Prompted(3) && StepAll(w, kv, 2, NEWS) == Ok((u, pairs))
    ensures Batched(w, u, pairs, kv, 2, NEWS) == u && ReadsOwn(u, kv, 2)
  {
    hide Inv, Complete, StepAll, ReadsOwn, Quiet, WrittenBy, WriteEach, SequentialCopy;
    StepBatches(w, kv, 2, NEWS);
    InvReadsOwn(u, kv, 2);
  }

  lemma LateDisturbs<V>(w: World<int, V>, u: World<int, V>, kv: Kv<V>, k: nat)
    requires k < 2 && Inv(w, kv, 2) && w.mgr == Prompted(3) && HasPrompts(w, 1, 6)
    requires u.mgr == Appended(5) && Halfway(u, 5) && kv(0, [13]) != kv(0, [11])
    ensures Disturbs(w, u, kv, 2, NEWS, (2, 0), (0, 3), k, 0) && 2 in w.store && |w.store[2]| == 2
            && w.store[2][0] == kv(0, [13])
    ensures |u.mgr.tables[NEWS[k].0]| == 1
  {
    hide Inv, CopiedFor;
    PromptEntry(w, kv, 1, 0, 11);
    PromptEntry(w, kv, 5, 2, 13);
    CopiedForFirst(w, u, kv, k);
  }

  lemma LateReads<V>(w: World<int, V>, u: World<int, V>, kv: Kv<V>, k: nat)
    requires k < 2 && Inv(w, kv, 2) && Complete(w, 2) && w.mgr == Prompted(3) && HasPrompts(w, 1, 6)
    requires StepAll(w, kv, 2, NEWS) == Ok((u, Asked(5))) && u.mgr == Appended(5) && Halfway(u, 5)
             && kv(0, [13]) != kv(0, [11])
    ensures multiset(LATE) == multiset(Asked(5))
    ensures EntryAt(Batched(w, u, LATE, kv, 2, NEWS), 2, k + 1, 0) == Some(kv(0, [13]))
  {
    hide Inv, Complete, StepAll, ReadsOwn, EntryAt, Batched, FirstThen, Disturbs, Appended, Halfway, HasPrompts;
    LateDisturbs(w, u, kv, k);
    LateIsFirstThen();
    assert w.mgr.tables.Keys == Prompted(3).tables.Keys;
    ReorderedReadsWrong(w, u, Asked(5), kv, 2, NEWS, 2, 0, k, 0);
  }

  // ----- a step with the same copy twice

  const THREE: seq<Op<int>> := [OpAllocate(1, Prompt(11)), OpAllocate(2, Prompt(11)), OpAllocate(3, Prompt(11))]

  /** Three sequences with one prompt, which share its block. */
  function Threefold(): CState<int> {
    CState(CPool(BLOCKS, 1, map[0 := Block(Partial(11), 3)], map[Partial(11) := 0], [], 0),
      map[1 := [0], 2 := [0], 3 := [0]])
  }

  lemma PromptAgain()
    ensures Allocate(Prompted(1), 2, 3, Prompt(11)) == Ok(Threefold())
  {
    hide Allocate;
    AllocateSame(Prompted(1), 3, 11, 0);
    var r := SamePrompt(Prompted(1), 3, 0);
    assert r.gpu.info == Threefold().gpu.info && r.tables == Threefold().tables;
  }

  lemma RunThree<V>(w: World<int, V>, kv: Kv<V>)
    requires w.mgr == Prompted(0)
    ensures Scheduled(w, kv, 2, THREE)
    ensures var r := Run(w, kv, 2, THREE);
            r.Ok? && r.value.mgr == Threefold() && forall id :: 1 <= id <= 2 ==>
              id in r.value.data && r.value.data[id] == Prompt(11)
  {
    hide Allocate, PromptStore, Prompted, Threefold;
    var w1, w2 := TwoOps(w, kv, 0);
    assert OPS[0] == THREE[0] && OPS[1] == THREE[1];
    PromptAgain();
    PromptedTables(1);
    var ops := THREE[2..];
    assert ops[0] == OpAllocate(3, Prompt(11)) && ops[1..] == [];
    var w3 := AllocateWorld(w2, kv, 2, 3, Prompt(11), Threefold());
    assert Step(w2, kv, 2, ops[0]) == Ok(w3);
    NothingRun(w3, kv);
    assert Scheduled(w2, kv, 2, ops) && Run(w2, kv, 2, ops) == Ok(w3);
    RunTwo(w, w1, w2, kv, THREE);
  }

  /**
   * Three sequences are allocated for one prompt and two of them take the same token: the step asks twice
   * for the same copy. The copies conflict, yet the step may carry them out in any order.
   */
  lemma SameCopyTwice<V>(store: map<int, seq<V>>, kv: Kv<V>)
    requires store.Keys == Elems(BLOCKS) && (forall b :: b in store ==> |store[b]| == 2)
    ensures Scheduled(Initial(BLOCKS, store), kv, 2, THREE) && Run(Initial(BLOCKS, store), kv, 2, THREE).Ok?
    ensures var w, news := Run(Initial(BLOCKS, store), kv, 2, THREE).value, [(1, 7), (2, 7)];
            && StepAll(w, kv, 2, news).Ok? && var pairs := StepAll(w, kv, 2, news).value.1;
            && |pairs| == 2 && pairs[0] == pairs[1] && !ConflictFree(pairs) && Preserving(w, kv, 2, news)
  {
    hide Inv, Complete, Run, Scheduled, StepAll, Preserving, ConflictFree, Grown, Prompt;
    var start := Initial(BLOCKS, store);
    InitialInv(BLOCKS, store, kv, 2);
    RunThree(start, kv);
    RunKeeps(start, kv, 2, THREE);
    var w := Run(start, kv, 2, THREE).value;
    PromptKeys(11, 7);
    StepFits(w, kv, 2, [(1, 7), (2, 7)]);
    SameTokenClashes(w, kv, 2, 1, 2, 7);
  }
}
