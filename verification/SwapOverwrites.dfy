/** A run with prefix caching and swapping in which one sequence's swapped block is overwritten with another's. */
module SwapOverwrites {
  import opened Wrappers
  import opened OrderedDict
  import opened Evictor
  import opened CachedAllocator
  import opened PrefixCache
  import opened PrefixAppend
  import opened PrefixRuns
  import opened PrefixSwap
  import PrefixCopies
  import BlockManager

  /** The prompt of both sequences, and its hash in a block of three tokens. */
  const PROMPT: SeqData := SeqData([1], [], 0)

  const HASH: Key := Content([1], Some([]), 0)

  function Held(b: int, refs: nat): CPool<int> {
    CPool([b], 1, map[b := Info(HASH, refs, 3, DEFAULT_LAST_ACCESSED_TIME)], map[HASH := b], [], 0)
  }

  function Unused(b: int): CPool<int> {
    CPool([b], 0, map[], map[], [], 0)
  }

  /** Block 0 given up, and waiting under its hash. */
  function GivenUp(): CPool<int> {
    CPool([0], 1, map[0 := Info(HASH, 0, 3, DEFAULT_LAST_ACCESSED_TIME)], map[], [(HASH, 0)], 0)
  }

  function WithToken(token: Token): SeqData {
    SeqData([1], [token], 0)
  }

  lemma Facts(token: Token)
    ensures NBlocks(PROMPT, 3) == NBlocks(WithToken(token), 3) == 1 && !LastBlockFull(WithToken(token), 3)
            && BlockEnd(0, 3) == 3
    ensures HashOfBlock(PROMPT, 0, 3) == HASH && Grown(PROMPT, token) == WithToken(token)
  {
  }

  // ----- the allocator

  lemma AcquireNew(b: int)
    ensures AcquireKey(Unused(b), HASH, 3) == Ok((Held(b, 1), b))
  {
    var p := Unused(b);
    assert !Has(p.table, HASH);
    assert p.info[b := Info(HASH, 0, 3, DEFAULT_LAST_ACCESSED_TIME)][b := Info(HASH, 1, 3, DEFAULT_LAST_ACCESSED_TIME)]
           == Held(b, 1).info;
  }

  lemma AcquireAgain()
    ensures AcquireKey(GivenUp(), HASH, 3) == Ok((Held(0, 1), 0))
  {
    var p := GivenUp();
    assert p.table[0].0 == HASH;
    assert Has(p.table, HASH);
    assert IndexOf(p.table, HASH) == 0 && Without(p.table, 0) == [];
    assert p.cached[HASH := 0] == Held(0, 1).cached && p.info[0 := Info(HASH, 1, 3, DEFAULT_LAST_ACCESSED_TIME)]
           == Held(0, 1).info;
  }

  lemma AcquireShared(b: int)
    ensures AcquireKey(Held(b, 1), HASH, 3) == Ok((Held(b, 2), b))
  {
    var p := Held(b, 1);
    assert !Has(p.table, HASH);
    assert p.info[b := Info(HASH, 2, 3, DEFAULT_LAST_ACCESSED_TIME)] == Held(b, 2).info;
  }

  lemma ReleaseIt()
    ensures Release(Held(0, 1), 0) == Ok(GivenUp())
  {
    var p := Held(0, 1);
    assert !Has(p.table, HASH);
    assert p.info[0 := Info(HASH, 0, 3, DEFAULT_LAST_ACCESSED_TIME)] == GivenUp().info
           && p.cached - {HASH} == GivenUp().cached;
    assert [] + [(HASH, 0)] == GivenUp().table;
  }

  // ----- the operations

  lemma AllocateIt(p: CPool<int>, tables: map<nat, seq<int>>, id: nat)
    requires AcquireKey(p, HASH, 3) == Ok((Held(0, 1), 0))
    ensures Allocate(CState(p, tables), 3, id, PROMPT) == Ok(CState(Held(0, 1), tables[id := [0]]))
  {
    hide AcquireKey, NBlocks, PrefixKey, BlockEnd;
    Facts(0);
    assert AllocateTable(Held(0, 1), PROMPT, 3, [0]) == Ok((Held(0, 1), [0]));
    assert [] + [0] == [0];
  }

  lemma AppendIt(id: nat, token: Token)
    ensures AppendSlots(CState(Held(0, 1), map[id := [0]]), 3, id, WithToken(token))
            == Ok((CState(Held(0, 1), map[id := [0]]), []))
  {
    hide NBlocks, LastBlockFull;
    Facts(token);
    assert [0][..0] + [0] == [0];
    assert map[id := [0]][id := [0]] == map[id := [0]];
  }

  lemma FreeIt(id: nat)
    ensures Free(CState(Held(0, 1), map[id := [0]]), id, [0]) == Ok(CState(GivenUp(), map[]))
  {
    ReleaseIt();
    assert ReleaseAll(Held(0, 1), [0]) == ReleaseAll(GivenUp(), []);
    assert map[id := [0]] - {id} == map[];
  }

  /** The swap of the one block to block 1 of the other device. */
  lemma SwapIt(dst: CPool<int>, refs: nat)
    requires AcquireKey(dst, HASH, 3) == Ok((Held(1, refs), 1))
    ensures SwapTable(Held(0, 1), dst, BlockManager.Mapping(map[], []), [], [0])
            == Ok((GivenUp(), Held(1, refs), BlockManager.Mapping(map[0 := 1], [(0, 1)]), [1]))
  {
    hide AcquireKey, Release;
    ReleaseIt();
    var m := BlockManager.Mapping(map[0 := 1], [(0, 1)]);
    assert [0][1..] == [] && [] + [1] == [1] && [] + [(0, 1)] == [(0, 1)];
    assert SwapTable(GivenUp(), Held(1, refs), m, [1], []) == Ok((GivenUp(), Held(1, refs), m, [1]));
  }

  // ----- the run

  /** Sequence `id` takes the prompt and one token. */
  function Serve(id: nat, token: Token): seq<Op<int>> {
    [OpAllocate(id, PROMPT), OpAppend(id, token)]
  }

  /** The first sequence is served and swapped out, which frees its block, and the second is served. */
  function Both(): seq<Op<int>> {
    Serve(1, 3) + [OpFree(1, [0])] + Serve(2, 2)
  }

  lemma RunOne<V>(w: World<int, V>, w1: World<int, V>, kv: Kv<V>, ops: seq<Op<int>>)
    requires ops != [] && Enabled(w, ops[0]) && PrefixRuns.Step(w, kv, 3, ops[0]) == Ok(w1)
             && Scheduled(w1, kv, 3, ops[1..])
    ensures Scheduled(w, kv, 3, ops) && Run(w, kv, 3, ops) == Run(w1, kv, 3, ops[1..])
  {
    hide Enabled, Step;
  }

  lemma Served<V>(w: World<int, V>, kv: Kv<V>, id: nat, token: Token) returns (w': World<int, V>)
    requires w.mgr.tables == map[] && AcquireKey(w.mgr.gpu, HASH, 3) == Ok((Held(0, 1), 0))
    ensures Scheduled(w, kv, 3, Serve(id, token)) && Run(w, kv, 3, Serve(id, token)) == Ok(w')
    ensures w'.mgr == CState(Held(0, 1), map[id := [0]]) && id in w'.data && w'.data[id] == WithToken(token)
  {
    hide AcquireKey, Allocate, AppendSlots, PromptStore;
    var ops := Serve(id, token);
    AllocateIt(w.mgr.gpu, w.mgr.tables, id);
    AppendIt(id, token);
    Facts(token);
    var s := CState(Held(0, 1), map[id := [0]]);
    var w1 := AllocateWorld(w, kv, 3, id, PROMPT, s);
    w' := AppendWorld(w1, kv, 3, id, WithToken(token), s, []);
    assert ops[1..] == [OpAppend(id, token)] && ops[1..][1..] == [];
    assert PrefixRuns.Step(w, kv, 3, ops[0]) == Ok(w1) && PrefixRuns.Step(w1, kv, 3, ops[1..][0]) == Ok(w');
    NothingMore(w', kv);
    RunOne(w1, w', kv, ops[1..]);
    RunOne(w, w1, kv, ops);
  }

  lemma NothingMore<V>(w: World<int, V>, kv: Kv<V>)
    ensures Scheduled(w, kv, 3, []) && Run(w, kv, 3, []) == Ok(w)
  {
  }

  /** Runs in sequence. */
  lemma {:induction false} RunThen<V>(w: World<int, V>, w1: World<int, V>, kv: Kv<V>, a: seq<Op<int>>, b: seq<Op<int>>)
    requires Scheduled(w, kv, 3, a) && Run(w, kv, 3, a) == Ok(w1) && Scheduled(w1, kv, 3, b)
    ensures Scheduled(w, kv, 3, a + b) && Run(w, kv, 3, a + b) == Run(w1, kv, 3, b)
    decreases |a|
  {
    hide Enabled, Step;
    if a == [] {
      assert a + b == b;
    } else {
      assert (a + b)[0] == a[0] && (a + b)[1..] == a[1..] + b;
      RunThen(PrefixRuns.Step(w, kv, 3, a[0]).value, w1, kv, a[1..], b);
    }
  }

  lemma Freed<V>(w: World<int, V>, kv: Kv<V>) returns (w': World<int, V>)
    requires w.mgr == CState(Held(0, 1), map[1 := [0]])
    ensures Scheduled(w, kv, 3, [OpFree(1, [0])]) && Run(w, kv, 3, [OpFree(1, [0])]) == Ok(w')
    ensures w'.mgr == CState(GivenUp(), map[])
  {
    hide Free;
    FreeIt(1);
    w' := FreeWorld(w, 1, CState(GivenUp(), map[]));
    var ops: seq<Op<int>> := [OpFree(1, [0])];
    assert ops[1..] == [];
    assert BlockManager.EnumeratesSet([0], [0]);
    assert PrefixRuns.Step(w, kv, 3, ops[0]) == Ok(w');
    NothingMore(w', kv);
    RunOne(w, w', kv, ops);
  }

  lemma EntryOf<V>(w: World<int, V>, kv: Kv<V>, id: nat, token: Token)
    requires Inv(w, kv, 3) && w.mgr == CState(Held(0, 1), map[id := [0]]) && id in w.data
             && w.data[id] == WithToken(token)
    ensures 0 in w.store && |w.store[0]| == 3 && w.store[0][1] == kv(0, [1, token])
  {
    hide Inv;
    PrefixCopies.LastHolds(w, kv, 3, id);
    InvParts(w, kv, 3);
    assert ([1] + [token])[..2] == [1, token];
  }

  /**
   * Two sequences with one prompt, one after the other on a device of one block. The first takes token 3
   * and is swapped out, the second takes token 2 and is swapped out too. The hash of the prompt leads both
   * to the same block of the other device, so that the second swap puts the entry of token 2 where the
   * first sequence reads that of token 3.
   */
  lemma SecondSwapOverwrites<V>(store: map<int, seq<V>>, kv: Kv<V>)
    requires store.Keys == {0} && |store[0]| == 3
    ensures var w := Initial([0], store);
            && Scheduled(w, kv, 3, Serve(1, 3)) && Run(w, kv, 3, Serve(1, 3)).Ok?
            && Scheduled(w, kv, 3, Both()) && Run(w, kv, 3, Both()).Ok?
            && var one, two := Run(w, kv, 3, Serve(1, 3)).value, Run(w, kv, 3, Both()).value;
            && 1 in one.mgr.tables && 2 in two.mgr.tables
            && var out := SwapTable(one.mgr.gpu, Unused(1), BlockManager.Mapping(map[], []), [], one.mgr.tables[1]);
            && out.Ok? && out.value.3 == [1] && Free(one.mgr, 1, [0]) == Ok(CState(out.value.0, map[]))
            && var again := SwapTable(two.mgr.gpu, out.value.1, BlockManager.Mapping(map[], []), [], two.mgr.tables[2]);
            && again.Ok? && again.value.3 == [1] && again.value.2.items == [(0, 1)]
            && 0 in one.store && |one.store[0]| == 3 && one.store[0][1] == kv(0, [1, 3])
            && 0 in two.store && |two.store[0]| == 3 && two.store[0][1] == kv(0, [1, 2])
  {
    hide Inv, Complete, Scheduled, Run, SwapTable, AcquireKey, Free;
    var w := Initial([0], store);
    InitialInv([0], store, kv, 3);
    AcquireNew(0);
    var one := Served(w, kv, 1, 3);
    var freed := Freed(one, kv);
    AcquireAgain();
    var two := Served(freed, kv, 2, 2);
    RunThen(w, one, kv, Serve(1, 3), [OpFree(1, [0])]);
    RunThen(w, freed, kv, Serve(1, 3) + [OpFree(1, [0])], Serve(2, 2));
    RunKeeps(w, kv, 3, Serve(1, 3));
    RunKeeps(w, kv, 3, Both());
    EntryOf(one, kv, 1, 3);
    EntryOf(two, kv, 2, 2);
    FreeIt(1);
    AcquireNew(1);
    AcquireShared(1);
    SwapIt(Unused(1), 1);
    SwapIt(Held(1, 1), 2);
  }
}
