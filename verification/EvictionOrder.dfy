/** A run of the caching manager whose eviction is not of the least recently used block. */
module EvictionOrder {
  import opened Wrappers
  import opened Evictor
  import opened CachedAllocator
  import opened PrefixCache

  const A: SeqData := SeqData([5], [], 0)
  const B: SeqData := SeqData([6], [], 0)

  function KeyOf(d: SeqData): Key {
    Content(d.prompt, None, d.lora)
  }

  /** Two sequences of one block each on a GPU of two blocks. */
  function Start(): CState<int> {
    CState(CPool([0, 1], 0, map[], map[], [], 0), map[])
  }

  function BothThere(a: real, b: real): CState<int> {
    CState(CPool([0, 1], 2, map[0 := Info(KeyOf(A), 1, 1, a), 1 := Info(KeyOf(B), 1, 1, b)],
                 map[KeyOf(A) := 0, KeyOf(B) := 1], [], 0), map[1 := [0], 2 := [1]])
  }

  function BothFreed(a: real, b: real): CState<int> {
    CState(CPool([0, 1], 2, map[0 := Info(KeyOf(A), 0, 1, a), 1 := Info(KeyOf(B), 0, 1, b)],
                 map[], [(KeyOf(A), 0), (KeyOf(B), 1)], 0), map[])
  }

  lemma OneBlock(p: CPool<int>, d: SeqData)
    requires |d.prompt| == 1 && d.output == [] && p.current < |p.all| && !Contains(p, KeyOf(d))
    ensures var b := p.all[p.current];
            AllocateTable(p, d, 1, [])
            == Ok((p.(current := p.current + 1, info := p.info[b := Info(KeyOf(d), 1, 1, DEFAULT_LAST_ACCESSED_TIME)],
                      cached := p.cached[KeyOf(d) := b]), [b]))
  {
    var b := p.all[p.current];
    assert d.prompt[..1] == d.prompt;
    assert HashOfBlock(d, 0, 1) == KeyOf(d) && NBlocks(d, 1) == 1;
    var q := p.(current := p.current + 1, info := p.info[b := Info(KeyOf(d), 1, 1, DEFAULT_LAST_ACCESSED_TIME)],
                cached := p.cached[KeyOf(d) := b]);
    assert p.info[b := Info(KeyOf(d), 0, 1, DEFAULT_LAST_ACCESSED_TIME)][b := Info(KeyOf(d), 1, 1,
           DEFAULT_LAST_ACCESSED_TIME)] == q.info;
    assert Acquire(p, Some(KeyOf(d)), 1) == Ok((q, b));
    assert AllocateTable(q, d, 1, [b]) == Ok((q, [b]));
    assert [] + [b] == [b] && BlockEnd(0, 1) == 1;
    assert AllocateTable(p, d, 1, []) == AllocateTable(q, d, 1, [] + [b]);
  }

  lemma BothAllocated()
    ensures var s := Allocate(Start(), 1, 1, A);
            s.Ok? && Allocate(s.value, 1, 2, B) == Ok(BothThere(DEFAULT_LAST_ACCESSED_TIME, DEFAULT_LAST_ACCESSED_TIME))
  {
    OneBlock(Start().gpu, A);
    var s := Allocate(Start(), 1, 1, A).value;
    OneBlock(s.gpu, B);
  }

  lemma BothAccessed(a: real, b: real, a': real, b': real)
    ensures var s := Access(BothThere(a, b), 2, b');
            s.Ok? && Access(s.value, 1, a') == Ok(BothThere(a', b'))
  {
    hide Touched;
    TouchSecond(a, b, b');
    TouchFirst(a, b', a');
  }

  lemma TouchFirst(a: real, b: real, a': real)
    ensures Touched(BothThere(a, b).gpu, [0], a') == BothThere(a', b).gpu
  {
    assert Touched(BothThere(a, b).gpu, [0], a').info == BothThere(a', b).gpu.info;
  }

  lemma TouchSecond(a: real, b: real, b': real)
    ensures Touched(BothThere(a, b).gpu, [1], b') == BothThere(a, b').gpu
  {
    assert Touched(BothThere(a, b).gpu, [1], b').info == BothThere(a, b').gpu.info;
  }

  lemma BothReleased(a: real, b: real)
    ensures var s := Free(BothThere(a, b), 1, [0]);
            s.Ok? && Free(s.value, 2, [1]) == Ok(BothFreed(a, b))
  {
    var s := BothThere(a, b);
    var p := CPool([0, 1], 2, map[0 := Info(KeyOf(A), 0, 1, a), 1 := Info(KeyOf(B), 1, 1, b)], map[KeyOf(B) := 1],
        [(KeyOf(A), 0)], 0);
    assert Release(s.gpu, 0) == Ok(p) by {
      assert s.gpu.info[0 := Info(KeyOf(A), 0, 1, a)] == p.info;
      assert s.gpu.cached - {KeyOf(A)} == p.cached;
      assert s.gpu.table + [(KeyOf(A), 0)] == p.table;
    }
    assert ReleaseAll(s.gpu, [0]) == ReleaseAll(p, []);
    assert s.tables - {1} == map[2 := [1]];
    var q := BothFreed(a, b).gpu;
    assert Release(p, 1) == Ok(q) by {
      assert p.info[1 := Info(KeyOf(B), 0, 1, b)] == q.info;
      assert p.cached - {KeyOf(B)} == q.cached;
      assert p.table + [(KeyOf(B), 1)] == q.table;
    }
    assert ReleaseAll(p, [1]) == ReleaseAll(q, []);
    assert map[2 := [1]] - {2} == map[];
  }

  /**
   * Two sequences are allocated, the second is accessed at time 1 and the first at time 2, then the
   * first is freed before the second. The next eviction is of the first one's block, although the
   * other was accessed earlier.
   */
  lemma OppositeOrderEvictsWrong()
    ensures var s1 := Allocate(Start(), 1, 1, A);
            && s1.Ok? && var s2 := Allocate(s1.value, 1, 2, B);
            && s2.Ok? && var s3 := Access(s2.value, 2, 1.0);
            && s3.Ok? && var s4 := Access(s3.value, 1, 2.0);
            && s4.Ok? && var s5 := Free(s4.value, 1, [0]);
            && s5.Ok? && var s6 := Free(s5.value, 2, [1]);
            && s6.Ok? && var p := s6.value.gpu;
            && Described(p.table, p.info) && p.table != []
            && p.table[Victim(p.table, p.info)].1 == 0 && !Chosen(p.table, p.info, Victim(p.table, p.info))
  {
    hide Allocate, Access, Free;
    BothAllocated();
    BothAccessed(DEFAULT_LAST_ACCESSED_TIME, DEFAULT_LAST_ACCESSED_TIME, 2.0, 1.0);
    BothReleased(2.0, 1.0);
    var p := BothFreed(2.0, 1.0).gpu;
    assert Scan(p.table, p.info, 0, 0) == Scan(p.table, p.info, 0, 1) == Scan(p.table, p.info, 0, 2) == 0;
    assert p.info[p.table[1].1].last < p.info[p.table[0].1].last;
  }
}
