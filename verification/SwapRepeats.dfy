/**
 * Swapping tables that may repeat a block, as a table that has gone around its window does: the
 * swap gives a block back once for each place of it, but the block was counted once for each table.
 */
module SwapRepeats {
  import opened Wrappers
  import opened Holding
  import opened UncachedAllocator
  import opened BlockManager
  import opened Conservation
  import opened Swapping
  import opened GroupSwaps
  import SlidingWindow

  /** A swap of one table that succeeds took one reference for each place of a block. */
  lemma {:induction false} TableReleases<B>(src: Pool<B>, dst: Pool<B>, m: Mapping<B>, done: seq<B>, todo: seq<B>, b: B)
    requires b in src.refs
    ensures var r := SwapTable(src, dst, m, done, todo);
            r.Ok? ==> && b in r.value.0.refs && multiset(todo)[b] <= src.refs[b]
                      && r.value.0.refs[b] == src.refs[b] - multiset(todo)[b]
    decreases |todo|
  {
    hide Take;
    if todo != [] && SwapTable(src, dst, m, done, todo).Ok? {
      var from := todo[0];
      var src' := Release(src, from).value;
      assert todo == [from] + todo[1..];
      assert multiset(todo)[b] == Bit(from == b) + multiset(todo[1..])[b];
      if from in m.dict {
        var to := m.dict[from];
        TableReleases(src', dst.(refs := dst.refs[to := dst.refs[to] + 1]), m, done + [to], todo[1..], b);
      } else {
        var (dst', to) := Take(dst).value;
        TableReleases(src', dst', Mapping(m.dict[from := to], m.items + [(from, to)]), done + [to], todo[1..], b);
      }
    }
  }

  lemma {:induction false} TablesRelease<B>(src: Pool<B>, dst: Pool<B>, tables: map<TableId, seq<B>>, m: Mapping<B>,
                                            owners: seq<TableId>, b: B)
    requires b in src.refs && NoDup(owners)
    ensures SwapTables(src, dst, tables, m, owners).Ok? ==> multiset(Together(tables, owners))[b] <= src.refs[b]
    decreases |owners|
  {
    hide SwapTable;
    if owners != [] && SwapTables(src, dst, tables, m, owners).Ok? {
      var o := owners[0];
      NoDupHead(owners);
      TableReleases(src, dst, m, [], tables[o], b);
      var (src', dst', m', t) := SwapTable(src, dst, m, [], tables[o]).value;
      TablesRelease(src', dst', tables[o := t], m', owners[1..], b);
      TogetherFrame(tables, tables[o := t], owners[1..]);
      assert Together(tables, owners) == tables[o] + Together(tables, owners[1..]);
    }
  }

  // ----- counting the places of a block

  lemma RepeatedTwice<T>(t: seq<T>, i: nat, j: nat)
    requires i < j < |t| && t[i] == t[j]
    ensures multiset(t)[t[i]] >= 2
  {
    assert t == t[..j] + t[j..];
    assert t[..j][i] == t[i] && t[j..][0] == t[i];
    assert t[i] in multiset(t[..j]) && t[i] in multiset(t[j..]);
  }

  /** The tables of `owners` that hold a block. */
  ghost function HoldersAmong<B>(tables: map<TableId, seq<B>>, owners: seq<TableId>, b: B): set<TableId> {
    set o | o in owners && o in tables && b in tables[o]
  }

  /** Each table that holds the block has a place of it, and a table that repeats it has one more. */
  lemma {:induction false} PlacesCover<B>(tables: map<TableId, seq<B>>, owners: seq<TableId>, b: B)
    requires NoDup(owners) && forall o :: o in owners ==> o in tables
    ensures multiset(Together(tables, owners))[b] >= |HoldersAmong(tables, owners, b)|
    ensures forall o :: o in owners && multiset(tables[o])[b] >= 2 ==>
              multiset(Together(tables, owners))[b] > |HoldersAmong(tables, owners, b)|
    decreases |owners|
  {
    if owners == [] {
      assert HoldersAmong(tables, owners, b) == {};
    } else {
      var o, rest := owners[0], owners[1..];
      NoDupHead(owners);
      PlacesCover(tables, rest, b);
      assert Together(tables, owners) == tables[o] + Together(tables, rest);
      var before, all := HoldersAmong(tables, rest, b), HoldersAmong(tables, owners, b);
      assert all == if b in tables[o] then before + {o} else before;
      assert b in tables[o] ==> b in multiset(tables[o]);
    }
  }

  // ----- the condition

  /** The tables of the group on the device, and nobody else's, hold its blocks. */
  ghost predicate OwnBlocks<B>(s: State<B>, g: Group, status: Status) {
    && OwnIds(g, status)
    && (forall o :: Belongs(g, status, o) ==> o in s.tables && Resident(s.gpu, s.tables[o]))
    && (forall o, k, b ::
          Belongs(g, status, o) && o in s.tables && k in s.tables && b in s.tables[o] && b in s.tables[k] ==>
            Belongs(g, status, k))
  }

  /**
   * For groups that share blocks only among themselves, with or without a window: the swap succeeds
   * if and only if no table repeats a block and the destination has room for the distinct blocks.
   */
  lemma SwapOutIff<B>(s: State<B>, g: Group)
    requires Conserved(s) && OwnBlocks(s, g, Running)
    ensures SwapOut(s, SwapOwners(g, Running)).Ok? <==>
            && (forall o :: Belongs(g, Running, o) ==> NoDup(s.tables[o]))
            && |BlocksOf(s.tables, g, Running)| <= |s.cpu.free|
  {
    hide Conserved, SwapTables, SwapOwners, BlocksOf, GroupMoved, NoDup, Resident, Belongs;
    if forall o :: Belongs(g, Running, o) ==> NoDup(s.tables[o]) {
      SwapOutMovesGroup(s, g);
    } else {
      var o :| Belongs(g, Running, o) && !NoDup(s.tables[o]);
      RepeatFails(s, g, o);
    }
  }

  lemma RepeatFails<B>(s: State<B>, g: Group, o: TableId)
    requires Conserved(s) && OwnBlocks(s, g, Running) && Belongs(g, Running, o) && !NoDup(s.tables[o])
    ensures SwapOut(s, SwapOwners(g, Running)).Err?
  {
    hide Conserved, SwapTables, SwapOwners, Belongs, Together;
    var owners := SwapOwners(g, Running);
    OwnersBelong(g, Running);
    var t := s.tables[o];
    var i, j :| 0 <= i < j < |t| && t[i] == t[j];
    var b := t[i];
    RepeatedTwice(t, i, j);
    TablesRelease(s.gpu, s.cpu, s.tables, NoMapping(), owners, b);
    PlacesCover(s.tables, owners, b);
    assert HoldersAmong(s.tables, owners, b) == Holders(s.tables, b);
    CountIs(s, b);
  }

  lemma CountIs<B>(s: State<B>, b: B)
    requires Conserved(s) && b in s.gpu.refs
    ensures s.gpu.refs[b] == |Holders(s.tables, b)|
  {
  }

  /**
   * With a window: in every state that a run reaches, swapping out succeeds if and only if no running
   * sequence has more blocks than the window and the CPU has room. A table that has gone around its
   * ring is given back twice, which raises.
   */
  lemma WindowSwapIff<B>(s: State<B>, c: Config, lens: map<TableId, nat>, g: Group)
    requires SlidingWindow.Windowed(c) && SlidingWindow.RingState(s, c, lens)
    requires OwnIds(g, Running) && forall o :: Belongs(g, Running, o) ==> o in s.tables
    ensures SwapOut(s, SwapOwners(g, Running)).Ok? <==>
            && (forall o :: Belongs(g, Running, o) ==> |s.tables[o]| <= c.window.value)
            && |BlocksOf(s.tables, g, Running)| <= |s.cpu.free|
  {
    var w := c.window.value;
    RingsOwn(s, c, lens, g);
    hide Conserved, SwapOut, SwapOwners, BlocksOf, Belongs, NBlocks;
    SwapOutIff(s, g);
    forall o | Belongs(g, Running, o)
      ensures NoDup(s.tables[o]) <==> |s.tables[o]| <= w
    {
      assert SlidingWindow.RingTable(s, c, o, lens[o]);
      RingRepeats(s.tables[o], w);
    }
    hide OwnBlocks, NoDup;
  }

  lemma RingsOwn<B>(s: State<B>, c: Config, lens: map<TableId, nat>, g: Group)
    requires SlidingWindow.Windowed(c) && SlidingWindow.RingState(s, c, lens)
    requires OwnIds(g, Running) && forall o :: Belongs(g, Running, o) ==> o in s.tables
    ensures Conserved(s) && OwnBlocks(s, g, Running)
  {
    hide Conserved, Belongs, NBlocks, SlidingWindow.Ring, NoDup;
    forall o | o in s.tables
      ensures Resident(s.gpu, s.tables[o])
    {
      assert SlidingWindow.RingTable(s, c, o, lens[o]);
    }
    forall o, k, b | o in s.tables && k in s.tables && b in s.tables[o] && b in s.tables[k]
      ensures o == k
    {
      CountIs(s, b);
      if o != k {
        TwoMembers(Holders(s.tables, b), o, k);
      }
    }
  }

  lemma RingRepeats<B>(t: seq<B>, w: nat)
    requires w > 0 && SlidingWindow.Ring(t, w)
    ensures NoDup(t) <==> |t| <= w
  {
    if |t| > w {
      assert RingIndex(w, Some(w)) == 0;
      assert t[w] == t[0];
    }
  }

  /** The error is a double free: a ring of one block that the sequence has gone around once. */
  lemma WrappedRaises()
    ensures var s := State(Pool([], map[0 := 1]), Pool([1], map[1 := 0]), map[SelfTable(7) := [0, 0]]);
            Conserved(s) && SwapOut(s, [SelfTable(7)]) == Err(DoubleFree)
  {
    var s := State(Pool([], map[0 := 1]), Pool([1], map[1 := 0]), map[SelfTable(7) := [0, 0]]);
    assert Holders(s.tables, 0) == {SelfTable(7)} && Holders(s.tables, 1) == {};
    assert [0, 0][1..] == [0];
    var src := Pool([0], map[0 := 0]);
    assert s.gpu.refs[0 := 0] == src.refs && s.gpu.free + [0] == src.free;
    assert Release(s.gpu, 0) == Ok(src);
    assert Release(src, 0) == Err(DoubleFree);
    var dst := Pool([], map[1 := 1]);
    assert s.cpu.refs[1 := 1] == dst.refs && s.cpu.free[..0] == dst.free;
    assert Take(s.cpu) == Ok((dst, 1));
    var m := Mapping(map[0 := 1], [(0, 1)]);
    assert SwapTable(src, dst, m, [1], [0]) == Err(DoubleFree);
    assert SwapTable(s.gpu, s.cpu, NoMapping(), [], [0, 0]) == Err(DoubleFree) by {
      assert NoMapping<int>().dict[0 := 1] == m.dict && NoMapping<int>().items + [(0, 1)] == m.items;
      assert [] + [1] == [1];
    }
  }
}
