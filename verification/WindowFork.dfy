/**
 * Fork under a sliding window. Copy on write puts the new block at the end of the table, while the
 * ring is continued from the beginning of the table, so a forked sequence comes back to a block that
 * it gave up to its parent, and now finds it unshared.
 */
module WindowFork {
  import opened Wrappers
  import opened Holding
  import opened UncachedAllocator
  import opened BlockManager
  import opened Conservation
  import SlidingWindow

  // ----- when the ring is continued in a block of one's own

  /** The blocks that a sequence still looks at, and that freeing it gives back. */
  ghost function LastWindow<B>(t: seq<B>, w: nat): seq<B> {
    if |t| > w then t[|t| - w..] else t
  }

  ghost function InWindow<B>(tables: map<TableId, seq<B>>, w: nat, b: B): set<TableId> {
    set o | o in tables && b in LastWindow(tables[o], w)
  }

  /** The counts under a window: each block is counted once for each table that has it in its last window. */
  ghost predicate WindowCounted<B>(s: State<B>, w: nat) {
    && Wf(s.gpu)
    && (forall o :: o in s.tables ==> Resident(s.gpu, s.tables[o]))
    && (forall b :: b in s.gpu.refs ==> s.gpu.refs[b] == |InWindow(s.tables, w, b)|)
  }

  /** The block of the newest token is in nobody else's window. */
  ghost predicate OwnLast<B>(tables: map<TableId, seq<B>>, w: nat, o: TableId) {
    && o in tables && tables[o] != []
    && (forall k :: k in tables && k != o ==> tables[o][|tables[o]| - 1] !in LastWindow(tables[k], w))
  }

  lemma OnlyHolder<B>(tables: map<TableId, seq<B>>, w: nat, b: B, o: TableId, k: TableId)
    requires |InWindow(tables, w, b)| == 1 && o in InWindow(tables, w, b) && k in tables && k != o
    ensures b !in LastWindow(tables[k], w)
  {
    if k in InWindow(tables, w, b) {
      TwoMembers(InWindow(tables, w, b), o, k);
    }
  }

  /**
   * A sequence that has filled its window writes its next block where no other sequence looks, if and
   * only if the block with which its ring goes on is counted more than once (then it is copied), or
   * not at all (then the step fails), or is still in its own window.
   */
  lemma RingGoesOnIff<B>(s: State<B>, c: Config, o: TableId, len: nat)
    requires c.window.Some? && WindowCounted(s, c.window.value) && o in s.tables
    requires c.window.value <= |s.tables[o]| == NBlocks(len, c.blockSize) - 1
    ensures var t, w := s.tables[o], c.window.value;
            var x, r := t[|t| % w], AppendSlots(s, c, o, len);
            && x in s.gpu.refs
            && ((r.Ok? ==> OwnLast(r.value.0.tables, w, o)) <==> s.gpu.refs[x] != 1 || x in LastWindow(t, w))
  {
    hide NBlocks, LastWindow, Release;
    var t, w := s.tables[o], c.window.value;
    var x := t[|t| % w];
    assert x in t;
    var u := s.(tables := s.tables[o := t + [x]]);
    assert AppendSlots(s, c, o, len) == WritableLastBlock(u, o);
    if s.gpu.refs[x] == 1 {
      ReusedInPlace(s, w, o, x);
    } else if s.gpu.free != [] {
      var (p, b) := Take(s.gpu).value;
      FreshIsOwn(s, w, b);
      assert (t + [x])[..|t|] + [b] == t + [b];
    }
  }

  lemma ReusedInPlace<B>(s: State<B>, w: nat, o: TableId, x: B)
    requires WindowCounted(s, w) && o in s.tables && x in s.gpu.refs && s.gpu.refs[x] == 1
    ensures OwnLast(s.tables[o := s.tables[o] + [x]], w, o) <==> x in LastWindow(s.tables[o], w)
  {
    hide LastWindow, Wf, Resident;
    var h := InWindow(s.tables, w, x);
    assert |h| == 1;
    if o in h {
      forall k | k in s.tables && k != o
        ensures x !in LastWindow(s.tables[k], w)
      {
        OnlyHolder(s.tables, w, x, o, k);
      }
    } else {
      assert h != {};
      var k :| k in h;
      var after := s.tables[o := s.tables[o] + [x]];
      assert k in after && k != o && after[o][|after[o]| - 1] in LastWindow(after[k], w);
    }
  }

  lemma FreshIsOwn<B>(s: State<B>, w: nat, b: B)
    requires WindowCounted(s, w) && b in s.gpu.free
    ensures forall k :: k in s.tables ==> b !in LastWindow(s.tables[k], w)
  {
    hide LastWindow;
    assert InWindow(s.tables, w, b) == {};
    forall k | k in s.tables
      ensures b !in LastWindow(s.tables[k], w)
    {
      assert k !in InWindow(s.tables, w, b);
    }
  }

  // ----- a fork after which it is not

  const PARENT: TableId := SelfTable(1)
  const CHILD: TableId := SelfTable(2)

  /** Blocks of one token, a window of one block. */
  const NARROW: Config := Config(1, Some(1), 0)

  /** One sequence of one token, in block 0; two free blocks. */
  ghost function Before(): State<int> {
    State(Pool([2, 1], map[0 := 1, 1 := 0, 2 := 0]), Pool([], map[]), map[PARENT := [0]])
  }

  ghost function Forked(): State<int> {
    State(Pool([2, 1], map[0 := 2, 1 := 0, 2 := 0]), Pool([], map[]), map[PARENT := [0], CHILD := [0]])
  }

  ghost function Copied(): State<int> {
    State(Pool([2], map[0 := 1, 1 := 1, 2 := 0]), Pool([], map[]), map[PARENT := [0], CHILD := [0, 1]])
  }

  ghost function Reused(): State<int> {
    Copied().(tables := map[PARENT := [0], CHILD := [0, 1, 0]])
  }

  lemma BeforeIsRing()
    ensures SlidingWindow.RingState(Before(), NARROW, map[PARENT := 1])
  {
    var s := Before();
    assert Holders(s.tables, 0) == {PARENT} && Holders(s.tables, 1) == {} && Holders(s.tables, 2) == {};
  }

  lemma ForkGives()
    ensures Fork(Before(), PARENT, CHILD) == Forked()
  {
    var s := Before();
    assert Retain(s.gpu, [0]).refs == Forked().gpu.refs;
    assert Retain(s.cpu, [0]).refs == map[];
    assert s.tables[CHILD := [0]] == Forked().tables;
  }

  /** The first block beyond the window: the shared block is copied to block 1. */
  lemma FirstAppend()
    ensures AppendSlots(Forked(), NARROW, CHILD, 2) == Ok((Copied(), [(0, 1)]))
  {
    var s := Forked();
    assert NBlocks(2, 1) == 2;
    var u := s.(tables := s.tables[CHILD := [0, 0]]);
    assert [0] + [0] == [0, 0];
    assert AppendSlots(s, NARROW, CHILD, 2) == WritableLastBlock(u, CHILD);
    var p := Pool([2], map[0 := 2, 1 := 1, 2 := 0]);
    assert s.gpu.free[..1] == [2] && s.gpu.refs[1 := 1] == p.refs;
    assert Take(u.gpu) == Ok((p, 1));
    assert p.refs[0 := 1] == Copied().gpu.refs;
    assert [0, 0][..1] + [1] == [0, 1];
    assert u.tables[CHILD := [0, 1]] == Copied().tables;
  }

  /** The next one: the ring is continued with block 0, in place. */
  lemma SecondAppend()
    ensures AppendSlots(Copied(), NARROW, CHILD, 3) == Ok((Reused(), []))
  {
    var s := Copied();
    assert NBlocks(3, 1) == 3;
    var u := s.(tables := s.tables[CHILD := [0, 1, 0]]);
    assert [0, 1] + [0] == [0, 1, 0];
    assert u.tables == Reused().tables;
    assert AppendSlots(s, NARROW, CHILD, 3) == WritableLastBlock(u, CHILD);
  }

  /** The counts are right where it goes wrong. */
  lemma CopiedCounts()
    ensures WindowCounted(Copied(), 1)
  {
    var s := Copied();
    assert LastWindow([0], 1) == [0] && LastWindow([0, 1], 1) == [1];
    assert InWindow(s.tables, 1, 0) == {PARENT} && InWindow(s.tables, 1, 1) == {CHILD};
    assert InWindow(s.tables, 1, 2) == {};
  }

  /**
   * From a state that a run reaches: fork and two appends to the child, and its newest token goes,
   * without a copy, into the only block of its parent, which still reads its own token there.
   */
  lemma ForkedRingOverwrites()
    ensures SlidingWindow.RingState(Before(), NARROW, map[PARENT := 1])
    ensures var r1 := AppendSlots(Fork(Before(), PARENT, CHILD), NARROW, CHILD, 2);
            && r1.Ok?
            && var r2 := AppendSlots(r1.value.0, NARROW, CHILD, 3);
            && r2.Ok? && r2.value.1 == []
            && var tables := r2.value.0.tables;
            && PARENT in tables && tables[PARENT] == [0] && CHILD in tables && tables[CHILD] == [0, 1, 0]
            && WindowCounted(r1.value.0, 1)
  {
    CopiedCounts();
    BeforeIsRing();
    ForkGives();
    FirstAppend();
    SecondAppend();
  }
}
