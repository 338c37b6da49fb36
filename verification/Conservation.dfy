/**
 * Reference-count conservation of the block manager without prefix caching: what every operation
 * keeps, and which errors cannot happen.
 */
module Conservation {
  import opened Wrappers
  import opened Holding
  import opened UncachedAllocator
  import opened BlockManager

  ghost predicate Known<B>(s: State<B>, t: seq<B>) {
    forall b :: b in t ==> b in s.gpu.refs || b in s.cpu.refs
  }

  ghost predicate Resident<B>(p: Pool<B>, t: seq<B>) {
    forall b :: b in t ==> b in p.refs
  }

  /** The invariant of the counts: it holds with or without a window. */
  ghost predicate Conserved<B>(s: State<B>) {
    && Wf(s.gpu) && Wf(s.cpu)
    && s.gpu.refs.Keys !! s.cpu.refs.Keys
    && Counted(s.gpu, s.tables) && Counted(s.cpu, s.tables)
    && (forall o :: o in s.tables ==> Known(s, s.tables[o]))
  }

  /** Without a window a table never repeats a block. */
  ghost predicate Distinct<B>(s: State<B>) {
    forall o :: o in s.tables ==> NoDup(s.tables[o])
  }

  // ----- allocate

  ghost function Need(n: nat, window: Option<nat>): nat {
    if window.Some? && window.value < n then window.value else n
  }

  /** The table that `AllocateSequence` builds: the top of the free stack downwards, wrapped at the window. */
  ghost function FreshTable<B>(free: seq<B>, n: nat, window: Option<nat>): (t: seq<B>)
    requires window.Some? ==> window.value > 0
    requires Need(n, window) <= |free|
    ensures |t| == n
  {
    seq(n, i requires 0 <= i < n => free[|free| - 1 - RingIndex(i, window)])
  }

  ghost function RingIndex(i: nat, window: Option<nat>): (r: nat)
    requires window.Some? ==> window.value > 0
    ensures r <= i && (window.Some? ==> r < window.value)
    ensures (window.Some? ==> i < window.value) ==> r == i
  {
    if window.Some? && i >= window.value then i % window.value else i
  }

  ghost function WithCount<B>(refs: map<B, nat>, blocks: seq<B>, count: nat): map<B, nat> {
    refs + map b | b in blocks :: count
  }

  /** Allocation fails exactly when the free list is too short, and otherwise yields the fresh table. */
  lemma AllocateSequenceForm<B>(p: Pool<B>, n: nat, refCount: nat, window: Option<nat>)
    requires window.Some? ==> window.value > 0
    ensures AllocateSequence(p, [], n, refCount, window)
            == if Need(n, window) <= |p.free| then
                 var t := FreshTable(p.free, n, window);
                 Ok((Pool(p.free[..|p.free| - Need(n, window)], WithCount(p.refs, t, refCount)), t))
               else Err(OutOfMemory)
  {
    assert Pool(p.free[..|p.free| - Need(0, window)],
                WithCount(p.refs, FreshTable(p.free, 0, window), refCount)) == p;
    AllocateSequenceFrom(p, 0, n, refCount, window);
  }

  lemma {:induction false} AllocateSequenceFrom<B>(p: Pool<B>, k: nat, n: nat, refCount: nat, window: Option<nat>)
    requires window.Some? ==> window.value > 0
    requires k <= n && Need(k, window) <= |p.free|
    ensures AllocateSequence(
              Pool(p.free[..|p.free| - Need(k, window)], WithCount(p.refs, FreshTable(p.free, k, window), refCount)),
              FreshTable(p.free, k, window), n, refCount, window)
            == if Need(n, window) <= |p.free| then
                 var t := FreshTable(p.free, n, window);
                 Ok((Pool(p.free[..|p.free| - Need(n, window)], WithCount(p.refs, t, refCount)), t))
               else Err(OutOfMemory)
    decreases n - k
  {
    if k < n && (Need(k + 1, window) <= |p.free|) {
      FreshTableStep(p, k, refCount, window);
      AllocateSequenceFrom(p, k + 1, n, refCount, window);
    }
  }

  /** One round of the loop moves from the fresh table of `k` blocks to that of `k + 1`. */
  lemma FreshTableStep<B>(p: Pool<B>, k: nat, refCount: nat, window: Option<nat>)
    requires window.Some? ==> window.value > 0
    requires Need(k + 1, window) <= |p.free|
    ensures var t, t' := FreshTable(p.free, k, window), FreshTable(p.free, k + 1, window);
            var q := Pool(p.free[..|p.free| - Need(k, window)], WithCount(p.refs, t, refCount));
            var q' := Pool(p.free[..|p.free| - Need(k + 1, window)], WithCount(p.refs, t', refCount));
            forall n :: n > k ==>
              AllocateSequence(q, t, n, refCount, window) == AllocateSequence(q', t', n, refCount, window)
  {
    var b := p.free[|p.free| - 1 - RingIndex(k, window)];
    var t, t' := FreshTable(p.free, k, window), FreshTable(p.free, k + 1, window);
    assert t' == t + [b];
    WithCountStep(p.refs, t, b, refCount);
    var q := Pool(p.free[..|p.free| - Need(k, window)], WithCount(p.refs, t, refCount));
    if window.Some? && k >= window.value {
      assert t[k % window.value] == b;
    } else {
      assert q.free[|q.free| - 1] == b;
      assert q.free[..|q.free| - 1] == p.free[..|p.free| - Need(k + 1, window)];
    }
  }

  lemma WithCountStep<B>(refs: map<B, nat>, t: seq<B>, b: B, count: nat)
    ensures WithCount(refs, t, count)[b := count] == WithCount(refs, t + [b], count)
    ensures WithCount(refs, t, count)[b := 1][b := count] == WithCount(refs, t + [b], count)
  {
  }

  /** The fresh table and what is left of the free list split the free list. */
  lemma FreshTableSplits<B>(free: seq<B>, n: nat, window: Option<nat>)
    requires NoDup(free)
    requires window.Some? ==> window.value > 0
    requires Need(n, window) <= |free|
    ensures var t := FreshTable(free, n, window);
            var rest := free[..|free| - Need(n, window)];
            && (forall b :: b in t ==> b in free && b !in rest)
            && (forall b :: b in free ==> b in t || b in rest)
            && (forall b :: b in rest ==> b in free)
            && NoDup(rest)
            && (window.None? ==> NoDup(t))
  {
    var t := FreshTable(free, n, window);
    var rest := free[..|free| - Need(n, window)];
    forall b | b in free
      ensures b in t || b in rest
    {
      var i :| 0 <= i < |free| && free[i] == b;
      if i >= |free| - Need(n, window) {
        assert t[|free| - 1 - i] == b;
      } else {
        assert rest[i] == b;
      }
    }
    forall b | b in t
      ensures b in free && b !in rest
    {
      var j :| 0 <= j < |t| && t[j] == b;
      var i := |free| - 1 - RingIndex(j, window);
      assert free[i] == b && i >= |rest|;
    }
  }

  /** Giving blocks off the free list to as many new owners as their count says keeps the counts right. */
  lemma NewTablesConserve<B>(s: State<B>, owners: set<TableId>, t: seq<B>, rest: seq<B>)
    requires Conserved(s)
    requires owners !! s.tables.Keys && owners != {}
    requires NoDup(rest)
    requires forall b :: b in t ==> b in s.gpu.free && b !in rest
    requires forall b :: b in s.gpu.free ==> b in t || b in rest
    requires forall b :: b in rest ==> b in s.gpu.free
    ensures var p := Pool(rest, WithCount(s.gpu.refs, t, |owners|));
            && Conserved(State(p, s.cpu, Assign(s.tables, owners, t)))
            && p.refs.Keys == s.gpu.refs.Keys
            && Resident(p, t)
  {
    var p := Pool(rest, WithCount(s.gpu.refs, t, |owners|));
    assert p.refs.Keys == s.gpu.refs.Keys;
    assert forall b :: b in p.refs ==> p.refs[b] == if b in t then |owners| else s.gpu.refs[b];
    assert Wf(p);
    var tables := Assign(s.tables, owners, t);
    forall b | b in s.gpu.refs || b in s.cpu.refs
      ensures |Holders(tables, b)| == |Holders(s.tables, b)| + (if b in t then |owners| else 0)
    {
      HoldersAssign(s.tables, owners, t, b);
    }
  }

  /** The requests `allocate` is made for: fresh ids, and every sequence of the group waiting. */
  ghost predicate Allocatable<B>(s: State<B>, g: Group) {
    && g.seqs != []
    && (forall q :: q in g.seqs ==> q.status == Waiting && SelfTable(q.id) !in s.tables)
    && (forall i, j :: 0 <= i < j < |g.seqs| ==> g.seqs[i].id != g.seqs[j].id)
    && CrossTable(g.requestId) !in s.tables
  }

  lemma {:induction false} AllWithStatus(seqs: seq<Sequence>, status: Status)
    requires forall q :: q in seqs ==> q.status == status
    ensures WithStatus(seqs, status) == seqs
  {
    if seqs != [] {
      assert seqs == seqs[..|seqs| - 1] + [seqs[|seqs| - 1]];
      AllWithStatus(seqs[..|seqs| - 1], status);
    }
  }

  ghost function Decoder(g: Group): set<TableId> {
    Elems(SelfTables(g.seqs))
  }

  lemma SelfTablesCardinality(seqs: seq<Sequence>)
    requires forall i, j :: 0 <= i < j < |seqs| ==> seqs[i].id != seqs[j].id
    ensures |Elems(SelfTables(seqs))| == |seqs|
  {
    ElemsCardinality(SelfTables(seqs));
  }

  /** The state after a fresh table of `n` blocks, counted `count` times, has been given to the owners. */
  ghost function Handed<B>(s: State<B>, owners: set<TableId>, n: nat, window: Option<nat>, count: nat): State<B>
    requires (window.Some? ==> window.value > 0) && Need(n, window) <= |s.gpu.free|
  {
    var t := FreshTable(s.gpu.free, n, window);
    State(Pool(s.gpu.free[..|s.gpu.free| - Need(n, window)], WithCount(s.gpu.refs, t, count)), s.cpu,
          Assign(s.tables, owners, t))
  }

  /** The same with the right count. */
  ghost function Grant<B>(s: State<B>, owners: set<TableId>, n: nat, window: Option<nat>): State<B>
    requires (window.Some? ==> window.value > 0) && Need(n, window) <= |s.gpu.free|
  {
    Handed(s, owners, n, window, |owners|)
  }

  lemma GrantConserves<B>(s: State<B>, owners: set<TableId>, n: nat, window: Option<nat>)
    requires Conserved(s)
    requires window.Some? ==> window.value > 0
    requires owners !! s.tables.Keys && owners != {}
    requires Need(n, window) <= |s.gpu.free|
    ensures var r := Grant(s, owners, n, window);
            var t := FreshTable(s.gpu.free, n, window);
            && Conserved(r)
            && r.gpu.refs.Keys == s.gpu.refs.Keys
            && |r.gpu.free| == |s.gpu.free| - Need(n, window)
            && Resident(r.gpu, t)
            && (window.None? ==> NoDup(t))
            && (forall b :: b in t ==> b in s.gpu.refs && s.gpu.refs[b] == 0)
  {
    FreshTableSplits(s.gpu.free, n, window);
    NewTablesConserve(s, owners, FreshTable(s.gpu.free, n, window), s.gpu.free[..|s.gpu.free| - Need(n, window)]);
  }

  ghost function SelfBlocks(c: Config, g: Group): nat
    requires g.seqs != []
  {
    Need(NBlocks(g.seqs[0].len, c.blockSize), c.window)
  }

  ghost function CrossBlocks(c: Config, g: Group): nat {
    if g.encoderLen.Some? then NBlocks(g.encoderLen.value, c.blockSize) else 0
  }

  /** The state after every sequence of the group got one fresh table, and the request another. */
  ghost function Granted<B>(s: State<B>, c: Config, g: Group): State<B>
    requires g.seqs != [] && SelfBlocks(c, g) + CrossBlocks(c, g) <= |s.gpu.free|
  {
    var s1 := Grant(s, Decoder(g), NBlocks(g.seqs[0].len, c.blockSize), c.window);
    if g.encoderLen.None? then s1
    else Grant(s1, {CrossTable(g.requestId)}, CrossBlocks(c, g), None)
  }

  lemma AllocateSequenceGrants<B>(s: State<B>, owners: set<TableId>, n: nat, window: Option<nat>)
    requires window.Some? ==> window.value > 0
    ensures var r := AllocateSequence(s.gpu, [], n, |owners|, window);
            if Need(n, window) <= |s.gpu.free| then
              && r.Ok?
              && State(r.value.0, s.cpu, Assign(s.tables, owners, r.value.1)) == Grant(s, owners, n, window)
            else r == Err(OutOfMemory)
  {
    AllocateSequenceForm(s.gpu, n, |owners|, window);
  }

  lemma AssignOne<B>(tables: map<TableId, seq<B>>, o: TableId, t: seq<B>)
    ensures Assign(tables, {o}, t) == tables[o := t]
  {
  }

  /** `allocate` runs out of memory exactly when the free list is shorter than the blocks it needs. */
  lemma AllocateForm<B>(s: State<B>, c: Config, g: Group)
    requires Allocatable(s, g)
    requires g.encoderLen.Some? ==> c.window.None?
    ensures Allocate(s, c, g)
            == if SelfBlocks(c, g) + CrossBlocks(c, g) <= |s.gpu.free| then Ok(Granted(s, c, g))
               else Err(OutOfMemory)
  {
    hide NBlocks, FreshTable, WithCount, Assign, AllocateSequence, WithStatus, Elems, SelfTables;
    AllWithStatus(g.seqs, Waiting);
    SelfTablesCardinality(g.seqs);
    var n := NBlocks(g.seqs[0].len, c.blockSize);
    AllocateSequenceGrants(s, Decoder(g), n, c.window);
    if Need(n, c.window) <= |s.gpu.free| && g.encoderLen.Some? {
      var s1 := Grant(s, Decoder(g), n, c.window);
      var cross := CrossTable(g.requestId);
      AllocateSequenceGrants(s1, {cross}, CrossBlocks(c, g), None);
      var r := AllocateSequence(s1.gpu, [], CrossBlocks(c, g), 1, None);
      if r.Ok? {
        AssignOne(s1.tables, cross, r.value.1);
      }
    }
  }

  /** Without a window for encoders, `allocate` keeps the counts or is out of memory. */
  lemma AllocateConserves<B>(s: State<B>, c: Config, g: Group)
    requires Conserved(s) && Allocatable(s, g) && (g.encoderLen.Some? ==> c.window.None?)
    ensures var r := Allocate(s, c, g); if r.Ok? then Conserved(r.value) else r == Err(OutOfMemory)
  {
    hide NBlocks, Conserved, Allocate, Allocatable, WithStatus, Granted;
    AllocateForm(s, c, g);
    AllNew(s, g);
    if Allocate(s, c, g).Ok? {
      AllocateConservesIff(s, c, g);
    }
  }

  lemma AllNew<B>(s: State<B>, g: Group)
    requires Allocatable(s, g)
    ensures WithStatus(g.seqs, Waiting) == g.seqs && NewIds(s, g.seqs)
    ensures CrossTable(g.requestId) !in s.tables && g.seqs != [] && forall q :: q in g.seqs ==> q.status == Waiting
  {
    AllWithStatus(g.seqs, Waiting);
  }

  lemma {:induction false} FewerWithStatus(seqs: seq<Sequence>, status: Status)
    requires exists q :: q in seqs && q.status != status
    ensures |WithStatus(seqs, status)| < |seqs|
  {
    var init, last := seqs[..|seqs| - 1], seqs[|seqs| - 1];
    assert seqs == init + [last];
    if last.status == status {
      FewerWithStatus(init, status);
    }
  }

  ghost predicate NewIds<B>(s: State<B>, w: seq<Sequence>) {
    && (forall q :: q in w ==> SelfTable(q.id) !in s.tables)
    && (forall i, j :: 0 <= i < j < |w| ==> w[i].id != w[j].id)
  }

  lemma NewOwnersOf<B>(s: State<B>, w: seq<Sequence>)
    requires NewIds(s, w) && w != []
    ensures var owners := Elems(SelfTables(w)); owners !! s.tables.Keys && owners != {} && |owners| == |w|
    ensures forall o :: o in Elems(SelfTables(w)) ==> o.SelfTable?
  {
    SelfTablesCardinality(w);
    assert SelfTables(w)[0] in Elems(SelfTables(w));
  }

  /** What `allocate` does to any group: the table for the waiting sequences, and the cross table. */
  lemma AllocateHands<B>(s: State<B>, c: Config, g: Group)
    requires Allocate(s, c, g).Ok?
    ensures var w := WithStatus(g.seqs, Waiting);
            && w != [] && Need(NBlocks(w[0].len, c.blockSize), c.window) <= |s.gpu.free|
            && var s1 := Handed(s, Elems(SelfTables(w)), NBlocks(w[0].len, c.blockSize), c.window, |g.seqs|);
            if g.encoderLen.None? then Allocate(s, c, g).value == s1
            else
              && Need(CrossBlocks(c, g), None) <= |s1.gpu.free|
              && Allocate(s, c, g).value == Handed(s1, {CrossTable(g.requestId)}, CrossBlocks(c, g), None, 1)
  {
    hide NBlocks, FreshTable, Assign, WithStatus, WithCount, Elems, SelfTables, AllocateSequence;
    var w := WithStatus(g.seqs, Waiting);
    AllocateSequenceForm(s.gpu, NBlocks(w[0].len, c.blockSize), |g.seqs|, c.window);
    if g.encoderLen.Some? {
      var s1 := Handed(s, Elems(SelfTables(w)), NBlocks(w[0].len, c.blockSize), c.window, |g.seqs|);
      AllocateSequenceForm(s1.gpu, CrossBlocks(c, g), 1, None);
      AssignOne(s1.tables, CrossTable(g.requestId), FreshTable(s1.gpu.free, CrossBlocks(c, g), None));
    }
  }

  /** Handing out a table with a count keeps the counts right exactly if the count is the number of owners. */
  lemma HandedConserves<B>(s: State<B>, owners: set<TableId>, n: nat, window: Option<nat>, count: nat)
    requires Conserved(s) && owners !! s.tables.Keys && owners != {}
    requires (window.Some? ==> window.value > 0) && Need(n, window) <= |s.gpu.free|
    ensures Conserved(Handed(s, owners, n, window, count)) <==> count == |owners| || n == 0
  {
    hide Conserved, Assign, FreshTable;
    var t, rest := FreshTable(s.gpu.free, n, window), s.gpu.free[..|s.gpu.free| - Need(n, window)];
    FreshTableApart(s, n, window);
    NewTablesConserve(s, owners, t, rest);
    if n == 0 {
      assert t == [];
      assert WithCount(s.gpu.refs, t, count) == WithCount(s.gpu.refs, t, |owners|);
    } else if count != |owners| {
      MiscountBreaks(s, owners, t, rest, count);
    }
  }

  /**
   * The count given to the blocks is the number of all sequences of the group, but only the waiting
   * ones get the table: the counts stay right exactly if every sequence waits (or there are no blocks).
   */
  lemma AllocateConservesIff<B>(s: State<B>, c: Config, g: Group)
    requires Conserved(s) && Allocate(s, c, g).Ok? && NewIds(s, WithStatus(g.seqs, Waiting))
    requires CrossTable(g.requestId) !in s.tables
    ensures WithStatus(g.seqs, Waiting) != []
    ensures Conserved(Allocate(s, c, g).value) <==>
            (forall q :: q in g.seqs ==> q.status == Waiting) || WithStatus(g.seqs, Waiting)[0].len == 0
  {
    hide NBlocks, Conserved, Handed, NewIds, Allocate, Elems, SelfTables;
    var w := WithStatus(g.seqs, Waiting);
    AllocateHands(s, c, g);
    var n, owners, cross := NBlocks(w[0].len, c.blockSize), Elems(SelfTables(w)), CrossTable(g.requestId);
    NewOwnersOf(s, w);
    HandedConserves(s, owners, n, c.window, |g.seqs|);
    NoBlocksForNothing(w[0].len, c.blockSize);
    if forall q :: q in g.seqs ==> q.status == Waiting {
      AllWithStatus(g.seqs, Waiting);
    } else {
      FewerWithStatus(g.seqs, Waiting);
    }
    if g.encoderLen.Some? {
      CrossConserves(s, owners, n, c.window, |g.seqs|, cross, CrossBlocks(c, g));
    }
  }

  /** The cross table changes nothing about whether the counts are right. */
  lemma CrossConserves<B>(s: State<B>, owners: set<TableId>, n: nat, window: Option<nat>, count: nat, o: TableId,
          m: nat)
    requires Conserved(s) && owners !! s.tables.Keys && owners != {} && o !in s.tables && o !in owners
    requires (window.Some? ==> window.value > 0) && Need(n, window) <= |s.gpu.free|
    requires m <= |Handed(s, owners, n, window, count).gpu.free|
    ensures Conserved(Handed(Handed(s, owners, n, window, count), {o}, m, None, 1)) <==> count == |owners| || n == 0
  {
    hide Conserved, Handed;
    HandedTables(s, owners, n, window, count);
    HandedConserves(s, owners, n, window, count);
    if count == |owners| || n == 0 {
      HandedConserves(Handed(s, owners, n, window, count), {o}, m, None, 1);
    } else {
      MiscountStays(s, owners, n, window, count, o, m);
    }
  }

  lemma HandedTables<B>(s: State<B>, owners: set<TableId>, n: nat, window: Option<nat>, count: nat)
    requires (window.Some? ==> window.value > 0) && Need(n, window) <= |s.gpu.free|
    ensures Handed(s, owners, n, window, count).tables.Keys == s.tables.Keys + owners
  {
  }

  /** A second table, right in itself, does not mend the first. */
  lemma MiscountStays<B>(s: State<B>, owners: set<TableId>, n: nat, window: Option<nat>, count: nat, o: TableId, m: nat)
    requires Conserved(s) && owners !! s.tables.Keys && n > 0 && count != |owners| && o !in s.tables && o !in owners
    requires (window.Some? ==> window.value > 0) && Need(n, window) <= |s.gpu.free|
    requires m <= |Handed(s, owners, n, window, count).gpu.free|
    ensures !Conserved(Handed(Handed(s, owners, n, window, count), {o}, m, None, 1))
  {
    hide FreshTable, WithCount;
    var s1 := Handed(s, owners, n, window, count);
    var t, x := FreshTable(s.gpu.free, n, window), FreshTable(s1.gpu.free, m, None);
    FreshTableApart(s, n, window);
    FreshTableSplits(s1.gpu.free, m, None);
    var b := t[0];
    assert b in t && b in s.gpu.refs && s.gpu.refs[b] == 0 && b !in x;
    HoldersAssign(s.tables, owners, t, b);
    HoldersAssign(s1.tables, {o}, x, b);
    assert |Holders(s.tables, b)| == 0;
    CountOf(s.gpu.refs, t, count, b);
    CountOf(s1.gpu.refs, x, 1, b);
  }

  lemma CountOf<B>(refs: map<B, nat>, blocks: seq<B>, count: nat, b: B)
    requires b in refs
    ensures b in WithCount(refs, blocks, count)
    ensures WithCount(refs, blocks, count)[b] == if b in blocks then count else refs[b]
  {
  }

  /** Such a group, in any state with room for it: one sequence waiting, one finished. */
  lemma FinishedSequenceMiscounts<B>(s: State<B>, c: Config, q: Sequence, r: Sequence, request: string)
    requires Conserved(s) && q.status == Waiting && r.status == Finished && q.len > 0
    requires SelfTable(q.id) !in s.tables && CrossTable(request) !in s.tables
    requires Need(NBlocks(q.len, c.blockSize), c.window) <= |s.gpu.free|
    ensures var a := Allocate(s, c, Group(request, [q, r], None)); a.Ok? && !Conserved(a.value)
  {
    hide NBlocks, Conserved, AllocateSequence, WithStatus;
    OneWaits(q, r);
    AllocateSequenceForm(s.gpu, NBlocks(q.len, c.blockSize), 2, c.window);
    var g := Group(request, [q, r], None);
    AllocateConservesIff(s, c, g);
    assert g.seqs[1] in g.seqs;
  }

  lemma OneWaits(q: Sequence, r: Sequence)
    requires q.status == Waiting && r.status != Waiting
    ensures WithStatus([q, r], Waiting) == [q]
  {
    assert [q, r][..1] == [q] && [q][..0] == [];
    assert WithStatus([q], Waiting) == [q];
  }

  lemma NoBlocksForNothing(len: nat, bs: nat)
    requires bs > 0
    ensures NBlocks(len, bs) == 0 <==> len == 0
  {
  }

  lemma FreshTableApart<B>(s: State<B>, n: nat, window: Option<nat>)
    requires Conserved(s) && (window.Some? ==> window.value > 0) && Need(n, window) <= |s.gpu.free|
    ensures var t, rest := FreshTable(s.gpu.free, n, window), s.gpu.free[..|s.gpu.free| - Need(n, window)];
            && NoDup(rest) && (forall b :: b in t ==> b in s.gpu.free && b !in rest)
            && (forall b :: b in s.gpu.free ==> b in t || b in rest) && (forall b :: b in rest ==> b in s.gpu.free)
  {
    FreshTableSplits(s.gpu.free, n, window);
  }

  /** A count that is not the number of owners is wrong. */
  lemma MiscountBreaks<B>(s: State<B>, owners: set<TableId>, t: seq<B>, rest: seq<B>, count: nat)
    requires Conserved(s) && owners !! s.tables.Keys && t != [] && count != |owners|
    requires forall b :: b in t ==> b in s.gpu.free
    ensures !Conserved(State(Pool(rest, WithCount(s.gpu.refs, t, count)), s.cpu, Assign(s.tables, owners, t)))
  {
    var b := t[0];
    assert b in t && b in s.gpu.refs && s.gpu.refs[b] == 0;
    HoldersAssign(s.tables, owners, t, b);
    assert |Holders(s.tables, b)| == 0;
    assert WithCount(s.gpu.refs, t, count)[b] == count;
  }

  // ----- changing one table

  /** The counts moved exactly as the table of `o` changed to `t`. */
  ghost predicate Moved<B>(p: Pool<B>, q: Pool<B>, before: seq<B>, after: seq<B>) {
    && Wf(q)
    && q.refs.Keys == p.refs.Keys
    && (forall b :: b in p.refs ==> q.refs[b] == p.refs[b] + Bit(b in after) - Bit(b in before))
  }

  ghost function TableOf<B>(tables: map<TableId, seq<B>>, o: TableId): seq<B> {
    if o in tables then tables[o] else []
  }

  lemma RetableConserves<B>(s: State<B>, s': State<B>, o: TableId, t: seq<B>)
    requires Conserved(s)
    requires s'.tables == s.tables[o := t]
    requires Moved(s.gpu, s'.gpu, TableOf(s.tables, o), t)
    requires Moved(s.cpu, s'.cpu, TableOf(s.tables, o), t)
    requires Known(s, t)
    ensures Conserved(s')
  {
    forall b | b in s.gpu.refs || b in s.cpu.refs
      ensures |Holders(s'.tables, b)| == |Holders(s.tables, b)| + Bit(b in t) - Bit(b in TableOf(s.tables, o))
    {
      HoldersUpdate(s.tables, o, t, b);
    }
  }

  /** A block of count zero is in no table; a block of count one in at most one. */
  lemma CountBoundsHolders<B>(s: State<B>, b: B, o: TableId, o': TableId)
    requires Conserved(s) && b in s.gpu.refs
    requires o in s.tables && b in s.tables[o]
    ensures s.gpu.refs[b] > 0
    ensures o' in s.tables && o' != o && b in s.tables[o'] ==> s.gpu.refs[b] > 1
  {
    var h := Holders(s.tables, b);
    assert o in h;
    if o' in s.tables && o' != o && b in s.tables[o'] {
      TwoMembers(h, o, o');
    }
  }

  // ----- append_slots

  /** A table that the scheduler may append to, for a sequence that has grown to `len` tokens. */
  ghost predicate Appendable<B>(s: State<B>, c: Config, o: TableId, len: nat) {
    && o in s.tables && Resident(s.gpu, s.tables[o]) && NoDup(s.tables[o])
    && 0 < len
    && (|s.tables[o]| == NBlocks(len, c.blockSize) || |s.tables[o]| + 1 == NBlocks(len, c.blockSize))
  }

  /** Whether the append must take a block off the free list. */
  ghost predicate AppendTakes<B>(s: State<B>, c: Config, o: TableId, len: nat)
    requires Appendable(s, c, o, len)
  {
    var t := s.tables[o];
    |t| < NBlocks(len, c.blockSize) || t == [] || s.gpu.refs[t[|t| - 1]] != 1
  }

  /** The blocks before the last one, which an append leaves alone. */
  ghost function Settled<B>(s: State<B>, c: Config, o: TableId, len: nat): seq<B>
    requires Appendable(s, c, o, len)
  {
    var t := s.tables[o];
    if |t| < NBlocks(len, c.blockSize) || t == [] then t else t[..|t| - 1]
  }

  lemma NBlocksPositive(len: nat, blockSize: nat)
    requires blockSize > 0 && len > 0
    ensures NBlocks(len, blockSize) > 0
  {
  }

  /**
   * Appending without a window: out of memory exactly when a block is needed and none is free;
   * otherwise the last block of the sequence becomes its own and all counts stay right.
   */
  lemma AppendSlotsKeeps<B>(s: State<B>, c: Config, o: TableId, len: nat)
    requires Conserved(s) && c.window.None? && Appendable(s, c, o, len)
    ensures var r := AppendSlots(s, c, o, len);
            var t := s.tables[o];
            if AppendTakes(s, c, o, len) && s.gpu.free == [] then r == Err(OutOfMemory)
            else
              && r.Ok?
              && var (s', copies) := r.value;
              && Conserved(s')
              && s'.gpu.refs.Keys == s.gpu.refs.Keys && s'.cpu == s.cpu
              && |s'.gpu.free| == |s.gpu.free| - Bit(AppendTakes(s, c, o, len))
              && (if AppendTakes(s, c, o, len) then
                    var b := s.gpu.free[|s.gpu.free| - 1];
                    && s.gpu.refs[b] == 0 && s'.gpu.refs[b] == 1
                    && s'.tables == s.tables[o := Settled(s, c, o, len) + [b]]
                    && (if |t| < NBlocks(len, c.blockSize) then
                          copies == [] && s'.gpu.refs == s.gpu.refs[b := 1]
                        else
                          var last := t[|t| - 1];
                          && copies == [(last, b)] && s.gpu.refs[last] > 1
                          && s'.gpu.refs == s.gpu.refs[b := 1][last := s.gpu.refs[last] - 1])
                  else s' == s && copies == [])
  {
    hide Conserved, NBlocks, NoDup;
    NBlocksPositive(len, c.blockSize);
    var t := s.tables[o];
    if AppendTakes(s, c, o, len) && s.gpu.free != [] {
      if |t| < NBlocks(len, c.blockSize) {
        ExtendKeeps(s, o);
      } else {
        CopyOnWriteKeeps(s, o);
      }
    }
  }

  lemma ExtendKeeps<B>(s: State<B>, o: TableId)
    requires Conserved(s) && s.gpu.free != [] && o in s.tables
    ensures var (p, b) := Take(s.gpu).value;
            && s.gpu.refs[b] == 0 && p.refs[b] == 1
            && p.refs.Keys == s.gpu.refs.Keys
            && Conserved(State(p, s.cpu, s.tables[o := s.tables[o] + [b]]))
  {
    TakeWf(s.gpu);
    var (p, b) := Take(s.gpu).value;
    FreeBlockUnheld(s, b);
    AppendedCounts(s.tables[o], b);
    RetableConserves(s, State(p, s.cpu, s.tables[o := s.tables[o] + [b]]), o, s.tables[o] + [b]);
  }

  lemma CopyOnWriteKeeps<B>(s: State<B>, o: TableId)
    requires Conserved(s) && s.gpu.free != [] && o in s.tables && s.tables[o] != []
    requires NoDup(s.tables[o]) && Resident(s.gpu, s.tables[o])
    requires var t := s.tables[o]; s.gpu.refs[t[|t| - 1]] != 1
    ensures var (p, b) := Take(s.gpu).value;
            var t := s.tables[o];
            var r := Release(p, t[|t| - 1]);
            && s.gpu.refs[b] == 0
            && s.gpu.refs[t[|t| - 1]] > 1
            && r.Ok? && r.value.refs == p.refs[t[|t| - 1] := s.gpu.refs[t[|t| - 1]] - 1]
            && r.value.refs.Keys == s.gpu.refs.Keys
            && r.value.free == p.free && r.value.refs[b] == 1
            && Conserved(State(r.value, s.cpu, s.tables[o := t[..|t| - 1] + [b]]))
  {
    TakeWf(s.gpu);
    var (p, b) := Take(s.gpu).value;
    FreeBlockUnheld(s, b);
    var t := s.tables[o];
    var last := t[|t| - 1];
    assert last in t;
    CountBoundsHolders(s, last, o, o);
    ReleaseWf(p, last);
    ReplacedCounts(t, |t| - 1, b);
    var t' := t[..|t| - 1] + [b];
    assert t' == t[|t| - 1 := b];
    RetableConserves(s, State(Release(p, last).value, s.cpu, s.tables[o := t']), o, t');
  }

  lemma FreeBlockUnheld<B>(s: State<B>, b: B)
    requires Conserved(s) && b in s.gpu.free
    ensures forall o :: o in s.tables ==> b !in s.tables[o]
  {
    assert Holders(s.tables, b) == {};
    forall o | o in s.tables
      ensures b !in s.tables[o]
    {
      assert o !in Holders(s.tables, b);
    }
  }

  lemma AppendedCounts<B>(t: seq<B>, b: B)
    requires b !in t
    ensures forall x :: Bit(x in t + [b]) == Bit(x in t) + Bit(x == b)
  {
  }

  lemma ReplacedCounts<B>(t: seq<B>, i: nat, b: B)
    requires NoDup(t) && i < |t| && b !in t
    ensures NoDup(t[i := b])
    ensures forall x :: Bit(x in t[i := b]) == Bit(x in t) + Bit(x == b) - Bit(x == t[i])
  {
    var t' := t[i := b];
    forall x
      ensures Bit(x in t') == Bit(x in t) + Bit(x == b) - Bit(x == t[i])
    {
      assert t'[i] == b;
      if x in t && x != t[i] {
        var j :| 0 <= j < |t| && t[j] == x;
        assert t'[j] == x;
      }
    }
  }

  /** An append that may be asked for keeps the counts or is out of memory. */
  lemma AppendSlotsOutcome<B>(s: State<B>, c: Config, o: TableId, len: nat)
    requires Conserved(s) && c.window.None? && Appendable(s, c, o, len)
    ensures var r := AppendSlots(s, c, o, len); if r.Ok? then Conserved(r.value.0) else r == Err(OutOfMemory)
  {
    hide NBlocks, Conserved, AppendSlots;
    AppendSlotsKeeps(s, c, o, len);
  }

  // ----- fork

  lemma ForkConserves<B>(s: State<B>, parent: TableId, child: TableId)
    requires Conserved(s) && child !in s.tables
    ensures var s' := Fork(s, parent, child);
            && Conserved(s')
            && s'.gpu.refs.Keys == s.gpu.refs.Keys && s'.cpu.refs.Keys == s.cpu.refs.Keys
            && s'.tables == (if parent in s.tables then s.tables[child := s.tables[parent]] else s.tables)
  {
    if parent in s.tables {
      RetainWf(s.gpu, s.tables, parent);
      RetainWf(s.cpu, s.tables, parent);
      RetableConserves(s, Fork(s, parent, child), child, s.tables[parent]);
    }
  }

  lemma RetainWf<B>(p: Pool<B>, tables: map<TableId, seq<B>>, o: TableId)
    requires Wf(p) && Counted(p, tables) && o in tables
    ensures Moved(p, Retain(p, tables[o]), [], tables[o])
  {
    forall b | b in p.refs && b in tables[o]
      ensures p.refs[b] > 0
    {
      assert o in Holders(tables, b);
    }
  }

  // ----- free

  /** The counts exceed the tables by exactly the blocks still to be freed. */
  ghost predicate Excess<B>(p: Pool<B>, tables: map<TableId, seq<B>>, order: seq<B>) {
    forall b :: b in p.refs ==> p.refs[b] == |Holders(tables, b)| + Bit(b in order)
  }

  lemma ReleaseExcess<B>(p: Pool<B>, tables: map<TableId, seq<B>>, order: seq<B>)
    requires Wf(p) && NoDup(order) && order != [] && Excess(p, tables, order)
    ensures order[0] in p.refs ==>
              && Release(p, order[0]).Ok?
              && var q := Release(p, order[0]).value;
                 Wf(q) && q.refs.Keys == p.refs.Keys && Excess(q, tables, order[1..])
    ensures order[0] !in p.refs ==> Excess(p, tables, order[1..])
  {
    assert order == [order[0]] + order[1..];
    assert order[0] !in order[1..];
    if order[0] in p.refs {
      ReleaseWf(p, order[0]);
    }
  }

  lemma {:induction false} ReleaseAllConserves<B>(gpu: Pool<B>, cpu: Pool<B>, order: seq<B>,
                                                   tables: map<TableId, seq<B>>)
    requires Wf(gpu) && Wf(cpu) && gpu.refs.Keys !! cpu.refs.Keys
    requires NoDup(order)
    requires forall b :: b in order ==> b in gpu.refs || b in cpu.refs
    requires Excess(gpu, tables, order) && Excess(cpu, tables, order)
    ensures var r := ReleaseAll(gpu, cpu, order);
            && r.Ok?
            && Wf(r.value.0) && Wf(r.value.1)
            && Counted(r.value.0, tables) && Counted(r.value.1, tables)
            && r.value.0.refs.Keys == gpu.refs.Keys && r.value.1.refs.Keys == cpu.refs.Keys
    decreases |order|
  {
    if order != [] {
      assert order[0] in order;
      ReleaseExcess(gpu, tables, order);
      ReleaseExcess(cpu, tables, order);
      if order[0] in gpu.refs {
        ReleaseAllConserves(Release(gpu, order[0]).value, cpu, order[1..], tables);
      } else {
        ReleaseAllConserves(gpu, Release(cpu, order[0]).value, order[1..], tables);
      }
    }
  }

  /** Freeing a table never reports a double free, and gives back exactly the blocks nobody else holds. */
  lemma FreeConserves<B>(s: State<B>, o: TableId, order: seq<B>)
    requires Conserved(s)
    requires o in s.tables ==> EnumeratesSet(order, s.tables[o])
    ensures var r := Free(s, o, order);
            && r.Ok? && Conserved(r.value)
            && r.value.tables == s.tables - {o}
            && r.value.gpu.refs.Keys == s.gpu.refs.Keys && r.value.cpu.refs.Keys == s.cpu.refs.Keys
  {
    if o in s.tables {
      forall b | b in s.gpu.refs || b in s.cpu.refs
        ensures |Holders(s.tables, b)| == |Holders(s.tables - {o}, b)| + Bit(b in order)
      {
        HoldersRemove(s.tables, o, b);
      }
      ReleaseAllConserves(s.gpu, s.cpu, order, s.tables - {o});
    } else {
      assert s.tables - {o} == s.tables;
    }
  }

  /** The listing has every table once, each with the set of its blocks in some order. */
  ghost predicate ListsAll<B>(s: State<B>, listing: seq<(TableId, seq<B>)>) {
    && (forall i, j :: 0 <= i < j < |listing| ==> listing[i].0 != listing[j].0)
    && (forall i :: 0 <= i < |listing| ==>
          listing[i].0 in s.tables && EnumeratesSet(listing[i].1, s.tables[listing[i].0]))
    && (forall o :: o in s.tables ==> exists i :: 0 <= i < |listing| && listing[i].0 == o)
  }

  lemma {:induction false} ResetFreesEverything<B>(s: State<B>, listing: seq<(TableId, seq<B>)>)
    requires Conserved(s) && ListsAll(s, listing)
    ensures var r := Reset(s, listing);
            && r.Ok? && Conserved(r.value) && r.value.tables == map[]
            && r.value.gpu.refs.Keys == s.gpu.refs.Keys
            && |r.value.gpu.free| == |s.gpu.refs|
            && r.value.cpu.refs.Keys == s.cpu.refs.Keys
            && |r.value.cpu.free| == |s.cpu.refs|
    decreases |listing|
  {
    if listing == [] {
      assert s.tables == map[];
      FreeCount(s.gpu, s.tables);
      FreeCount(s.cpu, s.tables);
      assert Held(s.gpu, s.tables) == {} == Held(s.cpu, s.tables);
    } else {
      var (o, order) := listing[0];
      FreeConserves(s, o, order);
      var s1 := Free(s, o, order).value;
      forall k | k in s1.tables
        ensures exists i :: 0 <= i < |listing[1..]| && listing[1..][i].0 == k
      {
        var i :| 0 <= i < |listing| && listing[i].0 == k;
        assert listing[1..][i - 1].0 == k;
      }
      ResetFreesEverything(s1, listing[1..]);
      assert |s1.gpu.refs| == |s1.gpu.refs.Keys| && |s1.cpu.refs| == |s1.cpu.refs.Keys|;
    }
  }
}
