/**
 * Every run of the block manager without prefix caching and without a window refines a map from
 * tables to private token lists.
 */
module Runs {
  import opened Wrappers
  import opened Holding
  import opened UncachedAllocator
  import opened BlockManager
  import opened Conservation
  import opened Swapping
  import opened Copying
  import opened Paging
  import opened Isolation
  import opened Appending
  import opened SwapReads
  import opened Prompts

  // ----- allocate

  /** New owners share one fresh table, filled with the tokens `vs`. */
  ghost function GrantWorld<B, V>(w: World<B, V>, c: Config, owners: set<TableId>, vs: seq<V>): World<B, V>
    requires NBlocks(|vs|, c.blockSize) <= |w.mgr.gpu.free|
  {
    var n := NBlocks(|vs|, c.blockSize);
    World(Grant(w.mgr, owners, n, None), Assign<nat>(w.lens, owners, |vs|),
          WriteTokens(w.store, FreshTable(w.mgr.gpu.free, n, None), vs, c.blockSize))
  }

  /** The new owners read `vs`; everybody else reads what they read before. */
  ghost predicate Admitted<B, V>(w: World<B, V>, c: Config, owners: set<TableId>, vs: seq<V>, w': World<B, V>) {
    && ValidWorld(w, c) && ValidWorld(w', c) && w'.mgr.tables.Keys == w.mgr.tables.Keys + owners
    && (forall o :: o in owners ==> Read(w', c, o) == vs)
    && (forall o :: o in w.mgr.tables ==> Read(w', c, o) == Read(w, c, o))
  }

  lemma GrantAdmits<B, V>(w: World<B, V>, c: Config, owners: set<TableId>, vs: seq<V>)
    requires ValidWorld(w, c) && owners !! w.mgr.tables.Keys && owners != {}
    requires NBlocks(|vs|, c.blockSize) <= |w.mgr.gpu.free|
    ensures Admitted(w, c, owners, vs, GrantWorld(w, c, owners, vs))
  {
    hide Read, ValidWorld, NBlocks, GrantWorld;
    var w' := GrantWorld(w, c, owners, vs);
    GrantValid(w, c, owners, vs);
    forall o | o in w.mgr.tables
      ensures Read(w', c, o) == Read(w, c, o)
    {
      GrantOthers(w, c, owners, vs, o);
    }
    forall o | o in owners
      ensures Read(w', c, o) == vs
    {
      GrantOwn(w, c, owners, vs, o);
    }
  }

  lemma GrantValid<B, V>(w: World<B, V>, c: Config, owners: set<TableId>, vs: seq<V>)
    requires ValidWorld(w, c) && owners !! w.mgr.tables.Keys && owners != {}
    requires NBlocks(|vs|, c.blockSize) <= |w.mgr.gpu.free|
    ensures ValidWorld(GrantWorld(w, c, owners, vs), c)
    ensures GrantWorld(w, c, owners, vs).mgr.tables.Keys == w.mgr.tables.Keys + owners
  {
    hide Conserved, FreshTable, NBlocks, WriteTokens, NoDup, Resident, WithCount, Shaped, Distinct, OneDevice;
    var n := NBlocks(|vs|, c.blockSize);
    var t := FreshTable(w.mgr.gpu.free, n, None);
    GrantConserves(w.mgr, owners, n, None);
    WriteTokensFrame(w.store, t, vs, c.blockSize);
    var w' := GrantWorld(w, c, owners, vs);
    GrantTables(w.mgr, owners, n);
    NewDevices(w.mgr, w'.mgr, owners, t);
    NewShape(w, w', c, owners, t, |vs|);
    assert StoreOk(w', c.blockSize);
  }

  lemma NewShape<B, V>(w: World<B, V>, w': World<B, V>, c: Config, owners: set<TableId>, t: seq<B>, len: nat)
    requires Shaped(w, c) && |t| == NBlocks(len, c.blockSize)
    requires w'.mgr.tables.Keys == w.mgr.tables.Keys + owners
    requires forall o :: o in w'.mgr.tables ==> w'.mgr.tables[o] == if o in owners then t else w.mgr.tables[o]
    requires w'.lens == Assign<nat>(w.lens, owners, len)
    ensures Shaped(w', c)
  {
  }

  lemma GrantTables<B>(s: State<B>, owners: set<TableId>, n: nat)
    requires n <= |s.gpu.free|
    ensures var s', t := Grant(s, owners, n, None), FreshTable(s.gpu.free, n, None);
            && s'.tables.Keys == s.tables.Keys + owners
            && (forall o :: o in s'.tables ==> s'.tables[o] == if o in owners then t else s.tables[o])
            && s'.cpu == s.cpu && |s'.gpu.free| == |s.gpu.free| - n
            && s'.gpu.free == s.gpu.free[..|s.gpu.free| - n]
  {
  }

  lemma NewDevices<B>(s: State<B>, s': State<B>, owners: set<TableId>, t: seq<B>)
    requires Distinct(s) && OneDevice(s) && NoDup(t) && Resident(s'.gpu, t)
    requires s'.gpu.refs.Keys == s.gpu.refs.Keys && s'.cpu.refs.Keys == s.cpu.refs.Keys
    requires s'.tables.Keys == s.tables.Keys + owners
    requires forall o :: o in s'.tables ==> s'.tables[o] == if o in owners then t else s.tables[o]
    ensures Distinct(s') && OneDevice(s')
  {
  }

  lemma GrantOthers<B, V>(w: World<B, V>, c: Config, owners: set<TableId>, vs: seq<V>, o: TableId)
    requires ValidWorld(w, c) && owners !! w.mgr.tables.Keys && owners != {}
    requires NBlocks(|vs|, c.blockSize) <= |w.mgr.gpu.free|
    requires ValidWorld(GrantWorld(w, c, owners, vs), c)
    requires o in w.mgr.tables && o in GrantWorld(w, c, owners, vs).mgr.tables
    ensures Read(GrantWorld(w, c, owners, vs), c, o) == Read(w, c, o)
  {
    hide Wf, Counted, Distinct, OneDevice, FreshTable, NBlocks, WriteTokens, Read, NoDup, WithCount;
    var n := NBlocks(|vs|, c.blockSize);
    var t := FreshTable(w.mgr.gpu.free, n, None);
    GrantConserves(w.mgr, owners, n, None);
    WriteTokensFrame(w.store, t, vs, c.blockSize);
    ContentsUniform(w, c, o);
    forall b | b in w.mgr.tables[o]
      ensures b !in t
    {
      if b in w.mgr.gpu.refs {
        CountBoundsHolders(w.mgr, b, o, o);
      }
    }
    ReadFrame(w, GrantWorld(w, c, owners, vs), c, o);
  }

  lemma GrantOwn<B, V>(w: World<B, V>, c: Config, owners: set<TableId>, vs: seq<V>, o: TableId)
    requires ValidWorld(w, c) && owners !! w.mgr.tables.Keys && o in owners
    requires NBlocks(|vs|, c.blockSize) <= |w.mgr.gpu.free|
    requires ValidWorld(GrantWorld(w, c, owners, vs), c) && o in GrantWorld(w, c, owners, vs).mgr.tables
    ensures Read(GrantWorld(w, c, owners, vs), c, o) == vs
  {
    hide Conserved, Distinct, OneDevice, FreshTable, NBlocks, WriteTokens, NoDup, WithCount, View, Contents;
    var n := NBlocks(|vs|, c.blockSize);
    var t := FreshTable(w.mgr.gpu.free, n, None);
    GrantConserves(w.mgr, owners, n, None);
    WriteTokensRead(w.store, t, vs, c.blockSize);
    assert GrantWorld(w, c, owners, vs).mgr.tables[o] == t;
    assert GrantWorld(w, c, owners, vs).lens[o] == |vs|;
  }

  ghost function Fill<B, V>(store: map<B, seq<V>>, t: seq<B>, vs: seq<V>, c: Config): map<B, seq<V>> {
    if |t| == NBlocks(|vs|, c.blockSize) then WriteTokens(store, t, vs, c.blockSize) else store
  }

  /** `allocate`, followed by writing the prompt (and the encoder prompt) at its slots. */
  ghost function AllocateStep<B, V>(w: World<B, V>, c: Config, g: Group, prompt: seq<V>, encoder: seq<V>)
    : Result<World<B, V>>
    requires g.seqs != []
  {
    var s :- Allocate(w.mgr, c, g);
    var first, cross := SelfTable(g.seqs[0].id), CrossTable(g.requestId);
    var store := Fill(w.store, TableOf(s.tables, first), prompt, c);
    var lens := Assign<nat>(w.lens, Decoder(g), |prompt|);
    if g.encoderLen.None? then Ok(World(s, lens, store))
    else Ok(World(s, Assign<nat>(lens, {cross}, |encoder|), Fill(store, TableOf(s.tables, cross), encoder, c)))
  }

  /** The prompts match the lengths in the group. */
  ghost predicate PromptsFit<V>(g: Group, prompt: seq<V>, encoder: seq<V>) {
    && g.seqs != [] && |prompt| == g.seqs[0].len
    && (g.encoderLen.Some? ==> |encoder| == g.encoderLen.value)
  }

  /** `allocate` is a grant to the sequences followed by a grant to the request. */
  lemma AllocateStepForm<B, V>(w: World<B, V>, c: Config, g: Group, prompt: seq<V>, encoder: seq<V>)
    requires c.window.None? && Allocatable(w.mgr, g) && PromptsFit(g, prompt, encoder)
    ensures var r := AllocateStep(w, c, g, prompt, encoder);
            if SelfBlocks(c, g) + CrossBlocks(c, g) <= |w.mgr.gpu.free| then
              var w1 := GrantWorld(w, c, Decoder(g), prompt);
              && CrossBlocks(c, g) <= |w1.mgr.gpu.free|
              && r == Ok(if g.encoderLen.None? then w1 else GrantWorld(w1, c, {CrossTable(g.requestId)}, encoder))
            else r == Err(OutOfMemory)
  {
    hide Allocate, FreshTable, WriteTokens, NBlocks, Grant, Assign, Allocatable;
    AllocateForm(w.mgr, c, g);
    if SelfBlocks(c, g) + CrossBlocks(c, g) <= |w.mgr.gpu.free| {
      var first := SelfTable(g.seqs[0].id);
      assert SelfTables(g.seqs)[0] == first;
      assert first in Decoder(g);
      GrantTables(w.mgr, Decoder(g), NBlocks(|prompt|, c.blockSize));
      var w1 := GrantWorld(w, c, Decoder(g), prompt);
      assert w1.mgr == Grant(w.mgr, Decoder(g), NBlocks(g.seqs[0].len, c.blockSize), c.window);
      if g.encoderLen.Some? {
        GrantTables(w1.mgr, {CrossTable(g.requestId)}, NBlocks(|encoder|, c.blockSize));
        assert first != CrossTable(g.requestId);
      }
    }
  }

  ghost predicate Allocated<B, V>(w: World<B, V>, c: Config, g: Group, prompt: seq<V>, encoder: seq<V>,
          w': World<B, V>) {
    && ValidWorld(w, c) && ValidWorld(w', c)
    && w'.mgr.tables.Keys == w.mgr.tables.Keys + Decoder(g)
                             + (if g.encoderLen.Some? then {CrossTable(g.requestId)} else {})
    && (forall o :: o in Decoder(g) ==> Read(w', c, o) == prompt)
    && (g.encoderLen.Some? ==> Read(w', c, CrossTable(g.requestId)) == encoder)
    && (forall o :: o in w.mgr.tables ==> Read(w', c, o) == Read(w, c, o))
  }

  lemma AllocateStepReads<B, V>(w: World<B, V>, c: Config, g: Group, prompt: seq<V>, encoder: seq<V>)
    requires ValidWorld(w, c) && c.window.None? && Allocatable(w.mgr, g) && PromptsFit(g, prompt, encoder)
    ensures var r := AllocateStep(w, c, g, prompt, encoder);
            if r.Ok? then Allocated(w, c, g, prompt, encoder, r.value)
            else r == Err(OutOfMemory) && |w.mgr.gpu.free| < SelfBlocks(c, g) + CrossBlocks(c, g)
  {
    hide ValidWorld, Read, GrantWorld, AllocateStep, NBlocks;
    AllocateStepForm(w, c, g, prompt, encoder);
    NewOwners(w.mgr, g);
    if SelfBlocks(c, g) + CrossBlocks(c, g) <= |w.mgr.gpu.free| {
      GrantAdmits(w, c, Decoder(g), prompt);
      var w1 := GrantWorld(w, c, Decoder(g), prompt);
      if g.encoderLen.Some? {
        GrantAdmits(w1, c, {CrossTable(g.requestId)}, encoder);
      }
    }
  }

  lemma NewOwners<B>(s: State<B>, g: Group)
    requires Allocatable(s, g)
    ensures Decoder(g) != {} && Decoder(g) !! s.tables.Keys && CrossTable(g.requestId) !in Decoder(g)
  {
    assert SelfTables(g.seqs)[0] in Decoder(g);
    forall o | o in Decoder(g)
      ensures o.SelfTable? && o !in s.tables
    {
      var i :| 0 <= i < |g.seqs| && SelfTables(g.seqs)[i] == o;
      assert g.seqs[i] in g.seqs;
    }
  }

  // ----- fork and free

  ghost function ForkStep<B, V>(w: World<B, V>, parent: TableId, child: TableId): World<B, V> {
    World(Fork(w.mgr, parent, child),
          if parent in w.mgr.tables && parent in w.lens then w.lens[child := w.lens[parent]] else w.lens, w.store)
  }

  ghost predicate Forked<B, V>(w: World<B, V>, c: Config, parent: TableId, child: TableId, w': World<B, V>) {
    && ValidWorld(w, c) && ValidWorld(w', c)
    && w'.mgr.tables.Keys == w.mgr.tables.Keys + (if parent in w.mgr.tables then {child} else {})
    && (parent in w.mgr.tables ==> Read(w', c, child) == Read(w, c, parent))
    && (forall o :: o in w.mgr.tables ==> Read(w', c, o) == Read(w, c, o))
  }

  lemma ForkStepReads<B, V>(w: World<B, V>, c: Config, parent: TableId, child: TableId)
    requires ValidWorld(w, c) && child !in w.mgr.tables
    ensures Forked(w, c, parent, child, ForkStep(w, parent, child))
  {
    hide Conserved, View, NBlocks, NoDup, Resident, Fork;
    ForkConserves(w.mgr, parent, child);
    var w' := ForkStep(w, parent, child);
    if parent in w.mgr.tables {
      NewDevicesResident(w.mgr, w'.mgr, parent, child);
      ContentsUniform(w, c, parent);
    } else {
      assert w'.mgr.tables.Keys == w.mgr.tables.Keys;
      SameDevices(w.mgr, w'.mgr);
    }
    assert Shaped(w', c) && StoreOk(w', c.blockSize);
  }

  lemma SameDevices<B>(s: State<B>, s': State<B>)
    requires Distinct(s) && OneDevice(s)
    requires s'.gpu.refs.Keys == s.gpu.refs.Keys && s'.cpu.refs.Keys == s.cpu.refs.Keys
    requires forall o :: o in s'.tables ==> o in s.tables && s'.tables[o] == s.tables[o]
    ensures Distinct(s') && OneDevice(s')
  {
  }

  lemma NewDevicesResident<B>(s: State<B>, s': State<B>, parent: TableId, child: TableId)
    requires Distinct(s) && OneDevice(s) && parent in s.tables
    requires s'.gpu.refs.Keys == s.gpu.refs.Keys && s'.cpu.refs.Keys == s.cpu.refs.Keys
    requires s'.tables == s.tables[child := s.tables[parent]]
    ensures Distinct(s') && OneDevice(s')
  {
  }

  ghost function FreeStep<B, V>(w: World<B, V>, o: TableId, order: seq<B>): Result<World<B, V>> {
    var s :- Free(w.mgr, o, order);
    Ok(World(s, w.lens - {o}, w.store))
  }

  ghost predicate Freed<B, V>(w: World<B, V>, c: Config, o: TableId, w': World<B, V>) {
    && ValidWorld(w, c) && ValidWorld(w', c) && w'.mgr.tables.Keys == w.mgr.tables.Keys - {o}
    && (forall k :: k in w.mgr.tables && k != o ==> Read(w', c, k) == Read(w, c, k))
  }

  lemma FreeStepReads<B, V>(w: World<B, V>, c: Config, o: TableId, order: seq<B>)
    requires ValidWorld(w, c)
    requires o in w.mgr.tables ==> EnumeratesSet(order, w.mgr.tables[o])
    ensures FreeStep(w, o, order).Ok? && Freed(w, c, o, FreeStep(w, o, order).value)
  {
    hide Conserved, View, NBlocks, NoDup, Resident, Free;
    FreeConserves(w.mgr, o, order);
    var w' := FreeStep(w, o, order).value;
    SameDevices(w.mgr, w'.mgr);
    assert Shaped(w', c) && StoreOk(w', c.blockSize);
    forall k | k in w.mgr.tables && k != o
      ensures Read(w', c, k) == Read(w, c, k)
    {
      ContentsUniform(w, c, k);
      ReadFrame(w, w', c, k);
    }
  }

  // ----- runs

  datatype Op<B, V> =
    | DoAllocate(group: Group, prompt: seq<V>, encoder: seq<V>)
    | DoAppend(news: News<V>)
    | DoFork(parent: TableId, child: TableId)
    | DoSwapOut(owners: seq<TableId>)
    | DoSwapIn(owners: seq<TableId>)
    | DoFree(o: TableId, order: seq<B>)

  /** When the scheduler issues the operation. */
  ghost predicate Enabled<B, V>(w: World<B, V>, op: Op<B, V>) {
    match op
    case DoAllocate(g, prompt, encoder) => Allocatable(w.mgr, g) && PromptsFit(g, prompt, encoder)
    case DoAppend(news) => AllRunning(w, news) && DistinctOwners(news)
    case DoFork(_, child) => child !in w.mgr.tables
    case DoSwapOut(owners) => Swappable(w.mgr, owners)
    case DoSwapIn(owners) => Swappable(Flip(w.mgr), owners)
    case DoFree(o, order) => o in w.mgr.tables ==> EnumeratesSet(order, w.mgr.tables[o])
  }

  /** One operation, with the returned copies carried out and the new tokens written. */
  ghost function Step<B, V>(w: World<B, V>, c: Config, op: Op<B, V>): Result<World<B, V>>
    requires Enabled(w, op)
  {
    match op
    case DoAllocate(g, prompt, encoder) => AllocateStep(w, c, g, prompt, encoder)
    case DoAppend(news) => AppendStep(w, c, news)
    case DoFork(parent, child) => Ok(ForkStep(w, parent, child))
    case DoSwapOut(owners) =>
      var (s, pairs) :- SwapOut(w.mgr, owners);
      Ok(World(s, w.lens, SequentialCopy(w.store, pairs)))
    case DoSwapIn(owners) =>
      var (s, pairs) :- SwapIn(w.mgr, owners);
      Ok(World(s, w.lens, SequentialCopy(w.store, pairs)))
    case DoFree(o, order) => FreeStep(w, o, order)
  }

  /** A private token list for every table. */
  type Lists<V> = map<TableId, seq<V>>

  ghost function Views<B, V>(w: World<B, V>, c: Config): Lists<V>
    requires ValidWorld(w, c)
  {
    map o | o in w.mgr.tables :: Read(w, c, o)
  }

  ghost function Extended<V>(lists: Lists<V>, news: News<V>): Lists<V> {
    if news == [] then lists
    else
      var (o, v) := news[|news| - 1];
      var rest := Extended(lists, news[..|news| - 1]);
      if o in rest then rest[o := rest[o] + [v]] else rest
  }

  /** What the operation means for private lists: the specification of the whole manager. */
  ghost function Ideal<B, V>(lists: Lists<V>, op: Op<B, V>): Lists<V> {
    match op
    case DoAllocate(g, prompt, encoder) =>
      var l := Assign(lists, Decoder(g), prompt);
      if g.encoderLen.Some? then l[CrossTable(g.requestId) := encoder] else l
    case DoAppend(news) => Extended(lists, news)
    case DoFork(parent, child) => if parent in lists then lists[child := lists[parent]] else lists
    case DoSwapOut(_) => lists
    case DoSwapIn(_) => lists
    case DoFree(o, _) => lists - {o}
  }

  lemma {:induction false} ExtendedAt<V>(lists: Lists<V>, news: News<V>)
    requires DistinctOwners(news)
    ensures Extended(lists, news).Keys == lists.Keys
    ensures forall o :: o in lists && !Mentions(news, o) ==> Extended(lists, news)[o] == lists[o]
    ensures forall i :: 0 <= i < |news| && news[i].0 in lists ==>
                          Extended(lists, news)[news[i].0] == lists[news[i].0] + [news[i].1]
    decreases |news|
  {
    if news != [] {
      var init := news[..|news| - 1];
      ExtendedAt(lists, init);
      assert forall i :: 0 <= i < |init| ==> init[i] == news[i];
      assert !Mentions(init, news[|news| - 1].0);
      assert Mentions(news, news[|news| - 1].0);
      forall o | o in lists && !Mentions(news, o)
        ensures Extended(lists, news)[o] == lists[o]
      {
        assert !Mentions(init, o);
      }
    }
  }

  ghost predicate Refined<B, V>(w: World<B, V>, c: Config, op: Op<B, V>, w': World<B, V>) {
    ValidWorld(w, c) && ValidWorld(w', c) && Views(w', c) == Ideal(Views(w, c), op)
  }

  lemma AllocateRefines<B, V>(w: World<B, V>, c: Config, op: Op<B, V>, w': World<B, V>)
    requires op.DoAllocate? && Allocated(w, c, op.group, op.prompt, op.encoder, w')
    ensures Refined(w, c, op, w')
  {
    hide ValidWorld, Read, Decoder;
  }

  lemma AppendRefines<B, V>(w: World<B, V>, c: Config, op: Op<B, V>, w': World<B, V>)
    requires op.DoAppend? && DistinctOwners(op.news) && Stepped(w, c, op.news, w')
    ensures Refined(w, c, op, w')
  {
    hide ValidWorld, Read, Extended;
    ExtendedAt(Views(w, c), op.news);
    forall o | o in w.mgr.tables
      ensures Views(w', c)[o] == Extended(Views(w, c), op.news)[o]
    {
      if Mentions(op.news, o) {
        var i :| 0 <= i < |op.news| && op.news[i].0 == o;
        assert Gained(w, w', c, op.news[i].0, op.news[i].1);
      } else {
        assert Same(w, w', c, o);
      }
    }
  }

  lemma ForkRefines<B, V>(w: World<B, V>, c: Config, op: Op<B, V>, w': World<B, V>)
    requires op.DoFork? && Forked(w, c, op.parent, op.child, w') && op.child !in w.mgr.tables
    ensures Refined(w, c, op, w')
  {
    hide ValidWorld, Read;
  }

  lemma FreeRefines<B, V>(w: World<B, V>, c: Config, op: Op<B, V>, w': World<B, V>)
    requires op.DoFree? && Freed(w, c, op.o, w')
    ensures Refined(w, c, op, w')
  {
    hide ValidWorld, Read;
  }

  lemma SwapRefines<B, V>(w: World<B, V>, c: Config, op: Op<B, V>, w': World<B, V>)
    requires op.DoSwapOut? || op.DoSwapIn?
    requires AllSame(w, w', c)
    ensures Refined(w, c, op, w')
  {
    hide ValidWorld, Read;
  }

  lemma SwapInReads<B, V>(w: World<B, V>, c: Config, owners: seq<TableId>)
    requires ValidWorld(w, c) && Swappable(Flip(w.mgr), owners)
    ensures var r := SwapTables(w.mgr.cpu, w.mgr.gpu, w.mgr.tables, NoMapping(), owners);
            if |Elems(Together(w.mgr.tables, owners))| <= |w.mgr.gpu.free| then
              && r.Ok? && AllSame(w, FlipWorld(MovedWorld(w, r.value)), c)
              && (forall o :: o in owners ==> o in r.value.2 && Resident(r.value.1, r.value.2[o]))
            else r == Err(OutOfMemory)
  {
    hide ValidWorld, Read, SwapTables, SequentialCopy, Together;
    FlipValid(w, c);
    SwapOutReads(FlipWorld(w), c, owners);
    var r := SwapTables(w.mgr.cpu, w.mgr.gpu, w.mgr.tables, NoMapping(), owners);
    if r.Ok? {
      assert MovedWorld(FlipWorld(w), r.value) == MovedWorld(w, r.value);
      FlipValid(MovedWorld(w, r.value), c);
    }
  }

  /** One operation refines its meaning on private lists, or the manager is out of memory. */
  lemma StepRefines<B, V>(w: World<B, V>, c: Config, op: Op<B, V>)
    requires ValidWorld(w, c) && c.window.None? && Enabled(w, op)
    ensures var r := Step(w, c, op);
            if r.Ok? then Refined(w, c, op, r.value) else r == Err(OutOfMemory)
  {
    hide ValidWorld, Refined, AllocateStep, AppendStep, ForkStep, FreeStep, SwapTables, SequentialCopy,
         Swappable, Allocatable, PromptsFit, AllRunning, DistinctOwners, Allocated, Stepped, Forked, Freed, AllSame;
    var r := Step(w, c, op);
    match op {
      case DoAllocate(g, prompt, encoder) =>
        AllocateStepReads(w, c, g, prompt, encoder);
        if r.Ok? {
          AllocateRefines(w, c, op, r.value);
        }
      case DoAppend(news) =>
        AppendStepReads(w, c, news);
        if r.Ok? {
          AppendRefines(w, c, op, r.value);
        }
      case DoFork(parent, child) =>
        ForkStepReads(w, c, parent, child);
        ForkRefines(w, c, op, r.value);
      case DoSwapOut(owners) =>
        SwapOutReads(w, c, owners);
        if r.Ok? {
          SwapRefines(w, c, op, r.value);
        }
      case DoSwapIn(owners) =>
        SwapInReads(w, c, owners);
        if r.Ok? {
          SwapRefines(w, c, op, r.value);
        }
      case DoFree(o, order) =>
        FreeStepReads(w, c, o, order);
        FreeRefines(w, c, op, r.value);
    }
  }

  /** Each operation of the run is enabled where it is issued; the run may end out of memory. */
  ghost predicate Scheduled<B, V>(w: World<B, V>, c: Config, ops: seq<Op<B, V>>)
    decreases |ops|
  {
    ops == [] || (Enabled(w, ops[0]) && (Step(w, c, ops[0]).Ok? ==> Scheduled(Step(w, c, ops[0]).value, c, ops[1..])))
  }

  ghost function Run<B, V>(w: World<B, V>, c: Config, ops: seq<Op<B, V>>): Result<World<B, V>>
    requires Scheduled(w, c, ops)
    decreases |ops|
  {
    if ops == [] then Ok(w)
    else
      var w1 :- Step(w, c, ops[0]);
      Run(w1, c, ops[1..])
  }

  ghost function IdealRun<B, V>(lists: Lists<V>, ops: seq<Op<B, V>>): Lists<V>
    decreases |ops|
  {
    if ops == [] then lists else IdealRun(Ideal(lists, ops[0]), ops[1..])
  }

  /**
   * Isolation over whole runs: whatever the interleaving of allocations, appends, forks, swaps and
   * frees, every table reads exactly its private list, and the only possible error is running out
   * of memory (so no double free and no failed assertion).
   */
  lemma {:induction false} RunRefines<B, V>(w: World<B, V>, c: Config, ops: seq<Op<B, V>>)
    requires ValidWorld(w, c) && c.window.None? && Scheduled(w, c, ops)
    ensures var r := Run(w, c, ops);
            if r.Ok? then ValidWorld(r.value, c) && Views(r.value, c) == IdealRun(Views(w, c), ops)
            else r == Err(OutOfMemory)
    decreases |ops|
  {
    hide ValidWorld, Step, Ideal, Enabled, Views;
    if ops != [] {
      StepRefines(w, c, ops[0]);
      var r := Step(w, c, ops[0]);
      if r.Ok? {
        RunRefines(r.value, c, ops[1..]);
      }
    }
  }

  // ----- the start

  /** The manager before any request: every block free, no tables. */
  ghost function Initial<B, V>(gpu: seq<B>, cpu: seq<B>, store: map<B, seq<V>>): World<B, V> {
    World(State(Pool(gpu, map b | b in gpu :: 0), Pool(cpu, map b | b in cpu :: 0), map[]), map[], store)
  }

  lemma InitialValid<B, V>(gpu: seq<B>, cpu: seq<B>, store: map<B, seq<V>>, c: Config)
    requires NoDup(gpu + cpu)
    requires store.Keys == Elems(gpu + cpu) && forall b :: b in store ==> |store[b]| == c.blockSize
    ensures ValidWorld(Initial(gpu, cpu, store), c) && Views(Initial(gpu, cpu, store), c) == map[]
  {
    var s := Initial(gpu, cpu, store).mgr;
    forall b | b in gpu
      ensures b !in cpu
    {
      var i :| 0 <= i < |gpu| && gpu[i] == b;
      assert (gpu + cpu)[i] == b;
      assert forall j :: 0 <= j < |cpu| ==> cpu[j] == (gpu + cpu)[|gpu| + j];
    }
    assert NoDup(gpu) by { assert forall i :: 0 <= i < |gpu| ==> gpu[i] == (gpu + cpu)[i]; }
    assert NoDup(cpu) by { assert forall i :: 0 <= i < |cpu| ==> cpu[i] == (gpu + cpu)[|gpu| + i]; }
    assert forall b :: b in s.gpu.refs || b in s.cpu.refs ==> Holders(s.tables, b) == {};
  }
}
