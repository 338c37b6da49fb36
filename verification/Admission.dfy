/** The admission checks of the block manager without prefix caching are sound. */
module Admission {
  import opened Wrappers
  import opened Holding
  import opened UncachedAllocator
  import opened BlockManager
  import opened Conservation
  import opened Swapping
  import opened GroupSwaps
  import opened Copying
  import opened Isolation
  import opened Appending
  import opened SwapReads
  import opened Runs
  import Paging
  import SlidingWindow

  // ----- can_allocate

  lemma RequiredIsNeeded(c: Config, g: Group)
    requires g.seqs != [] && (forall q :: q in g.seqs ==> q.status == Waiting)
    requires g.encoderLen.Some? ==> c.window.None?
    ensures WithStatus(g.seqs, Waiting) == g.seqs
    ensures RequiredBlocks(c, g) == SelfBlocks(c, g) + CrossBlocks(c, g)
  {
    AllWithStatus(g.seqs, Waiting);
  }

  /** OK exactly when `allocate` succeeds and leaves the watermark free; with or without a window. */
  lemma CanAllocateExact<B>(s: State<B>, c: Config, g: Group)
    requires Conserved(s) && Allocatable(s, g)
    requires g.encoderLen.Some? ==> c.window.None?
    ensures WithStatus(g.seqs, Waiting) != []
    ensures CanAllocate(s, c, g) == OK <==>
            Allocate(s, c, g).Ok? && |Allocate(s, c, g).value.gpu.free| >= c.watermark
  {
    RequiredIsNeeded(c, g);
    AllocateForm(s, c, g);
    FreeCount(s.gpu, s.tables);
    if SelfBlocks(c, g) + CrossBlocks(c, g) <= |s.gpu.free| {
      GrantedSize(s, c, g);
    }
  }

  /** Position `i` holds the first waiting sequence of the group. */
  ghost predicate FirstWaiting(g: Group, i: nat) {
    && i < |g.seqs| && g.seqs[i].status == Waiting
    && (forall j :: 0 <= j < i ==> g.seqs[j].status != Waiting)
  }

  /** The blocks of the first waiting sequence and of the encoder sequence, rounded up, within the window. */
  ghost function PromptBlocks(c: Config, g: Group, i: nat): nat
    requires i < |g.seqs|
  {
    var bs := c.blockSize;
    var n := (g.seqs[i].len + bs - 1) / bs + (if g.encoderLen.Some? then (g.encoderLen.value + bs - 1) / bs else 0);
    if c.window.Some? && c.window.value < n then c.window.value else n
  }

  lemma NobodyWith(seqs: seq<Sequence>, status: Status)
    requires forall j :: 0 <= j < |seqs| ==> seqs[j].status != status
    ensures WithStatus(seqs, status) == []
  {
    var r := WithStatus(seqs, status);
    assert forall q :: q in r ==> q in seqs && q.status == status;
    assert forall k :: 0 <= k < |r| ==> r[k] in r;
    hide WithStatus;
  }

  lemma {:induction false} FirstWaitingLeads(seqs: seq<Sequence>, i: nat, n: nat)
    requires i < n <= |seqs| && seqs[i].status == Waiting && forall j :: 0 <= j < i ==> seqs[j].status != Waiting
    ensures WithStatus(seqs[..n], Waiting) != [] && WithStatus(seqs[..n], Waiting)[0] == seqs[i]
  {
    hide WithStatus;
    NextWithStatus(seqs, Waiting, n - 1);
    if n == i + 1 {
      NobodyWith(seqs[..i], Waiting);
    } else {
      FirstWaitingLeads(seqs, i, n - 1);
    }
  }

  lemma RequiredIs(c: Config, g: Group, i: nat)
    requires FirstWaiting(g, i)
    ensures WithStatus(g.seqs, Waiting) != [] && RequiredBlocks(c, g) == PromptBlocks(c, g, i)
  {
    assert g.seqs[..|g.seqs|] == g.seqs;
    FirstWaitingLeads(g.seqs, i, |g.seqs|);
    Paging.NBlocksIsCeiling(g.seqs[i].len, c.blockSize);
    if g.encoderLen.Some? {
      Paging.NBlocksIsCeiling(g.encoderLen.value, c.blockSize);
    }
    hide NBlocks, WithStatus;
  }

  /** NEVER if the blocks and the watermark exceed the total, OK if they fit beside what is held, else LATER. */
  ghost function Answer(need: nat, held: nat, total: nat, watermark: nat): AllocStatus {
    if need + watermark > total then NEVER else if held + need + watermark <= total then OK else LATER
  }

  /** The answer of `can_allocate` for every group that has a waiting sequence. */
  lemma CanAllocateAnswers<B>(s: State<B>, c: Config, g: Group, i: nat)
    requires Conserved(s) && FirstWaiting(g, i)
    ensures WithStatus(g.seqs, Waiting) != []
    ensures CanAllocate(s, c, g) == Answer(PromptBlocks(c, g, i), |Held(s.gpu, s.tables)|, |s.gpu.refs|, c.watermark)
  {
    RequiredIs(c, g, i);
    FreeCount(s.gpu, s.tables);
    hide RequiredBlocks, PromptBlocks, WithStatus, Held, Conserved, FirstWaiting;
  }

  lemma GrantedSize<B>(s: State<B>, c: Config, g: Group)
    requires g.seqs != [] && SelfBlocks(c, g) + CrossBlocks(c, g) <= |s.gpu.free|
    ensures |Granted(s, c, g).gpu.free| == |s.gpu.free| - SelfBlocks(c, g) - CrossBlocks(c, g)
  {
  }

  /** NEVER: no state of the same GPU admits the group. */
  lemma NeverMeansNever<B>(s: State<B>, s': State<B>, c: Config, g: Group)
    requires WithStatus(g.seqs, Waiting) != [] && CanAllocate(s, c, g) == NEVER
    requires Conserved(s') && s'.gpu.refs.Keys == s.gpu.refs.Keys
    ensures CanAllocate(s', c, g) == NEVER
  {
  }

  /** With a window, every table goes around a ring, as it does in every run. */
  ghost predicate Rings<B>(s: State<B>, c: Config) {
    c.window.Some? ==> forall o :: o in s.tables ==> SlidingWindow.Ring(s.tables[o], c.window.value)
  }

  /** LATER: after everything is freed, the last window of each table if there is one, the group is admitted. */
  lemma LaterBecomesOk<B>(s: State<B>, c: Config, g: Group, listing: seq<(TableId, seq<B>)>)
    requires WithStatus(g.seqs, Waiting) != [] && CanAllocate(s, c, g) == LATER
    requires Conserved(s) && Rings(s, c)
    requires forall i, j :: 0 <= i < j < |listing| ==> listing[i].0 != listing[j].0
    requires forall i :: 0 <= i < |listing| ==>
               listing[i].0 in s.tables && EnumeratesSet(listing[i].1, FreedPart(s.tables[listing[i].0], c.window))
    requires forall o :: o in s.tables ==> exists i :: 0 <= i < |listing| && listing[i].0 == o
    ensures Reset(s, listing).Ok? && CanAllocate(Reset(s, listing).value, c, g) == OK
  {
    hide RequiredBlocks, Conserved;
    forall i | 0 <= i < |listing|
      ensures EnumeratesSet(listing[i].1, s.tables[listing[i].0])
    {
      WholeTable(s.tables[listing[i].0], c, listing[i].1);
    }
    ResetFreesEverything(s, listing);
    var s' := Reset(s, listing).value;
    assert |s'.gpu.refs| == |s'.gpu.refs.Keys| == |s.gpu.refs.Keys| == |s.gpu.refs|;
  }

  // ----- can_append_slots

  /** One append for every running sequence of an admitted group succeeds. */
  lemma CanAppendSound<B, V>(w: World<B, V>, c: Config, g: Group, news: News<V>)
    requires ValidWorld(w, c) && c.window.None?
    requires AllRunning(w, news) && DistinctOwners(news)
    requires |news| == |WithStatus(g.seqs, Running)|
    requires CanAppendSlots(w.mgr, g)
    ensures AppendStep(w, c, news).Ok? && Stepped(w, c, news, AppendStep(w, c, news).value)
  {
    hide ValidWorld, AppendStep, AllRunning, DistinctOwners, Stepped;
    AppendStepReads(w, c, news);
  }

  /** The part of a ring that is freed has all of its blocks. */
  lemma WholeTable<B>(t: seq<B>, c: Config, order: seq<B>)
    requires EnumeratesSet(order, FreedPart(t, c.window))
    requires c.window.Some? ==> SlidingWindow.Ring(t, c.window.value)
    ensures EnumeratesSet(order, t)
  {
    if c.window.Some? {
      SlidingWindow.RingBlocks(t, c.window.value);
      assert forall b :: b in t <==> b in Elems(t);
      assert forall b :: b in FreedPart(t, c.window) <==> b in Elems(FreedPart(t, c.window));
    }
  }

  // ----- can_swap_out and can_swap_in

  lemma SubsetSize<T>(a: set<T>, b: set<T>)
    requires a <= b
    ensures |a| <= |b|
  {
    assert b == a + (b - a);
  }

  /**
   * `can_swap_out`: true exactly when the CPU blocks suffice for what is held there and for the
   * distinct blocks of the unfinished sequences. Then `swap_out` succeeds, and when those
   * sequences are all running it succeeds only then.
   */
  lemma CanSwapOutExact<B>(s: State<B>, g: Group)
    requires Conserved(s)
    ensures CanSwapOut(s, g) <==> |Held(s.cpu, s.tables)| + |UsedBlocks(s.tables, g)| <= |s.cpu.refs|
    ensures LiesOn(s.gpu, s.tables, g, Running) && CanSwapOut(s, g) ==> SwapOut(s, SwapOwners(g, Running)).Ok?
    ensures LiesOn(s.gpu, s.tables, g, Running) && AllUnfinishedAre(g, Running) ==>
              (CanSwapOut(s, g) <==> SwapOut(s, SwapOwners(g, Running)).Ok?)
  {
    FreeCount(s.cpu, s.tables);
    CountedBlocks(s, g);
    MovedAreUsed(s.tables, g, Running);
    SubsetSize(BlocksOf(s.tables, g, Running), UsedBlocks(s.tables, g));
    hide Conserved, LiesOn, UsedBlocks, BlocksOf, AllUnfinishedAre, PhysicalBlocks, SwapOut, SwapOwners, GroupMoved,
      Held;
    if LiesOn(s.gpu, s.tables, g, Running) {
      SwapOutMovesGroup(s, g);
    }
  }

  /** The blocks that a swap-in asks for: the distinct ones, and one for each sequence and for the cross table. */
  ghost function Wanted<B>(tables: map<TableId, seq<B>>, g: Group): nat {
    |UsedBlocks(tables, g)| + NumWith(g, Swapped) + Bit(g.encoderLen.Some?)
  }

  lemma WantedIsRequired<B>(s: State<B>, g: Group)
    ensures SwapInRequired(s, g) == Wanted(s.tables, g)
  {
    CountedBlocks(s, g);
    NumWithIs(g, Swapped);
    hide UsedBlocks, PhysicalBlocks, WithStatus, NumWith;
  }

  /** `can_swap_in`: its three answers from the blocks wanted, the blocks held, and the total. */
  lemma CanSwapInExact<B>(s: State<B>, c: Config, g: Group)
    requires Conserved(s)
    ensures var wanted, total := Wanted(s.tables, g), |s.gpu.refs|;
            CanSwapIn(s, c, g) == if wanted > total then NEVER
                                  else if |Held(s.gpu, s.tables)| + wanted + c.watermark <= total then OK
                                  else LATER
  {
    FreeCount(s.gpu, s.tables);
    WantedIsRequired(s, g);
  }

  /** What OK promises of `swap_in`; when the unfinished sequences are all swapped, it is what OK means. */
  lemma CanSwapInFits<B>(s: State<B>, c: Config, g: Group)
    requires Conserved(s) && LiesOn(s.cpu, s.tables, g, Swapped)
    ensures var r := SwapIn(s, SwapOwners(g, Swapped));
            var fits := r.Ok?
                        && |r.value.0.gpu.free| >= NumWith(g, Swapped) + Bit(g.encoderLen.Some?) + c.watermark;
            && (CanSwapIn(s, c, g) == OK ==> fits)
            && (AllUnfinishedAre(g, Swapped) && fits ==> CanSwapIn(s, c, g) == OK)
  {
    FreeCount(s.gpu, s.tables);
    WantedIsRequired(s, g);
    MovedAreUsed(s.tables, g, Swapped);
    SubsetSize(BlocksOf(s.tables, g, Swapped), UsedBlocks(s.tables, g));
    SwapInMovesGroup(s, g);
    hide Conserved, LiesOn, UsedBlocks, BlocksOf, AllUnfinishedAre, PhysicalBlocks, SwapIn, SwapOwners, NumWith,
      Held, Arrived, PairsTell, SwapInRequired;
  }

  /** NEVER: no state that holds the group's tables on a GPU of that size gives another answer. */
  lemma SwapInNeverStays<B>(s: State<B>, s': State<B>, c: Config, g: Group)
    requires SameGroup(s, s', g) && |s'.gpu.refs| == |s.gpu.refs| && CanSwapIn(s, c, g) == NEVER
    ensures CanSwapIn(s', c, g) == NEVER
  {
    SameBlocks(s, s', g);
    hide SameGroup, PhysicalBlocks;
  }

  lemma CanSwapOutSound<B, V>(w: World<B, V>, c: Config, g: Group)
    requires ValidWorld(w, c) && LiesOn(w.mgr.gpu, w.mgr.tables, g, Running)
    requires CanSwapOut(w.mgr, g)
    ensures var r := SwapOut(w.mgr, SwapOwners(g, Running));
            r.Ok? && GroupMoved(w.mgr, r.value.0, r.value.1, g, Running)
  {
    hide ValidWorld, LiesOn, SwapTables, SwapOwners, SwapOut, GroupMoved, PhysicalBlocks, UsedBlocks, BlocksOf, Held;
    WorldConserved(w, c);
    CanSwapOutExact(w.mgr, g);
    SwapOutMovesGroup(w.mgr, g);
  }

  ghost function SwappedIn<B, V>(w: World<B, V>, g: Group): World<B, V>
    requires SwapIn(w.mgr, SwapOwners(g, Swapped)).Ok?
  {
    var r := SwapTables(w.mgr.cpu, w.mgr.gpu, w.mgr.tables, NoMapping(), SwapOwners(g, Swapped)).value;
    FlipWorld(MovedWorld(w, r))
  }

  /** OK: the swap-in succeeds, and so does one append for each sequence right after it. */
  lemma CanSwapInSound<B, V>(w: World<B, V>, c: Config, g: Group, news: News<V>)
    requires ValidWorld(w, c) && c.window.None?
    requires LiesOn(w.mgr.cpu, w.mgr.tables, g, Swapped)
    requires CanSwapIn(w.mgr, c, g) == OK
    requires |news| == NumWith(g, Swapped) && DistinctOwners(news)
    requires forall i :: 0 <= i < |news| ==> Belongs(g, Swapped, news[i].0)
    ensures SwapIn(w.mgr, SwapOwners(g, Swapped)).Ok?
    ensures AllSame(w, SwappedIn(w, g), c)
    ensures AppendStep(SwappedIn(w, g), c, news).Ok?
    ensures |SwappedIn(w, g).mgr.gpu.free| >= |news| + c.watermark
  {
    hide ValidWorld, LiesOn, Swappable, SwapTables, SwapOwners, Together, PhysicalBlocks, BlocksOf, AppendStep, Read,
         WithStatus, AllSame, DistinctOwners, SequentialCopy, NumWith, Belongs, GroupMoved, Conserved;
    var owners := SwapOwners(g, Swapped);
    WorldConserved(w, c);
    FlipConserves(w.mgr);
    CanSwapInFits(w.mgr, c, g);
    OwnersBelong(g, Swapped);
    LiesOnSwappable(Flip(w.mgr), g, Swapped);
    SwapInReads(w, c, owners);
    SwapInSize(w, c, owners);
    var w' := SwappedIn(w, g);
    assert ValidWorld(w', c) by { SameIsValid(w, w', c); }
    assert AllRunning(w', news);
    AppendStepReads(w', c, news);
  }

  lemma SameIsValid<B, V>(w: World<B, V>, w': World<B, V>, c: Config)
    requires AllSame(w, w', c)
    ensures ValidWorld(w', c)
  {
  }

  lemma SwapInSize<B, V>(w: World<B, V>, c: Config, owners: seq<TableId>)
    requires ValidWorld(w, c) && Swappable(Flip(w.mgr), owners)
    ensures var r := SwapTables(w.mgr.cpu, w.mgr.gpu, w.mgr.tables, NoMapping(), owners);
            r.Ok? ==> |r.value.1.free| == |w.mgr.gpu.free| - |Elems(Together(w.mgr.tables, owners))|
  {
    hide Conserved, Swappable, SwapTables, Together, GroupMoves;
    FlipConserves(w.mgr);
    SwapGroupMoves(Flip(w.mgr), owners);
  }

  /** The two states hold the group's tables alike; anything else may have been freed or allocated. */
  ghost predicate SameGroup<B>(s: State<B>, s': State<B>, g: Group) {
    forall o :: Unfinished(g, o) ==>
      && (o in s.tables <==> o in s'.tables)
      && (o in s.tables && o in s'.tables ==> s'.tables[o] == s.tables[o])
  }

  /**
   * `can_swap_in` leaves the watermark out of its NEVER test: a group that fits the GPU but not
   * with the watermark is told LATER although no amount of freeing admits it. On a GPU that is
   * empty but for the group, a group that is not told NEVER is admitted exactly when it fits
   * together with the watermark.
   */
  lemma SwapInLaterExact<B>(s: State<B>, s': State<B>, c: Config, g: Group)
    requires Conserved(s') && SameGroup(s, s', g) && s'.gpu.refs.Keys == s.gpu.refs.Keys
    requires CanSwapIn(s, c, g) != NEVER
    ensures CanSwapIn(s', c, g) == OK ==> |s.gpu.refs| >= Wanted(s.tables, g) + c.watermark
    ensures |s'.gpu.free| == |s'.gpu.refs| ==>
              (CanSwapIn(s', c, g) == OK <==> |s.gpu.refs| >= Wanted(s.tables, g) + c.watermark)
  {
    SameBlocks(s, s', g);
    WantedIsRequired(s, g);
    hide PhysicalBlocks, SameGroup;
    assert |s'.gpu.refs| == |s'.gpu.refs.Keys| == |s.gpu.refs.Keys| == |s.gpu.refs|;
    FreeCount(s'.gpu, s'.tables);
  }

  lemma SameBlocks<B>(s: State<B>, s': State<B>, g: Group)
    requires SameGroup(s, s', g)
    ensures PhysicalBlocks(s', g) == PhysicalBlocks(s, g)
  {
    CountedBlocks(s, g);
    CountedBlocks(s', g);
    hide Unfinished, PhysicalBlocks;
  }

  lemma SingleGroupBlocks<B>(s: State<B>, q: Sequence, request: string)
    requires q.status == Swapped && SelfTable(q.id) in s.tables
    ensures PhysicalBlocks(s, Group(request, [q], None)) == Elems(s.tables[SelfTable(q.id)])
    ensures WithStatus([q], Swapped) == [q]
  {
  }

  const STARVED: Group := Group("r", [Sequence(7, Swapped, 3)], None)
  const TIGHT: Config := Config(4, None, 1)

  /** One swapped sequence of one block, two GPU blocks, a watermark of one. */
  function Starved(): State<int> {
    State(Pool([0, 1], map[0 := 0, 1 := 0]), Pool([], map[2 := 1]), map[SelfTable(7) := [2]])
  }

  /** Such a group is told LATER, and so it is in every state that still holds it: for ever. */
  lemma SwapInStarves(s': State<int>)
    requires Conserved(s') && SameGroup(Starved(), s', STARVED) && s'.gpu.refs.Keys == {0, 1}
    ensures Conserved(Starved())
    ensures CanSwapIn(Starved(), TIGHT, STARVED) == LATER && CanSwapIn(s', TIGHT, STARVED) == LATER
  {
    hide PhysicalBlocks, GroupTables, WithStatus, Conserved, SameGroup;
    SingleGroupBlocks(Starved(), Sequence(7, Swapped, 3), "r");
    StarvedConserved();
    assert Elems([2]) == {2};
    assert CanSwapIn(Starved(), TIGHT, STARVED) == LATER;
    SwapInLaterExact(Starved(), s', TIGHT, STARVED);
    SameBlocks(Starved(), s', STARVED);
    assert |s'.gpu.refs| == |s'.gpu.refs.Keys| == 2;
  }

  lemma StarvedConserved()
    ensures Conserved(Starved()) && |Starved().gpu.refs| == 2 && Starved().gpu.refs.Keys == {0, 1}
  {
    var s := Starved();
    assert |s.gpu.refs| == |s.gpu.refs.Keys|;
    assert s.gpu.refs.Keys == {0, 1};
    assert Holders(s.tables, 2) == {SelfTable(7)} && Holders(s.tables, 0) == {} && Holders(s.tables, 1) == {};
  }

  // ----- swap round trip

  /** Positions of two tables hold the same block. */
  ghost predicate SharesAt<B>(tables: map<TableId, seq<B>>, o: TableId, i: nat, o': TableId, i': nat)
    requires o in tables && o' in tables && i < |tables[o]| && i' < |tables[o']|
  {
    tables[o][i] == tables[o'][i']
  }

  ghost predicate SameSharing<B>(t1: map<TableId, seq<B>>, t2: map<TableId, seq<B>>, owners: seq<TableId>) {
    && (forall o :: o in owners ==> o in t1 && o in t2 && |t1[o]| == |t2[o]|)
    && (forall o, o', i, i' :: o in owners && o' in owners && 0 <= i < |t1[o]| && 0 <= i' < |t1[o']| ==>
                                 (SharesAt(t1, o, i, o', i') <==> SharesAt(t2, o, i, o', i')))
  }

  /** A one-to-one renaming of the blocks keeps the sharing pattern. */
  lemma RenamingKeepsSharing<B>(t1: map<TableId, seq<B>>, t2: map<TableId, seq<B>>, owners: seq<TableId>, d: map<B, B>)
    requires Injective(d)
    requires forall o :: o in owners ==> o in t1 && o in t2 && t2[o] == Apply(d, t1[o])
    requires forall o, i :: o in owners && 0 <= i < |t1[o]| ==> t1[o][i] in d
    ensures SameSharing(t1, t2, owners)
  {
  }

  lemma SwapKeepsSharing<B>(s: State<B>, owners: seq<TableId>)
    requires Conserved(s) && Swappable(s, owners)
    ensures var r := SwapTables(s.gpu, s.cpu, s.tables, NoMapping(), owners);
            r.Ok? ==> SameSharing(s.tables, r.value.2, owners) && Injective(r.value.3.dict)
  {
    hide Conserved, SwapTables, Together, SameSharing, Injective, Listed;
    SwapGroupMoves(s, owners);
    var r := SwapTables(s.gpu, s.cpu, s.tables, NoMapping(), owners);
    if r.Ok? {
      forall o, i | o in owners && 0 <= i < |s.tables[o]|
        ensures s.tables[o][i] in r.value.3.dict
      {
        TogetherCovers(s.tables, owners, o);
      }
      RenamingKeepsSharing(s.tables, r.value.2, owners, r.value.3.dict);
    }
  }

  /**
   * Swapping a group out and back in: every table keeps its length, its sharing with every other
   * position of the group, and (with the data moved along the pairs) what it reads.
   */
  lemma SwapRoundTrip<B, V>(w: World<B, V>, c: Config, owners: seq<TableId>)
    requires ValidWorld(w, c) && Swappable(w.mgr, owners)
    ensures var r1 := SwapTables(w.mgr.gpu, w.mgr.cpu, w.mgr.tables, NoMapping(), owners);
            r1.Ok? ==>
              var w1 := MovedWorld(w, r1.value);
              var r2 := SwapTables(w1.mgr.cpu, w1.mgr.gpu, w1.mgr.tables, NoMapping(), owners);
              r2.Ok? ==>
                var w2 := FlipWorld(MovedWorld(w1, r2.value));
                && AllSame(w, w2, c)
                && SameSharing(w.mgr.tables, w2.mgr.tables, owners)
                && Injective(r1.value.3.dict) && Injective(r2.value.3.dict)
  {
    hide ValidWorld, SwapTables, SequentialCopy, Together, Injective, Read;
    var r1 := SwapTables(w.mgr.gpu, w.mgr.cpu, w.mgr.tables, NoMapping(), owners);
    if r1.Ok? {
      var w1 := MovedWorld(w, r1.value);
      SwapOutReads(w, c, owners);
      WorldConserved(w, c);
      SwapKeepsSharing(w.mgr, owners);
      WorldConserved(w1, c);
      BackSwappable(w1, c, owners);
      SwapInReads(w1, c, owners);
      FlipConserves(w1.mgr);
      SwapKeepsSharing(Flip(w1.mgr), owners);
      var r2 := SwapTables(w1.mgr.cpu, w1.mgr.gpu, w1.mgr.tables, NoMapping(), owners);
      if r2.Ok? {
        SharingTransitive(w.mgr.tables, w1.mgr.tables, r2.value.2, owners);
      }
    }
  }

  lemma WorldConserved<B, V>(w: World<B, V>, c: Config)
    requires ValidWorld(w, c)
    ensures Conserved(w.mgr)
  {
  }

  lemma BackSwappable<B, V>(w: World<B, V>, c: Config, owners: seq<TableId>)
    requires ValidWorld(w, c) && NoDup(owners)
    requires forall o :: o in owners ==> o in w.mgr.tables && Resident(w.mgr.cpu, w.mgr.tables[o])
    ensures Swappable(Flip(w.mgr), owners)
  {
  }

  lemma SharingTransitive<B>(t1: map<TableId, seq<B>>, t2: map<TableId, seq<B>>, t3: map<TableId, seq<B>>,
                             owners: seq<TableId>)
    requires SameSharing(t1, t2, owners) && SameSharing(t2, t3, owners)
    ensures SameSharing(t1, t3, owners)
  {
  }
}
