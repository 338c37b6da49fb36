/**
 * Swapping a whole group: which tables move is stated by the sequences of the group and their
 * status. The lemmas about `SwapIn` are those about `SwapOut` with the devices exchanged.
 */
module GroupSwaps {
  import opened Wrappers
  import opened Holding
  import opened UncachedAllocator
  import opened BlockManager
  import opened Conservation
  import opened Swapping

  /** The table of a sequence of that status, or the cross-attention table of an encoder/decoder request. */
  ghost predicate Belongs(g: Group, status: Status, o: TableId) {
    match o
    case SelfTable(id) => exists q :: q in g.seqs && q.status == status && q.id == id
    case CrossTable(request) => g.encoderLen.Some? && request == g.requestId
  }

  ghost predicate OwnIds(g: Group, status: Status) {
    forall i, j :: 0 <= i < j < |g.seqs| && g.seqs[i].status == status && g.seqs[j].status == status ==>
                     g.seqs[i].id != g.seqs[j].id
  }

  /** The tables of the sequences of that status, and the cross table, lie on the device of `p`. */
  ghost predicate LiesOn<B>(p: Pool<B>, tables: map<TableId, seq<B>>, g: Group, status: Status) {
    && OwnIds(g, status)
    && (forall o :: Belongs(g, status, o) ==> o in tables && NoDup(tables[o]) && Resident(p, tables[o]))
  }

  ghost function BlocksOf<B>(tables: map<TableId, seq<B>>, g: Group, status: Status): set<B> {
    set o, b | o in tables && Belongs(g, status, o) && b in tables[o] :: b
  }

  /** Each of those tables has its old length and lies on the device of `p`; no other table changed. */
  ghost predicate Arrived<B>(p: Pool<B>, tables: map<TableId, seq<B>>, tables': map<TableId, seq<B>>,
                             g: Group, status: Status) {
    && tables'.Keys == tables.Keys
    && (forall o :: o in tables && Belongs(g, status, o) ==>
                      |tables'[o]| == |tables[o]| && NoDup(tables'[o]) && Resident(p, tables'[o]))
    && (forall o :: o in tables && !Belongs(g, status, o) ==> tables'[o] == tables[o])
  }

  /** The pairs tell, once for each block that leaves, where its contents go: the block at the same place. */
  ghost predicate PairsTell<B>(tables: map<TableId, seq<B>>, tables': map<TableId, seq<B>>, pairs: seq<(B, B)>,
                               g: Group, status: Status) {
    && (forall i, j :: 0 <= i < j < |pairs| ==> pairs[i].0 != pairs[j].0 && pairs[i].1 != pairs[j].1)
    && (forall x :: x in pairs ==> x.0 in BlocksOf(tables, g, status))
    && (forall o, i ::
          o in tables && o in tables' && Belongs(g, status, o) && 0 <= i < |tables[o]| && i < |tables'[o]| ==>
            (tables[o][i], tables'[o][i]) in pairs)
  }

  /** From `s` to `s'` the group left the first device for the second. */
  ghost predicate GroupMoved<B>(s: State<B>, s': State<B>, pairs: seq<(B, B)>, g: Group, status: Status) {
    && Conserved(s') && s'.gpu.refs.Keys == s.gpu.refs.Keys && s'.cpu.refs.Keys == s.cpu.refs.Keys
    && Arrived(s'.cpu, s.tables, s'.tables, g, status) && PairsTell(s.tables, s'.tables, pairs, g, status)
    && |s'.cpu.free| == |s.cpu.free| - |BlocksOf(s.tables, g, status)|
  }

  /** The table of an unfinished sequence, or the cross-attention table. */
  ghost predicate Unfinished(g: Group, o: TableId) {
    Belongs(g, Waiting, o) || Belongs(g, Running, o) || Belongs(g, Swapped, o)
  }

  ghost function UsedBlocks<B>(tables: map<TableId, seq<B>>, g: Group): set<B> {
    set o, b | o in tables && Unfinished(g, o) && b in tables[o] :: b
  }

  ghost function PlacesUpTo(seqs: seq<Sequence>, status: Status, n: nat): set<nat>
    requires n <= |seqs|
  {
    set i: nat | i < n && seqs[i].status == status
  }

  /** How many sequences of the group have that status. */
  ghost function NumWith(g: Group, status: Status): nat {
    |PlacesUpTo(g.seqs, status, |g.seqs|)|
  }

  ghost predicate AllUnfinishedAre(g: Group, status: Status) {
    forall q :: q in g.seqs ==> q.status == status || q.status == Finished
  }

  // ----- the owners that the loop goes through

  lemma {:induction false} StatusIdsDistinct(seqs: seq<Sequence>, status: Status)
    requires forall i, j :: 0 <= i < j < |seqs| && seqs[i].status == status && seqs[j].status == status ==>
                              seqs[i].id != seqs[j].id
    ensures NoDup(SelfTables(WithStatus(seqs, status)))
  {
    if seqs != [] {
      var init, last := seqs[..|seqs| - 1], seqs[|seqs| - 1];
      StatusIdsDistinct(init, status);
      var r := WithStatus(init, status);
      if last.status == status {
        forall i | 0 <= i < |r|
          ensures r[i].id != last.id
        {
          assert r[i] in init;
          var k :| 0 <= k < |init| && init[k] == r[i];
          assert seqs[k] == r[i];
        }
        assert SelfTables(r + [last]) == SelfTables(r) + [SelfTable(last.id)];
      }
    }
  }

  lemma OwnersBelong(g: Group, status: Status)
    ensures forall o :: o in SwapOwners(g, status) <==> Belongs(g, status, o)
    ensures OwnIds(g, status) ==> NoDup(SwapOwners(g, status))
  {
    var seqs := WithStatus(g.seqs, status);
    forall o | Belongs(g, status, o)
      ensures o in SwapOwners(g, status)
    {
      if o.SelfTable? {
        var q :| q in g.seqs && q.status == status && q.id == o.seqId;
        assert q in seqs;
        var k :| 0 <= k < |seqs| && seqs[k] == q;
        assert SelfTables(seqs)[k] == o;
      }
    }
    if OwnIds(g, status) {
      StatusIdsDistinct(g.seqs, status);
    }
  }

  lemma LiesOnSwappable<B>(s: State<B>, g: Group, status: Status)
    requires LiesOn(s.gpu, s.tables, g, status)
    ensures Swappable(s, SwapOwners(g, status))
    ensures Elems(Together(s.tables, SwapOwners(g, status))) == BlocksOf(s.tables, g, status)
  {
    OwnersBelong(g, status);
    TogetherBlocks(s.tables, SwapOwners(g, status));
    hide SwapOwners, Together, NoDup, OwnIds, Belongs;
  }

  lemma {:induction false} TogetherBlocks<B>(tables: map<TableId, seq<B>>, owners: seq<TableId>)
    requires forall o :: o in owners ==> o in tables
    ensures Elems(Together(tables, owners)) == set o, b | o in tables && o in owners && b in tables[o] :: b
    decreases |owners|
  {
    if owners == [] {
      assert Together(tables, owners) == [];
    } else {
      TogetherBlocks(tables, owners[1..]);
      assert owners == [owners[0]] + owners[1..];
      assert forall o :: o in owners <==> o == owners[0] || o in owners[1..];
      var rest := set o, b | o in tables && o in owners[1..] && b in tables[o] :: b;
      assert Elems(Together(tables, owners)) == Elems(tables[owners[0]]) + rest;
    }
  }

  // ----- the swap of a group

  lemma MovedArrived<B>(s: State<B>, owners: seq<TableId>, final: State<B>, m: Mapping<B>, g: Group, status: Status)
    requires GroupSwapped(s, owners, final, m)
    requires forall o :: o in owners <==> Belongs(g, status, o)
    ensures Arrived(final.cpu, s.tables, final.tables, g, status)
  {
    hide Conserved, NoDup, Resident, MappingOk, Belongs;
  }

  lemma MovedPairs<B>(s: State<B>, owners: seq<TableId>, final: State<B>, m: Mapping<B>, g: Group, status: Status)
    requires GroupSwapped(s, owners, final, m) && Listed(m)
    requires forall o :: o in owners <==> Belongs(g, status, o)
    requires forall b :: b in m.dict <==> b in BlocksOf(s.tables, g, status)
    ensures PairsTell(s.tables, final.tables, m.items, g, status)
  {
    hide Conserved, NoDup, Resident, Belongs, DictOf, BlocksOf;
    assert Injective(m.dict);
    forall i | 0 <= i < |m.items|
      ensures m.items[i].0 in m.dict && m.dict[m.items[i].0] == m.items[i].1
    {
      DictOfItem(m.items, i);
    }
    forall o, i | o in s.tables && Belongs(g, status, o) && 0 <= i < |s.tables[o]|
      ensures (s.tables[o][i], final.tables[o][i]) in m.items
    {
      var b := s.tables[o][i];
      assert b in m.dict by { assert b in BlocksOf(s.tables, g, status) by { BlockOf(s.tables, g, status, o, i); } }
      var k := DictOfKey(m.items, b);
      assert final.tables[o] == Apply(m.dict, s.tables[o]);
      assert m.items[k] == (b, final.tables[o][i]);
    }
  }

  lemma BlockOf<B>(tables: map<TableId, seq<B>>, g: Group, status: Status, o: TableId, i: nat)
    requires o in tables && Belongs(g, status, o) && i < |tables[o]|
    ensures tables[o][i] in BlocksOf(tables, g, status)
  {
    hide Belongs;
    assert tables[o][i] in tables[o];
  }

  /**
   * `swap_out`: it succeeds exactly when the CPU has room for the distinct blocks of the running
   * sequences and the cross table; then all of those tables, and no others, are on the CPU.
   */
  lemma SwapOutMovesGroup<B>(s: State<B>, g: Group)
    requires Conserved(s) && LiesOn(s.gpu, s.tables, g, Running)
    ensures var r := SwapOut(s, SwapOwners(g, Running));
            if |BlocksOf(s.tables, g, Running)| <= |s.cpu.free|
            then r.Ok? && GroupMoved(s, r.value.0, r.value.1, g, Running)
            else r == Err(OutOfMemory)
  {
    MoveGroup(s, g, Running);
  }

  lemma MoveGroup<B>(s: State<B>, g: Group, status: Status)
    requires Conserved(s) && LiesOn(s.gpu, s.tables, g, status)
    ensures var r := SwapOut(s, SwapOwners(g, status));
            if |BlocksOf(s.tables, g, status)| <= |s.cpu.free|
            then r.Ok? && GroupMoved(s, r.value.0, r.value.1, g, status)
            else r == Err(OutOfMemory)
  {
    hide Conserved, Swappable, LiesOn, SwapTables, SwapOwners, BlocksOf, Together, GroupSwapped, Listed, Unmapped,
      Belongs, Arrived, PairsTell;
    var owners := SwapOwners(g, status);
    OwnersBelong(g, status);
    LiesOnSwappable(s, g, status);
    SwapGroupMoves(s, owners);
    var r := SwapTables(s.gpu, s.cpu, s.tables, NoMapping(), owners);
    if r.Ok? {
      var final := State(r.value.0, r.value.1, r.value.2);
      MovedArrived(s, owners, final, r.value.3, g, status);
      assert forall b :: b in r.value.3.dict <==> b in Elems(Together(s.tables, owners));
      MovedPairs(s, owners, final, r.value.3, g, status);
      SwappedConserved(s, owners, final, r.value.3);
    }
  }

  lemma SwappedConserved<B>(s: State<B>, owners: seq<TableId>, final: State<B>, m: Mapping<B>)
    requires GroupSwapped(s, owners, final, m)
    ensures Conserved(final) && final.gpu.refs.Keys == s.gpu.refs.Keys && final.cpu.refs.Keys == s.cpu.refs.Keys
  {
  }

  /** `swap_in`: the same with the swapped sequences, from the CPU to the GPU. */
  lemma SwapInMovesGroup<B>(s: State<B>, g: Group)
    requires Conserved(s) && LiesOn(s.cpu, s.tables, g, Swapped)
    ensures var r := SwapIn(s, SwapOwners(g, Swapped));
            if |BlocksOf(s.tables, g, Swapped)| <= |s.gpu.free|
            then r.Ok? && GroupMoved(Flip(s), Flip(r.value.0), r.value.1, g, Swapped)
            else r == Err(OutOfMemory)
  {
    hide Conserved, LiesOn, SwapTables, SwapOwners, BlocksOf, GroupMoved;
    FlipConserves(s);
    MoveGroup(Flip(s), g, Swapped);
  }

  // ----- what the admission checks count

  lemma CountedBlocks<B>(s: State<B>, g: Group)
    ensures PhysicalBlocks(s, g) == UsedBlocks(s.tables, g)
    ensures forall o :: o in GroupTables(g) <==> Unfinished(g, o)
  {
    forall o
      ensures o in GroupTables(g) <==> Unfinished(g, o)
    {
      if Unfinished(g, o) && o.SelfTable? {
        var q :| q in g.seqs && q.status != Finished && q.id == o.seqId;
        assert SelfTable(q.id) in GroupTables(g);
      }
    }
    hide GroupTables, Unfinished;
  }

  lemma MovedAreUsed<B>(tables: map<TableId, seq<B>>, g: Group, status: Status)
    requires status != Finished
    ensures BlocksOf(tables, g, status) <= UsedBlocks(tables, g)
    ensures AllUnfinishedAre(g, status) ==> BlocksOf(tables, g, status) == UsedBlocks(tables, g)
  {
    forall o
      ensures Belongs(g, status, o) ==> Unfinished(g, o)
      ensures AllUnfinishedAre(g, status) && Unfinished(g, o) ==> Belongs(g, status, o)
    {
    }
    hide Belongs, Unfinished, AllUnfinishedAre;
  }

  lemma NextPlace(seqs: seq<Sequence>, status: Status, n: nat)
    requires n < |seqs|
    ensures |PlacesUpTo(seqs, status, n + 1)| == |PlacesUpTo(seqs, status, n)| + Bit(seqs[n].status == status)
  {
    var before, after := PlacesUpTo(seqs, status, n), PlacesUpTo(seqs, status, n + 1);
    assert forall i :: i in after <==> i in before || (i == n && seqs[n].status == status);
    assert n !in before;
    hide PlacesUpTo;
    assert after == if seqs[n].status == status then before + {n} else before;
  }

  lemma NextWithStatus(seqs: seq<Sequence>, status: Status, n: nat)
    requires n < |seqs|
    ensures WithStatus(seqs[..n + 1], status)
            == WithStatus(seqs[..n], status) + (if seqs[n].status == status then [seqs[n]] else [])
  {
    assert seqs[..n + 1][..n] == seqs[..n];
  }

  lemma {:induction false} NumWithUpTo(seqs: seq<Sequence>, status: Status, n: nat)
    requires n <= |seqs|
    ensures |WithStatus(seqs[..n], status)| == |PlacesUpTo(seqs, status, n)|
  {
    hide WithStatus;
    if n == 0 {
      assert PlacesUpTo(seqs, status, 0) == {};
    } else {
      NumWithUpTo(seqs, status, n - 1);
      NextPlace(seqs, status, n - 1);
      NextWithStatus(seqs, status, n - 1);
    }
  }

  lemma NumWithIs(g: Group, status: Status)
    ensures |WithStatus(g.seqs, status)| == NumWith(g, status)
  {
    NumWithUpTo(g.seqs, status, |g.seqs|);
    assert g.seqs[..|g.seqs|] == g.seqs;
  }
}
