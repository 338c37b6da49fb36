/** `can_allocate` with prefix caching: its three answers, and what each promises. */
module PrefixAdmission {
  import opened Wrappers
  import opened Holding
  import opened Evictor
  import opened CachedAllocator
  import opened PrefixCache
  import opened PrefixSoundness
  import opened PrefixAppend
  import opened PrefixRuns
  import opened PrefixReuse
  import BlockManager
  import Paging

  /** The rounded-up number of blocks of a prompt. */
  ghost function PromptBlocks(d: SeqData, bs: nat): nat
    requires bs > 0
  {
    (|Tokens(d)| + bs - 1) / bs
  }

  lemma PromptBlocksIs(d: SeqData, bs: nat)
    requires bs > 0
    ensures NBlocks(d, bs) == PromptBlocks(d, bs)
  {
    Paging.NBlocksIsCeiling(|Tokens(d)|, bs);
  }

  /**
   * NEVER exactly if the prompt and the watermark exceed the total; OK exactly if they fit beside
   * the blocks that sequences hold; LATER otherwise.
   */
  lemma CanAllocateExact<B>(s: CState<B>, d: SeqData, bs: nat, watermark: nat)
    requires bs > 0 && PoolOk(s.gpu) && Counted(s.gpu, s.tables)
    ensures var need, total := PromptBlocks(d, bs), |s.gpu.all|;
            CanAllocate(s.gpu, d, bs, watermark)
            == if need + watermark > total then BlockManager.NEVER
               else if |Held(s.gpu, s.tables)| + need + watermark <= total then BlockManager.OK
               else BlockManager.LATER
  {
    hide PoolOk, NBlocks, PromptBlocks, Counted;
    FreeCount(s.gpu, s.tables);
    PromptBlocksIs(d, bs);
  }

  /** OK: the allocation succeeds and leaves the watermark, whether or not blocks are shared. */
  lemma OkFits<B>(s: CState<B>, bs: nat, id: nat, d: SeqData, watermark: nat)
    requires bs > 0 && PoolOk(s.gpu) && CanAllocate(s.gpu, d, bs, watermark) == BlockManager.OK
    ensures var r := Allocate(s, bs, id, d);
            r.Ok? && NumFree(r.value.gpu) >= watermark
  {
    hide PoolOk, NBlocks, NumFree, Lacking, FiledAt, UsesAdded, Reuses, TableFiled;
    LackingAtMost(s.gpu, d, bs, true, 0, NBlocks(d, bs));
    AllocateExact(s, bs, id, d);
  }

  /** NEVER: in no sound world with as many blocks does the allocation succeed and leave the watermark. */
  lemma NeverFits<B, V>(p: CPool<B>, w: World<B, V>, kv: Kv<V>, bs: nat, id: nat, d: SeqData, watermark: nat)
    requires bs > 0 && CanAllocate(p, d, bs, watermark) == BlockManager.NEVER
    requires Inv(w, kv, bs) && Complete(w, bs) && id !in w.mgr.tables && |w.mgr.gpu.all| == |p.all|
    ensures var r := Allocate(w.mgr, bs, id, d);
            r.Ok? ==> NumFree(r.value.gpu) < watermark
  {
    hide Inv, Complete, NBlocks, NumFree, PoolOk, Allocate, Counted, Held, TableMade;
    AllocateKeeps(w, kv, bs, id, d);
    InvParts(w, kv, bs);
    AllocateExact(w.mgr, bs, id, d);
    var r := Allocate(w.mgr, bs, id, d);
    if r.Ok? {
      var w' := AllocateWorld(w, kv, bs, id, d, r.value);
      InvParts(w', kv, bs);
      FreeCount(w'.mgr.gpu, w'.mgr.tables);
      MadeSize(w.mgr.gpu, d, bs, r.value.gpu, r.value.tables[id]);
      OwnHeld(r.value.gpu, r.value.tables, id, d, bs);
    }
  }

  lemma MadeSize<B>(p: CPool<B>, d: SeqData, bs: nat, q: CPool<B>, t: seq<B>)
    requires bs > 0 && TableMade(p, d, bs, [], q, t)
    ensures q.all == p.all && |t| == NBlocks(d, bs) && TableFiled(q, d, bs, t) && Keyed(q)
  {
  }

  /** The blocks of a table are held. */
  lemma OwnHeld<B>(p: CPool<B>, tables: map<nat, seq<B>>, id: nat, d: SeqData, bs: nat)
    requires bs > 0 && Keyed(p) && id in tables && TableFiled(p, d, bs, tables[id]) && |tables[id]| == NBlocks(d, bs)
    ensures |Held(p, tables)| >= NBlocks(d, bs)
  {
    var t := tables[id];
    TableNoDup(p, d, bs, t);
    ElemsCardinality(t);
    hide NBlocks, FiledUnder, NoDup;
    forall b | b in Elems(t)
      ensures b in Held(p, tables)
    {
      var i :| 0 <= i < |t| && t[i] == b;
      assert FiledAt(p, t[i], d, i, bs);
      assert id in Holders(tables, b);
    }
    assert Held(p, tables) == Elems(t) + (Held(p, tables) - Elems(t));
  }

  // ----- after everything is freed

  /** Frees the listed sequences, each in the given order of its blocks. */
  ghost function FreeOps<B>(listing: seq<(nat, seq<B>)>): (r: seq<Op<B>>)
    ensures |r| == |listing|
  {
    seq(|listing|, i requires 0 <= i < |listing| => OpFree(listing[i].0, listing[i].1))
  }

  /** The listing names every table once, with an order of its blocks. */
  ghost predicate ListsAll<B>(tables: map<nat, seq<B>>, listing: seq<(nat, seq<B>)>) {
    && (forall i, j :: 0 <= i < j < |listing| ==> listing[i].0 != listing[j].0)
    && (forall i :: 0 <= i < |listing| ==>
          listing[i].0 in tables && BlockManager.EnumeratesSet(listing[i].1, tables[listing[i].0]))
    && (forall id :: id in tables ==> exists i :: 0 <= i < |listing| && listing[i].0 == id)
  }

  lemma ListsRest<B>(tables: map<nat, seq<B>>, listing: seq<(nat, seq<B>)>)
    requires ListsAll(tables, listing) && listing != []
    ensures ListsAll(tables - {listing[0].0}, listing[1..])
  {
    var rest, tables' := listing[1..], tables - {listing[0].0};
    forall i | 0 <= i < |rest|
      ensures rest[i].0 in tables' && BlockManager.EnumeratesSet(rest[i].1, tables'[rest[i].0])
    {
      assert rest[i] == listing[i + 1];
    }
    forall id | id in tables'
      ensures exists i :: 0 <= i < |rest| && rest[i].0 == id
    {
      var i :| 0 <= i < |listing| && listing[i].0 == id;
      assert rest[i - 1].0 == id;
    }
  }

  lemma {:induction false} FreeAll<B, V>(w: World<B, V>, kv: Kv<V>, bs: nat, listing: seq<(nat, seq<B>)>)
    requires bs > 0 && Inv(w, kv, bs) && Complete(w, bs) && ListsAll(w.mgr.tables, listing)
    ensures Scheduled(w, kv, bs, FreeOps(listing))
    ensures var r := Run(w, kv, bs, FreeOps(listing));
            r.Ok? && Inv(r.value, kv, bs) && r.value.mgr.tables == map[] && |r.value.mgr.gpu.all| == |w.mgr.gpu.all|
    decreases |listing|
  {
    hide Inv, Complete, Free, NumFree, ListsAll;
    var ops := FreeOps(listing);
    if listing == [] {
      assert w.mgr.tables == map[] by { NothingListed(w.mgr.tables); }
    } else {
      var (id, order) := listing[0];
      assert ops[0] == OpFree(id, order);
      assert ops[1..] == FreeOps(listing[1..]);
      FirstListed(w.mgr.tables, listing);
      FreeKeeps(w, kv, bs, id, order);
      var w' := FreeWorld(w, id, Free(w.mgr, id, order).value);
      FreeTables(w, kv, bs, id, order);
      ListsRest(w.mgr.tables, listing);
      FreeAll(w', kv, bs, listing[1..]);
    }
  }

  lemma NothingListed<B>(tables: map<nat, seq<B>>)
    requires ListsAll(tables, [])
    ensures tables == map[]
  {
    assert tables.Keys == {};
  }

  lemma FirstListed<B>(tables: map<nat, seq<B>>, listing: seq<(nat, seq<B>)>)
    requires ListsAll(tables, listing) && listing != []
    ensures listing[0].0 in tables && BlockManager.EnumeratesSet(listing[0].1, tables[listing[0].0])
  {
  }

  lemma FreeTables<B, V>(w: World<B, V>, kv: Kv<V>, bs: nat, id: nat, order: seq<B>)
    requires bs > 0 && Inv(w, kv, bs) && id in w.mgr.tables && Free(w.mgr, id, order).Ok?
    requires BlockManager.EnumeratesSet(order, w.mgr.tables[id])
    ensures var s := Free(w.mgr, id, order).value;
            s.tables == w.mgr.tables - {id} && |s.gpu.all| == |w.mgr.gpu.all|
  {
    hide Inv, PoolOk, ReleaseAll, NumFree;
    InvParts(w, kv, bs);
    HeldInUse(w, kv, bs, id);
    ReleaseAllKeeps(w.mgr.gpu, order);
  }

  /** LATER: once all sequences of this very world are freed, in any order, the answer is OK. */
  lemma LaterBecomesOk<B, V>(w: World<B, V>, kv: Kv<V>, bs: nat, d: SeqData, watermark: nat,
          listing: seq<(nat, seq<B>)>)
    requires bs > 0 && Inv(w, kv, bs) && Complete(w, bs) && ListsAll(w.mgr.tables, listing)
    requires CanAllocate(w.mgr.gpu, d, bs, watermark) == BlockManager.LATER
    ensures Scheduled(w, kv, bs, FreeOps(listing))
    ensures var r := Run(w, kv, bs, FreeOps(listing));
            r.Ok? && CanAllocate(r.value.mgr.gpu, d, bs, watermark) == BlockManager.OK
  {
    hide Inv, Complete, ListsAll, NumFree, NBlocks, PromptBlocks, PoolOk, Counted, Held, Run, Scheduled, FreeOps;
    FreeAll(w, kv, bs, listing);
    var w' := Run(w, kv, bs, FreeOps(listing)).value;
    InvParts(w', kv, bs);
    FreeCount(w'.mgr.gpu, w'.mgr.tables);
    NothingHeld(w'.mgr.gpu, w'.mgr.tables);
  }
}
