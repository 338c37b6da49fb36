/** A condition on the start of a step under which its copies cannot conflict. */
module PrefixRoom {
  import opened Wrappers
  import opened Evictor
  import opened CachedAllocator
  import opened Copying
  import opened PrefixCache
  import opened PrefixSoundness
  import opened PrefixAppend
  import opened PrefixRuns
  import opened PrefixSteps
  import Paging

  /** The sequence of append `i`, with its token. */
  ghost predicate Grows(data: map<nat, SeqData>, news: News, i: nat, d': SeqData) {
    i < |news| && news[i].0 in data && d' == Grown(data[news[i].0], news[i].1)
  }

  /** The hash under which the last block of a sequence is filed once it is full. */
  ghost function FullHash(d: SeqData, bs: nat): Option<Key>
    requires bs > 0
  {
    if LastBlockFull(d, bs) && NBlocks(d, bs) > 0 then Some(HashOfBlock(d, NBlocks(d, bs) - 1, bs)) else None
  }

  /** No two appends of the step fill a block with the same content. */
  ghost predicate FillApart(data: map<nat, SeqData>, bs: nat, news: News)
    requires bs > 0
  {
    forall i, j, d, e :: i < j && Grows(data, news, i, d) && Grows(data, news, j, e) ==>
      FullHash(d, bs) == None || FullHash(d, bs) != FullHash(e, bs)
  }

  /** A block never used is left for each append. */
  ghost predicate Room<B>(p: CPool<B>, news: News) {
    p.current + |news| <= |p.all|
  }

  // ----- what keeps the pairs' blocks from being taken

  /** The block is there and does not have the key that an append from `i` on files a block under. */
  ghost predicate Spared<B>(p: CPool<B>, data: map<nat, SeqData>, bs: nat, news: News, i: nat, x: B)
    requires bs > 0
  {
    x in p.info && forall j, d :: i <= j && Grows(data, news, j, d) ==> FullHash(d, bs) != Some(p.info[x].key)
  }

  ghost predicate AllSpared<B>(p: CPool<B>, data: map<nat, SeqData>, bs: nat, news: News, i: nat, pairs: Pairs<B>)
    requires bs > 0
  {
    forall j :: 0 <= j < |pairs| ==>
      Spared(p, data, bs, news, i, pairs[j].0) && Spared(p, data, bs, news, i, pairs[j].1)
  }

  lemma SparedNotTaken<B>(p: CPool<B>, data: map<nat, SeqData>, bs: nat, news: News, i: nat, d': SeqData, x: B)
    requires bs > 0 && PoolOk(p) && p.current < |p.all| && Grows(data, news, i, d') && Spared(p, data, bs, news, i, x)
    ensures !WouldTake(p, bs, d', x)
  {
    hide LastBlockFull, NBlocks, PrefixKey, Contains, CachedOk, TableOk, Grown;
  }

  lemma SparedNoClash<B>(s: CState<B>, data: map<nat, SeqData>, bs: nat, news: News, i: nat, d': SeqData,
          pairs: Pairs<B>)
    requires bs > 0 && PoolOk(s.gpu) && s.gpu.current < |s.gpu.all| && Grows(data, news, i, d')
    requires AllSpared(s.gpu, data, bs, news, i, pairs)
    ensures !Clashes(s, bs, news[i].0, d', pairs)
  {
    hide WouldTake, PoolOk, Spared, Copies, Grown;
    forall j | 0 <= j < |pairs|
      ensures !WouldTake(s.gpu, bs, d', pairs[j].0) && !WouldTake(s.gpu, bs, d', pairs[j].1)
    {
      SparedNotTaken(s.gpu, data, bs, news, i, d', pairs[j].0);
      SparedNotTaken(s.gpu, data, bs, news, i, d', pairs[j].1);
    }
  }

  /** A block filed under the hash of a full block has the key of a whole block. */
  lemma FullHashFullKey<B, V>(u: World<B, V>, kv: Kv<V>, bs: nat, x: B, d: SeqData)
    requires bs > 0 && Inv(u, kv, bs) && x in u.mgr.gpu.info && FullHash(d, bs) == Some(u.mgr.gpu.info[x].key)
    ensures FullKey(u.mgr.gpu, x)
  {
    hide PoolOk, Counted, Frame, Holds, Tokens, KeyTokens, PrefixKey, LastBlockFull, TableTrue;
    var n := NBlocks(d, bs);
    FullEnds(d, bs);
    BlockEndBasics(n - 1, bs);
    assert (n - 1) * bs + bs == n * bs;
    PrefixKeyTokens(d, BlockEnd(n - 1, bs));
    assert KeyTrue(u, kv, bs, x);
  }

  /** A sequence whose last block is not full does not have it under the key of a whole block. */
  lemma PartNotFull<B, V>(u: World<B, V>, kv: Kv<V>, bs: nat, id: nat)
    requires bs > 0 && Inv(u, kv, bs) && Complete(u, bs) && HasLast(u.mgr.tables, id) && id in u.data
    requires !LastBlockFull(u.data[id], bs)
    ensures !FullKey(u.mgr.gpu, LastOf(u.mgr.tables, id))
  {
    hide Inv, Tokens, KeyTokens;
    var n, len := |u.mgr.tables[id]|, |Tokens(u.data[id])|;
    PositionOf(u, kv, bs, id, n - 1);
    BlockEndBasics(n - 1, bs);
    assert (n - 1) * bs + bs == n * bs;
    Paging.NBlocksFits(len, bs);
    if len == n * bs {
      Paging.RemainderUnique(n, bs, 0);
    }
  }

  lemma SparedKept<B, V>(u: World<B, V>, kv: Kv<V>, bs: nat, data: map<nat, SeqData>, news: News, i: nat, d': SeqData,
          u': World<B, V>, more: Pairs<B>, x: B)
    requires bs > 0 && i < |news| && Next(u, kv, bs, news[i].0, d', u', more) && FillApart(data, bs, news)
    requires Grows(data, news, i, d') && Spared(u.mgr.gpu, data, bs, news, i, x)
    ensures Spared(u'.mgr.gpu, data, bs, news, i + 1, x)
  {
    hide Inv, Complete, NBlocks, AppendWorld, Extends, LastBlockFull, UnheldByOthers, PrefixKey, Grown, FullKey;
    var b := u'.mgr.tables[news[i].0][NBlocks(d', bs) - 1];
    if x == b {
      TakenSpared(u, kv, bs, data, news, i, d', u', more);
    }
  }

  /** The block the append ends up with. */
  lemma TakenSpared<B, V>(u: World<B, V>, kv: Kv<V>, bs: nat, data: map<nat, SeqData>, news: News, i: nat, d': SeqData,
          u': World<B, V>, more: Pairs<B>)
    requires bs > 0 && i < |news| && Next(u, kv, bs, news[i].0, d', u', more) && FillApart(data, bs, news)
    requires Grows(data, news, i, d')
    ensures HasLast(u'.mgr.tables, news[i].0)
    ensures Spared(u'.mgr.gpu, data, bs, news, i + 1, LastOf(u'.mgr.tables, news[i].0))
  {
    hide Inv, Complete, NBlocks, AppendWorld, Extends, LastBlockFull, UnheldByOthers, PrefixKey, Grown, FullKey,
         KeysKept;
    var id := news[i].0;
    var b := LastOf(u'.mgr.tables, id);
    if LastBlockFull(d', bs) {
      assert FullHash(d', bs) == Some(u'.mgr.gpu.info[b].key);
    } else {
      PartNotFull(u', kv, bs, id);
      forall j, d | i + 1 <= j && Grows(data, news, j, d)
        ensures FullHash(d, bs) != Some(u'.mgr.gpu.info[b].key)
      {
        if FullHash(d, bs) == Some(u'.mgr.gpu.info[b].key) {
          FullHashFullKey(u', kv, bs, b, d);
        }
      }
    }
  }

  /** The source of the copy that an append asks for. */
  lemma SourceSpared<B, V>(u: World<B, V>, kv: Kv<V>, bs: nat, data: map<nat, SeqData>, news: News, i: nat, d': SeqData,
          u': World<B, V>, more: Pairs<B>)
    requires bs > 0 && i < |news| && Next(u, kv, bs, news[i].0, d', u', more) && more != []
    ensures Spared(u.mgr.gpu, data, bs, news, i, more[0].0)
  {
    hide Complete, NBlocks, AppendWorld, Extends, LastBlockFull, PrefixKey, Grown, FullKey, PoolOk, Counted, Frame,
         KeyTrue,
         Holds, KeyTokens, PlacedBlock;
    var id := news[i].0;
    InStore(u, kv, bs, id, d', u', more);
    var a := more[0].0;
    PositionOf(u, kv, bs, id, |u.mgr.tables[id]| - 1);
    LastNotFull(u, kv, bs, id, d');
    forall j, d | i <= j && Grows(data, news, j, d)
      ensures FullHash(d, bs) != Some(u.mgr.gpu.info[a].key)
    {
      if FullHash(d, bs) == Some(u.mgr.gpu.info[a].key) {
        FullHashFullKey(u, kv, bs, a, d);
      }
    }
  }

  lemma AllSparedNext<B, V>(u: World<B, V>, kv: Kv<V>, bs: nat, data: map<nat, SeqData>, news: News, i: nat,
          d': SeqData,
          u': World<B, V>, pairs: Pairs<B>, more: Pairs<B>)
    requires bs > 0 && i < |news| && Next(u, kv, bs, news[i].0, d', u', more) && FillApart(data, bs, news)
    requires Grows(data, news, i, d') && AllSpared(u.mgr.gpu, data, bs, news, i, pairs)
    ensures AllSpared(u'.mgr.gpu, data, bs, news, i + 1, pairs + more)
  {
    hide Next, FillApart, Spared, Grown;
    forall j | 0 <= j < |pairs|
      ensures Spared(u'.mgr.gpu, data, bs, news, i + 1, pairs[j].0)
      ensures Spared(u'.mgr.gpu, data, bs, news, i + 1, pairs[j].1)
    {
      SparedKept(u, kv, bs, data, news, i, d', u', more, pairs[j].0);
      SparedKept(u, kv, bs, data, news, i, d', u', more, pairs[j].1);
    }
    if more != [] {
      InStore(u, kv, bs, news[i].0, d', u', more);
      SourceSpared(u, kv, bs, data, news, i, d', u', more);
      SparedKept(u, kv, bs, data, news, i, d', u', more, more[0].0);
      TakenSpared(u, kv, bs, data, news, i, d', u', more);
    }
  }

  // ----- the step

  /** An allocation creates one block at most. */
  lemma AcquireCreates<B>(p: CPool<B>, want: Option<Key>, numHashed: nat)
    ensures var r := Acquire(p, want, numHashed);
            r.Ok? ==> r.value.0.all == p.all && r.value.0.current <= p.current + 1
  {
    hide Victim;
  }

  lemma ReleaseCreates<B>(p: CPool<B>, b: B)
    ensures Release(p, b).Ok? ==> Release(p, b).value.all == p.all && Release(p, b).value.current == p.current
  {
  }

  lemma PromoteCreates<B>(p: CPool<B>, d': SeqData, bs: nat, last: B)
    requires bs > 0
    ensures var r := Promote(p, d', bs, last);
            r.Ok? ==> r.value.0.all == p.all && r.value.0.current <= p.current + 1
  {
    hide Acquire, Release, PrefixKey, BlockEnd, Contains;
    ReleaseCreates(p, last);
    if LastBlockFull(d', bs) && Release(p, last).Ok? {
      AcquireCreates(Release(p, last).value, Some(HashOfBlock(d', NBlocks(d', bs) - 1, bs)), 0);
    }
  }

  lemma AppendCreates<B>(s: CState<B>, bs: nat, id: nat, d': SeqData)
    requires bs > 0
    ensures var r := AppendSlots(s, bs, id, d');
            r.Ok? ==> r.value.0.gpu.all == s.gpu.all && r.value.0.gpu.current <= s.gpu.current + 1
  {
    hide Release, LastBlockFull, NBlocks, AllocateLast, Promote;
    if id in s.tables {
      LastCreates(s.gpu, d', bs);
      if s.tables[id] != [] {
        var last := s.tables[id][|s.tables[id]| - 1];
        PromoteCreates(s.gpu, d', bs, last);
        if AllocateLast(s.gpu, d', bs).Ok? {
          ReleaseCreates(AllocateLast(s.gpu, d', bs).value.0, last);
        }
      }
    }
  }

  lemma LastCreates<B>(p: CPool<B>, d': SeqData, bs: nat)
    requires bs > 0
    ensures var r := AllocateLast(p, d', bs);
            r.Ok? ==> r.value.0.all == p.all && r.value.0.current <= p.current + 1
  {
    hide Acquire, LastBlockFull, NBlocks, PrefixKey, BlockEnd;
    var n := NBlocks(d', bs);
    if n > 0 {
      AcquireCreates(p, if LastBlockFull(d', bs) then Some(HashOfBlock(d', n - 1, bs)) else None, BlockEnd(n - 1, bs));
    }
  }

  /** After the first `n` appends. */
  ghost predicate Roomy<B, V>(w: World<B, V>, u: World<B, V>, bs: nat, news: News, n: nat, pairs: Pairs<B>)
    requires bs > 0
  {
    && u.mgr.gpu.all == w.mgr.gpu.all && u.mgr.gpu.current <= w.mgr.gpu.current + n
    && AllSpared(u.mgr.gpu, w.data, bs, news, n, pairs)
    && (forall j :: n <= j < |news| ==>
          news[j].0 in w.data && news[j].0 in u.data && u.data[news[j].0] == w.data[news[j].0])
  }

  lemma RoomyNext<B, V>(w: World<B, V>, u: World<B, V>, kv: Kv<V>, bs: nat, news: News, n: nat, d': SeqData,
          s: CState<B>,
          pairs: Pairs<B>, more: Pairs<B>)
    requires bs > 0 && n < |news| && Distinct(news) && Roomy(w, u, bs, news, n, pairs) && FillApart(w.data, bs, news)
    requires d' == Grown(w.data[news[n].0], news[n].1) && AppendSlots(u.mgr, bs, news[n].0, d') == Ok((s, more))
    requires Next(u, kv, bs, news[n].0, d', AppendWorld(u, kv, bs, news[n].0, d', s, more), more)
    ensures Roomy(w, AppendWorld(u, kv, bs, news[n].0, d', s, more), bs, news, n + 1, pairs + more)
  {
    hide Inv, Complete, AppendSlots, AllSpared, FillApart, Placed, SequentialCopy, Grown;
    var u' := AppendWorld(u, kv, bs, news[n].0, d', s, more);
    AppendCreates(u.mgr, bs, news[n].0, d');
    AllSparedNext(u, kv, bs, w.data, news, n, d', u', pairs, more);
  }

  lemma {:induction false} StepRoomy<B, V>(w: World<B, V>, kv: Kv<V>, bs: nat, news: News, n: nat)
    requires bs > 0 && Inv(w, kv, bs) && Complete(w, bs) && Distinct(news) && n <= |news|
    requires forall i :: 0 <= i < |news| ==> news[i].0 in w.mgr.tables
    requires FillApart(w.data, bs, news)
    ensures var r := StepAll(w, kv, bs, news[..n]); r.Ok? ==> Roomy(w, r.value.0, bs, news, n, r.value.1)
  {
    hide Inv, Complete, Underway, AppendSlots, AppendWorld, Next, FillApart, Roomy, Grown;
    if n == 0 {
      assert news[..0] == [];
      StartRoomy(w, kv, bs, news);
    } else {
      var init := news[..n - 1];
      assert news[..n][..n - 1] == init && news[..n][n - 1] == news[n - 1];
      StepRoomy(w, kv, bs, news, n - 1);
      StepBatches(w, kv, bs, init);
      if StepAll(w, kv, bs, news[..n]).Ok? {
        var (u, pairs) := StepAll(w, kv, bs, init).value;
        StepOnce(w, u, pairs, kv, bs, news[..n]);
        var (id, token) := news[n - 1];
        assert id in w.data && u.data[id] == w.data[id] by { LaterData(w, u, bs, news, n - 1, pairs); }
        var d' := Grown(w.data[id], token);
        var (s, more) := AppendSlots(u.mgr, bs, id, d').value;
        RoomyNext(w, u, kv, bs, news, n - 1, d', s, pairs, more);
      }
    }
  }

  lemma LaterData<B, V>(w: World<B, V>, u: World<B, V>, bs: nat, news: News, n: nat, pairs: Pairs<B>)
    requires bs > 0 && n < |news| && Roomy(w, u, bs, news, n, pairs)
    ensures news[n].0 in w.data && news[n].0 in u.data && u.data[news[n].0] == w.data[news[n].0]
  {
    hide AllSpared;
  }

  lemma StartRoomy<B, V>(w: World<B, V>, kv: Kv<V>, bs: nat, news: News)
    requires bs > 0 && Inv(w, kv, bs) && forall i :: 0 <= i < |news| ==> news[i].0 in w.mgr.tables
    ensures Roomy(w, w, bs, news, 0, [])
  {
    hide PoolOk, Counted, KeyTrue, TableTrue;
  }

  /**
   * With a block never used for each append, and no two appends filling a block with the same content,
   * the copies of the step have distinct destinations, none of them a source.
   */
  lemma RoomConflictFree<B, V>(w: World<B, V>, kv: Kv<V>, bs: nat, news: News)
    requires bs > 0 && Inv(w, kv, bs) && Complete(w, bs) && Distinct(news)
    requires forall i :: 0 <= i < |news| ==> news[i].0 in w.mgr.tables
    requires Room(w.mgr.gpu, news) && FillApart(w.data, bs, news) && StepAll(w, kv, bs, news).Ok?
    ensures Unclashing(w, kv, bs, news) && ConflictFree(StepAll(w, kv, bs, news).value.1)
  {
    hide Inv, Complete, StepAll, Clashes, FillApart, ConflictFree, Roomy, Grown;
    forall i | 0 <= i < |news|
      ensures !ClashesAt(w, kv, bs, news, i)
    {
      StepRoomy(w, kv, bs, news, i);
      StepBatches(w, kv, bs, news[..i]);
      if StepAll(w, kv, bs, news[..i]).Ok? {
        var (u, pairs) := StepAll(w, kv, bs, news[..i]).value;
        UnderwaySound(w, u, pairs, kv, bs, news[..i]);
        RoomyNoClash(w, u, kv, bs, news, i, pairs);
      }
    }
    StepConflictFreeIff(w, kv, bs, news);
  }

  lemma RoomyNoClash<B, V>(w: World<B, V>, u: World<B, V>, kv: Kv<V>, bs: nat, news: News, i: nat, pairs: Pairs<B>)
    requires bs > 0 && i < |news| && Inv(u, kv, bs) && Room(w.mgr.gpu, news) && Roomy(w, u, bs, news, i, pairs)
    ensures news[i].0 in u.data && !Clashes(u.mgr, bs, news[i].0, Grown(u.data[news[i].0], news[i].1), pairs)
  {
    hide PoolOk, Counted, KeyTrue, TableTrue, Frame, AllSpared, Clashes, Grown;
    SparedNoClash(u.mgr, w.data, bs, news, i, Grown(w.data[news[i].0], news[i].1), pairs);
  }
}
