/**
 * Whole runs of the prefix-caching manager share all that can be shared: two live sequences have
 * the same physical block at a full position exactly if they agree on the tokens up to its end.
 */
module PrefixSharing {
  import opened Wrappers
  import opened Holding
  import opened Evictor
  import opened CachedAllocator
  import opened PrefixCache
  import opened PrefixSoundness
  import opened PrefixAppend
  import opened PrefixRuns
  import opened PrefixReuse
  import Arith
  import BlockManager
  import Paging

  /** Every full block of a live sequence is filed under the tokens up to its end. */
  ghost predicate FullFiled<B, V>(w: World<B, V>, bs: nat) {
    forall id, i :: id in w.mgr.tables && 0 <= i < |w.mgr.tables[id]| ==> BlockFiled(w, bs, id, i)
  }

  ghost predicate BlockFiled<B, V>(w: World<B, V>, bs: nat, id: nat, i: nat)
    requires id in w.mgr.tables && i < |w.mgr.tables[id]|
  {
    id in w.data && (i + 1) * bs <= |Tokens(w.data[id])| ==> FiledAt(w.mgr.gpu, w.mgr.tables[id][i], w.data[id], i, bs)
  }

  // ----- allocate

  lemma AllocateFiled<B, V>(w: World<B, V>, kv: Kv<V>, bs: nat, id: nat, d: SeqData)
    requires bs > 0 && Inv(w, kv, bs) && Complete(w, bs) && FullFiled(w, bs) && id !in w.mgr.tables
    ensures var r := Allocate(w.mgr, bs, id, d);
            r.Ok? ==> FullFiled(AllocateWorld(w, kv, bs, id, d, r.value), bs)
  {
    hide Inv, Complete, NBlocks, NumFree, PoolOk, Allocate, FiledUnder, PromptStore, Reuses, Tokens, Lacking;
    InvParts(w, kv, bs);
    AllocateExact(w.mgr, bs, id, d);
    var r := Allocate(w.mgr, bs, id, d);
    if r.Ok? {
      var w' := AllocateWorld(w, kv, bs, id, d, r.value);
      forall k, i | k in w'.mgr.tables && 0 <= i < |w'.mgr.tables[k]|
        ensures BlockFiled(w', bs, k, i)
      {
        if k != id {
          HeldInUse(w, kv, bs, k);
          assert BlockFiled(w, bs, k, i);
          assert w.mgr.tables[k][i] in w.mgr.tables[k];
        }
      }
    }
  }

  // ----- append

  /** A key of a full block stays the right one while the sequence grows. */
  lemma FiledWhileGrowing(k: Key, d: SeqData, d': SeqData, n: nat)
    requires Extends(d, d') && n <= |Tokens(d)| && FiledUnder(k, d, n)
    ensures FiledUnder(k, d', n)
  {
    ExtendsTokens(d, d');
    assert Tokens(d')[..n] == Tokens(d)[..n];
  }

  /** A full last block is what the test for it says. */
  lemma LastIsFull(d: SeqData, d': SeqData, bs: nat)
    requires bs > 0 && Extends(d, d') && NBlocks(d', bs) * bs <= |Tokens(d')|
    ensures LastBlockFull(d', bs)
  {
    hide NBlocks, Tokens;
    NewSlot(d, d', bs);
    ExtendsTokens(d, d');
    var n := NBlocks(d', bs);
    assert n * bs == (n - 1) * bs + bs;
    Paging.RemainderUnique(n, bs, 0);
  }

  lemma AppendOwnFiled<B, V>(w: World<B, V>, bs: nat, id: nat, d': SeqData, w': World<B, V>, pairs: seq<(B, B)>, i: nat)
    requires bs > 0 && FullFiled(w, bs) && id in w.mgr.tables && id in w.data && Extends(w.data[id], d')
    requires Placed(w.mgr, bs, id, d', w'.mgr, pairs) && w'.data == w.data[id := d']
    requires NoDup(w'.mgr.tables[id]) && i < |w'.mgr.tables[id]|
    ensures BlockFiled(w', bs, id, i)
  {
    hide NBlocks, Tokens, FiledUnder, LastBlockFull, PrefixKey, UnheldByOthers;
    var d, t, t' := w.data[id], w.mgr.tables[id], w'.mgr.tables[id];
    var n := |t'|;
    var b := t'[n - 1];
    NewSlot(d, d', bs);
    if (i + 1) * bs <= |Tokens(d')| {
      if i == n - 1 {
        LastIsFull(d, d', bs);
        PrefixKeyIff(w'.mgr.gpu.info[b].key, d', BlockEnd(i, bs));
      } else {
        var x := t[i];
        assert t'[i] == x && x != b;
        Arith.MulMono(i + 1, n - 1, bs);
        assert BlockFiled(w, bs, id, i);
        FiledWhileGrowing(w.mgr.gpu.info[x].key, d, d', (i + 1) * bs);
      }
    }
  }

  lemma AppendOtherFiled<B, V>(w: World<B, V>, bs: nat, id: nat, d': SeqData, w': World<B, V>, pairs: seq<(B, B)>,
          k: nat, i: nat)
    requires bs > 0 && FullFiled(w, bs) && id in w.mgr.tables && id in w.data
    requires Placed(w.mgr, bs, id, d', w'.mgr, pairs) && w'.data == w.data[id := d']
    requires k != id && k in w.mgr.tables && i < |w.mgr.tables[k]|
    ensures k in w'.mgr.tables && i < |w'.mgr.tables[k]| && BlockFiled(w', bs, k, i)
  {
    hide NBlocks, Tokens, FiledUnder, LastBlockFull, PrefixKey;
    var x := w.mgr.tables[k][i];
    assert x in w.mgr.tables[k];
    assert w'.mgr.tables[k] == w.mgr.tables[k] && BlockFiled(w, bs, k, i);
  }

  lemma AppendFiled<B, V>(w: World<B, V>, kv: Kv<V>, bs: nat, id: nat, d': SeqData)
    requires Ready(w, kv, bs, id, d') && FullFiled(w, bs)
    ensures var r := AppendSlots(w.mgr, bs, id, d');
            r.Ok? ==> FullFiled(AppendWorld(w, kv, bs, id, d', r.value.0, r.value.1), bs)
  {
    hide Inv, Complete, NBlocks, NumFree, Tokens, AppendSlots, AppendWorld, Placed, BlockFiled, Extends;
    AppendKeeps(w, kv, bs, id, d');
    var r := AppendSlots(w.mgr, bs, id, d');
    if r.Ok? {
      var w' := AppendWorld(w, kv, bs, id, d', r.value.0, r.value.1);
      PlacedTables(w.mgr, bs, id, d', w'.mgr, r.value.1);
      HeldInUse(w', kv, bs, id);
      forall k, i | k in w'.mgr.tables && 0 <= i < |w'.mgr.tables[k]|
        ensures BlockFiled(w', bs, k, i)
      {
        if k == id {
          AppendOwnFiled(w, bs, id, d', w', r.value.1, i);
        } else {
          AppendOtherFiled(w, bs, id, d', w', r.value.1, k, i);
        }
      }
    }
  }

  lemma PlacedTables<B>(s: CState<B>, bs: nat, id: nat, d': SeqData, s': CState<B>, pairs: seq<(B, B)>)
    requires bs > 0 && Placed(s, bs, id, d', s', pairs)
    ensures id in s.tables && id in s'.tables && s'.tables == s.tables[id := s'.tables[id]]
  {
  }

  // ----- the other operations

  /** Keys stay, and every table is an old one. */
  lemma RefsOnlyFiled<B, V>(w: World<B, V>, w': World<B, V>, bs: nat)
    requires FullFiled(w, bs) && RefsOnly(w.mgr.gpu, w'.mgr.gpu) && OldTables(w, w')
    ensures FullFiled(w', bs)
  {
    hide FiledUnder, Tokens;
    forall k, i | k in w'.mgr.tables && 0 <= i < |w'.mgr.tables[k]|
      ensures BlockFiled(w', bs, k, i)
    {
      var o :| HasTable(w, o, w'.mgr.tables[k], w'.data[k]);
      assert BlockFiled(w, bs, o, i);
    }
  }

  lemma ForkFiled<B, V>(w: World<B, V>, kv: Kv<V>, bs: nat, parent: nat, child: nat)
    requires bs > 0 && Inv(w, kv, bs) && FullFiled(w, bs)
    ensures FullFiled(ForkWorld(w, parent, child), bs)
  {
    hide Inv, PoolOk, NumFree, Retain, FullFiled, Tokens;
    var w' := ForkWorld(w, parent, child);
    InvParts(w, kv, bs);
    if parent in w.mgr.tables {
      HeldInUse(w, kv, bs, parent);
      RetainKeeps(w.mgr.gpu, w.mgr.tables[parent]);
      FrameKeys(w, bs);
      forall k | k in w'.mgr.tables
        ensures k in w'.data && exists o :: HasTable(w, o, w'.mgr.tables[k], w'.data[k])
      {
        assert HasTable(w, if k == child then parent else k, w'.mgr.tables[k], w'.data[k]);
      }
      RefsOnlyFiled(w, w', bs);
    } else {
      FrameKeys(w, bs);
      assert w' == w;
    }
  }

  lemma FreeFiled<B, V>(w: World<B, V>, kv: Kv<V>, bs: nat, id: nat, order: seq<B>)
    requires bs > 0 && Inv(w, kv, bs) && FullFiled(w, bs)
    requires id in w.mgr.tables ==> BlockManager.EnumeratesSet(order, w.mgr.tables[id])
    ensures var r := Free(w.mgr, id, order);
            r.Ok? ==> FullFiled(FreeWorld(w, id, r.value), bs)
  {
    hide Inv, PoolOk, NumFree, ReleaseAll, FullFiled, Tokens;
    InvParts(w, kv, bs);
    FrameKeys(w, bs);
    if id in w.mgr.tables {
      HeldInUse(w, kv, bs, id);
      ReleaseAllKeeps(w.mgr.gpu, order);
      var w' := FreeWorld(w, id, Free(w.mgr, id, order).value);
      forall k | k in w'.mgr.tables
        ensures k in w'.data && exists o :: HasTable(w, o, w'.mgr.tables[k], w'.data[k])
      {
        assert HasTable(w, k, w'.mgr.tables[k], w'.data[k]);
      }
      RefsOnlyFiled(w, w', bs);
    } else {
      assert w.data - {id} == w.data;
    }
  }

  lemma AccessFiled<B, V>(w: World<B, V>, kv: Kv<V>, bs: nat, id: nat, time: real)
    requires bs > 0 && Inv(w, kv, bs) && FullFiled(w, bs) && id in w.mgr.tables
    ensures FullFiled(w.(mgr := Access(w.mgr, id, time).value), bs)
  {
    hide Inv, PoolOk, Counted, NumFree, Touched, FullFiled, Tokens;
    var w' := w.(mgr := Access(w.mgr, id, time).value);
    InvParts(w, kv, bs);
    FrameKeys(w, bs);
    TouchedPool(w.mgr.gpu, w.mgr.tables, w.mgr.tables[id], time);
    SameTables(w, w');
    RefsOnlyFiled(w, w', bs);
  }

  // ----- runs

  lemma StepFiled<B, V>(w: World<B, V>, kv: Kv<V>, bs: nat, op: Op<B>)
    requires bs > 0 && Inv(w, kv, bs) && Complete(w, bs) && FullFiled(w, bs) && Enabled(w, op)
    ensures var r := Step(w, kv, bs, op);
            r.Ok? ==> FullFiled(r.value, bs)
  {
    hide Inv, Complete, FullFiled, Allocate, AppendSlots, AppendWorld, AllocateWorld, ForkWorld, FreeWorld, Free,
         NBlocks;
    match op {
      case OpAllocate(id, d) =>
        AllocateFiled(w, kv, bs, id, d);
      case OpAppend(id, token) =>
        AppendFiled(w, kv, bs, id, Grown(w.data[id], token));
      case OpFork(parent, child) =>
        ForkFiled(w, kv, bs, parent, child);
      case OpFree(id, order) =>
        FreeFiled(w, kv, bs, id, order);
      case OpAccess(id, time) =>
        AccessFiled(w, kv, bs, id, time);
    }
  }

  lemma {:induction false} RunFiled<B, V>(w: World<B, V>, kv: Kv<V>, bs: nat, ops: seq<Op<B>>)
    requires bs > 0 && Inv(w, kv, bs) && Complete(w, bs) && FullFiled(w, bs) && Scheduled(w, kv, bs, ops)
    ensures var r := Run(w, kv, bs, ops);
            r.Ok? ==> FullFiled(r.value, bs) && Complete(r.value, bs)
    decreases |ops|
  {
    hide Inv, Complete, FullFiled, Step, DataStep, Enabled;
    if ops != [] {
      StepSound(w, kv, bs, ops[0]);
      StepFiled(w, kv, bs, ops[0]);
      var r := Step(w, kv, bs, ops[0]);
      if r.Ok? {
        RunFiled(r.value, kv, bs, ops[1..]);
      }
    }
  }

  /** Position `i` is a full block of both sequences. */
  ghost predicate FullInBoth<B, V>(w: World<B, V>, bs: nat, a: nat, b: nat, i: nat) {
    && a in w.data && b in w.data && a in w.mgr.tables && b in w.mgr.tables
    && (i + 1) * bs <= |Tokens(w.data[a])| && (i + 1) * bs <= |Tokens(w.data[b])|
  }

  /** Two sequences have the same block at a full position exactly if they agree up to its end. */
  ghost predicate SharesExactly<B, V>(w: World<B, V>, bs: nat) {
    forall a, b, i: nat :: FullInBoth(w, bs, a, b, i) ==>
      && i < |w.mgr.tables[a]| && i < |w.mgr.tables[b]|
      && (w.mgr.tables[a][i] == w.mgr.tables[b][i] <==> SamePrefix(w.data[a], w.data[b], (i + 1) * bs))
  }

  lemma FullWithin<B, V>(w: World<B, V>, bs: nat, id: nat, i: nat)
    requires bs > 0 && Complete(w, bs) && id in w.mgr.tables && id in w.data
    requires (i + 1) * bs <= |Tokens(w.data[id])|
    ensures i < |w.mgr.tables[id]|
  {
    hide Tokens;
    var n := NBlocks(w.data[id], bs);
    Paging.NBlocksFits(|Tokens(w.data[id])|, bs);
    assert (i + 1) * bs == i * bs + bs;
    if n <= i {
      Arith.MulMono(n, i, bs);
    }
  }

  lemma FiledShares<B, V>(w: World<B, V>, bs: nat, a: nat, b: nat, i: nat)
    requires bs > 0 && PoolOk(w.mgr.gpu) && Complete(w, bs) && FullFiled(w, bs) && FullInBoth(w, bs, a, b, i)
    ensures i < |w.mgr.tables[a]| && i < |w.mgr.tables[b]|
    ensures w.mgr.tables[a][i] == w.mgr.tables[b][i] <==> SamePrefix(w.data[a], w.data[b], (i + 1) * bs)
  {
    FullWithin(w, bs, a, i);
    FullWithin(w, bs, b, i);
    hide Complete, PoolOk, NBlocks, Tokens, FiledUnder, SamePrefix, PrefixKey;
    assert BlockFiled(w, bs, a, i) && BlockFiled(w, bs, b, i);
    var x, y := w.mgr.tables[a][i], w.mgr.tables[b][i];
    var n: nat := (i + 1) * bs;
    PrefixKeyIff(w.mgr.gpu.info[x].key, w.data[a], n);
    PrefixKeyIff(w.mgr.gpu.info[y].key, w.data[b], n);
    KeysAgreeIff(w.data[a], w.data[b], n);
    if w.mgr.gpu.info[x].key == w.mgr.gpu.info[y].key {
      HashesDistinct(w.mgr.gpu, x, y);
    }
  }

  /** In every run, live sequences share their common full blocks, and no others. */
  lemma RunShares<B, V>(all: seq<B>, store: map<B, seq<V>>, kv: Kv<V>, bs: nat, ops: seq<Op<B>>)
    requires bs > 0 && NoDup(all) && store.Keys == Elems(all) && forall b :: b in store ==> |store[b]| == bs
    requires Scheduled(Initial(all, store), kv, bs, ops)
    ensures var r := Run(Initial(all, store), kv, bs, ops);
            r.Ok? ==> SharesExactly(r.value, bs) && FullFiled(r.value, bs)
  {
    hide Inv, Complete, Run, Scheduled, DataRun, PoolOk, Counted, FullFiled, SharesExactly;
    InitialInv(all, store, kv, bs);
    RunKeeps(Initial(all, store), kv, bs, ops);
    assert FullFiled(Initial(all, store), bs) by { InitialFiled(all, store, bs); }
    RunFiled(Initial(all, store), kv, bs, ops);
    var r := Run(Initial(all, store), kv, bs, ops);
    if r.Ok? {
      InvParts(r.value, kv, bs);
      AllShare(r.value, bs);
    }
  }

  lemma InitialFiled<B, V>(all: seq<B>, store: map<B, seq<V>>, bs: nat)
    ensures FullFiled(Initial(all, store), bs)
  {
  }

  lemma AllShare<B, V>(w: World<B, V>, bs: nat)
    requires bs > 0 && PoolOk(w.mgr.gpu) && Complete(w, bs) && FullFiled(w, bs)
    ensures SharesExactly(w, bs)
  {
    hide PoolOk, Complete, FullFiled, SamePrefix, Tokens;
    forall a, b, i: nat | FullInBoth(w, bs, a, b, i)
      ensures && i < |w.mgr.tables[a]| && i < |w.mgr.tables[b]|
              && (w.mgr.tables[a][i] == w.mgr.tables[b][i] <==> SamePrefix(w.data[a], w.data[b], (i + 1) * bs))
    {
      FiledShares(w, bs, a, b, i);
    }
  }
}
