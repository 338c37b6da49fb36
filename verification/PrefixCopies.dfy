/** The copies of one step of the caching manager, carried out in any order. */
module PrefixCopies {
  import opened Wrappers
  import opened Evictor
  import opened CachedAllocator
  import opened Copying
  import opened PrefixCache
  import opened PrefixAppend
  import opened PrefixRuns
  import opened PrefixSteps
  import Paging

  // ----- what the source of a copy holds

  /** The appends of the step, by their place in it, that asked for a copy. */
  ghost function Askers<B, V>(w: World<B, V>, kv: Kv<V>, bs: nat, news: News): (r: seq<nat>)
    requires bs > 0
    ensures forall j :: 0 <= j < |r| ==> r[j] < |news|
    decreases |news|
  {
    if news == [] then []
    else
      var n := |news| - 1;
      var before := Askers(w, kv, bs, news[..n]);
      var r, r' := StepAll(w, kv, bs, news[..n]), StepAll(w, kv, bs, news);
      if r.Ok? && r'.Ok? && r'.value.1 != r.value.1 then before + [n] else before
  }

  /**
   * The destination is the last block of the sequence of append `i`, and before the step the source
   * held the entries of all its tokens but the new one.
   */
  ghost predicate CopiedFor<B, V>(w: World<B, V>, u: World<B, V>, kv: Kv<V>, bs: nat, news: News, p: (B, B), i: nat) {
    && i < |news| && HasLast(u.mgr.tables, news[i].0) && news[i].0 in u.data
    && LastOf(u.mgr.tables, news[i].0) == p.1 && p.0 in w.store
    && var d, n := u.data[news[i].0], |u.mgr.tables[news[i].0]|;
    && 0 <= (n - 1) * bs < |Tokens(d)| && Holds(w.store[p.0], kv, d.lora, Tokens(d)[..|Tokens(d)| - 1], (n - 1) * bs)
  }

  /** Each copy was asked for by another append, for the sequence of that append. */
  ghost predicate AllAsked<B, V>(w: World<B, V>, u: World<B, V>, kv: Kv<V>, bs: nat, news: News, pairs: Pairs<B>,
          asker: seq<nat>) {
    && |asker| == |pairs|
    && (forall j, l :: 0 <= j < l < |asker| ==> asker[j] != asker[l])
    && (forall j :: 0 <= j < |asker| ==> pairs[j].0 != pairs[j].1 && CopiedFor(w, u, kv, bs, news, pairs[j], asker[j]))
  }

  /** The source of the next copy still holds what it did before the step. */
  lemma SourceUntouched<B, V>(w: World<B, V>, u: World<B, V>, pairs: Pairs<B>, kv: Kv<V>, bs: nat, news: News, id: nat,
          d': SeqData,
                              u': World<B, V>, more: Pairs<B>)
    requires bs > 0 && Underway(w, u, pairs, kv, bs, news) && Next(u, kv, bs, id, d', u', more) && NotYet(news, id)
             && more != []
    requires UnwrittenSource(pairs, more)
    ensures more[0].0 in w.store && more[0].0 in u.store && u.store[more[0].0] == w.store[more[0].0]
  {
    hide Inv, Complete, Quiet, Placed, AppendWorld, Extends, WriteEach, SequentialCopy, NBlocks;
    InStore(u, kv, bs, id, d', u', more);
    var a := more[0].0;
    CopyFrame(w.store, pairs, a);
    forall i | 0 <= i < |news| && HasLast(u.mgr.tables, news[i].0)
      ensures LastOf(u.mgr.tables, news[i].0) != a
    {
      QuietNotSource(u, kv, bs, id, d', news[i].0);
    }
    WriteEachFrame(SequentialCopy(w.store, pairs), u.mgr.tables, u.data, kv, bs, news, a, w.store[a]);
  }

  lemma NextCopiedFor<B, V>(w: World<B, V>, u: World<B, V>, pairs: Pairs<B>, kv: Kv<V>, bs: nat, news: News, id: nat,
          token: Token,
                            d': SeqData, u': World<B, V>, more: Pairs<B>)
    requires bs > 0 && Underway(w, u, pairs, kv, bs, news) && Next(u, kv, bs, id, d', u', more) && NotYet(news, id)
             && more != []
    requires UnwrittenSource(pairs, more)
    ensures CopiedFor(w, u', kv, bs, news + [(id, token)], more[0], |news|)
  {
    hide Inv, Complete, Quiet, Placed, AppendWorld, WriteEach, SequentialCopy, NBlocks, Holds, Tokens, Underway;
    SourceUntouched(w, u, pairs, kv, bs, news, id, d', u', more);
    InStore(u, kv, bs, id, d', u', more);
    var a, n, d := more[0].0, NBlocks(d', bs), u.data[id];
    InvParts(u, kv, bs);
    LastHolds(u, kv, bs, id);
    ExtendsTokens(d, d');
    NewSlot(d, d', bs);
    assert Tokens(d) == Tokens(d')[..|Tokens(d')| - 1];
    TableLength(u', bs, id);
  }

  lemma LastHolds<B, V>(u: World<B, V>, kv: Kv<V>, bs: nat, id: nat)
    requires bs > 0 && Inv(u, kv, bs) && HasLast(u.mgr.tables, id)
    ensures var n, a := |u.mgr.tables[id]|, LastOf(u.mgr.tables, id);
            id in u.data && a in u.store && Holds(u.store[a], kv, u.data[id].lora, Tokens(u.data[id]), (n - 1) * bs)
  {
    hide PoolOk, Counted, KeyTrue, Frame, Holds, Fits, Tokens;
    assert TableTrue(u, kv, bs, id);
    assert BlockTrue(u, kv, bs, id, |u.mgr.tables[id]| - 1);
    BlockEndBasics(|u.mgr.tables[id]| - 1, bs);
  }

  lemma TableLength<B, V>(u: World<B, V>, bs: nat, id: nat)
    requires bs > 0 && Complete(u, bs) && id in u.mgr.tables && id in u.data
    ensures |u.mgr.tables[id]| == NBlocks(u.data[id], bs)
  {
  }

  lemma AskedSoFar<B, V>(w: World<B, V>, u: World<B, V>, pairs: Pairs<B>, kv: Kv<V>, bs: nat, news: News, id: nat,
          token: Token,
                         d': SeqData, u': World<B, V>, more: Pairs<B>, asker: seq<nat>)
    requires bs > 0 && Underway(w, u, pairs, kv, bs, news) && Next(u, kv, bs, id, d', u', more) && NotYet(news, id)
    requires AllAsked(w, u, kv, bs, news, pairs, asker)
    ensures forall j :: 0 <= j < |pairs| ==> CopiedFor(w, u', kv, bs, news + [(id, token)], pairs[j], asker[j])
  {
    hide Inv, Complete, Quiet, Placed, AppendWorld, WriteEach, SequentialCopy, NBlocks, Holds, Tokens, Next;
    WritersKept(u, kv, bs, id, d', u', more, news, w.store);
    forall j | 0 <= j < |pairs|
      ensures CopiedFor(w, u', kv, bs, news + [(id, token)], pairs[j], asker[j])
    {
      assert CopiedFor(w, u, kv, bs, news, pairs[j], asker[j]);
      assert (news + [(id, token)])[asker[j]] == news[asker[j]];
    }
  }

  lemma NothingAsked<B, V>(w: World<B, V>, kv: Kv<V>, bs: nat)
    ensures AllAsked(w, w, kv, bs, [], [], [])
  {
  }

  lemma AllAskedMore<B, V>(w: World<B, V>, u: World<B, V>, u': World<B, V>, kv: Kv<V>, bs: nat, news: News,
          news': News, pairs: Pairs<B>,
                           more: Pairs<B>, asker: seq<nat>)
    requires UnwrittenSource(pairs, more) && AllAsked(w, u, kv, bs, news, pairs, asker)
    requires forall j :: 0 <= j < |pairs| ==> CopiedFor(w, u', kv, bs, news', pairs[j], asker[j])
    requires more != [] ==> CopiedFor(w, u', kv, bs, news', more[0], |news|)
    ensures AllAsked(w, u', kv, bs, news', pairs + more, if more == [] then asker else asker + [|news|])
  {
    if more == [] {
      assert pairs + more == pairs;
    } else {
      hide CopiedFor;
      assert forall j :: 0 <= j < |asker| ==> asker[j] < |news| by { AskersEarlier(w, u, kv, bs, news, pairs, asker); }
    }
  }

  lemma AskersEarlier<B, V>(w: World<B, V>, u: World<B, V>, kv: Kv<V>, bs: nat, news: News, pairs: Pairs<B>,
          asker: seq<nat>)
    requires AllAsked(w, u, kv, bs, news, pairs, asker)
    ensures forall j :: 0 <= j < |asker| ==> asker[j] < |news|
  {
    forall j | 0 <= j < |asker|
      ensures asker[j] < |news|
    {
      assert CopiedFor(w, u, kv, bs, news, pairs[j], asker[j]);
    }
  }

  lemma {:induction false} StepAsks<B, V>(w: World<B, V>, kv: Kv<V>, bs: nat, news: News)
    requires bs > 0 && Inv(w, kv, bs) && Complete(w, bs) && Distinct(news)
    requires forall i :: 0 <= i < |news| ==> news[i].0 in w.mgr.tables
    requires StepAll(w, kv, bs, news).Ok?
    ensures var (u, pairs) := StepAll(w, kv, bs, news).value;
            AllAsked(w, u, kv, bs, news, pairs, Askers(w, kv, bs, news))
    decreases |news|
  {
    hide Inv, Complete, Underway, AppendSlots, AppendWorld, Next, AllAsked, CopiedFor, Copies, WouldTake,
         UnwrittenSource;
    if news == [] {
      assert AllAsked(w, w, kv, bs, news, [], []) by { NothingAsked(w, kv, bs); }
    } else {
      var n := |news| - 1;
      var init := news[..n];
      StepAsks(w, kv, bs, init);
      StepBatches(w, kv, bs, init);
      var (u, pairs) := StepAll(w, kv, bs, init).value;
      StepOnce(w, u, pairs, kv, bs, news);
      var (id, token) := news[n];
      var d' := Grown(u.data[id], token);
      var (s, more) := AppendSlots(u.mgr, bs, id, d').value;
      var u', asker := AppendWorld(u, kv, bs, id, d', s, more), Askers(w, kv, bs, init);
      assert NotYet(init, id);
      MgrOf(u, kv, bs, id, d', s, more);
      PairAsked(w, u, pairs, kv, bs, init, id, d', u', more);
      AskedSoFar(w, u, pairs, kv, bs, init, id, token, d', u', more, asker);
      if more != [] {
        NextCopiedFor(w, u, pairs, kv, bs, init, id, token, d', u', more);
      }
      AllAskedMore(w, u, u', kv, bs, init, init + [(id, token)], pairs, more, asker);
      assert init + [(id, token)] == news && (more == [] <==> pairs + more == pairs);
    }
  }

  // ----- two copies to one block

  /** The blocks differ at one offset at most. */
  ghost predicate SameBut<V>(x: seq<V>, y: seq<V>, r: nat) {
    |x| == |y| && forall j :: 0 <= j < |x| && j != r ==> x[j] == y[j]
  }

  /** A block under the key of a whole block tells all tokens of each sequence that has it last. */
  lemma FullTells<B, V>(u: World<B, V>, kv: Kv<V>, bs: nat, id: nat)
    requires bs > 0 && Inv(u, kv, bs) && Complete(u, bs) && HasLast(u.mgr.tables, id)
    requires FullKey(u.mgr.gpu, LastOf(u.mgr.tables, id))
    ensures var b := LastOf(u.mgr.tables, id);
            && id in u.data && u.data[id].lora == u.mgr.gpu.info[b].key.lora
            && Tokens(u.data[id]) == KeyTokens(u.mgr.gpu.info[b].key)
            && |Tokens(u.data[id])| == |u.mgr.tables[id]| * bs == u.mgr.gpu.info[b].numHashed
            && 0 <= (|u.mgr.tables[id]| - 1) * bs == u.mgr.gpu.info[b].numHashed - bs
              && Offset(u.data[id], bs) == bs - 1
  {
    hide Inv, Complete, Tokens, KeyTokens;
    var n := |u.mgr.tables[id]|;
    PositionOf(u, kv, bs, id, n - 1);
    TableLength(u, bs, id);
    BlockEndBasics(n - 1, bs);
    assert (n - 1) * bs + bs == n * bs;
    Paging.NBlocksFits(|Tokens(u.data[id])|, bs);
    Paging.RemainderUnique(n - 1, bs, bs - 1);
    var toks, all := KeyTokens(u.mgr.gpu.info[LastOf(u.mgr.tables, id)].key), Tokens(u.data[id]);
    assert all[..|toks|] == toks && all[..|all|] == all;
  }

  /** Copies for two sequences that go to one block differ at most where the new entry is written. */
  lemma TwoSources<B, V>(w: World<B, V>, u: World<B, V>, pairs: Pairs<B>, kv: Kv<V>, bs: nat, news: News,
                         p: (B, B), i: nat, p': (B, B), i': nat)
    requires bs > 0 && Underway(w, u, pairs, kv, bs, news) && Distinct(news) && Frame(w, bs)
    requires CopiedFor(w, u, kv, bs, news, p, i) && CopiedFor(w, u, kv, bs, news, p', i') && i != i' && p.1 == p'.1
    ensures SameBut(w.store[p.0], w.store[p'.0], Offset(u.data[news[i].0], bs))
  {
    hide Inv, Complete, Tokens, KeyTokens, NBlocks, WriteEach, SequentialCopy, FullKey, Offset, Holds;
    var k, k', b := news[i].0, news[i'].0, p.1;
    assert Quiet(u.mgr, k) && k != k' && b in u.mgr.tables[k'];
    FullTells(u, kv, bs, k);
    FullTells(u, kv, bs, k');
    var t := Tokens(u.data[k]);
    SameEntries(w.store[p.0], w.store[p'.0], kv, u.data[k].lora, t[..|t| - 1], (|u.mgr.tables[k]| - 1) * bs, bs);
  }

  lemma SameEntries<V>(x: seq<V>, y: seq<V>, kv: Kv<V>, lora: nat, toks: seq<Token>, start: nat, bs: nat)
    requires |x| == |y| == bs > 0 && |toks| == start + bs - 1
    requires Holds(x, kv, lora, toks, start) && Holds(y, kv, lora, toks, start)
    ensures SameBut(x, y, bs - 1)
  {
  }

  /** Whoever writes where two stores differ makes them the same there, and no writer makes them differ. */
  lemma {:induction false} WriteEachBlock<B, V>(s: map<B, seq<V>>, s': map<B, seq<V>>, tables: map<nat, seq<B>>,
          data: map<nat, SeqData>,
                                                kv: Kv<V>, bs: nat, news: News, b: B, r: nat)
    requires bs > 0 && s'.Keys == s.Keys && b in s && SameBut(s[b], s'[b], r)
    ensures var e, e' := WriteEach(s, tables, data, kv, bs, news), WriteEach(s', tables, data, kv, bs, news);
            && e.Keys == e'.Keys == s.Keys && SameBut(e[b], e'[b], r)
            && (s[b] == s'[b] ==> e[b] == e'[b])
            && ((exists i: nat :: Writer(tables, data, bs, news, i, b, r)) ==> e[b] == e'[b])
    decreases |news|
  {
    hide Tokens, Offset, LastOf;
    if news != [] {
      var n := |news| - 1;
      WriteEachBlock(s, s', tables, data, kv, bs, news[..n], b, r);
      assert forall i: nat :: i < n && Writer(tables, data, bs, news, i, b, r) ==>
             Writer(tables, data, bs, news[..n], i, b, r);
    }
  }

  /** Append `i` writes its entry at offset `r` of block `b`. */
  ghost predicate Writer<B>(tables: map<nat, seq<B>>, data: map<nat, SeqData>, bs: nat, news: News, i: nat, b: B,
          r: nat)
    requires bs > 0
  {
    && i < |news| && HasLast(tables, news[i].0) && LastOf(tables, news[i].0) == b
    && news[i].0 in data && Offset(data[news[i].0], bs) == r
  }

  /**
   * If no append takes a block that an earlier copy of the step reads, the copies may be carried out in
   * any order, or all at once: once the entries are written, every block is as after the appends one by one.
   */
  lemma StepCopiesAnyOrder<B, V>(w: World<B, V>, kv: Kv<V>, bs: nat, news: News, order: Pairs<B>)
    requires bs > 0 && Inv(w, kv, bs) && Complete(w, bs) && Distinct(news)
    requires forall i :: 0 <= i < |news| ==> news[i].0 in w.mgr.tables
    requires StepAll(w, kv, bs, news).Ok? && Preserving(w, kv, bs, news)
    requires multiset(order) == multiset(StepAll(w, kv, bs, news).value.1)
    ensures var (u, pairs) := StepAll(w, kv, bs, news).value;
            && Batched(w, u, order, kv, bs, news) == u && ReadsOwn(u, kv, bs)
  {
    hide Inv, Complete, StepAll, Preserving, SequentialCopy, WriteEach, ReadsOwn, AllAsked, SourcesKept, Quiet;
    StepBatches(w, kv, bs, news);
    StepConflictFreeIff(w, kv, bs, news);
    StepAsks(w, kv, bs, news);
    var (u, pairs) := StepAll(w, kv, bs, news).value;
    InvParts(w, kv, bs);
    OrdersMeet(w, u, pairs, order, kv, bs, news, Askers(w, kv, bs, news));
    InvReadsOwn(u, kv, bs);
  }

  lemma OrdersMeet<B, V>(w: World<B, V>, u: World<B, V>, pairs: Pairs<B>, order: Pairs<B>, kv: Kv<V>, bs: nat,
          news: News, asker: seq<nat>)
    requires bs > 0 && Underway(w, u, pairs, kv, bs, news) && Distinct(news) && Frame(w, bs)
    requires AllAsked(w, u, kv, bs, news, pairs, asker) && SourcesKept(pairs) && multiset(order) == multiset(pairs)
    ensures WriteEach(SequentialCopy(w.store, order), u.mgr.tables, u.data, kv, bs, news)
            == WriteEach(SequentialCopy(w.store, pairs), u.mgr.tables, u.data, kv, bs, news)
  {
    hide Inv, Complete, SequentialCopy, WriteEach, AllAsked, SourcesKept, Quiet, Writes, CopiedFromOne, Frame,
         WrittenBy;
    var c, c' := SequentialCopy(w.store, pairs), SequentialCopy(w.store, order);
    Permuted(pairs, order);
    CopiedFromOriginals(w.store, pairs);
    CopiedFromOriginals(w.store, order);
    var e, e' := WriteEach(c, u.mgr.tables, u.data, kv, bs, news), WriteEach(c', u.mgr.tables, u.data, kv, bs, news);
    forall b | b in w.store
      ensures b in e && b in e' && e[b] == e'[b]
    {
      BlockInAnyOrder(w, u, pairs, order, kv, bs, news, asker, b);
    }
    WriteEachKeys(c, u.mgr.tables, u.data, kv, bs, news);
    WriteEachKeys(c', u.mgr.tables, u.data, kv, bs, news);
  }

  lemma {:induction false} WriteEachKeys<B, V>(s: map<B, seq<V>>, tables: map<nat, seq<B>>, data: map<nat, SeqData>,
          kv: Kv<V>, bs: nat, news: News)
    requires bs > 0
    ensures WriteEach(s, tables, data, kv, bs, news).Keys == s.Keys
    decreases |news|
  {
    if news != [] {
      WriteEachKeys(s, tables, data, kv, bs, news[..|news| - 1]);
    }
  }

  lemma BlockInAnyOrder<B, V>(w: World<B, V>, u: World<B, V>, pairs: Pairs<B>, order: Pairs<B>, kv: Kv<V>, bs: nat,
          news: News,
                              asker: seq<nat>, b: B)
    requires bs > 0 && Underway(w, u, pairs, kv, bs, news) && Distinct(news) && Frame(w, bs) && b in w.store
    requires AllAsked(w, u, kv, bs, news, pairs, asker)
    requires Within(pairs, w.store.Keys) && Within(order, w.store.Keys)
    requires SequentialCopy(w.store, pairs).Keys == SequentialCopy(w.store, order).Keys == w.store.Keys
    requires forall p :: p in order ==> p in pairs
    requires Writes(order, b) <==> Writes(pairs, b)
    requires var c, c' := SequentialCopy(w.store, pairs), SequentialCopy(w.store, order);
             if Writes(pairs, b) then CopiedFromOne(w.store, pairs, c, b) && CopiedFromOne(w.store, order, c', b)
             else c[b] == w.store[b] == c'[b]
    ensures var e := WriteEach(SequentialCopy(w.store, pairs), u.mgr.tables, u.data, kv, bs, news);
            var e' := WriteEach(SequentialCopy(w.store, order), u.mgr.tables, u.data, kv, bs, news);
            b in e && b in e' && e[b] == e'[b]
  {
    hide SequentialCopy, WriteEach, Offset, Holds, Tokens, Underway, Frame;
    var c, c' := SequentialCopy(w.store, pairs), SequentialCopy(w.store, order);
    if c[b] == c'[b] {
      WriteEachBlock(c, c', u.mgr.tables, u.data, kv, bs, news, b, 0);
    } else {
      var i :| 0 <= i < |pairs| && pairs[i].1 == b && c[b] == w.store[pairs[i].0];
      var l :| 0 <= l < |order| && order[l].1 == b && c'[b] == w.store[order[l].0];
      assert order[l] in pairs;
      var j :| 0 <= j < |pairs| && pairs[j] == order[l];
      assert CopiedFor(w, u, kv, bs, news, pairs[i], asker[i]) && CopiedFor(w, u, kv, bs, news, pairs[j], asker[j]);
      TwoSources(w, u, pairs, kv, bs, news, pairs[i], asker[i], pairs[j], asker[j]);
      var r := Offset(u.data[news[asker[i]].0], bs);
      assert Writer(u.mgr.tables, u.data, bs, news, asker[i], b, r);
      WriteEachBlock(c, c', u.mgr.tables, u.data, kv, bs, news, b, r);
    }
  }

  // ----- when it does matter

  ghost predicate DifferAt<B, V>(store: map<B, seq<V>>, a: B, b: B, x: int) {
    a in store && b in store && 0 <= x < |store[a]| && x < |store[b]| && store[a][x] != store[b][x]
  }

  /** All writers of one block write at one offset. */
  lemma OneOffset<B, V>(w: World<B, V>, u: World<B, V>, pairs: Pairs<B>, kv: Kv<V>, bs: nat, news: News, i: nat, k: nat)
    requires bs > 0 && Underway(w, u, pairs, kv, bs, news) && Distinct(news) && i < |news| && k < |news|
    requires HasLast(u.mgr.tables, news[i].0) && HasLast(u.mgr.tables, news[k].0)
    requires LastOf(u.mgr.tables, news[i].0) == LastOf(u.mgr.tables, news[k].0)
    ensures news[i].0 in u.data && news[k].0 in u.data && Offset(u.data[news[i].0], bs) == Offset(u.data[news[k].0], bs)
  {
    hide Inv, Complete, Tokens, KeyTokens, NBlocks, WriteEach, SequentialCopy, FullKey, Offset;
    if i != k {
      var b := LastOf(u.mgr.tables, news[i].0);
      assert Quiet(u.mgr, news[i].0) && news[i].0 != news[k].0 && b in u.mgr.tables[news[k].0];
      FullTells(u, kv, bs, news[i].0);
      FullTells(u, kv, bs, news[k].0);
    }
  }

  lemma {:induction false} WriteEachElsewhere<B, V>(s: map<B, seq<V>>, tables: map<nat, seq<B>>, data: map<nat,
          SeqData>, kv: Kv<V>,
                                                    bs: nat, news: News, b: B, x: nat)
    requires bs > 0 && b in s && x < |s[b]|
    requires forall i :: && 0 <= i < |news| && HasLast(tables, news[i].0) && LastOf(tables, news[i].0) == b
                         && news[i].0 in data ==>
               Offset(data[news[i].0], bs) != x
    ensures var e := WriteEach(s, tables, data, kv, bs, news); b in e && x < |e[b]| && e[b][x] == s[b][x]
    decreases |news|
  {
    hide Tokens, Offset, LastOf;
    if news != [] {
      WriteEachElsewhere(s, tables, data, kv, bs, news[..|news| - 1], b, x);
    }
  }

  /** The place of a position in the last block of its sequence. */
  lemma PlaceInLast<B, V>(u: World<B, V>, bs: nat, id: nat, pos: nat)
    requires bs > 0 && Complete(u, bs) && HasLast(u.mgr.tables, id) && id in u.data
    requires (|u.mgr.tables[id]| - 1) * bs <= pos < |Tokens(u.data[id])| - 1
    ensures var n := |u.mgr.tables[id]|;
            pos / bs == n - 1 && pos % bs == pos - (n - 1) * bs && pos % bs < Offset(u.data[id], bs) < bs
  {
    hide Tokens;
    var n, len := |u.mgr.tables[id]|, |Tokens(u.data[id])|;
    TableLength(u, bs, id);
    Paging.NBlocksFits(len, bs);
    assert n * bs == (n - 1) * bs + bs;
    var x, r := pos - (n - 1) * bs, len - 1 - (n - 1) * bs;
    Paging.QuotientUnique(n - 1, bs, x);
    Paging.RemainderUnique(n - 1, bs, x);
    Paging.RemainderUnique(n - 1, bs, r);
  }

  /**
   * Copy `i` of the step goes to the source of copy `j`, and the two sources differ where the sequence of
   * append `k`, which copy `j` is for, had its token of position `pos` before the step.
   */
  ghost predicate Disturbs<B, V>(w: World<B, V>, u: World<B, V>, kv: Kv<V>, bs: nat, news: News, p: (B, B), q: (B, B),
          k: nat, pos: nat) {
    && p.1 == q.0 && CopiedFor(w, u, kv, bs, news, q, k)
    && var d, start := u.data[news[k].0], (|u.mgr.tables[news[k].0]| - 1) * bs;
    start <= pos < |Tokens(d)| - 1 && DifferAt(w.store, p.0, q.0, pos - start)
  }

  /**
   * Then there is an order of the copies after which that sequence reads, at that position, the
   * entry of the other source.
   */
  lemma ReorderedReadsWrong<B, V>(w: World<B, V>, u: World<B, V>, pairs: Pairs<B>, kv: Kv<V>, bs: nat, news: News,
          i: nat, j: nat, k: nat, pos: nat)
    requires bs > 0 && Inv(w, kv, bs) && Complete(w, bs) && Distinct(news)
    requires forall l :: 0 <= l < |news| ==> news[l].0 in w.mgr.tables
    requires StepAll(w, kv, bs, news) == Ok((u, pairs))
    requires i < |pairs| && j < |pairs| && Disturbs(w, u, kv, bs, news, pairs[i], pairs[j], k, pos)
    ensures i != j && multiset(FirstThen(pairs, i, j)) == multiset(pairs)
    ensures var r, id := Batched(w, u, FirstThen(pairs, i, j), kv, bs, news), news[k].0;
            && EntryAt(r, bs, id, pos) == Some(w.store[pairs[i].0][pos - (|u.mgr.tables[id]| - 1) * bs])
            && !ReadsOwn(r, kv, bs)
  {
    hide Inv, Complete, StepAll, SequentialCopy, WriteEach, Tokens, FirstThen, Offset, Quiet, Askers, WrittenBy;
    StepBatches(w, kv, bs, news);
    StepAsks(w, kv, bs, news);
    var id, order := news[k].0, FirstThen(pairs, i, j);
    var d, n, b := u.data[id], |u.mgr.tables[id]|, pairs[j].1;
    assert pairs[j].0 != pairs[j].1 && pairs[i].0 != pairs[i].1;
    FirstThenCopy(w.store, pairs, i, j);
    PlaceInLast(u, bs, id, pos);
    forall l | 0 <= l < |news| && HasLast(u.mgr.tables, news[l].0) && LastOf(u.mgr.tables, news[l].0) == b
      && news[l].0 in u.data
      ensures Offset(u.data[news[l].0], bs) != pos % bs
    {
      OneOffset(w, u, pairs, kv, bs, news, l, k);
    }
    WriteEachElsewhere(SequentialCopy(w.store, order), u.mgr.tables, u.data, kv, bs, news, b, pos % bs);
    assert w.store[pairs[j].0][pos % bs] == kv(d.lora, Tokens(d)[..pos + 1]) by {
      assert Tokens(d)[..|Tokens(d)| - 1][..pos + 1] == Tokens(d)[..pos + 1];
    }
  }
}
