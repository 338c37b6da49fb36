/**
 * A scheduling step of the caching manager: one append for each of several sequences, then all the
 * copies it asked for, then the entries of the new tokens.
 */
module PrefixSteps {
  import opened Wrappers
  import opened Holding
  import opened Evictor
  import opened CachedAllocator
  import opened Copying
  import opened PrefixCache
  import opened PrefixSoundness
  import opened PrefixAppend
  import opened PrefixRuns
  import Paging

  /** Sequences and their new tokens. */
  type News = seq<(nat, Token)>

  ghost predicate Distinct(news: News) {
    forall i, j :: 0 <= i < j < |news| ==> news[i].0 != news[j].0
  }

  /** The appends one after the other, each with its copy and its entry, and all the copies asked for. */
  ghost function StepAll<B, V>(w: World<B, V>, kv: Kv<V>, bs: nat, news: News): Result<(World<B, V>, Pairs<B>)>
    requires bs > 0
    decreases |news|
  {
    if news == [] then Ok((w, []))
    else
      var (u, pairs) :- StepAll(w, kv, bs, news[..|news| - 1]);
      var (id, token) := news[|news| - 1];
      if id !in u.mgr.tables || id !in u.data then Err(KeyError)
      else
        var d := Grown(u.data[id], token);
        var (s, more) :- AppendSlots(u.mgr, bs, id, d);
        Ok((AppendWorld(u, kv, bs, id, d, s, more), pairs + more))
  }

  // ----- writing the entries

  ghost predicate HasLast<B>(tables: map<nat, seq<B>>, id: nat) {
    id in tables && tables[id] != []
  }

  ghost function LastOf<B>(tables: map<nat, seq<B>>, id: nat): B
    requires HasLast(tables, id)
  {
    tables[id][|tables[id]| - 1]
  }

  ghost function Offset(d: SeqData, bs: nat): nat
    requires bs > 0
  {
    if |Tokens(d)| == 0 then 0 else (|Tokens(d)| - 1) % bs
  }

  /** The entry of a sequence's newest token written into its last block. */
  ghost function WriteOne<B, V>(store: map<B, seq<V>>, tables: map<nat, seq<B>>, data: map<nat, SeqData>, kv: Kv<V>,
          bs: nat, id: nat): map<B, seq<V>>
    requires bs > 0
  {
    if HasLast(tables, id) && id in data && LastOf(tables, id) in store then
      var b := LastOf(tables, id);
      store[b := Written(store[b], Offset(data[id], bs), kv(data[id].lora, Tokens(data[id])))]
    else store
  }

  ghost function WriteEach<B, V>(store: map<B, seq<V>>, tables: map<nat, seq<B>>, data: map<nat, SeqData>, kv: Kv<V>,
          bs: nat, news: News): map<B, seq<V>>
    requires bs > 0
    decreases |news|
  {
    if news == [] then store
    else WriteOne(WriteEach(store, tables, data, kv, bs, news[..|news| - 1]), tables, data, kv, bs, news[|news| - 1].0)
  }

  /** The world of the step as it is carried out: all copies first, then all entries. */
  ghost function Batched<B, V>(w: World<B, V>, u: World<B, V>, pairs: Pairs<B>, kv: Kv<V>, bs: nat,
          news: News): World<B, V>
    requires bs > 0
  {
    World(u.mgr, u.data, WriteEach(SequentialCopy(w.store, pairs), u.mgr.tables, u.data, kv, bs, news))
  }

  /** Writes depend on the tables and tokens of the sequences that write. */
  lemma {:induction false} WriteEachSame<B, V>(store: map<B, seq<V>>, tables: map<nat, seq<B>>, data: map<nat, SeqData>,
                                               tables': map<nat, seq<B>>, data': map<nat, SeqData>, kv: Kv<V>, bs: nat,
                                                 news: News)
    requires bs > 0
    requires forall i :: 0 <= i < |news| ==>
               && news[i].0 in tables && news[i].0 in tables' && tables'[news[i].0] == tables[news[i].0]
               && news[i].0 in data && news[i].0 in data' && data'[news[i].0] == data[news[i].0]
    ensures WriteEach(store, tables', data', kv, bs, news) == WriteEach(store, tables, data, kv, bs, news)
    decreases |news|
  {
    hide Tokens, Written, Offset;
    if news != [] {
      WriteEachSame(store, tables, data, tables', data', kv, bs, news[..|news| - 1]);
    }
  }

  /** A block that no writer has last keeps what it holds, and does not matter to the other blocks. */
  lemma {:induction false} WriteEachFrame<B, V>(store: map<B, seq<V>>, tables: map<nat, seq<B>>, data: map<nat,
          SeqData>, kv: Kv<V>, bs: nat, news: News, b: B, c: seq<V>)
    requires bs > 0 && b in store
    ensures var r, r' := WriteEach(store, tables, data, kv, bs, news),
            WriteEach(store[b := c], tables, data, kv, bs, news);
            && r.Keys == r'.Keys == store.Keys && (forall x :: x in store && x != b ==> r'[x] == r[x])
    ensures (forall i :: 0 <= i < |news| && HasLast(tables, news[i].0) ==> LastOf(tables, news[i].0) != b) ==>
              WriteEach(store, tables, data, kv, bs, news)[b] == store[b]
    decreases |news|
  {
    hide Tokens, Written, Offset, LastOf;
    if news != [] {
      WriteEachFrame(store, tables, data, kv, bs, news[..|news| - 1], b, c);
    }
  }

  /** Writers of a block that all write at one offset change nothing else in it. */
  lemma {:induction false} WriteEachAt<B, V>(store: map<B, seq<V>>, tables: map<nat, seq<B>>, data: map<nat, SeqData>,
          kv: Kv<V>, bs: nat, news: News, b: B, r: nat, v: V)
    requires bs > 0 && b in store
    requires forall i :: && 0 <= i < |news| && HasLast(tables, news[i].0) && news[i].0 in data
                         && LastOf(tables, news[i].0) == b ==>
               Offset(data[news[i].0], bs) == r
    ensures b in WriteEach(store, tables, data, kv, bs, news)
    ensures Written(WriteEach(store, tables, data, kv, bs, news)[b], r, v) == Written(store[b], r, v)
    decreases |news|
  {
    hide Tokens, Offset, LastOf;
    if news != [] {
      WriteEachAt(store, tables, data, kv, bs, news[..|news| - 1], b, r, v);
    }
  }

  // ----- sequences that have had their token

  /** The key of the block covers the whole block. */
  ghost predicate FullKey<B>(p: CPool<B>, x: B) {
    x in p.info && p.info[x].key.Content? && |KeyTokens(p.info[x].key)| == p.info[x].numHashed
  }

  /** The last block is shared with nobody, or is full under the key of its content. */
  ghost predicate Quiet<B>(s: CState<B>, id: nat) {
    HasLast(s.tables, id) && (FullKey(s.gpu, LastOf(s.tables, id))
      || UnheldByOthers(s.tables, id, LastOf(s.tables, id)))
  }

  /** The block at a position of a table has that position's end. */
  lemma PositionOf<B, V>(w: World<B, V>, kv: Kv<V>, bs: nat, id: nat, i: nat)
    requires bs > 0 && Inv(w, kv, bs) && id in w.mgr.tables && i < |w.mgr.tables[id]|
    ensures id in w.data && Fits(w.mgr.gpu, w.mgr.tables[id][i], w.data[id], i, bs)
  {
    hide Holds, KeyTokens, NBlocks, PoolOk, Counted, Frame, KeyTrue, BlockEnd, Tokens, Fits;
    assert TableTrue(w, kv, bs, id);
    assert BlockTrue(w, kv, bs, id, i);
  }

  lemma QuietAfter<B, V>(w: World<B, V>, kv: Kv<V>, bs: nat, id: nat, d': SeqData, w': World<B, V>, pairs: Pairs<B>)
    requires bs > 0 && Placed(w.mgr, bs, id, d', w'.mgr, pairs)
    requires Inv(w', kv, bs) && id in w'.data && w'.data[id] == d'
    ensures Quiet(w'.mgr, id) && (LastBlockFull(d', bs) ==> FullKey(w'.mgr.gpu, LastOf(w'.mgr.tables, id)))
  {
    hide Inv, NBlocks, Tokens, KeyTokens, PrefixKey, KeysKept;
    var n, b := NBlocks(d', bs), LastOf(w'.mgr.tables, id);
    PositionOf(w', kv, bs, id, n - 1);
    if LastBlockFull(d', bs) {
      PrefixKeyTokens(d', BlockEnd(n - 1, bs));
      FullEnds(d', bs);
      BlockEndBasics(n - 1, bs);
      assert (n - 1) * bs + bs == n * bs;
    }
  }

  /** Somebody else's append leaves it so. */
  lemma QuietKept<B, V>(w: World<B, V>, kv: Kv<V>, bs: nat, id: nat, d': SeqData, s': CState<B>, pairs: Pairs<B>,
          k: nat)
    requires bs > 0 && Placed(w.mgr, bs, id, d', s', pairs) && k != id && Quiet(w.mgr, k) && Inv(w, kv, bs)
    requires LastBlockFull(d', bs) ==> FullKey(s'.gpu, LastOf(s'.tables, id))
    ensures Quiet(s', k)
  {
    hide Inv, NBlocks, Tokens, KeyTokens, PrefixKey, BlockEnd, LastBlockFull;
    var x, b := LastOf(w.mgr.tables, k), LastOf(s'.tables, id);
    PositionOf(w, kv, bs, k, |w.mgr.tables[k]| - 1);
    assert LastOf(s'.tables, k) == x;
    assert x in w.mgr.tables[k];
    if x != b && UnheldByOthers(w.mgr.tables, k, x) {
      forall o | o in s'.tables && o != k
        ensures x !in s'.tables[o]
      {
        assert x !in w.mgr.tables[o];
        if o == id {
          assert forall y :: y in s'.tables[id] ==> y == b || y in w.mgr.tables[id];
        }
      }
    }
  }

  /** The block a copy is made from is not the last block of a sequence that has had its token. */
  lemma QuietNotSource<B, V>(w: World<B, V>, kv: Kv<V>, bs: nat, id: nat, d': SeqData, k: nat)
    requires Ready(w, kv, bs, id, d') && k != id && Quiet(w.mgr, k)
    requires HasLast(w.mgr.tables, id) && |w.mgr.tables[id]| == NBlocks(d', bs)
    ensures LastOf(w.mgr.tables, id) != LastOf(w.mgr.tables, k)
  {
    hide Inv, Complete, NBlocks, FullKey;
    LastNotFull(w, kv, bs, id, d');
    assert LastOf(w.mgr.tables, id) in w.mgr.tables[id];
  }

  /** Before its token, a block with room for it has no key of a whole block. */
  lemma LastNotFull<B, V>(w: World<B, V>, kv: Kv<V>, bs: nat, id: nat, d': SeqData)
    requires Ready(w, kv, bs, id, d') && HasLast(w.mgr.tables, id) && |w.mgr.tables[id]| == NBlocks(d', bs)
    ensures !FullKey(w.mgr.gpu, LastOf(w.mgr.tables, id))
  {
    hide Inv, Complete, NBlocks, Tokens, KeyTokens, PrefixKey;
    var n := NBlocks(d', bs);
    PositionOf(w, kv, bs, id, n - 1);
    NewSlot(w.data[id], d', bs);
    BlockEndBasics(n - 1, bs);
    assert (n - 1) * bs + bs == n * bs;
  }

  /** Where the copy goes, a sequence that has had its token has written at the same offset, if at all. */
  lemma QuietSameOffset<B, V>(w: World<B, V>, kv: Kv<V>, bs: nat, id: nat, d': SeqData, s': CState<B>, pairs: Pairs<B>,
          k: nat)
    requires Ready(w, kv, bs, id, d') && Placed(w.mgr, bs, id, d', s', pairs) && k != id && Quiet(w.mgr, k)
             && k in w.data
    requires LastOf(w.mgr.tables, k) == LastOf(s'.tables, id)
    ensures Offset(w.data[k], bs) == Offset(d', bs)
  {
    hide Inv, NBlocks, Tokens, KeyTokens, PrefixKey, KeysKept, BlockEnd, LastBlockFull, Complete;
    var b, n, t := LastOf(s'.tables, id), NBlocks(d', bs), w.mgr.tables[k];
    assert b in t;
    assert LastBlockFull(d', bs) && b in w.mgr.gpu.info && w.mgr.gpu.info[b].key == HashOfBlock(d', n - 1, bs);
    SameEnd(w, kv, bs, k, d');
  }

  /** A sequence whose last block has the key of all tokens of another has as many tokens. */
  lemma SameEnd<B, V>(w: World<B, V>, kv: Kv<V>, bs: nat, k: nat, d': SeqData)
    requires bs > 0 && Inv(w, kv, bs) && Complete(w, bs) && HasLast(w.mgr.tables, k) && k in w.data
             && LastBlockFull(d', bs)
    requires LastOf(w.mgr.tables, k) in w.mgr.gpu.info && NBlocks(d', bs) > 0
    requires w.mgr.gpu.info[LastOf(w.mgr.tables, k)].key == HashOfBlock(d', NBlocks(d', bs) - 1, bs)
    ensures |Tokens(w.data[k])| == |Tokens(d')|
  {
    hide Inv, Tokens, KeyTokens, PrefixKey, Holds;
    var t, b, n := w.mgr.tables[k], LastOf(w.mgr.tables, k), NBlocks(d', bs);
    PositionOf(w, kv, bs, k, |t| - 1);
    InvParts(w, kv, bs);
    PrefixKeyTokens(d', BlockEnd(n - 1, bs));
    FullEnds(d', bs);
    BlockEndBasics(n - 1, bs);
    BlockEndBasics(|t| - 1, bs);
    assert (n - 1) * bs + bs == n * bs && (|t| - 1) * bs + bs == |t| * bs;
    assert |KeyTokens(w.mgr.gpu.info[b].key)| == n * bs;
    assert KeyTrue(w, kv, bs, b);
    Paging.NBlocksFits(|Tokens(w.data[k])|, bs);
    assert n * bs == |t| * bs;
  }

  // ----- the step

  /** Half-way through a step: who has had its token, and what the copies and entries so far amount to. */
  ghost predicate Underway<B, V>(w: World<B, V>, u: World<B, V>, pairs: Pairs<B>, kv: Kv<V>, bs: nat, news: News)
    requires bs > 0
  {
    && Inv(u, kv, bs) && Complete(u, bs) && u.mgr.tables.Keys == w.mgr.tables.Keys && u.store.Keys == w.store.Keys
    && (forall i :: 0 <= i < |news| ==> Quiet(u.mgr, news[i].0) && news[i].0 in u.data)
    && u.store == WriteEach(SequentialCopy(w.store, pairs), u.mgr.tables, u.data, kv, bs, news)
    && SequentialCopy(w.store, pairs).Keys == w.store.Keys && Within(pairs, w.store.Keys)
    && (forall j :: 0 <= j < |pairs| ==> WrittenBy(u, pairs[j].1, news))
  }

  /** The block is the last one of a sequence that has had its token. */
  ghost predicate WrittenBy<B, V>(u: World<B, V>, b: B, news: News) {
    exists i :: 0 <= i < |news| && HasLast(u.mgr.tables, news[i].0) && LastOf(u.mgr.tables, news[i].0) == b
  }

  /** The next append of the step. */
  ghost predicate Next<B, V>(u: World<B, V>, kv: Kv<V>, bs: nat, id: nat, d': SeqData, u': World<B, V>, more: Pairs<B>)
    requires bs > 0
  {
    && Ready(u, kv, bs, id, d') && Inv(u', kv, bs) && Complete(u', bs)
    && u'.data == u.data[id := d'] && u'.mgr.tables.Keys == u.mgr.tables.Keys
    && Placed(u.mgr, bs, id, d', u'.mgr, more)
    && u' == AppendWorld(u, kv, bs, id, d', u'.mgr, more)
  }

  lemma StoreKeys<B, V>(u: World<B, V>, kv: Kv<V>, bs: nat, u': World<B, V>)
    requires bs > 0 && Inv(u, kv, bs) && Inv(u', kv, bs) && u'.mgr.gpu.all == u.mgr.gpu.all
    ensures u'.store.Keys == u.store.Keys
  {
    hide PoolOk, Counted, KeyTrue, TableTrue;
  }

  /** The entry of the appended token, written after its copy. */
  lemma NextStore<B, V>(u: World<B, V>, kv: Kv<V>, bs: nat, id: nat, d': SeqData, u': World<B, V>, more: Pairs<B>)
    requires bs > 0 && Next(u, kv, bs, id, d', u', more)
    ensures u'.store == WriteOne(SequentialCopy(u.store, more), u'.mgr.tables, u'.data, kv, bs, id)
  {
    hide Inv, Complete, NBlocks, Tokens, PlacedBlock, SequentialCopy, Written;
    ExtendsTokens(u.data[id], d');
  }

  ghost predicate NotYet(news: News, id: nat) {
    forall i :: 0 <= i < |news| ==> news[i].0 != id
  }

  /** The sequences that have had their token have the same tables and tokens after the next append. */
  lemma WritersKept<B, V>(u: World<B, V>, kv: Kv<V>, bs: nat, id: nat, d': SeqData, u': World<B, V>, more: Pairs<B>,
          news: News, store: map<B, seq<V>>)
    requires bs > 0 && Next(u, kv, bs, id, d', u', more) && NotYet(news, id)
    requires forall i :: 0 <= i < |news| ==> Quiet(u.mgr, news[i].0) && news[i].0 in u.data
    ensures forall i :: 0 <= i < |news| ==>
              && news[i].0 in u'.mgr.tables && u'.mgr.tables[news[i].0] == u.mgr.tables[news[i].0]
              && news[i].0 in u'.data && u'.data[news[i].0] == u.data[news[i].0]
    ensures WriteEach(store, u'.mgr.tables, u'.data, kv, bs, news)
            == WriteEach(store, u.mgr.tables, u.data, kv, bs, news)
  {
    hide Inv, Complete, NBlocks, Tokens, PlacedBlock, SequentialCopy, AppendWorld, WriteEach;
    WriteEachSame(store, u.mgr.tables, u.data, u'.mgr.tables, u'.data, kv, bs, news);
  }

  /** One more append, without a copy. */
  lemma BatchPlain<B, V>(w: World<B, V>, u: World<B, V>, pairs: Pairs<B>, kv: Kv<V>, bs: nat, news: News, id: nat,
          token: Token, d': SeqData, u': World<B, V>)
    requires bs > 0 && Underway(w, u, pairs, kv, bs, news) && Next(u, kv, bs, id, d', u', []) && NotYet(news, id)
    ensures u'.store == WriteEach(SequentialCopy(w.store, pairs), u'.mgr.tables, u'.data, kv, bs, news + [(id, token)])
  {
    hide Inv, Complete, Next, Quiet, WriteOne;
    NextStore(u, kv, bs, id, d', u', []);
    WritersKept(u, kv, bs, id, d', u', [], news, SequentialCopy(w.store, pairs));
    assert (news + [(id, token)])[..|news|] == news;
  }

  /** One more append, with a copy from `a` to `b`: its source has not been written in this step. */
  lemma BatchCopy<B, V>(w: World<B, V>, u: World<B, V>, pairs: Pairs<B>, kv: Kv<V>, bs: nat, news: News, id: nat,
          token: Token, d': SeqData, u': World<B, V>, a: B, b: B)
    requires bs > 0 && Underway(w, u, pairs, kv, bs, news) && Next(u, kv, bs, id, d', u', [(a, b)]) && NotYet(news, id)
    requires a in w.store && b in w.store && HasLast(u'.mgr.tables, id) && LastOf(u'.mgr.tables, id) == b
             && id in u'.data && u'.data[id] == d'
    requires forall i :: 0 <= i < |news| && HasLast(u.mgr.tables, news[i].0) ==> LastOf(u.mgr.tables, news[i].0) != a
    requires forall i :: 0 <= i < |news| && HasLast(u.mgr.tables, news[i].0) && LastOf(u.mgr.tables, news[i].0) == b ==>
               Offset(u.data[news[i].0], bs) == Offset(d', bs)
    ensures u'.store == WriteEach(SequentialCopy(w.store, pairs)[b := SequentialCopy(w.store, pairs)[a]],
                                  u'.mgr.tables, u'.data, kv, bs, news + [(id, token)])
  {
    hide Inv, Complete, Next, Quiet, Tokens, Offset, Written, LastOf;
    var c := SequentialCopy(w.store, pairs);
    NextStore(u, kv, bs, id, d', u', [(a, b)]);
    CopyPair(u.store, a, b);
    WritersKept(u, kv, bs, id, d', u', [(a, b)], news, c);
    WritersKept(u, kv, bs, id, d', u', [(a, b)], news, c[b := c[a]]);
    WriteEachFrame(c, u.mgr.tables, u.data, kv, bs, news, b, c[a]);
    WriteEachFrame(c, u.mgr.tables, u.data, kv, bs, news, a, c[a]);
    var r, v := Offset(d', bs), kv(d'.lora, Tokens(d'));
    WriteEachAt(c[b := c[a]], u.mgr.tables, u.data, kv, bs, news, b, r, v);
    assert (news + [(id, token)])[..|news|] == news;
    var e := WriteEach(c[b := c[a]], u.mgr.tables, u.data, kv, bs, news);
    assert u.store[b := u.store[a]][b := Written(u.store[a], r, v)] == e[b := Written(e[b], r, v)];
  }

  lemma AllQuiet<B, V>(u: World<B, V>, kv: Kv<V>, bs: nat, news: News, id: nat, token: Token, d': SeqData,
          u': World<B, V>, more: Pairs<B>)
    requires bs > 0 && Next(u, kv, bs, id, d', u', more) && NotYet(news, id)
    requires forall i :: 0 <= i < |news| ==> Quiet(u.mgr, news[i].0) && news[i].0 in u.data
    ensures forall i :: 0 <= i < |news| + 1 ==>
              Quiet(u'.mgr, (news + [(id, token)])[i].0) && (news + [(id, token)])[i].0 in u'.data
  {
    hide Inv, Complete, NBlocks, Quiet, FullKey, AppendWorld, Placed, Extends, LastBlockFull;
    QuietAfter(u, kv, bs, id, d', u', more);
    forall i | 0 <= i < |news|
      ensures Quiet(u'.mgr, news[i].0)
    {
      QuietKept(u, kv, bs, id, d', u'.mgr, more, news[i].0);
    }
  }

  lemma NextBatch<B, V>(w: World<B, V>, u: World<B, V>, pairs: Pairs<B>, kv: Kv<V>, bs: nat, news: News, id: nat,
          token: Token, d': SeqData, u': World<B, V>, more: Pairs<B>)
    requires bs > 0 && Underway(w, u, pairs, kv, bs, news) && Next(u, kv, bs, id, d', u', more) && NotYet(news, id)
    ensures u'.store == WriteEach(SequentialCopy(w.store, pairs + more), u'.mgr.tables, u'.data, kv, bs,
            news + [(id, token)])
    ensures SequentialCopy(w.store, pairs + more).Keys == w.store.Keys
  {
    hide Inv, Complete, NBlocks, Quiet, AppendWorld, Extends, LastBlockFull, WriteEach, SequentialCopy, KeysKept,
         UnheldByOthers;
    SequentialCopyConcat(w.store, pairs, more);
    if more == [] {
      assert pairs + more == pairs;
      BatchPlain(w, u, pairs, kv, bs, news, id, token, d', u');
    } else {
      var (a, b) := more[0];
      InStore(u, kv, bs, id, d', u', more);
      forall i | 0 <= i < |news| && HasLast(u.mgr.tables, news[i].0)
        ensures LastOf(u.mgr.tables, news[i].0) != a
        ensures LastOf(u.mgr.tables, news[i].0) == b ==> Offset(u.data[news[i].0], bs) == Offset(d', bs)
      {
        QuietNotSource(u, kv, bs, id, d', news[i].0);
        if LastOf(u.mgr.tables, news[i].0) == b {
          QuietSameOffset(u, kv, bs, id, d', u'.mgr, more, news[i].0);
        }
      }
      CopyPair(SequentialCopy(w.store, pairs), a, b);
      BatchCopy(w, u, pairs, kv, bs, news, id, token, d', u', a, b);
    }
  }

  /** Source and destination of a copy are blocks of the store. */
  lemma InStore<B, V>(u: World<B, V>, kv: Kv<V>, bs: nat, id: nat, d': SeqData, u': World<B, V>, more: Pairs<B>)
    requires bs > 0 && Next(u, kv, bs, id, d', u', more) && more != []
    ensures var (a, b) := more[0];
            && more == [(a, b)] && a in u.store && b in u.store
            && HasLast(u.mgr.tables, id) && LastOf(u.mgr.tables, id) == a && |u.mgr.tables[id]| == NBlocks(d', bs)
            && HasLast(u'.mgr.tables, id) && LastOf(u'.mgr.tables, id) == b
  {
    hide NBlocks, PoolOk, Counted, Complete, AppendWorld, Extends, LastBlockFull, KeyTrue, UnheldByOthers, Holds, Fits;
    var n := NBlocks(d', bs);
    assert TableTrue(u, kv, bs, id) && TableTrue(u', kv, bs, id);
    assert BlockTrue(u, kv, bs, id, n - 1) && BlockTrue(u', kv, bs, id, n - 1);
  }

  lemma NextUnderway<B, V>(w: World<B, V>, u: World<B, V>, pairs: Pairs<B>, kv: Kv<V>, bs: nat, news: News, id: nat,
          token: Token, d': SeqData, u': World<B, V>, more: Pairs<B>)
    requires bs > 0 && Underway(w, u, pairs, kv, bs, news) && Next(u, kv, bs, id, d', u', more) && NotYet(news, id)
    ensures Underway(w, u', pairs + more, kv, bs, news + [(id, token)])
  {
    hide Inv, Complete, NBlocks, Quiet, AppendWorld, Extends, LastBlockFull, WriteEach, SequentialCopy, UnheldByOthers;
    AllQuiet(u, kv, bs, news, id, token, d', u', more);
    NextBatch(w, u, pairs, kv, bs, news, id, token, d', u', more);
    StoreKeys(u, kv, bs, u');
    WritersKept(u, kv, bs, id, d', u', more, news, w.store);
    if more != [] {
      InStore(u, kv, bs, id, d', u', more);
    }
    assert Within(pairs + more, w.store.Keys);
    forall j | 0 <= j < |pairs + more|
      ensures WrittenBy(u', (pairs + more)[j].1, news + [(id, token)])
    {
      if j < |pairs| {
        assert WrittenBy(u, pairs[j].1, news);
        var i :| 0 <= i < |news| && HasLast(u.mgr.tables, news[i].0) && LastOf(u.mgr.tables, news[i].0) == pairs[j].1;
        assert (news + [(id, token)])[i] == news[i];
      } else {
        assert (news + [(id, token)])[|news|].0 == id;
      }
    }
  }

  lemma StartUnderway<B, V>(w: World<B, V>, kv: Kv<V>, bs: nat)
    requires bs > 0 && Inv(w, kv, bs) && Complete(w, bs)
    ensures Underway(w, w, [], kv, bs, [])
  {
    hide Inv, Complete;
  }

  /**
   * A whole step: it fails only by running out of memory, and carrying out all copies in their order
   * and then all entries gives the world of the appends one by one, in which every sequence reads its
   * own entries.
   */
  lemma {:induction false} StepBatches<B, V>(w: World<B, V>, kv: Kv<V>, bs: nat, news: News)
    requires bs > 0 && Inv(w, kv, bs) && Complete(w, bs) && Distinct(news)
    requires forall i :: 0 <= i < |news| ==> news[i].0 in w.mgr.tables
    ensures match StepAll(w, kv, bs, news)
            case Err(e) => e == OutOfMemory
            case Ok((u, pairs)) => Underway(w, u, pairs, kv, bs, news)
    decreases |news|
  {
    hide Inv, Complete, Underway, AppendSlots, AppendWorld;
    if news == [] {
      StartUnderway(w, kv, bs);
    } else {
      var n := |news| - 1;
      StepBatches(w, kv, bs, news[..n]);
      if StepAll(w, kv, bs, news[..n]).Ok? {
        var (u, pairs) := StepAll(w, kv, bs, news[..n]).value;
        StepOnce(w, u, pairs, kv, bs, news);
      }
    }
  }

  lemma StepOnce<B, V>(w: World<B, V>, u: World<B, V>, pairs: Pairs<B>, kv: Kv<V>, bs: nat, news: News)
    requires bs > 0 && Distinct(news) && news != [] && Underway(w, u, pairs, kv, bs, news[..|news| - 1])
    requires news[|news| - 1].0 in w.mgr.tables
    ensures var (id, token) := news[|news| - 1];
            && id in u.mgr.tables && id in u.data
            && var d' := Grown(u.data[id], token);
            match AppendSlots(u.mgr, bs, id, d')
            case Err(e) => e == OutOfMemory
            case Ok((s, more)) =>
              var u' := AppendWorld(u, kv, bs, id, d', s, more);
              Next(u, kv, bs, id, d', u', more) && Underway(w, u', pairs + more, kv, bs, news)
  {
    hide Inv, Complete, AppendSlots, AppendWorld, WriteEach, SequentialCopy, Placed, Quiet, WrittenBy;
    var n := |news| - 1;
    var (id, token) := news[n];
    InvParts(u, kv, bs);
    FrameKeys(u, bs);
    var d' := Grown(u.data[id], token);
    AppendKeeps(u, kv, bs, id, d');
    if AppendSlots(u.mgr, bs, id, d').Ok? {
      var (s, more) := AppendSlots(u.mgr, bs, id, d').value;
      var u' := AppendWorld(u, kv, bs, id, d', s, more);
      assert Next(u, kv, bs, id, d', u', more);
      hide Underway, Next;
      NextUnderway(w, u, pairs, kv, bs, news[..n], id, token, d', u', more);
      assert news[..n] + [(id, token)] == news;
    }
  }

  // ----- when the copies may be carried out in any order

  /** The block that an allocation for an unknown hash takes: the next new one, or the victim. */
  ghost function NextNew<B>(p: CPool<B>): Option<B> {
    if p.current < |p.all| then Some(p.all[p.current])
    else if p.table != [] && Described(p.table, p.info) then Some(p.table[Victim(p.table, p.info)].1)
    else None
  }

  /** Whether the append of `d'` takes block `x`: by its hash if a block has it, else as the next new one. */
  ghost predicate WouldTake<B>(p: CPool<B>, bs: nat, d': SeqData, x: B)
    requires bs > 0
  {
    if LastBlockFull(d', bs) && NBlocks(d', bs) > 0 && Contains(p, HashOfBlock(d', NBlocks(d', bs) - 1, bs)) then
      x in p.info && p.info[x].key == HashOfBlock(d', NBlocks(d', bs) - 1, bs)
    else NextNew(p) == Some(x)
  }

  /** The append copies its last block, which others hold too. */
  ghost predicate Copies<B>(s: CState<B>, bs: nat, id: nat, d': SeqData)
    requires bs > 0
  {
    HasLast(s.tables, id) && NBlocks(d', bs) <= |s.tables[id]| && Refs(s.gpu, LastOf(s.tables, id)) != 1
  }

  /** The copy would go to a block that an earlier copy of the step reads. */
  ghost predicate Overwrites<B>(s: CState<B>, bs: nat, id: nat, d': SeqData, pairs: Pairs<B>)
    requires bs > 0
  {
    Copies(s, bs, id, d') && exists j :: 0 <= j < |pairs| && WouldTake(s.gpu, bs, d', pairs[j].0)
  }

  /** The copy would go to a block that an earlier copy of the step reads or writes. */
  ghost predicate Clashes<B>(s: CState<B>, bs: nat, id: nat, d': SeqData, pairs: Pairs<B>)
    requires bs > 0
  {
    && Copies(s, bs, id, d')
    && exists j :: 0 <= j < |pairs| && (WouldTake(s.gpu, bs, d', pairs[j].0) || WouldTake(s.gpu, bs, d', pairs[j].1))
  }

  lemma NewBlockIs<B>(p: CPool<B>, k: Key, numHashed: nat)
    requires PoolOk(p) && AllocateBlock(p, k, numHashed).Ok?
    ensures NextNew(p) == Some(AllocateBlock(p, k, numHashed).value.1)
  {
    hide Keyed, CachedOk, Scan;
  }

  lemma TakenIs<B>(p: CPool<B>, want: Option<Key>, numHashed: nat)
    requires PoolOk(p) && (want.Some? ==> want.value.Content?) && Acquire(p, want, numHashed).Ok?
    ensures var b := Acquire(p, want, numHashed).value.1;
            if want.Some? && Contains(p, want.value) then b in p.info && p.info[b].key == want.value
            else NextNew(p) == Some(b)
  {
    hide PoolOk, AllocateBlock, NextNew, Acquired;
    AcquireKeeps(p, want, numHashed);
    CounterAdvances(p);
    var p' := if want.None? then p.(ctr := p.ctr + 1) else p;
    var k := if want.None? then Counter(p.ctr) else want.value;
    if !Contains(p, k) {
      NewBlockIs(p', k, numHashed);
      assert NextNew(p') == NextNew(p) by { SameNextNew(p, p'); }
    } else {
      HitKey(p, want, numHashed);
    }
  }

  lemma SameNextNew<B>(p: CPool<B>, p': CPool<B>)
    requires p' == p || p' == p.(ctr := p.ctr + 1)
    ensures NextNew(p') == NextNew(p)
  {
  }

  lemma HitKey<B>(p: CPool<B>, want: Option<Key>, numHashed: nat)
    requires PoolOk(p) && want.Some? && want.value.Content? && Contains(p, want.value)
             && Acquire(p, want, numHashed).Ok?
    ensures var b := Acquire(p, want, numHashed).value.1; b in p.info && p.info[b].key == want.value
  {
    hide PoolOk, Acquire;
    AcquireKeeps(p, want, numHashed);
  }

  /** The block the append takes is the one that it would take. */
  lemma TakesExactly<B>(p: CPool<B>, bs: nat, d': SeqData, x: B)
    requires bs > 0 && PoolOk(p) && AllocateLast(p, d', bs).Ok?
    ensures WouldTake(p, bs, d', x) <==> x == AllocateLast(p, d', bs).value.1
  {
    hide PoolOk, Acquire, NextNew, NBlocks, LastBlockFull, Contains, PrefixKey, BlockEnd;
    var n := NBlocks(d', bs);
    var want := if LastBlockFull(d', bs) then Some(HashOfBlock(d', n - 1, bs)) else None;
    PrefixKeyTokens(d', BlockEnd(n - 1, bs));
    TakenIs(p, want, BlockEnd(n - 1, bs));
    var b := AllocateLast(p, d', bs).value.1;
    if want.Some? && Contains(p, want.value) && x in p.info && p.info[x].key == want.value {
      HashesDistinct(p, x, b);
    }
  }

  /** At most one more pair, whose source none of the pairs before writes. */
  ghost predicate UnwrittenSource<B>(pairs: Pairs<B>, more: Pairs<B>) {
    more != [] ==> more == [more[0]] && more[0].0 != more[0].1 && forall j :: 0 <= j < |pairs| ==>
      pairs[j].1 != more[0].0
  }

  /** The pair that an append asks for, if any: its source has not been written, its destination is the block taken. */
  lemma PairAsked<B, V>(w: World<B, V>, u: World<B, V>, pairs: Pairs<B>, kv: Kv<V>, bs: nat, news: News, id: nat,
          d': SeqData,
                        u': World<B, V>, more: Pairs<B>)
    requires bs > 0 && Underway(w, u, pairs, kv, bs, news) && Next(u, kv, bs, id, d', u', more) && NotYet(news, id)
    requires AppendSlots(u.mgr, bs, id, d') == Ok((u'.mgr, more))
    ensures UnwrittenSource(pairs, more)
    ensures if more == [] then !Copies(u.mgr, bs, id, d')
            else Copies(u.mgr, bs, id, d') && forall x :: WouldTake(u.mgr.gpu, bs, d', x) <==> x == more[0].1
  {
    hide Inv, Complete, NBlocks, Quiet, AppendWorld, AppendSlots, Extends, WriteEach, SequentialCopy, WouldTake,
         AllocateLast, Placed, Copies;
    if more == [] {
      NoCopy(u, kv, bs, id, d', u');
    } else {
      InStore(u, kv, bs, id, d', u', more);
      var (a, b) := more[0];
      forall j | 0 <= j < |pairs|
        ensures pairs[j].1 != a
      {
        assert WrittenBy(u, pairs[j].1, news);
        var i :| 0 <= i < |news| && HasLast(u.mgr.tables, news[i].0) && LastOf(u.mgr.tables, news[i].0) == pairs[j].1;
        QuietNotSource(u, kv, bs, id, d', news[i].0);
      }
      PairTakes(u, kv, bs, id, d', u', a, b);
    }
  }

  lemma PairTakes<B, V>(u: World<B, V>, kv: Kv<V>, bs: nat, id: nat, d': SeqData, u': World<B, V>, a: B, b: B)
    requires bs > 0 && Next(u, kv, bs, id, d', u', [(a, b)])
    requires AppendSlots(u.mgr, bs, id, d') == Ok((u'.mgr, [(a, b)]))
    ensures Copies(u.mgr, bs, id, d') && a != b && forall x :: WouldTake(u.mgr.gpu, bs, d', x) <==> x == b
  {
    hide Inv, Complete, NBlocks, AppendWorld, Extends, LastBlockFull, UnheldByOthers, WouldTake, AllocateLast, Promote,
         Release,
      PrefixKey, KeysKept;
    InvParts(u, kv, bs);
    forall x
      ensures WouldTake(u.mgr.gpu, bs, d', x) <==> x == b
    {
      TakesExactly(u.mgr.gpu, bs, d', x);
    }
  }

  lemma NoCopy<B, V>(u: World<B, V>, kv: Kv<V>, bs: nat, id: nat, d': SeqData, u': World<B, V>)
    requires bs > 0 && Next(u, kv, bs, id, d', u', [])
    requires AppendSlots(u.mgr, bs, id, d') == Ok((u'.mgr, []))
    ensures !Copies(u.mgr, bs, id, d')
  {
    hide Inv, Complete, NBlocks, AppendWorld, Extends, LastBlockFull, AllocateLast, Promote, Release, Placed;
  }

  /** One more pair. */
  lemma OneMorePair<B>(pairs: Pairs<B>, more: Pairs<B>)
    requires UnwrittenSource(pairs, more)
    ensures ConflictFree(pairs + more) <==>
            ConflictFree(pairs) && (more != [] ==> forall j :: 0 <= j < |pairs| ==>
              pairs[j].0 != more[0].1 && pairs[j].1 != more[0].1)
    ensures SourcesKept(pairs + more) <==>
            SourcesKept(pairs) && (more != [] ==> forall j :: 0 <= j < |pairs| ==> pairs[j].0 != more[0].1)
  {
    if more == [] {
      assert pairs + more == pairs;
    } else {
      var r := pairs + more;
      assert forall j :: 0 <= j < |pairs| ==> r[j] == pairs[j];
      assert r[|pairs|] == more[0];
    }
  }

  ghost predicate ClashesAt<B, V>(w: World<B, V>, kv: Kv<V>, bs: nat, news: News, i: nat)
    requires bs > 0 && i < |news|
  {
    var r := StepAll(w, kv, bs, news[..i]);
    && r.Ok? && news[i].0 in r.value.0.data
    && Clashes(r.value.0.mgr, bs, news[i].0, Grown(r.value.0.data[news[i].0], news[i].1), r.value.1)
  }

  ghost predicate OverwritesAt<B, V>(w: World<B, V>, kv: Kv<V>, bs: nat, news: News, i: nat)
    requires bs > 0 && i < |news|
  {
    var r := StepAll(w, kv, bs, news[..i]);
    && r.Ok? && news[i].0 in r.value.0.data
    && Overwrites(r.value.0.mgr, bs, news[i].0, Grown(r.value.0.data[news[i].0], news[i].1), r.value.1)
  }

  /** No append of the step clashes with the copies asked for before it. */
  ghost predicate Unclashing<B, V>(w: World<B, V>, kv: Kv<V>, bs: nat, news: News)
    requires bs > 0
  {
    forall i :: 0 <= i < |news| ==> !ClashesAt(w, kv, bs, news, i)
  }

  /** No append of the step overwrites a source of the copies asked for before it. */
  ghost predicate Preserving<B, V>(w: World<B, V>, kv: Kv<V>, bs: nat, news: News)
    requires bs > 0
  {
    forall i :: 0 <= i < |news| ==> !OverwritesAt(w, kv, bs, news, i)
  }

  /**
   * The copies of a step have distinct destinations, none of them a source, if and only if no append
   * takes a block that an earlier copy of the step reads or writes; and no destination is a source if
   * and only if no append takes a block that an earlier copy reads.
   */
  lemma {:induction false} StepConflictFreeIff<B, V>(w: World<B, V>, kv: Kv<V>, bs: nat, news: News)
    requires bs > 0 && Inv(w, kv, bs) && Complete(w, bs) && Distinct(news)
    requires forall i :: 0 <= i < |news| ==> news[i].0 in w.mgr.tables
    requires StepAll(w, kv, bs, news).Ok?
    ensures ConflictFree(StepAll(w, kv, bs, news).value.1) <==> Unclashing(w, kv, bs, news)
    ensures SourcesKept(StepAll(w, kv, bs, news).value.1) <==> Preserving(w, kv, bs, news)
    decreases |news|
  {
    hide Inv, Complete, Underway, AppendSlots, AppendWorld, ConflictFree, SourcesKept, Clashes, Overwrites, Next,
         Unclashing, Preserving;
    if news == [] {
      NoConflicts(w, kv, bs);
    } else {
      var n := |news| - 1;
      var init := news[..n];
      StepConflictFreeIff(w, kv, bs, init);
      StepBatches(w, kv, bs, init);
      var (u, pairs) := StepAll(w, kv, bs, init).value;
      StepOnce(w, u, pairs, kv, bs, news);
      var (id, token) := news[n];
      var d' := Grown(u.data[id], token);
      var (s, more) := AppendSlots(u.mgr, bs, id, d').value;
      assert NotYet(init, id);
      MgrOf(u, kv, bs, id, d', s, more);
      PairAsked(w, u, pairs, kv, bs, init, id, d', AppendWorld(u, kv, bs, id, d', s, more), more);
      OneMorePair(pairs, more);
      AskedClashes(u.mgr, bs, id, d', pairs, more);
      EarlierAppends(w, kv, bs, news);
    }
  }

  lemma MgrOf<B, V>(u: World<B, V>, kv: Kv<V>, bs: nat, id: nat, d': SeqData, s: CState<B>, more: Pairs<B>)
    requires bs > 0
    ensures AppendWorld(u, kv, bs, id, d', s, more).mgr == s
  {
  }

  lemma NoConflicts<B, V>(w: World<B, V>, kv: Kv<V>, bs: nat)
    requires bs > 0
    ensures ConflictFree<B>([]) && SourcesKept<B>([]) && Unclashing(w, kv, bs, []) && Preserving(w, kv, bs, [])
  {
  }

  /** What it means for the pairs asked for before that an append clashes or overwrites. */
  lemma AskedClashes<B>(s: CState<B>, bs: nat, id: nat, d': SeqData, pairs: Pairs<B>, more: Pairs<B>)
    requires bs > 0
    requires if more == [] then !Copies(s, bs, id, d')
             else Copies(s, bs, id, d') && forall x :: WouldTake(s.gpu, bs, d', x) <==> x == more[0].1
    ensures Clashes(s, bs, id, d', pairs) <==>
            more != [] && exists j :: 0 <= j < |pairs| && (pairs[j].0 == more[0].1 || pairs[j].1 == more[0].1)
    ensures Overwrites(s, bs, id, d', pairs) <==> more != [] && exists j :: 0 <= j < |pairs| && pairs[j].0 == more[0].1
  {
    hide Copies, WouldTake;
  }

  lemma EarlierAppends<B, V>(w: World<B, V>, kv: Kv<V>, bs: nat, news: News)
    requires bs > 0 && news != []
    ensures Unclashing(w, kv, bs, news) <==>
            Unclashing(w, kv, bs, news[..|news| - 1]) && !ClashesAt(w, kv, bs, news, |news| - 1)
    ensures Preserving(w, kv, bs, news) <==>
            Preserving(w, kv, bs, news[..|news| - 1]) && !OverwritesAt(w, kv, bs, news, |news| - 1)
  {
    hide StepAll, Clashes, Overwrites;
    var n := |news| - 1;
    forall i | 0 <= i < n
      ensures ClashesAt(w, kv, bs, news[..n], i) <==> ClashesAt(w, kv, bs, news, i)
      ensures OverwritesAt(w, kv, bs, news[..n], i) <==> OverwritesAt(w, kv, bs, news, i)
    {
      assert news[..n][..i] == news[..i] && news[..n][i] == news[i];
    }
  }

  // ----- steps that fill no block, and steps that do

  lemma NextNewUnused<B>(p: CPool<B>, x: B)
    requires PoolOk(p) && NextNew(p) == Some(x)
    ensures Refs(p, x) == 0
  {
    hide CachedOk, Scan;
  }

  ghost predicate HeldBySome<B>(tables: map<nat, seq<B>>, x: B) {
    exists k :: k in tables && x in tables[k]
  }

  /** An append that fills no block leaves no block without an owner. */
  lemma HeldStays<B, V>(u: World<B, V>, kv: Kv<V>, bs: nat, id: nat, d': SeqData, u': World<B, V>, more: Pairs<B>, x: B)
    requires bs > 0 && Next(u, kv, bs, id, d', u', more) && !LastBlockFull(d', bs) && HeldBySome(u.mgr.tables, x)
    ensures HeldBySome(u'.mgr.tables, x)
  {
    hide Inv, Complete, NBlocks, AppendWorld, Extends, LastBlockFull, UnheldByOthers, KeysKept, HashOfBlock;
    var k :| k in u.mgr.tables && x in u.mgr.tables[k];
    var t, t', n := u.mgr.tables[id], u'.mgr.tables[id], NBlocks(d', bs);
    if k != id {
      assert u'.mgr.tables[k] == u.mgr.tables[k];
    } else if x in t[..n - 1] {
      assert x in t';
    } else {
      assert |t| == n && x == t[n - 1] by { InTail(t, n, x); }
      if more == [] {
        assert t' == t[..n - 1] + [x];
        assert x in t';
      } else {
        var o := OtherHolder(u, kv, bs, id, x);
        assert u'.mgr.tables[o] == u.mgr.tables[o];
      }
    }
  }

  lemma InTail<B>(t: seq<B>, n: nat, x: B)
    requires 0 < n && n - 1 <= |t| <= n && x in t && x !in t[..n - 1]
    ensures |t| == n && x == t[n - 1]
  {
    assert forall i :: 0 <= i < n - 1 ==> t[i] in t[..n - 1];
  }

  lemma OtherHolder<B, V>(u: World<B, V>, kv: Kv<V>, bs: nat, id: nat, x: B) returns (o: nat)
    requires bs > 0 && Inv(u, kv, bs) && Refs(u.mgr.gpu, x) >= 2
    ensures o in u.mgr.tables && o != id && x in u.mgr.tables[o]
  {
    hide CachedOk, TableOk, KeyTrue, TableTrue, Frame;
    var h := Holders(u.mgr.tables, x);
    assert x in u.mgr.gpu.all;
    assert |h| >= 2;
    if h <= {id} {
      SubsetSize(h, {id});
    }
    o :| o in h && o != id;
  }

  lemma SubsetSize<T>(a: set<T>, b: set<T>)
    requires a <= b
    ensures |a| <= |b|
  {
    assert b == a + (b - a);
  }

  /** So long as no append fills a block, the blocks of all pairs are held. */
  ghost predicate PairsHeld<B, V>(u: World<B, V>, pairs: Pairs<B>) {
    forall j :: 0 <= j < |pairs| ==> HeldBySome(u.mgr.tables, pairs[j].0) && HeldBySome(u.mgr.tables, pairs[j].1)
  }

  lemma PairsStayHeld<B, V>(u: World<B, V>, kv: Kv<V>, bs: nat, id: nat, d': SeqData, u': World<B, V>, pairs: Pairs<B>,
          more: Pairs<B>)
    requires bs > 0 && Next(u, kv, bs, id, d', u', more) && !LastBlockFull(d', bs) && PairsHeld(u, pairs)
    ensures PairsHeld(u', pairs + more)
  {
    hide Next, HeldBySome, LastBlockFull;
    forall j | 0 <= j < |pairs|
      ensures HeldBySome(u'.mgr.tables, pairs[j].0) && HeldBySome(u'.mgr.tables, pairs[j].1)
    {
      HeldStays(u, kv, bs, id, d', u', more, pairs[j].0);
      HeldStays(u, kv, bs, id, d', u', more, pairs[j].1);
    }
    if more != [] {
      InStore(u, kv, bs, id, d', u', more);
      LastHeld(u.mgr.tables, id);
      LastHeld(u'.mgr.tables, id);
      HeldStays(u, kv, bs, id, d', u', more, more[0].0);
    }
  }

  lemma LastHeld<B>(tables: map<nat, seq<B>>, id: nat)
    requires HasLast(tables, id)
    ensures HeldBySome(tables, LastOf(tables, id))
  {
    assert LastOf(tables, id) in tables[id];
  }

  /** An append that fills no block takes one that nobody holds. */
  lemma PartialNoClash<B, V>(u: World<B, V>, kv: Kv<V>, bs: nat, id: nat, d': SeqData, pairs: Pairs<B>)
    requires bs > 0 && Inv(u, kv, bs) && !LastBlockFull(d', bs) && PairsHeld(u, pairs)
    ensures !Clashes(u.mgr, bs, id, d', pairs)
  {
    hide LastBlockFull, PoolOk, Counted, KeyTrue, TableTrue, Frame, NextNew, Contains, Copies;
    forall x | HeldBySome(u.mgr.tables, x)
      ensures !WouldTake(u.mgr.gpu, bs, d', x)
    {
      var k :| k in u.mgr.tables && x in u.mgr.tables[k];
      HeldInUse(u, kv, bs, k);
      if NextNew(u.mgr.gpu) == Some(x) {
        NextNewUnused(u.mgr.gpu, x);
      }
    }
  }

  ghost predicate NoneFull(data: map<nat, SeqData>, bs: nat, news: News)
    requires bs > 0
  {
    forall i :: 0 <= i < |news| ==> news[i].0 in data && !LastBlockFull(Grown(data[news[i].0], news[i].1), bs)
  }

  lemma {:induction false} StepHolds<B, V>(w: World<B, V>, kv: Kv<V>, bs: nat, news: News)
    requires bs > 0 && Inv(w, kv, bs) && Complete(w, bs) && Distinct(news) && NoneFull(w.data, bs, news)
    requires forall i :: 0 <= i < |news| ==> news[i].0 in w.mgr.tables
    ensures StepAll(w, kv, bs, news).Ok? ==>
              && PairsHeld(StepAll(w, kv, bs, news).value.0, StepAll(w, kv, bs, news).value.1)
              && (forall k :: k in w.data && NotYet(news, k) ==>
                    k in StepAll(w, kv, bs, news).value.0.data && StepAll(w, kv, bs, news).value.0.data[k] == w.data[k])
    decreases |news|
  {
    hide Inv, Complete, Underway, AppendSlots, AppendWorld, PairsHeld, LastBlockFull, Grown;
    if news == [] {
      assert PairsHeld(w, []) by { NoPairs(w); }
    } else if StepAll(w, kv, bs, news).Ok? {
      var n := |news| - 1;
      StepHolds(w, kv, bs, news[..n]);
      StepBatches(w, kv, bs, news[..n]);
      var (u, pairs) := StepAll(w, kv, bs, news[..n]).value;
      var (id, token) := news[n];
      assert NotYet(news[..n], id);
      StepOnce(w, u, pairs, kv, bs, news);
      var (s, more) := AppendSlots(u.mgr, bs, id, Grown(u.data[id], token)).value;
      var u' := AppendWorld(u, kv, bs, id, Grown(u.data[id], token), s, more);
      PairsStayHeld(u, kv, bs, id, Grown(u.data[id], token), u', pairs, more);
      forall k | k in w.data && NotYet(news, k)
        ensures k in u'.data && u'.data[k] == w.data[k]
      {
        assert NotYet(news[..n], k) && news[n].0 != k;
      }
    }
  }

  lemma NoPairs<B, V>(w: World<B, V>)
    ensures PairsHeld(w, [])
  {
  }

  /** A step in which no block becomes full has conflict-free copies. */
  lemma NoneFullConflictFree<B, V>(w: World<B, V>, kv: Kv<V>, bs: nat, news: News)
    requires bs > 0 && Inv(w, kv, bs) && Complete(w, bs) && Distinct(news) && NoneFull(w.data, bs, news)
    requires forall i :: 0 <= i < |news| ==> news[i].0 in w.mgr.tables
    requires StepAll(w, kv, bs, news).Ok?
    ensures Unclashing(w, kv, bs, news) && ConflictFree(StepAll(w, kv, bs, news).value.1)
  {
    hide Inv, Complete, StepAll, LastBlockFull, Clashes, Grown, ConflictFree;
    forall i | 0 <= i < |news|
      ensures !ClashesAt(w, kv, bs, news, i)
    {
      var init := news[..i];
      StepHolds(w, kv, bs, init);
      StepBatches(w, kv, bs, init);
      if StepAll(w, kv, bs, init).Ok? {
        var (u, pairs) := StepAll(w, kv, bs, init).value;
        assert NotYet(init, news[i].0);
        PartialNoClash(u, kv, bs, news[i].0, Grown(u.data[news[i].0], news[i].1), pairs);
      }
    }
    StepConflictFreeIff(w, kv, bs, news);
  }

  /** With a free block for each of its sequences, a step succeeds. */
  lemma {:induction false} StepFits<B, V>(w: World<B, V>, kv: Kv<V>, bs: nat, news: News)
    requires bs > 0 && Inv(w, kv, bs) && Complete(w, bs) && Distinct(news)
    requires forall i :: 0 <= i < |news| ==> news[i].0 in w.mgr.tables
    requires |news| <= NumFree(w.mgr.gpu)
    ensures StepAll(w, kv, bs, news).Ok?
    ensures NumFree(StepAll(w, kv, bs, news).value.0.mgr.gpu) >= NumFree(w.mgr.gpu) - |news|
    decreases |news|
  {
    hide Inv, Complete, Underway, AppendSlots, AppendWorld, NumFree;
    if news != [] {
      var n := |news| - 1;
      StepFits(w, kv, bs, news[..n]);
      StepBatches(w, kv, bs, news[..n]);
      var (u, pairs) := StepAll(w, kv, bs, news[..n]).value;
      StepOnce(w, u, pairs, kv, bs, news);
      var (id, token) := news[n];
      assert Inv(u, kv, bs) && Complete(u, bs) by { UnderwaySound(w, u, pairs, kv, bs, news[..n]); }
      AppendKeeps(u, kv, bs, id, Grown(u.data[id], token));
    }
  }

  lemma UnderwaySound<B, V>(w: World<B, V>, u: World<B, V>, pairs: Pairs<B>, kv: Kv<V>, bs: nat, news: News)
    requires bs > 0 && Underway(w, u, pairs, kv, bs, news)
    ensures Inv(u, kv, bs) && Complete(u, bs) && u.mgr.tables.Keys == w.mgr.tables.Keys
  {
    hide Inv, Complete;
  }

  /**
   * Three sequences share a block and two of them fill it with the same token: the second finds the
   * block of the first by its hash, and the copies of the step are twice the same. They conflict, but
   * no source is overwritten.
   */
  lemma SameTokenClashes<B, V>(w: World<B, V>, kv: Kv<V>, bs: nat, a: nat, b: nat, token: Token)
    requires bs > 0 && Inv(w, kv, bs) && Complete(w, bs) && a != b
    requires HasLast(w.mgr.tables, a) && HasLast(w.mgr.tables, b) && w.mgr.tables[b] == w.mgr.tables[a]
    requires a in w.data && b in w.data && w.data[b] == w.data[a]
    requires Refs(w.mgr.gpu, LastOf(w.mgr.tables, a)) >= 3
    requires LastBlockFull(Grown(w.data[a], token), bs) && NBlocks(Grown(w.data[a], token), bs) == |w.mgr.tables[a]|
    requires StepAll(w, kv, bs, [(a, token), (b, token)]).Ok?
    ensures var pairs := StepAll(w, kv, bs, [(a, token), (b, token)]).value.1;
            && |pairs| == 2 && pairs[0] == pairs[1] && !ConflictFree(pairs) && SourcesKept(pairs)
    ensures !Unclashing(w, kv, bs, [(a, token), (b, token)]) && Preserving(w, kv, bs, [(a, token), (b, token)])
  {
    hide Inv, Complete, StepAll, LastBlockFull, NBlocks, Unclashing, Preserving;
    var news := [(a, token), (b, token)];
    StepConflictFreeIff(w, kv, bs, news);
    CopiedTwice(w, kv, bs, a, b, token);
  }

  lemma CopiedTwice<B, V>(w: World<B, V>, kv: Kv<V>, bs: nat, a: nat, b: nat, token: Token)
    requires bs > 0 && Inv(w, kv, bs) && Complete(w, bs) && a != b
    requires a in w.mgr.tables && b in w.mgr.tables && HasLast(w.mgr.tables, a) && w.mgr.tables[b] == w.mgr.tables[a]
    requires a in w.data && b in w.data && w.data[b] == w.data[a]
    requires Refs(w.mgr.gpu, LastOf(w.mgr.tables, a)) >= 3
    requires LastBlockFull(Grown(w.data[a], token), bs) && NBlocks(Grown(w.data[a], token), bs) == |w.mgr.tables[a]|
    requires StepAll(w, kv, bs, [(a, token), (b, token)]).Ok?
    ensures var pairs := StepAll(w, kv, bs, [(a, token), (b, token)]).value.1;
            |pairs| == 2 && pairs[0] == pairs[1] && pairs[0].0 != pairs[0].1
  {
    hide Inv, Complete, LastBlockFull, NBlocks, AppendSlots, AppendWorld, Grown, Underway, Next, Copies, WouldTake,
         LastOf;
    var one, news, d' := [(a, token)], [(a, token), (b, token)], Grown(w.data[a], token);
    assert news[..1] == one && one[..0] == [];
    StartUnderway(w, kv, bs);
    assert StepAll(w, kv, bs, one).Ok? && StepAll(w, kv, bs, one[..0]) == Ok((w, []));
    var (s, more) := AppendSlots(w.mgr, bs, a, d').value;
    var u := AppendWorld(w, kv, bs, a, d', s, more);
    assert [] + more == more;
    assert StepAll(w, kv, bs, one) == Ok((u, more));
    StepOnce(w, w, [], kv, bs, one);
    MgrOf(w, kv, bs, a, d', s, more);
    SharedCopies(w, kv, bs, a, b, d', u, more);
    SecondAsks(w, u, more, kv, bs, one, b, token);
    assert one + [(b, token)] == news;
  }

  /** The next append that would take the one destination so far, from the one source so far, asks for the same copy. */
  lemma SecondAsks<B, V>(w: World<B, V>, u: World<B, V>, more: Pairs<B>, kv: Kv<V>, bs: nat, one: News, b: nat,
          token: Token)
    requires bs > 0 && Underway(w, u, more, kv, bs, one) && StepAll(w, kv, bs, one) == Ok((u, more))
    requires Distinct(one + [(b, token)]) && b in w.mgr.tables && b in u.data && |more| == 1
    requires StepAll(w, kv, bs, one + [(b, token)]).Ok? && HasLast(u.mgr.tables, b)
    requires var d' := Grown(u.data[b], token);
             && Copies(u.mgr, bs, b, d') && WouldTake(u.mgr.gpu, bs, d', more[0].1)
               && LastOf(u.mgr.tables, b) == more[0].0
    ensures StepAll(w, kv, bs, one + [(b, token)]).value.1 == more + more && more[0].0 != more[0].1
  {
    hide Inv, Complete, AppendSlots, AppendWorld, Grown, Underway, Next, Copies, WouldTake, HasLast, LastOf;
    var news := one + [(b, token)];
    assert news[..|one|] == one;
    StepOnce(w, u, more, kv, bs, news);
    var d' := Grown(u.data[b], token);
    var (s, more') := AppendSlots(u.mgr, bs, b, d').value;
    var u' := AppendWorld(u, kv, bs, b, d', s, more');
    MgrOf(u, kv, bs, b, d', s, more');
    assert NotYet(one, b) by {
      assert forall i :: 0 <= i < |one| ==> news[i] == one[i];
    }
    PairAsked(w, u, more, kv, bs, one, b, d', u', more');
    InStore(u, kv, bs, b, d', u', more');
    assert more' == more;
  }

  /** The first of them copies, and the second would take the block of the first. */
  lemma SharedCopies<B, V>(w: World<B, V>, kv: Kv<V>, bs: nat, a: nat, b: nat, d': SeqData, u: World<B, V>,
          more: Pairs<B>)
    requires bs > 0 && Next(w, kv, bs, a, d', u, more) && a != b && AppendSlots(w.mgr, bs, a, d') == Ok((u.mgr, more))
    requires HasLast(w.mgr.tables, a) && HasLast(w.mgr.tables, b) && w.mgr.tables[b] == w.mgr.tables[a]
    requires b in w.data
    requires Refs(w.mgr.gpu, LastOf(w.mgr.tables, a)) >= 3 && LastBlockFull(d', bs)
             && NBlocks(d', bs) == |w.mgr.tables[a]|
    ensures |more| == 1 && HasLast(u.mgr.tables, b) && LastOf(u.mgr.tables, b) == more[0].0
    ensures b in u.data && u.data[b] == w.data[b] && Copies(u.mgr, bs, b, d') && WouldTake(u.mgr.gpu, bs, d', more[0].1)
  {
    hide Inv, Complete, LastBlockFull, NBlocks, AppendWorld, AppendSlots, Extends, UnheldByOthers, PrefixKey, BlockEnd,
         Contains, Refs;
    var x := LastOf(w.mgr.tables, a);
    SharedIsCopied(w, bs, a, d', u, more);
    InStore(w, kv, bs, a, d', u, more);
    var y := more[0].1;
    assert y in u.mgr.gpu.info && u.mgr.gpu.info[y].key == HashOfBlock(d', NBlocks(d', bs) - 1, bs);
    InvParts(u, kv, bs);
    KeyContained(u.mgr.gpu, y);
    StillShared(w, kv, bs, a, u, x);
  }

  lemma SharedIsCopied<B, V>(w: World<B, V>, bs: nat, a: nat, d': SeqData, u: World<B, V>, more: Pairs<B>)
    requires bs > 0 && AppendSlots(w.mgr, bs, a, d') == Ok((u.mgr, more))
    requires HasLast(w.mgr.tables, a) && NBlocks(d', bs) == |w.mgr.tables[a]|
             && Refs(w.mgr.gpu, LastOf(w.mgr.tables, a)) >= 3
    ensures more != []
  {
    hide LastBlockFull, NBlocks, AllocateLast, Promote, Release, Refs;
  }

  lemma KeyContained<B>(p: CPool<B>, y: B)
    requires PoolOk(p) && y in p.info
    ensures Contains(p, p.info[y].key)
  {
    hide Keyed;
    if p.info[y].refs == 0 {
      var j :| 0 <= j < |p.table| && p.table[j] == (p.info[y].key, y);
      assert p.table[j].0 == p.info[y].key;
    }
  }

  /** A block with three owners has two left when one goes over to another block. */
  lemma StillShared<B, V>(w: World<B, V>, kv: Kv<V>, bs: nat, a: nat, u: World<B, V>, x: B)
    requires bs > 0 && Inv(w, kv, bs) && Inv(u, kv, bs) && a in w.mgr.tables && a in u.mgr.tables
    requires u.mgr.tables == w.mgr.tables[a := u.mgr.tables[a]] && x in w.mgr.tables[a]
    requires u.mgr.gpu.all == w.mgr.gpu.all && Refs(w.mgr.gpu, x) >= 3
    ensures Refs(u.mgr.gpu, x) >= 2
  {
    hide CachedOk, TableOk, KeyTrue, TableTrue, Frame;
    assert x in w.mgr.gpu.all;
    HoldersUpdate(w.mgr.tables, a, u.mgr.tables[a], x);
  }
}
