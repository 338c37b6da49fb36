/** Executing the block copies that the manager asks for, on a store indexed by block. */
module Copying {
  import opened Arith

  type Pairs<B> = seq<(B, B)>

  /** The copies done one after the other. */
  ghost function SequentialCopy<B, V>(store: map<B, V>, pairs: Pairs<B>): map<B, V> {
    if pairs == [] then store
    else
      var s := SequentialCopy(store, pairs[..|pairs| - 1]);
      var (from, to) := pairs[|pairs| - 1];
      if from in s then s[to := s[from]] else s
  }

  /** No block is written twice, and none is both read and written. */
  ghost predicate ConflictFree<B>(pairs: Pairs<B>) {
    && (forall i, j :: 0 <= i < j < |pairs| ==> pairs[i].1 != pairs[j].1)
    && (forall i, j :: 0 <= i < |pairs| && 0 <= j < |pairs| ==> pairs[i].1 != pairs[j].0)
  }

  ghost predicate Within<B>(pairs: Pairs<B>, blocks: set<B>) {
    forall i :: 0 <= i < |pairs| ==> pairs[i].0 in blocks && pairs[i].1 in blocks
  }

  ghost predicate Writes<B>(pairs: Pairs<B>, b: B) {
    exists i :: 0 <= i < |pairs| && pairs[i].1 == b
  }

  /** The result of copying from the original contents, all at once. */
  ghost predicate CopiedAtOnce<B, V>(store: map<B, V>, pairs: Pairs<B>, r: map<B, V>)
    requires Within(pairs, store.Keys)
  {
    && r.Keys == store.Keys
    && (forall i :: 0 <= i < |pairs| ==> r[pairs[i].1] == store[pairs[i].0])
    && (forall b :: b in store && !Writes(pairs, b) ==> r[b] == store[b])
  }

  /** Without conflicts the sequential copy is the copy at once. */
  lemma {:induction false} SequentialIsAtOnce<B, V>(store: map<B, V>, pairs: Pairs<B>)
    requires Within(pairs, store.Keys) && ConflictFree(pairs)
    ensures CopiedAtOnce(store, pairs, SequentialCopy(store, pairs))
    decreases |pairs|
  {
    hide CopiedAtOnce;
    if pairs == [] {
      NothingCopied(store);
    } else {
      var init := pairs[..|pairs| - 1];
      SequentialIsAtOnce(store, init);
      CopyOneMore(store, pairs, SequentialCopy(store, init));
    }
  }

  lemma NothingCopied<B, V>(store: map<B, V>)
    ensures CopiedAtOnce(store, [], store)
  {
  }

  lemma CopyOneMore<B, V>(store: map<B, V>, pairs: Pairs<B>, s: map<B, V>)
    requires pairs != [] && Within(pairs, store.Keys) && ConflictFree(pairs)
    requires CopiedAtOnce(store, pairs[..|pairs| - 1], s)
    ensures var (from, to) := pairs[|pairs| - 1];
            from in s && CopiedAtOnce(store, pairs, s[to := s[from]])
  {
    hide Writes;
    var n := |pairs| - 1;
    var init := pairs[..n];
    var (from, to) := pairs[n];
    assert !Writes(init, from) by { NotWritten(init, from); }
    forall b
      ensures Writes(pairs, b) <==> Writes(init, b) || b == to
    {
      WritesInit(pairs, b);
    }
  }

  lemma NotWritten<B>(pairs: Pairs<B>, b: B)
    requires forall i :: 0 <= i < |pairs| ==> pairs[i].1 != b
    ensures !Writes(pairs, b)
  {
  }

  lemma SameMembers<T>(s: seq<T>, s': seq<T>)
    requires multiset(s) == multiset(s')
    ensures forall x :: x in s ==> x in s'
  {
    forall x | x in s
      ensures x in s'
    {
      assert x in multiset(s);
    }
  }

  lemma PermutedConflictFree<B>(pairs: Pairs<B>, pairs': Pairs<B>)
    requires ConflictFree(pairs) && multiset(pairs) == multiset(pairs')
    ensures ConflictFree(pairs')
  {
    SameMembers(pairs', pairs);
    forall i, j | 0 <= i < j < |pairs'|
      ensures pairs'[i].1 != pairs'[j].1
    {
      if pairs'[i].1 == pairs'[j].1 {
        assert pairs'[i] in pairs && pairs'[j] in pairs;
        var k :| 0 <= k < |pairs| && pairs[k] == pairs'[i];
        var l :| 0 <= l < |pairs| && pairs[l] == pairs'[j];
        assert k == l;
        TwiceInMultiset(pairs', i, j);
        OnceInMultiset(pairs, k);
      }
    }
    forall i, j | 0 <= i < |pairs'| && 0 <= j < |pairs'|
      ensures pairs'[i].1 != pairs'[j].0
    {
      assert pairs'[i] in pairs && pairs'[j] in pairs;
    }
  }

  lemma TwiceInMultiset<T>(s: seq<T>, i: nat, j: nat)
    requires i < j < |s| && s[i] == s[j]
    ensures multiset(s)[s[i]] >= 2
  {
    assert s == s[..j] + s[j..];
    assert s[..j][i] == s[i] && s[j..][0] == s[i];
    assert s[i] in multiset(s[..j]) && s[i] in multiset(s[j..]);
  }

  lemma OnceInMultiset<B>(pairs: Pairs<B>, k: nat)
    requires ConflictFree(pairs) && k < |pairs|
    ensures multiset(pairs)[pairs[k]] == 1
  {
    assert pairs == pairs[..k] + [pairs[k]] + pairs[k + 1..];
    assert pairs[k] !in pairs[..k] && pairs[k] !in pairs[k + 1..];
  }

  // ----- exactly when the order does not matter

  /** No destination is a source, so every copy is made from the original contents. */
  ghost predicate SourcesKept<B>(pairs: Pairs<B>) {
    forall i, j :: 0 <= i < |pairs| && 0 <= j < |pairs| ==> pairs[i].1 != pairs[j].0
  }

  /** Copies to one destination are copies of one source. */
  ghost predicate OneSource<B>(pairs: Pairs<B>) {
    forall i, j :: 0 <= i < |pairs| && 0 <= j < |pairs| && pairs[i].1 == pairs[j].1 ==> pairs[i].0 == pairs[j].0
  }

  ghost predicate NoSelfCopy<B>(pairs: Pairs<B>) {
    forall i :: 0 <= i < |pairs| ==> pairs[i].0 != pairs[i].1
  }

  /** No two blocks hold the same. */
  ghost predicate AllDifferent<B, V>(store: map<B, V>) {
    forall a, b :: a in store && b in store && a != b ==> store[a] != store[b]
  }

  ghost predicate AnyOrder<B(!new), V>(store: map<B, V>, pairs: Pairs<B>) {
    forall order: Pairs<B> :: multiset(order) == multiset(pairs) ==>
      SequentialCopy(store, order) == SequentialCopy(store, pairs)
  }

  /** A copy made from the original contents of one of the sources that are to go there. */
  ghost predicate CopiedFromOne<B, V>(store: map<B, V>, pairs: Pairs<B>, r: map<B, V>, b: B)
    requires Within(pairs, store.Keys)
  {
    b in r && exists i :: 0 <= i < |pairs| && pairs[i].1 == b && r[b] == store[pairs[i].0]
  }

  lemma {:induction false} CopiedFromOriginals<B, V>(store: map<B, V>, pairs: Pairs<B>)
    requires Within(pairs, store.Keys) && SourcesKept(pairs)
    ensures var r := SequentialCopy(store, pairs);
            && r.Keys == store.Keys
            && forall b :: b in store ==>
                 if Writes(pairs, b) then CopiedFromOne(store, pairs, r, b) else r[b] == store[b]
    decreases |pairs|
  {
    if pairs == [] {
    } else {
      var n := |pairs| - 1;
      var init := pairs[..n];
      CopiedFromOriginals(store, init);
      var s, r := SequentialCopy(store, init), SequentialCopy(store, pairs);
      assert !Writes(init, pairs[n].0);
      forall b | b in store
        ensures if Writes(pairs, b) then CopiedFromOne(store, pairs, r, b) else r[b] == store[b]
      {
        if b == pairs[n].1 {
          assert r[b] == store[pairs[n].0];
        } else if Writes(init, b) {
          assert CopiedFromOne(store, init, s, b);
          var i :| 0 <= i < n && init[i].1 == b && s[b] == store[init[i].0];
          assert pairs[i] == init[i];
        } else {
          assert !Writes(pairs, b) by { WritesInit(pairs, b); }
        }
      }
    }
  }

  lemma WritesInit<B>(pairs: Pairs<B>, b: B)
    requires pairs != []
    ensures Writes(pairs, b) <==> Writes(pairs[..|pairs| - 1], b) || pairs[|pairs| - 1].1 == b
  {
    var n := |pairs| - 1;
    assert forall i :: 0 <= i < n ==> pairs[..n][i] == pairs[i];
  }

  lemma Permuted<B>(pairs: Pairs<B>, order: Pairs<B>)
    requires multiset(order) == multiset(pairs)
    ensures forall b :: Writes(order, b) <==> Writes(pairs, b)
    ensures SourcesKept(pairs) ==> SourcesKept(order)
    ensures forall blocks :: Within(pairs, blocks) ==> Within(order, blocks)
    ensures forall p :: p in order ==> p in pairs
  {
    SameMembers(pairs, order);
    SameMembers(order, pairs);
    assert forall i :: 0 <= i < |order| ==> order[i] in pairs;
    assert forall i :: 0 <= i < |pairs| ==> pairs[i] in order;
  }

  /** Enough for every order, whatever the blocks hold. */
  lemma SafeInAnyOrder<B, V>(store: map<B, V>, pairs: Pairs<B>, order: Pairs<B>)
    requires Within(pairs, store.Keys) && SourcesKept(pairs) && OneSource(pairs)
    requires multiset(order) == multiset(pairs)
    ensures SequentialCopy(store, order) == SequentialCopy(store, pairs)
  {
    hide SourcesKept, Writes, SequentialCopy, Within;
    Permuted(pairs, order);
    CopiedFromOriginals(store, pairs);
    CopiedFromOriginals(store, order);
    var r, r' := SequentialCopy(store, pairs), SequentialCopy(store, order);
    forall b | b in store
      ensures r[b] == r'[b]
    {
      if Writes(pairs, b) {
        SameSource(store, pairs, order, r, r', b);
      }
    }
  }

  lemma SameSource<B, V>(store: map<B, V>, pairs: Pairs<B>, order: Pairs<B>, r: map<B, V>, r': map<B, V>, b: B)
    requires Within(pairs, store.Keys) && Within(order, store.Keys) && OneSource(pairs)
    requires forall p :: p in order ==> p in pairs
    requires CopiedFromOne(store, pairs, r, b) && CopiedFromOne(store, order, r', b)
    ensures r[b] == r'[b]
  {
    var i :| 0 <= i < |pairs| && pairs[i].1 == b && r[b] == store[pairs[i].0];
    var l :| 0 <= l < |order| && order[l].1 == b && r'[b] == store[order[l].0];
    assert order[l] in pairs;
    var j :| 0 <= j < |pairs| && pairs[j] == order[l];
    assert pairs[i].1 == pairs[j].1;
  }

  /** Conflict-free copies may be performed in any order. */
  lemma CopyInAnyOrder<B, V>(store: map<B, V>, pairs: Pairs<B>, pairs': Pairs<B>)
    requires Within(pairs, store.Keys) && ConflictFree(pairs)
    requires multiset(pairs) == multiset(pairs')
    ensures ConflictFree(pairs') && Within(pairs', store.Keys)
    ensures SequentialCopy(store, pairs') == SequentialCopy(store, pairs)
  {
    hide SequentialCopy;
    PermutedConflictFree(pairs, pairs');
    Permuted(pairs, pairs');
    SafeInAnyOrder(store, pairs, pairs');
  }

  /** The pairs with destination `z`, or all the others. */
  ghost function Toward<B>(pairs: Pairs<B>, z: B, toward: bool): Pairs<B> {
    if pairs == [] then []
    else
      var init, last := Toward(pairs[..|pairs| - 1], z, toward), pairs[|pairs| - 1];
      if (last.1 == z) == toward then init + [last] else init
  }

  lemma {:induction false} TowardSplits<B>(pairs: Pairs<B>, z: B)
    ensures multiset(Toward(pairs, z, true)) + multiset(Toward(pairs, z, false)) == multiset(pairs)
  {
    if pairs != [] {
      var init := pairs[..|pairs| - 1];
      TowardSplits(init, z);
      assert pairs == init + [pairs[|pairs| - 1]];
    }
  }

  lemma {:induction false} TowardOnly<B>(pairs: Pairs<B>, z: B, toward: bool)
    ensures forall i :: 0 <= i < |Toward(pairs, z, toward)| ==> (Toward(pairs, z, toward)[i].1 == z) == toward
  {
    if pairs != [] {
      TowardOnly(pairs[..|pairs| - 1], z, toward);
    }
  }

  ghost function Dropped<B>(pairs: Pairs<B>, k: nat): Pairs<B>
    requires k < |pairs|
  {
    pairs[..k] + pairs[k + 1..]
  }

  lemma DroppedOne<B>(pairs: Pairs<B>, k: nat)
    requires k < |pairs|
    ensures |Dropped(pairs, k)| == |pairs| - 1 && multiset(Dropped(pairs, k)) + multiset{pairs[k]} == multiset(pairs)
    ensures forall i :: 0 <= i < |Dropped(pairs, k)| ==> Dropped(pairs, k)[i] == pairs[if i < k then i else i + 1]
  {
    assert pairs == pairs[..k] + [pairs[k]] + pairs[k + 1..];
  }

  /** The order in which pair `k` is the last to write its destination, and nothing else is written before. */
  ghost function DecidedBy<B>(pairs: Pairs<B>, k: nat): Pairs<B>
    requires k < |pairs|
  {
    var rest, z := Dropped(pairs, k), pairs[k].1;
    Toward(rest, z, true) + [pairs[k]] + Toward(rest, z, false)
  }

  lemma {:induction false} CopyFrame<B, V>(store: map<B, V>, pairs: Pairs<B>, b: B)
    requires b in store && forall i :: 0 <= i < |pairs| ==> pairs[i].1 != b
    ensures b in SequentialCopy(store, pairs) && SequentialCopy(store, pairs)[b] == store[b]
    decreases |pairs|
  {
    if pairs != [] {
      CopyFrame(store, pairs[..|pairs| - 1], b);
    }
  }

  lemma DecidedCopy<B, V>(store: map<B, V>, pairs: Pairs<B>, k: nat)
    requires k < |pairs| && pairs[k].0 in store && pairs[k].0 != pairs[k].1
    ensures multiset(DecidedBy(pairs, k)) == multiset(pairs)
    ensures pairs[k].1 in SequentialCopy(store, DecidedBy(pairs, k))
    ensures SequentialCopy(store, DecidedBy(pairs, k))[pairs[k].1] == store[pairs[k].0]
  {
    hide Toward, Dropped, SequentialCopy;
    var rest, s, z := Dropped(pairs, k), pairs[k].0, pairs[k].1;
    DroppedOne(pairs, k);
    TowardSplits(rest, z);
    TowardOnly(rest, z, true);
    TowardOnly(rest, z, false);
    var before, after := Toward(rest, z, true), Toward(rest, z, false);
    SequentialCopyConcat(store, before + [pairs[k]], after);
    SequentialCopyConcat(store, before, [pairs[k]]);
    CopyFrame(store, before, s);
    var copied := SequentialCopy(store, before);
    CopyPair(copied, s, z);
    CopyFrame(copied[z := copied[s]], after, z);
  }

  lemma CopyPair<B, V>(store: map<B, V>, a: B, b: B)
    requires a in store
    ensures SequentialCopy(store, [(a, b)]) == store[b := store[a]]
  {
    assert [(a, b)][..0] == [];
  }

  /** The order in which pair `i` comes first and then pair `k` decides. */
  ghost function FirstThen<B>(pairs: Pairs<B>, i: nat, k: nat): Pairs<B>
    requires i < |pairs| && k < |pairs| && i != k
  {
    [pairs[i]] + DecidedBy(Dropped(pairs, i), if k < i then k else k - 1)
  }

  /** If pair `i` writes the source of pair `k`, then in that order the latter copies what the former brought. */
  lemma FirstThenCopy<B, V>(store: map<B, V>, pairs: Pairs<B>, i: nat, k: nat)
    requires i < |pairs| && k < |pairs| && i != k && Within(pairs, store.Keys)
    requires pairs[i].1 == pairs[k].0 && pairs[k].0 != pairs[k].1
    ensures multiset(FirstThen(pairs, i, k)) == multiset(pairs)
    ensures pairs[k].1 in SequentialCopy(store, FirstThen(pairs, i, k))
    ensures SequentialCopy(store, FirstThen(pairs, i, k))[pairs[k].1] == store[pairs[i].0]
  {
    hide SequentialCopy, Dropped, DecidedBy;
    var rest, l := Dropped(pairs, i), if k < i then k else k - 1;
    var (x, y) := pairs[i];
    DroppedOne(pairs, i);
    assert rest[l] == pairs[k];
    CopyPair(store, x, y);
    DecidedCopy(store[y := store[x]], rest, l);
    SequentialCopyConcat(store, [pairs[i]], DecidedBy(rest, l));
  }

  /**
   * Blocks that all hold different contents come out the same in every order if and only if no
   * destination is a source and copies to one destination are copies of one source.
   */
  lemma AnyOrderIff<B(!new), V>(store: map<B, V>, pairs: Pairs<B>)
    requires Within(pairs, store.Keys) && NoSelfCopy(pairs) && AllDifferent(store)
    ensures AnyOrder(store, pairs) <==> SourcesKept(pairs) && OneSource(pairs)
  {
    hide SequentialCopy, DecidedBy, FirstThen;
    if SourcesKept(pairs) && OneSource(pairs) {
      forall order: Pairs<B> | multiset(order) == multiset(pairs)
        ensures SequentialCopy(store, order) == SequentialCopy(store, pairs)
      {
        SafeInAnyOrder(store, pairs, order);
      }
    } else if !OneSource(pairs) {
      var i, k :| 0 <= i < |pairs| && 0 <= k < |pairs| && pairs[i].1 == pairs[k].1 && pairs[i].0 != pairs[k].0;
      DecidedCopy(store, pairs, i);
      DecidedCopy(store, pairs, k);
      assert SequentialCopy(store, DecidedBy(pairs, i)) != SequentialCopy(store, DecidedBy(pairs, k));
    } else {
      var i, k :| 0 <= i < |pairs| && 0 <= k < |pairs| && pairs[i].1 == pairs[k].0;
      FirstThenCopy(store, pairs, i, k);
      DecidedCopy(store, pairs, k);
      assert SequentialCopy(store, FirstThen(pairs, i, k)) != SequentialCopy(store, DecidedBy(pairs, k));
    }
  }

  lemma {:induction false} SequentialCopyConcat<B, V>(store: map<B, V>, a: Pairs<B>, b: Pairs<B>)
    ensures SequentialCopy(store, a + b) == SequentialCopy(SequentialCopy(store, a), b)
    decreases |b|
  {
    if b == [] {
      assert a + b == a;
    } else {
      assert (a + b)[..|a + b| - 1] == a + b[..|b| - 1];
      SequentialCopyConcat(store, a, b[..|b| - 1]);
    }
  }

  // ----- the copy kernel, on a flat array of blocks of `n` elements

  ghost predicate InBounds(pairs: Pairs<nat>, blocks: nat) {
    forall i :: 0 <= i < |pairs| ==> pairs[i].0 < blocks && pairs[i].1 < blocks
  }

  /** The contents of a flat cache of `blocks` blocks, block by block. */
  ghost function StoreOf<T>(cache: seq<T>, n: nat, blocks: nat): map<nat, seq<T>>
    requires |cache| == blocks * n
  {
    map b | 0 <= b < blocks :: BlockAt(cache, n, blocks, b)
  }

  ghost function BlockAt<T>(cache: seq<T>, n: nat, blocks: nat, b: nat): seq<T>
    requires |cache| == blocks * n && b < blocks
  {
    StepsApart(b, blocks, n);
    cache[b * n..b * n + n]
  }

  /** The `n` elements at `src` put in place of those at `dst`. */
  ghost function Patched<T>(was: seq<T>, src: nat, dst: nat, n: nat): (r: seq<T>)
    requires src + n <= |was| && dst + n <= |was|
    ensures |r| == |was|
    ensures forall k :: 0 <= k < |was| ==> r[k] == was[if dst <= k < dst + n then src + (k - dst) else k]
  {
    was[..dst] + was[src..src + n] + was[dst + n..]
  }

  /** The copy of `n` elements between ranges that are the same or apart. */
  method CopyRange<T>(cache: array<T>, src: nat, dst: nat, n: nat)
    requires src + n <= cache.Length && dst + n <= cache.Length
    requires src == dst || src + n <= dst || dst + n <= src
    modifies cache
    ensures cache[..] == Patched(old(cache[..]), src, dst, n)
  {
    hide Patched;
    ghost var was := cache[..];
    for i := 0 to n
      invariant cache[..] == Patched(was, src, dst, i)
    {
      PatchedNext(was, src, dst, i);
      cache[dst + i] := cache[src + i];
    }
  }

  /** Between such ranges the next element to copy is still the original one. */
  lemma PatchedNext<T>(was: seq<T>, src: nat, dst: nat, i: nat)
    requires src + i < |was| && dst + i < |was|
    requires src == dst || src + i < dst || dst + i <= src
    ensures Patched(was, src, dst, i + 1) == Patched(was, src, dst, i)[dst + i := Patched(was, src, dst, i)[src + i]]
  {
    hide Patched;
  }

  method CopyOneBlock<T>(cache: array<T>, n: nat, ghost blocks: nat, from: nat, to: nat)
    requires cache.Length == blocks * n && from < blocks && to < blocks
    modifies cache
    ensures StoreOf(cache[..], n, blocks)
            == old(StoreOf(cache[..], n, blocks))[to := old(BlockAt(cache[..], n, blocks, from))]
  {
    hide StoreOf, BlockAt, Patched;
    StepsApart(from, blocks, n);
    StepsApart(to, blocks, n);
    if from < to {
      StepsApart(from, to, n);
    } else if to < from {
      StepsApart(to, from, n);
    }
    OneBlockChanged(cache[..], n, blocks, from, to);
    CopyRange(cache, from * n, to * n, n);
  }

  lemma OneBlockChanged<T>(was: seq<T>, n: nat, blocks: nat, from: nat, to: nat)
    requires |was| == blocks * n && from < blocks && to < blocks
    requires 0 <= from * n && from * n + n <= |was| && 0 <= to * n && to * n + n <= |was|
    ensures var now := Patched(was, from * n, to * n, n);
            StoreOf(now, n, blocks) == StoreOf(was, n, blocks)[to := BlockAt(was, n, blocks, from)]
  {
    hide Patched, BlockAt;
    var now := Patched(was, from * n, to * n, n);
    forall b: nat | b < blocks
      ensures BlockAt(now, n, blocks, b)
              == if b == to then BlockAt(was, n, blocks, from) else BlockAt(was, n, blocks, b)
    {
      BlockPatched(was, n, blocks, from, to, b);
    }
  }

  lemma BlockPatched<T>(was: seq<T>, n: nat, blocks: nat, from: nat, to: nat, b: nat)
    requires |was| == blocks * n && from < blocks && to < blocks && b < blocks
    requires 0 <= from * n && from * n + n <= |was| && 0 <= to * n && to * n + n <= |was|
    ensures BlockAt(Patched(was, from * n, to * n, n), n, blocks, b)
            == BlockAt(was, n, blocks, if b == to then from else b)
  {
    hide Patched;
    StepsApart(b, blocks, n);
    if b < to {
      StepsApart(b, to, n);
    } else if to < b {
      StepsApart(to, b, n);
    }
    SliceAfterCopy(was, from * n, to * n, b * n, n);
  }

  lemma SliceAfterCopy<T>(was: seq<T>, src: nat, dst: nat, at: nat, n: nat)
    requires src + n <= |was| && dst + n <= |was| && at + n <= |was|
    requires at == dst || at + n <= dst || dst + n <= at
    ensures Patched(was, src, dst, n)[at..at + n] == if at == dst then was[src..src + n] else was[at..at + n]
  {
  }

  /** One layer's cache: the pairs in their order, each a copy of one whole block. */
  method CopyBlocks<T>(cache: array<T>, n: nat, ghost blocks: nat, pairs: Pairs<nat>)
    requires cache.Length == blocks * n && InBounds(pairs, blocks)
    modifies cache
    ensures StoreOf(cache[..], n, blocks) == SequentialCopy(old(StoreOf(cache[..], n, blocks)), pairs)
  {
    ghost var was := StoreOf(cache[..], n, blocks);
    assert pairs[..0] == [];
    for k := 0 to |pairs|
      invariant StoreOf(cache[..], n, blocks) == SequentialCopy(was, pairs[..k])
    {
      assert pairs[..k + 1][..k] == pairs[..k];
      CopyOneBlock(cache, n, blocks, pairs[k].0, pairs[k].1);
    }
    assert pairs[..|pairs|] == pairs;
  }
}
