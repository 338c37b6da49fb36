/** Filling a freshly allocated table with the prompt. */
module Prompts {
  import opened Holding
  import opened BlockManager
  import opened Paging
  import opened Isolation

  /** Overwrites the beginning of `block`. */
  ghost function Overlay<V>(chunk: seq<V>, block: seq<V>): seq<V> {
    if |chunk| <= |block| then chunk + block[|chunk|..] else block
  }

  /** Writes the tokens `vs` into the blocks of `t`, position by position. */
  ghost function WriteTokens<B, V>(store: map<B, seq<V>>, t: seq<B>, vs: seq<V>, bs: nat): map<B, seq<V>>
    requires bs > 0 && |t| == NBlocks(|vs|, bs)
  {
    if t == [] then store
    else
      NBlocksFits(|vs|, bs);
      var n := |t|;
      var full := (n - 1) * bs;
      FullBlocks(n - 1, bs);
      var s := WriteTokens(store, t[..n - 1], vs[..full], bs);
      if t[n - 1] in s then s[t[n - 1] := Overlay(vs[full..], s[t[n - 1]])] else s
  }

  lemma FullBlocks(n: nat, bs: nat)
    requires bs > 0
    ensures 0 <= n * bs && NBlocks(n * bs, bs) == n
  {
    if n > 0 {
      assert (n - 1) * bs + bs == n * bs;
      NBlocksUnique(n * bs, bs, n);
    }
  }

  ghost predicate SizedStore<B, V>(store: map<B, seq<V>>, bs: nat) {
    forall b :: b in store ==> |store[b]| == bs
  }

  lemma {:induction false} WriteTokensFrame<B, V>(store: map<B, seq<V>>, t: seq<B>, vs: seq<V>, bs: nat)
    requires bs > 0 && |t| == NBlocks(|vs|, bs) && SizedStore(store, bs)
    ensures var r := WriteTokens(store, t, vs, bs);
            && r.Keys == store.Keys && SizedStore(r, bs)
            && (forall b :: b in store && b !in t ==> r[b] == store[b])
    decreases |t|
  {
    if t != [] {
      NBlocksFits(|vs|, bs);
      var n := |t|;
      FullBlocks(n - 1, bs);
      WriteTokensFrame(store, t[..n - 1], vs[..(n - 1) * bs], bs);
      assert n * bs == (n - 1) * bs + bs;
    }
  }

  /** Whoever reads through the table then reads the tokens. */
  lemma {:induction false} WriteTokensRead<B, V>(store: map<B, seq<V>>, t: seq<B>, vs: seq<V>, bs: nat)
    requires bs > 0 && |t| == NBlocks(|vs|, bs) && SizedStore(store, bs) && NoDup(t)
    requires forall b :: b in t ==> b in store
    ensures var blocks := Contents(WriteTokens(store, t, vs, bs), t);
            Uniform(blocks, bs) && View(blocks, |vs|, bs) == vs
    decreases |t|
  {
    hide WriteTokens, NBlocks, Overlay, Flatten, SizedStore;
    WriteTokensFrame(store, t, vs, bs);
    SizedContents(WriteTokens(store, t, vs, bs), t, bs);
    NBlocksFits(|vs|, bs);
    if t != [] {
      var n := |t|;
      var init, full := t[..n - 1], (n - 1) * bs;
      FullBlocks(n - 1, bs);
      var s := WriteTokens(store, init, vs[..full], bs);
      WriteTokensFrame(store, init, vs[..full], bs);
      WriteTokensRead(store, init, vs[..full], bs);
      LastBlockWritten(store, s, t, vs, bs);
      var last := WriteTokens(store, t, vs, bs)[t[n - 1]];
      assert Contents(WriteTokens(store, t, vs, bs), t) == Contents(s, init) + [last];
      ViewWithChunk(Contents(s, init), last, vs, bs);
    }
  }

  lemma ViewWithChunk<V>(before: seq<seq<V>>, last: seq<V>, vs: seq<V>, bs: nat)
    requires bs > 0 && Uniform(before, bs) && |last| == bs
    requires NBlocks(|before| * bs, bs) == |before| && |before| + 1 == NBlocks(|vs|, bs)
    requires |before| * bs <= |vs| <= |before| * bs + bs
    requires View(before, |before| * bs, bs) == vs[..|before| * bs]
    requires last[..|vs| - |before| * bs] == vs[|before| * bs..]
    ensures Uniform(before + [last], bs) && View(before + [last], |vs|, bs) == vs
  {
    hide NBlocks, Flatten, View, Uniform;
    FullView(before, bs);
    ViewSnoc(before, last, |vs|, bs);
    var full := |before| * bs;
    assert View(before + [last], |vs|, bs) == Flatten(before) + last[..|vs| - full];
    assert Flatten(before) == vs[..full] && vs[..full] + vs[full..] == vs;
  }

  lemma ViewSnoc<V>(init: seq<seq<V>>, last: seq<V>, len: nat, bs: nat)
    requires bs > 0 && Uniform(init, bs) && |last| == bs && |init| + 1 == NBlocks(len, bs)
    ensures Uniform(init + [last], bs) && 0 <= |init| * bs <= len <= |init| * bs + bs
    ensures View(init + [last], len, bs) == Flatten(init) + last[..len - |init| * bs]
  {
    hide NBlocks, Flatten, View, Uniform;
    var blocks := init + [last];
    UniformSnoc(init, last, bs);
    assert |blocks| - 1 == |init| && blocks[..|init|] == init && blocks[|init|] == last;
    ViewSplit(blocks, len, bs);
  }

  lemma UniformSnoc<V>(init: seq<seq<V>>, last: seq<V>, bs: nat)
    requires Uniform(init, bs) && |last| == bs
    ensures Uniform(init + [last], bs)
  {
  }

  lemma ViewSplit<V>(blocks: seq<seq<V>>, len: nat, bs: nat)
    requires bs > 0 && |blocks| == NBlocks(len, bs) && |blocks| > 0 && Uniform(blocks, bs)
    ensures var n := |blocks| - 1;
            0 <= n * bs <= len <= n * bs + bs && View(blocks, len, bs)
              == Flatten(blocks[..n]) + blocks[n][..len - n * bs]
  {
    hide NBlocks, Flatten;
    NBlocksFits(len, bs);
    assert |blocks| * bs == (|blocks| - 1) * bs + bs;
  }

  lemma SizedContents<B, V>(store: map<B, seq<V>>, t: seq<B>, bs: nat)
    requires SizedStore(store, bs) && forall b :: b in t ==> b in store
    ensures Uniform(Contents(store, t), bs)
  {
  }

  lemma LastBlockWritten<B, V>(store: map<B, seq<V>>, s: map<B, seq<V>>, t: seq<B>, vs: seq<V>, bs: nat)
    requires bs > 0 && |t| == NBlocks(|vs|, bs) && t != [] && NoDup(t)
    requires 0 <= (|t| - 1) * bs <= |vs| && NBlocks((|t| - 1) * bs, bs) == |t| - 1
    requires s == WriteTokens(store, t[..|t| - 1], vs[..(|t| - 1) * bs], bs)
    requires SizedStore(s, bs) && forall b :: b in t ==> b in s
    ensures var r, full := WriteTokens(store, t, vs, bs), (|t| - 1) * bs;
            && r == s[t[|t| - 1] := Overlay(vs[full..], s[t[|t| - 1]])]
            && (forall i :: 0 <= i < |t| - 1 ==> t[i] in r && r[t[i]] == s[t[i]])
            && |vs| - full <= bs
            && r[t[|t| - 1]][..|vs| - full] == vs[full..]
  {
    NBlocksFits(|vs|, bs);
    var n := |t|;
    assert n * bs == (n - 1) * bs + bs;
    assert t[n - 1] in t;
    assert forall i :: 0 <= i < n ==> t[i] in t;
  }

  lemma FullView<V>(blocks: seq<seq<V>>, bs: nat)
    requires bs > 0 && Uniform(blocks, bs) && NBlocks(|blocks| * bs, bs) == |blocks|
    ensures View(blocks, |blocks| * bs, bs) == Flatten(blocks)
  {
  }
}
