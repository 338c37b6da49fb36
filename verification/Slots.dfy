/** The cache slots that one scheduling step writes to. */
module Slots {
  import opened BlockManager
  import opened Conservation
  import opened Copying
  import opened Isolation
  import opened Appending
  import KvLayout
  import Paging

  /** Blocks have different numbers. */
  ghost predicate Numbers<B>(num: B -> nat, blocks: set<B>) {
    forall a, b :: a in blocks && b in blocks && num(a) == num(b) ==> a == b
  }

  ghost predicate HasNewest<B, V>(w: World<B, V>, o: TableId) {
    o in w.mgr.tables && w.mgr.tables[o] != [] && o in w.lens && w.lens[o] > 0
  }

  /** The slot of the newest token of a sequence: the number of its last block, and the offset in it. */
  ghost function NewestSlot<B, V>(w: World<B, V>, c: Config, num: B -> nat, o: TableId): nat
    requires HasNewest(w, o)
  {
    Paging.LastOffsetInBlock(w.lens[o], c.blockSize);
    KvLayout.Index(num(w.mgr.tables[o][|w.mgr.tables[o]| - 1]), c.blockSize, Paging.LastOffset(w.lens[o], c.blockSize))
  }

  /** Sequences with last blocks of their own have newest tokens in slots of their own. */
  lemma OwnSlot<B, V>(w: World<B, V>, c: Config, num: B -> nat, o: TableId, o': TableId)
    requires ValidWorld(w, c) && Exclusive(w, o) && Exclusive(w, o') && o != o' && Numbers(num, w.mgr.gpu.refs.Keys)
    requires HasNewest(w, o) && HasNewest(w, o')
    ensures NewestSlot(w, c, num, o) != NewestSlot(w, c, num, o')
  {
    hide KvLayout.Index, Paging.LastOffset;
    var b, b' := w.mgr.tables[o][|w.mgr.tables[o]| - 1], w.mgr.tables[o'][|w.mgr.tables[o']| - 1];
    CountBoundsHolders(w.mgr, b, o, o');
    assert b != b';
    Paging.LastOffsetInBlock(w.lens[o], c.blockSize);
    Paging.LastOffsetInBlock(w.lens[o'], c.blockSize);
    if NewestSlot(w, c, num, o) == NewestSlot(w, c, num, o') {
      KvLayout.IndexUnique(num(b), Paging.LastOffset(w.lens[o], c.blockSize), num(b'),
        Paging.LastOffset(w.lens[o'], c.blockSize), c.blockSize);
    }
  }

  /** The world between the copies of a step and its writes. */
  ghost function Reserved<B, V>(w: World<B, V>, r: (State<B>, map<TableId, nat>, seq<(B, B)>)): World<B, V> {
    World(r.0, r.1, SequentialCopy(w.store, r.2))
  }

  ghost function StepSlots<B, V>(w: World<B, V>, c: Config, num: B -> nat, news: News<V>): (r: seq<int>)
    requires forall i :: 0 <= i < |news| ==> HasNewest(w, news[i].0)
    ensures |r| == |news|
  {
    seq(|news|, i requires 0 <= i < |news| => NewestSlot(w, c, num, news[i].0))
  }

  /**
   * The slots of the new tokens of one step are pairwise distinct, which is what the scatter of
   * their keys and values relies on.
   */
  lemma StepSlotsDistinct<B, V>(w: World<B, V>, c: Config, news: News<V>, num: B -> nat)
    requires ValidWorld(w, c) && c.window.None? && AllRunning(w, news) && DistinctOwners(news)
    requires Numbers(num, w.mgr.gpu.refs.Keys) && SlotAll(w.mgr, c, w.lens, news).Ok?
    ensures var w1 := Reserved(w, SlotAll(w.mgr, c, w.lens, news).value);
            && (forall i :: 0 <= i < |news| ==> HasNewest(w1, news[i].0))
            && KvLayout.DistinctSlots(StepSlots(w1, c, num, news))
  {
    hide ValidWorld, Read, Exclusive, NewestSlot, Numbers;
    SlotAllReads(w, c, news);
    var w1 := Reserved(w, SlotAll(w.mgr, c, w.lens, news).value);
    SlotsExclusive(w, c, news, w1);
    forall i | 0 <= i < |news|
      ensures HasNewest(w1, news[i].0)
    {
      assert Mentions(news, news[i].0);
      GrownIsNewest(w, w1, c, news[i].0);
    }
    SlotAllGpu(w, c, news);
    forall i, j | 0 <= i < j < |news|
      ensures NewestSlot(w1, c, num, news[i].0) != NewestSlot(w1, c, num, news[j].0)
    {
      OwnSlot(w1, c, num, news[i].0, news[j].0);
    }
  }

  lemma GrownIsNewest<B, V>(w: World<B, V>, w1: World<B, V>, c: Config, o: TableId)
    requires ValidWorld(w, c) && ValidWorld(w1, c) && Grew(w, w1, c, o) && Exclusive(w1, o)
    ensures HasNewest(w1, o)
  {
    hide Conserved, Read;
    ReadLength(w1, c, o);
  }

  /** The appends of a step keep the set of GPU blocks. */
  lemma {:induction false} SlotAllGpu<B, V>(w: World<B, V>, c: Config, news: News<V>)
    requires ValidWorld(w, c) && c.window.None? && AllRunning(w, news) && DistinctOwners(news)
    requires SlotAll(w.mgr, c, w.lens, news).Ok?
    ensures SlotAll(w.mgr, c, w.lens, news).value.0.gpu.refs.Keys == w.mgr.gpu.refs.Keys
    decreases |news|
  {
    hide AppendSlots, ValidWorld, FirstSlotted, SlotRefs, SequentialCopy, Exclusive, DistinctOwners;
    if news != [] {
      FirstSlot(w, c, news);
      SlotTakes(w, c, news[0].0);
      SlotAllGpu(Slotted(w, news[0].0, AppendSlots(w.mgr, c, news[0].0, w.lens[news[0].0] + 1).value), c, news[1..]);
    }
  }
}
