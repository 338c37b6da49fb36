/**
 * One scheduling step: every running sequence gets a slot for its newest token, the collected
 * block copies are carried out, and then each new token is written at its slot.
 */
module Appending {
  import opened Wrappers
  import opened Holding
  import opened UncachedAllocator
  import opened BlockManager
  import opened Conservation
  import opened Copying
  import opened Paging
  import opened Isolation

  /** A table and the value of its newest token. */
  type News<V> = seq<(TableId, V)>

  ghost predicate Mentions<V>(news: News<V>, o: TableId) {
    exists i :: 0 <= i < |news| && news[i].0 == o
  }

  ghost predicate DistinctOwners<V>(news: News<V>) {
    forall i, j :: 0 <= i < j < |news| ==> news[i].0 != news[j].0
  }

  /** The `append_slots` calls of one step, in order, with the list of all copies. */
  ghost function SlotAll<B, V>(s: State<B>, c: Config, lens: map<TableId, nat>, news: News<V>)
    : Result<(State<B>, map<TableId, nat>, seq<(B, B)>)>
    decreases |news|
  {
    if news == [] then Ok((s, lens, []))
    else if news[0].0 !in lens then Err(KeyError)
    else
      var o := news[0].0;
      var (s1, copies) :- AppendSlots(s, c, o, lens[o] + 1);
      var (s2, lens2, rest) :- SlotAll(s1, c, lens[o := lens[o] + 1], news[1..]);
      Ok((s2, lens2, copies + rest))
  }

  /** How one append moves the counts on the GPU, and where its copies point. */
  ghost predicate SlotRefs<B>(s: State<B>, s': State<B>, copies: seq<(B, B)>) {
    && s'.gpu.refs.Keys == s.gpu.refs.Keys
    && (forall x :: x in s.gpu.refs ==> && (s.gpu.refs[x] == 1 ==> s'.gpu.refs[x] == 1)
                                        && (s'.gpu.refs[x] == 0 ==> s.gpu.refs[x] == 0)
                                        && (s'.gpu.refs[x] > 1 ==> s.gpu.refs[x] > 1))
    && PairsFrom(s, copies)
    && (forall i :: 0 <= i < |copies| ==> s'.gpu.refs[copies[i].0] > 0 && s'.gpu.refs[copies[i].1] == 1)
  }

  /** Copies from shared blocks to free blocks, without conflicts. */
  ghost predicate PairsFrom<B>(s: State<B>, pairs: seq<(B, B)>) {
    && ConflictFree(pairs)
    && (forall i :: 0 <= i < |pairs| ==> && pairs[i].0 in s.gpu.refs && s.gpu.refs[pairs[i].0] > 1
                                         && pairs[i].1 in s.gpu.refs && s.gpu.refs[pairs[i].1] == 0)
  }

  lemma AppendSlotsRefs<B>(s: State<B>, c: Config, o: TableId, len: nat)
    requires Conserved(s) && c.window.None? && Appendable(s, c, o, len)
    requires AppendSlots(s, c, o, len).Ok?
    ensures SlotRefs(s, AppendSlots(s, c, o, len).value.0, AppendSlots(s, c, o, len).value.1)
    ensures |s.gpu.free| <= |AppendSlots(s, c, o, len).value.0.gpu.free| + 1
  {
    AppendSlotsKeeps(s, c, o, len);
    hide AppendSlots, Conserved, NoDup, Resident, NBlocks, Settled, SlotRefs;
    var (s', copies) := AppendSlots(s, c, o, len).value;
    if AppendTakes(s, c, o, len) {
      RefsAfterTake(s, s', s.gpu.free[|s.gpu.free| - 1], copies);
    } else {
      RefsKept(s, s', copies);
    }
  }

  lemma RefsKept<B>(s: State<B>, s': State<B>, copies: seq<(B, B)>)
    requires s'.gpu == s.gpu && copies == []
    ensures SlotRefs(s, s', copies)
  {
  }

  lemma RefsAfterTake<B>(s: State<B>, s': State<B>, b: B, copies: seq<(B, B)>)
    requires b in s.gpu.refs && s.gpu.refs[b] == 0 && |copies| <= 1
    requires copies == [] ==> s'.gpu.refs == s.gpu.refs[b := 1]
    requires copies != [] ==>
               && copies[0].1 == b && copies[0].0 in s.gpu.refs && s.gpu.refs[copies[0].0] > 1
               && s'.gpu.refs == s.gpu.refs[b := 1][copies[0].0 := s.gpu.refs[copies[0].0] - 1]
    ensures SlotRefs(s, s', copies)
  {
  }

  lemma PairsCompose<B>(s: State<B>, s': State<B>, copies: seq<(B, B)>, rest: seq<(B, B)>)
    requires SlotRefs(s, s', copies) && PairsFrom(s', rest)
    ensures PairsFrom(s, copies + rest)
  {
  }

  /** All slots of a step: each owner's view grows by one, its last block is its own, nothing else moves. */
  ghost predicate AllSlotted<B, V>(w: World<B, V>, c: Config, news: News<V>, w': World<B, V>) {
    && ValidWorld(w, c) && ValidWorld(w', c) && w'.mgr.tables.Keys == w.mgr.tables.Keys
    && (forall o :: OnGpu(w, o) ==> OnGpu(w', o))
    && (forall o :: o in w.mgr.tables ==>
                      if Mentions(news, o) then Grew(w, w', c, o) && Exclusive(w', o)
                      else Same(w, w', c, o) && (Exclusive(w, o) ==> Exclusive(w', o)))
  }

  ghost predicate Same<B, V>(w: World<B, V>, w': World<B, V>, c: Config, o: TableId)
    requires ValidWorld(w, c) && ValidWorld(w', c)
  {
    && o in w.mgr.tables && o in w'.mgr.tables
    && Read(w', c, o) == Read(w, c, o)
  }

  ghost predicate Grew<B, V>(w: World<B, V>, w': World<B, V>, c: Config, o: TableId)
    requires ValidWorld(w, c) && ValidWorld(w', c)
  {
    && o in w.mgr.tables && o in w'.mgr.tables
    && |Read(w', c, o)| == |Read(w, c, o)| + 1
    && Read(w', c, o)[..|Read(w, c, o)|] == Read(w, c, o)
  }

  ghost predicate AllRunning<B, V>(w: World<B, V>, news: News<V>) {
    forall i :: 0 <= i < |news| ==> OnGpu(w, news[i].0)
  }

  ghost predicate SlotsOk<B, V>(w: World<B, V>, c: Config, news: News<V>,
                                r: Result<(State<B>, map<TableId, nat>, seq<(B, B)>)>) {
    if r.Ok? then
      && AllSlotted(w, c, news, World(r.value.0, r.value.1, SequentialCopy(w.store, r.value.2)))
      && PairsFrom(w.mgr, r.value.2)
    else r == Err(OutOfMemory) && |w.mgr.gpu.free| < |news|
  }

  lemma {:induction false} SlotAllReads<B, V>(w: World<B, V>, c: Config, news: News<V>)
    requires ValidWorld(w, c) && c.window.None? && AllRunning(w, news) && DistinctOwners(news)
    ensures SlotsOk(w, c, news, SlotAll(w.mgr, c, w.lens, news))
    decreases |news|
  {
    hide SlotsOk, AppendSlots, Conserved, Distinct, OneDevice, Shaped, StoreOk;
    if news == [] {
      NothingSlotted(w, c, news);
    } else {
      FirstSlot(w, c, news);
      var r1 := AppendSlots(w.mgr, c, news[0].0, w.lens[news[0].0] + 1);
      if r1.Ok? {
        SlotAllReads(Slotted(w, news[0].0, r1.value), c, news[1..]);
        SlotAllStep(w, c, news);
      } else {
        SlotFails(w, c, news);
      }
    }
  }

  lemma StillRunning<B, V>(w: World<B, V>, c: Config, o: TableId, w1: World<B, V>, news: News<V>)
    requires ValidWorld(w, c) && ValidWorld(w1, c) && FirstSlotted(w, c, o, w1)
    requires AllRunning(w, news) && news != []
    ensures AllRunning(w1, news[1..])
  {
    forall i | 0 <= i < |news[1..]|
      ensures OnGpu(w1, news[1..][i].0)
    {
      assert OnGpu(w, news[i + 1].0);
    }
  }

  /** The state between the first append of a step and the others. */
  ghost predicate Begun<B, V>(w: World<B, V>, c: Config, news: News<V>, w1: World<B, V>, copies: seq<(B, B)>) {
    && news != [] && DistinctOwners(news) && ValidWorld(w, c) && ValidWorld(w1, c)
    && FirstSlotted(w, c, news[0].0, w1)
    && w1.store == SequentialCopy(w.store, copies)
    && SlotRefs(w.mgr, w1.mgr, copies) && |w.mgr.gpu.free| <= |w1.mgr.gpu.free| + 1
    && AllRunning(w1, news[1..]) && DistinctOwners(news[1..])
  }

  lemma FirstSlot<B, V>(w: World<B, V>, c: Config, news: News<V>)
    requires ValidWorld(w, c) && c.window.None? && news != [] && AllRunning(w, news) && DistinctOwners(news)
    ensures news[0].0 in w.lens
    ensures var o := news[0].0;
            var r := AppendSlots(w.mgr, c, o, w.lens[o] + 1);
            if r.Ok? then Begun(w, c, news, Slotted(w, o, r.value), r.value.1)
            else r == Err(OutOfMemory) && w.mgr.gpu.free == []
  {
    hide AppendSlots, Conserved, Distinct, OneDevice, Shaped, StoreOk, FirstSlotted, SlotRefs, SlotTaken, Exclusive;
    var o := news[0].0;
    SlotTakes(w, c, o);
    var r := AppendSlots(w.mgr, c, o, w.lens[o] + 1);
    if r.Ok? {
      OneSlotted(w, c, o);
      RunningIsAppendable(w, c, o);
      AppendSlotsRefs(w.mgr, c, o, w.lens[o] + 1);
      StillRunning(w, c, o, Slotted(w, o, r.value), news);
    }
  }

  lemma SlotAllStep<B, V>(w: World<B, V>, c: Config, news: News<V>)
    requires news != [] && news[0].0 in w.lens
    requires AppendSlots(w.mgr, c, news[0].0, w.lens[news[0].0] + 1).Ok?
    requires var r1 := AppendSlots(w.mgr, c, news[0].0, w.lens[news[0].0] + 1).value;
             var w1 := Slotted(w, news[0].0, r1);
             && Begun(w, c, news, w1, r1.1)
             && SlotsOk(w1, c, news[1..], SlotAll(w1.mgr, c, w1.lens, news[1..]))
    ensures SlotsOk(w, c, news, SlotAll(w.mgr, c, w.lens, news))
  {
    hide AppendSlots, Conserved, Distinct, OneDevice, Shaped, StoreOk, AllSlotted, FirstSlotted,
         SlotRefs, PairsFrom, AllRunning, DistinctOwners, SequentialCopy;
    var r1 := AppendSlots(w.mgr, c, news[0].0, w.lens[news[0].0] + 1).value;
    var w1 := Slotted(w, news[0].0, r1);
    var r2 := SlotAll(w1.mgr, c, w1.lens, news[1..]);
    if r2.Ok? {
      PairsCompose(w.mgr, w1.mgr, r1.1, r2.value.2);
      SequentialCopyConcat(w.store, r1.1, r2.value.2);
      SlottedCompose(w, c, news, w1, World(r2.value.0, r2.value.1, SequentialCopy(w1.store, r2.value.2)));
    }
  }

  ghost predicate FirstSlotted<B, V>(w: World<B, V>, c: Config, o: TableId, w1: World<B, V>)
    requires ValidWorld(w, c) && ValidWorld(w1, c)
  {
    && w1.mgr.tables.Keys == w.mgr.tables.Keys
    && (forall k :: OnGpu(w, k) ==> OnGpu(w1, k))
    && Grew(w, w1, c, o) && Exclusive(w1, o)
    && (forall k :: k in w.mgr.tables && k != o ==>
                      Same(w, w1, c, k) && (Exclusive(w, k) ==> Exclusive(w1, k)))
  }

  lemma NothingSlotted<B, V>(w: World<B, V>, c: Config, news: News<V>)
    requires ValidWorld(w, c) && news == []
    ensures SlotsOk(w, c, news, SlotAll(w.mgr, c, w.lens, news))
  {
  }

  lemma SlotFails<B, V>(w: World<B, V>, c: Config, news: News<V>)
    requires news != [] && news[0].0 in w.lens && w.mgr.gpu.free == []
    requires AppendSlots(w.mgr, c, news[0].0, w.lens[news[0].0] + 1) == Err(OutOfMemory)
    ensures SlotsOk(w, c, news, SlotAll(w.mgr, c, w.lens, news))
  {
    hide AppendSlots;
  }

  /** The first append of a step, in terms of `AllSlotted` for a step of one. */
  lemma OneSlotted<B, V>(w: World<B, V>, c: Config, o: TableId)
    requires ValidWorld(w, c) && c.window.None? && OnGpu(w, o) && o in w.lens
    requires AppendSlots(w.mgr, c, o, w.lens[o] + 1).Ok?
    ensures var w1 := Slotted(w, o, AppendSlots(w.mgr, c, o, w.lens[o] + 1).value);
            ValidWorld(w1, c) && FirstSlotted(w, c, o, w1)
  {
    hide AppendSlots, Conserved, Distinct, OneDevice, Shaped, StoreOk;
    SlotTakes(w, c, o);
    var w1 := Slotted(w, o, AppendSlots(w.mgr, c, o, w.lens[o] + 1).value);
    SlotReads(w, c, o, w1);
    ReadLength(w, c, o);
    RunningIsAppendable(w, c, o);
    AppendSlotsRefs(w.mgr, c, o, w.lens[o] + 1);
    forall k | k in w.mgr.tables && k != o
      ensures Same(w, w1, c, k) && (Exclusive(w, k) ==> Exclusive(w1, k))
    {
      assert w1.mgr.tables[k] == w.mgr.tables[k];
    }
    forall k | OnGpu(w, k)
      ensures OnGpu(w1, k)
    {
      if k != o {
        assert w1.mgr.tables[k] == w.mgr.tables[k];
      }
    }
  }

  lemma SlottedCompose<B, V>(w: World<B, V>, c: Config, news: News<V>, w1: World<B, V>, w2: World<B, V>)
    requires news != [] && DistinctOwners(news) && ValidWorld(w, c) && ValidWorld(w1, c)
    requires FirstSlotted(w, c, news[0].0, w1)
    requires AllSlotted(w1, c, news[1..], w2)
    ensures AllSlotted(w, c, news, w2)
  {
    hide Conserved, Distinct, OneDevice, Shaped, StoreOk, Mentions, Exclusive, DistinctOwners;
    var o := news[0].0;
    forall k | k in w.mgr.tables
      ensures if Mentions(news, k) then Grew(w, w2, c, k) && Exclusive(w2, k)
              else Same(w, w2, c, k) && (Exclusive(w, k) ==> Exclusive(w2, k))
    {
      MentionsCons(news, k);
      if k == o {
        assert !Mentions(news[1..], k);
      }
    }
  }

  lemma MentionsCons<V>(news: News<V>, k: TableId)
    requires news != [] && DistinctOwners(news)
    ensures Mentions(news, k) <==> news[0].0 == k || Mentions(news[1..], k)
    ensures !(news[0].0 == k && Mentions(news[1..], k))
  {
  }

  // ----- writing the new tokens

  /** Writes `v` at the slot of the newest token of `o`. */
  ghost function WriteNewest<B, V>(w: World<B, V>, c: Config, o: TableId, v: V): World<B, V> {
    if o !in w.mgr.tables || w.mgr.tables[o] == [] || o !in w.lens || w.lens[o] == 0 then w
    else
      var b := w.mgr.tables[o][|w.mgr.tables[o]| - 1];
      var r := LastOffset(w.lens[o], c.blockSize);
      if b in w.store && r < |w.store[b]| then w.(store := w.store[b := w.store[b][r := v]]) else w
  }

  lemma WriteReads<B, V>(w: World<B, V>, c: Config, o: TableId, v: V)
    requires ValidWorld(w, c) && Exclusive(w, o)
    ensures var w' := WriteNewest(w, c, o, v);
            && ValidWorld(w', c)
            && |Read(w, c, o)| > 0
            && Read(w', c, o) == Read(w, c, o)[..|Read(w, c, o)| - 1] + [v]
            && (forall k :: k in w.mgr.tables && k != o ==> Read(w', c, k) == Read(w, c, k))
  {
    hide ValidWorld, Read, WriteNewest;
    WriteForm(w, c, o, v);
    WriteValid(w, c, o, v);
    WriteOwn(w, c, o, v);
    var w' := WriteNewest(w, c, o, v);
    forall k | k in w.mgr.tables && k != o
      ensures Read(w', c, k) == Read(w, c, k)
    {
      WriteOthers(w, c, o, v, k);
    }
  }

  /** The write, at a slot that exists. */
  lemma WriteForm<B, V>(w: World<B, V>, c: Config, o: TableId, v: V)
    requires ValidWorld(w, c) && Exclusive(w, o)
    ensures o in w.lens && w.lens[o] > 0
    ensures var t, r := w.mgr.tables[o], LastOffset(w.lens[o], c.blockSize);
            var b := t[|t| - 1];
            && b in w.store && r < |w.store[b]| == c.blockSize && NoDup(t)
            && WriteNewest(w, c, o, v) == w.(store := w.store[b := w.store[b][r := v]])
  {
    hide Conserved, OneDevice;
    ContentsUniform(w, c, o);
    assert w.mgr.tables[o][|w.mgr.tables[o]| - 1] in w.mgr.tables[o];
    NBlocksFits(w.lens[o], c.blockSize);
    LastOffsetInBlock(w.lens[o], c.blockSize);
  }

  lemma WriteValid<B, V>(w: World<B, V>, c: Config, o: TableId, v: V)
    requires ValidWorld(w, c) && Exclusive(w, o)
    ensures ValidWorld(WriteNewest(w, c, o, v), c)
  {
    hide Conserved, Distinct, OneDevice, WriteNewest, LastOffset;
    WriteForm(w, c, o, v);
    var w' := WriteNewest(w, c, o, v);
    assert w'.store.Keys == w.store.Keys;
    assert StoreOk(w', c.blockSize);
  }

  lemma WriteOthers<B, V>(w: World<B, V>, c: Config, o: TableId, v: V, k: TableId)
    requires ValidWorld(w, c) && Exclusive(w, o) && ValidWorld(WriteNewest(w, c, o, v), c)
    requires k in w.mgr.tables && k != o
    ensures k in WriteNewest(w, c, o, v).mgr.tables
    ensures Read(WriteNewest(w, c, o, v), c, k) == Read(w, c, k)
  {
    hide Counted, Wf, Distinct, OneDevice, StoreOk, WriteNewest, LastOffset, Read;
    WriteForm(w, c, o, v);
    CountBoundsHolders(w.mgr, w.mgr.tables[o][|w.mgr.tables[o]| - 1], o, k);
    ContentsUniform(w, c, k);
    ReadFrame(w, WriteNewest(w, c, o, v), c, k);
  }

  lemma WriteOwn<B, V>(w: World<B, V>, c: Config, o: TableId, v: V)
    requires ValidWorld(w, c) && Exclusive(w, o) && ValidWorld(WriteNewest(w, c, o, v), c)
    ensures o in WriteNewest(w, c, o, v).mgr.tables
    ensures |Read(w, c, o)| > 0
    ensures Read(WriteNewest(w, c, o, v), c, o) == Read(w, c, o)[..|Read(w, c, o)| - 1] + [v]
  {
    hide ValidWorld, WriteNewest, LastOffset, View, Contents;
    WriteForm(w, c, o, v);
    var t := w.mgr.tables[o];
    ContentsUniform(w, c, o);
    ViewWriteLast(Contents(w.store, t), w.lens[o], c.blockSize, v);
    WriteContents(w.store, t, LastOffset(w.lens[o], c.blockSize), v);
  }

  lemma WriteContents<B, V>(store: map<B, seq<V>>, t: seq<B>, r: nat, v: V)
    requires t != [] && NoDup(t) && t[|t| - 1] in store && r < |store[t[|t| - 1]]|
    ensures |Contents(store, t)[|t| - 1]| == |store[t[|t| - 1]]|
    ensures var b, blocks := t[|t| - 1], Contents(store, t);
            Contents(store[b := store[b][r := v]], t) == blocks[|t| - 1 := blocks[|t| - 1][r := v]]
  {
  }

  ghost function WriteAll<B, V>(w: World<B, V>, c: Config, news: News<V>): World<B, V>
    decreases |news|
  {
    if news == [] then w else WriteAll(WriteNewest(w, c, news[0].0, news[0].1), c, news[1..])
  }

  ghost predicate AllExclusive<B, V>(w: World<B, V>, news: News<V>) {
    forall i :: 0 <= i < |news| ==> Exclusive(w, news[i].0)
  }

  ghost predicate AllWritten<B, V>(w: World<B, V>, c: Config, news: News<V>, w': World<B, V>) {
    && ValidWorld(w, c) && ValidWorld(w', c) && w'.mgr == w.mgr && w'.lens == w.lens
    && (forall i :: 0 <= i < |news| ==> Wrote(w, w', c, news[i].0, news[i].1))
    && (forall o :: o in w.mgr.tables && !Mentions(news, o) ==> Same(w, w', c, o))
  }

  ghost predicate Wrote<B, V>(w: World<B, V>, w': World<B, V>, c: Config, o: TableId, v: V)
    requires ValidWorld(w, c) && ValidWorld(w', c)
  {
    && o in w.mgr.tables && o in w'.mgr.tables && |Read(w, c, o)| > 0
    && Read(w', c, o) == Read(w, c, o)[..|Read(w, c, o)| - 1] + [v]
  }

  lemma {:induction false} WriteAllReads<B, V>(w: World<B, V>, c: Config, news: News<V>)
    requires ValidWorld(w, c) && AllExclusive(w, news) && DistinctOwners(news)
    ensures AllWritten(w, c, news, WriteAll(w, c, news))
    decreases |news|
  {
    hide ValidWorld, Read, WriteNewest;
    if news != [] {
      var (o, v) := news[0];
      WriteReads(w, c, o, v);
      var w1 := WriteNewest(w, c, o, v);
      KeepsManager(w, c, o, v);
      WriteAllReads(w1, c, news[1..]);
      WrittenCompose(w, c, news, w1, WriteAll(w1, c, news[1..]));
    }
  }

  lemma KeepsManager<B, V>(w: World<B, V>, c: Config, o: TableId, v: V)
    ensures WriteNewest(w, c, o, v).mgr == w.mgr && WriteNewest(w, c, o, v).lens == w.lens
  {
  }

  lemma WrittenCompose<B, V>(w: World<B, V>, c: Config, news: News<V>, w1: World<B, V>, w2: World<B, V>)
    requires news != [] && DistinctOwners(news) && ValidWorld(w, c) && ValidWorld(w1, c)
    requires w1.mgr == w.mgr && w1.lens == w.lens
    requires Wrote(w, w1, c, news[0].0, news[0].1)
    requires forall k :: k in w.mgr.tables && k != news[0].0 ==> Same(w, w1, c, k)
    requires AllWritten(w1, c, news[1..], w2)
    ensures AllWritten(w, c, news, w2)
  {
    hide ValidWorld, Read;
    assert !Mentions(news[1..], news[0].0) by { MentionsCons(news, news[0].0); }
    forall i | 0 <= i < |news|
      ensures Wrote(w, w2, c, news[i].0, news[i].1)
    {
      if i > 0 {
        assert news[1..][i - 1] == news[i];
        assert Same(w, w1, c, news[i].0);
      }
    }
    forall o | o in w.mgr.tables && !Mentions(news, o)
      ensures Same(w, w2, c, o)
    {
      MentionsCons(news, o);
    }
  }

  // ----- the whole step

  ghost function AppendStep<B, V>(w: World<B, V>, c: Config, news: News<V>): Result<World<B, V>> {
    var (s, lens, copies) :- SlotAll(w.mgr, c, w.lens, news);
    Ok(WriteAll(World(s, lens, SequentialCopy(w.store, copies)), c, news))
  }

  /** After a step each running sequence reads its new token after its old ones; nobody else's view changed. */
  ghost predicate Stepped<B, V>(w: World<B, V>, c: Config, news: News<V>, w': World<B, V>) {
    && ValidWorld(w, c) && ValidWorld(w', c) && w'.mgr.tables.Keys == w.mgr.tables.Keys
    && (forall o :: OnGpu(w, o) ==> OnGpu(w', o))
    && (forall i :: 0 <= i < |news| ==> Gained(w, w', c, news[i].0, news[i].1))
    && (forall o :: o in w.mgr.tables && !Mentions(news, o) ==> Same(w, w', c, o))
  }

  ghost predicate Gained<B, V>(w: World<B, V>, w': World<B, V>, c: Config, o: TableId, v: V)
    requires ValidWorld(w, c) && ValidWorld(w', c)
  {
    o in w.mgr.tables && o in w'.mgr.tables && Read(w', c, o) == Read(w, c, o) + [v]
  }

  lemma AppendStepReads<B, V>(w: World<B, V>, c: Config, news: News<V>)
    requires ValidWorld(w, c) && c.window.None? && AllRunning(w, news) && DistinctOwners(news)
    ensures var r := AppendStep(w, c, news);
            if r.Ok? then Stepped(w, c, news, r.value)
            else r == Err(OutOfMemory) && |w.mgr.gpu.free| < |news|
  {
    hide ValidWorld, Read, OnGpu, SlotAll, Exclusive, SequentialCopy, PairsFrom;
    SlotAllReads(w, c, news);
    var r := SlotAll(w.mgr, c, w.lens, news);
    if r.Ok? {
      var w1 := World(r.value.0, r.value.1, SequentialCopy(w.store, r.value.2));
      SlotsExclusive(w, c, news, w1);
      WriteAllReads(w1, c, news);
      StepCompose(w, c, news, w1, WriteAll(w1, c, news));
    }
  }

  lemma SlotsExclusive<B, V>(w: World<B, V>, c: Config, news: News<V>, w1: World<B, V>)
    requires AllSlotted(w, c, news, w1) && AllRunning(w, news)
    ensures AllExclusive(w1, news)
  {
  }

  lemma StepCompose<B, V>(w: World<B, V>, c: Config, news: News<V>, w1: World<B, V>, w2: World<B, V>)
    requires AllSlotted(w, c, news, w1) && AllRunning(w, news)
    requires AllWritten(w1, c, news, w2)
    ensures Stepped(w, c, news, w2)
  {
    hide ValidWorld, Read, Exclusive;
    forall i | 0 <= i < |news|
      ensures Gained(w, w2, c, news[i].0, news[i].1)
    {
      assert Mentions(news, news[i].0);
    }
  }

  /**
   * The copies collected over one step have distinct destinations, no destination is a source, and
   * so they may be carried out in any order.
   */
  lemma StepCopiesAnyOrder<B, V>(w: World<B, V>, c: Config, news: News<V>, order: seq<(B, B)>)
    requires ValidWorld(w, c) && c.window.None? && AllRunning(w, news) && DistinctOwners(news)
    requires SlotAll(w.mgr, c, w.lens, news).Ok?
    requires multiset(order) == multiset(SlotAll(w.mgr, c, w.lens, news).value.2)
    ensures ConflictFree(SlotAll(w.mgr, c, w.lens, news).value.2)
    ensures SequentialCopy(w.store, order) == SequentialCopy(w.store, SlotAll(w.mgr, c, w.lens, news).value.2)
  {
    hide SlotAll, SequentialCopy, AllSlotted;
    SlotAllReads(w, c, news);
    CopyInAnyOrder(w.store, SlotAll(w.mgr, c, w.lens, news).value.2, order);
  }
}
