/**
 * Swapping tables between the two devices. The lemmas are stated for moving from `s.gpu` to
 * `s.cpu`; the other direction is the same statement about the flipped state.
 */
module Swapping {
  import opened Wrappers
  import opened Holding
  import opened UncachedAllocator
  import opened BlockManager
  import opened Conservation

  ghost function Flip<B>(s: State<B>): State<B> {
    State(s.cpu, s.gpu, s.tables)
  }

  lemma FlipConserves<B>(s: State<B>)
    requires Conserved(s)
    ensures Conserved(Flip(s))
  {
  }

  ghost predicate Injective<B>(d: map<B, B>) {
    forall k, k' :: k in d && k' in d && d[k] == d[k'] ==> k == k'
  }

  /** The mapping of a swap under way: one-to-one, into blocks in use on the destination. */
  ghost predicate MappingOk<B>(src: set<B>, dst: Pool<B>, m: Mapping<B>) {
    && Injective(m.dict)
    && (forall k :: k in m.dict ==> k in src && m.dict[k] in dst.refs && dst.refs[m.dict[k]] > 0)
  }

  ghost predicate Extends<B>(d: map<B, B>, d': map<B, B>) {
    forall k :: k in d ==> k in d' && d'[k] == d[k]
  }

  ghost function Image<B>(d: map<B, B>, b: B): B {
    if b in d then d[b] else b
  }

  ghost function Apply<B>(d: map<B, B>, t: seq<B>): (r: seq<B>)
    ensures |r| == |t|
  {
    seq(|t|, i requires 0 <= i < |t| => Image(d, t[i]))
  }

  /** How many different blocks of `todo` are not yet in `mapped`. */
  ghost function Unmapped<B>(mapped: set<B>, todo: seq<B>): nat
    decreases |todo|
  {
    if todo == [] then 0 else Bit(todo[0] !in mapped) + Unmapped(mapped + {todo[0]}, todo[1..])
  }

  /** The images of blocks still to be moved are not yet in the moved part. */
  ghost predicate Avoids<B>(d: map<B, B>, done: seq<B>, todo: seq<B>) {
    forall k :: k in d && k in todo ==> d[k] !in done
  }

  /** Table `o` is half swapped: the blocks of `done` have moved, those of `todo` have not. */
  ghost predicate InProgress<B>(s: State<B>, o: TableId, m: Mapping<B>, done: seq<B>, todo: seq<B>) {
    && Conserved(s) && o in s.tables && s.tables[o] == done + todo && NoDup(done + todo)
    && MappingOk(s.gpu.refs.Keys, s.cpu, m)
    && Resident(s.cpu, done) && Resident(s.gpu, todo)
    && Avoids(m.dict, done, todo)
  }

  ghost function PutItem<B>(m: Mapping<B>, k: B, v: B): Mapping<B> {
    Mapping(m.dict[k := v], m.items + [(k, v)])
  }

  lemma AvoidsStep<B>(d: map<B, B>, done: seq<B>, todo: seq<B>)
    requires NoDup(done + todo) && todo != [] && todo[0] in d
    requires Injective(d) && Avoids(d, done, todo[1..])
    ensures Avoids(d, done + [d[todo[0]]], todo[1..])
  {
    forall k | k in d && k in todo[1..]
      ensures d[k] !in done + [d[todo[0]]]
    {
      var j :| 0 <= j < |todo[1..]| && todo[1..][j] == k;
      assert (done + todo)[|done|] == todo[0] && (done + todo)[|done| + 1 + j] == k;
    }
  }

  /** Replacing one block of a table by another that it does not hold moves one reference. */
  lemma ReplaceConserves<B>(s: State<B>, o: TableId, i: nat, to: B, dst: Pool<B>)
    requires Conserved(s) && o in s.tables && NoDup(s.tables[o])
    requires i < |s.tables[o]| && s.tables[o][i] in s.gpu.refs
    requires to in s.cpu.refs && to !in s.tables[o]
    requires Wf(dst) && dst.refs == s.cpu.refs[to := s.cpu.refs[to] + 1]
    ensures var from := s.tables[o][i];
            var r := Release(s.gpu, from);
            && r.Ok? && r.value.refs.Keys == s.gpu.refs.Keys
            && Conserved(State(r.value, dst, s.tables[o := s.tables[o][i := to]]))
            && NoDup(s.tables[o][i := to])
  {
    var from := s.tables[o][i];
    CountBoundsHolders(s, from, o, o);
    ReleaseWf(s.gpu, from);
    ReplacedCounts(s.tables[o], i, to);
    RetableConserves(s, State(Release(s.gpu, from).value, dst, s.tables[o := s.tables[o][i := to]]),
                     o, s.tables[o][i := to]);
  }

  /** The destination and mapping after finding a place for `from`. */
  ghost function Place<B>(dst: Pool<B>, m: Mapping<B>, from: B): (Pool<B>, Mapping<B>, B)
    requires from in m.dict ==> m.dict[from] in dst.refs
    requires from in m.dict || dst.free != []
  {
    if from in m.dict then
      var to := m.dict[from];
      (dst.(refs := dst.refs[to := dst.refs[to] + 1]), m, to)
    else
      var (dst', to) := Take(dst).value;
      (dst', PutItem(m, from, to), to)
  }

  /** What finding a place for one block does to the destination and the mapping. */
  ghost predicate Placed<B>(s: State<B>, m: Mapping<B>, from: B, dst: Pool<B>, m': Mapping<B>, to: B) {
    && to in s.cpu.refs && Wf(dst) && dst.refs == s.cpu.refs[to := s.cpu.refs[to] + 1]
    && |dst.free| == |s.cpu.free| - Bit(from !in m.dict)
    && Extends(m.dict, m'.dict) && m'.dict.Keys == m.dict.Keys + {from} && m'.dict[from] == to
    && (from in m.dict ==> m'.dict == m.dict)
    && (from !in m.dict ==> s.cpu.refs[to] == 0)
    && MappingOk(s.gpu.refs.Keys, dst, m')
  }

  lemma PlaceMapped<B>(s: State<B>, m: Mapping<B>, from: B)
    requires Wf(s.cpu) && MappingOk(s.gpu.refs.Keys, s.cpu, m) && from in m.dict
    ensures var (dst, m', to) := Place(s.cpu, m, from);
            Placed(s, m, from, dst, m', to)
  {
  }

  lemma PlaceFresh<B>(s: State<B>, m: Mapping<B>, from: B)
    requires Wf(s.cpu) && MappingOk(s.gpu.refs.Keys, s.cpu, m) && from in s.gpu.refs
    requires from !in m.dict && s.cpu.free != []
    ensures var (dst, m', to) := Place(s.cpu, m, from);
            Placed(s, m, from, dst, m', to)
  {
    hide Wf, NoDup, Injective;
    TakeWf(s.cpu);
    var (dst, to) := Take(s.cpu).value;
    PutItemOk(s.gpu.refs.Keys, s.cpu, dst, m, from, to);
  }

  lemma PutItemOk<B>(src: set<B>, dst: Pool<B>, dst': Pool<B>, m: Mapping<B>, from: B, to: B)
    requires MappingOk(src, dst, m) && from !in m.dict && from in src
    requires to in dst.refs && dst.refs[to] == 0 && dst'.refs == dst.refs[to := 1]
    ensures MappingOk(src, dst', PutItem(m, from, to))
  {
  }

  /** The state after one round of the loop. */
  ghost function SwapOne<B>(s: State<B>, o: TableId, from: B, to: B, dst: Pool<B>, done: seq<B>, todo: seq<B>)
    : State<B>
    requires Release(s.gpu, from).Ok? && todo != []
  {
    State(Release(s.gpu, from).value, dst, s.tables[o := done + [to] + todo[1..]])
  }

  lemma SwapOneKeeps<B>(s: State<B>, o: TableId, m: Mapping<B>, done: seq<B>, todo: seq<B>,
                        dst: Pool<B>, m': Mapping<B>, to: B)
    requires InProgress(s, o, m, done, todo) && todo != []
    requires Placed(s, m, todo[0], dst, m', to)
    ensures Release(s.gpu, todo[0]).Ok?
    ensures var s' := SwapOne(s, o, todo[0], to, dst, done, todo);
            && InProgress(s', o, m', done + [to], todo[1..])
            && s'.gpu.refs.Keys == s.gpu.refs.Keys && s'.cpu == dst
  {
    var t := s.tables[o];
    assert t[|done|] == todo[0];
    assert to !in t by {
      if todo[0] in m.dict {
        assert to !in done;
      } else {
        FlipConserves(s);
        FreeBlockUnheld(Flip(s), to);
      }
    }
    assert t[|done| := to] == done + [to] + todo[1..];
    ReplaceConserves(s, o, |done|, to, dst);
    assert Avoids(m'.dict, done, todo[1..]) by {
      forall k | k in m'.dict && k in todo[1..]
        ensures m'.dict[k] !in done
      {
        var j :| 0 <= j < |todo[1..]| && todo[1..][j] == k;
        assert t[|done| + 1 + j] == k != todo[0];
      }
    }
    AvoidsStep(m'.dict, done, todo);
  }

  /** The mapping grew by exactly the blocks of `todo`, the new ones onto blocks that were free. */
  ghost predicate Grown<B>(dst: Pool<B>, d: map<B, B>, d': map<B, B>, todo: seq<B>) {
    && Extends(d, d')
    && (forall b :: b in todo ==> b in d')
    && (forall k :: k in d' && k !in d ==> k in todo && d'[k] in dst.refs && dst.refs[d'[k]] == 0)
  }

  lemma GrownStep<B>(s: State<B>, m: Mapping<B>, todo: seq<B>, dst: Pool<B>, m1: Mapping<B>, to: B, d': map<B, B>)
    requires todo != [] && Placed(s, m, todo[0], dst, m1, to)
    requires Grown(dst, m1.dict, d', todo[1..])
    ensures Grown(s.cpu, m.dict, d', todo)
  {
  }

  /** The state after swapping one table. */
  ghost predicate TableSwapped<B>(s: State<B>, final: State<B>, m': Mapping<B>, t: seq<B>) {
    && Conserved(final) && MappingOk(final.gpu.refs.Keys, final.cpu, m')
    && final.gpu.refs.Keys == s.gpu.refs.Keys && final.cpu.refs.Keys == s.cpu.refs.Keys
    && NoDup(t) && Resident(final.cpu, t)
  }

  /** What swapping the rest of table `o` does. */
  ghost predicate Moves<B>(s: State<B>, o: TableId, m: Mapping<B>, done: seq<B>, todo: seq<B>,
                           r: Result<(Pool<B>, Pool<B>, Mapping<B>, seq<B>)>) {
    && Maps(s.cpu, m, done, todo, r)
    && (r.Ok? ==> TableSwapped(s, State(r.value.0, r.value.1, s.tables[o := r.value.3]), r.value.2, r.value.3))
  }

  /** No reference count of the destination went down. */
  ghost predicate NotLess<B>(p: Pool<B>, q: Pool<B>) {
    forall b :: b in p.refs ==> b in q.refs && p.refs[b] <= q.refs[b]
  }

  ghost predicate Maps<B>(dst: Pool<B>, m: Mapping<B>, done: seq<B>, todo: seq<B>,
                          r: Result<(Pool<B>, Pool<B>, Mapping<B>, seq<B>)>) {
    var unmapped := Unmapped(m.dict.Keys, todo);
    if unmapped <= |dst.free| then
      && r.Ok?
      && Grown(dst, m.dict, r.value.2.dict, todo) && NotLess(dst, r.value.1)
      && r.value.3 == done + Apply(r.value.2.dict, todo)
      && |r.value.1.free| == |dst.free| - unmapped
    else r == Err(OutOfMemory)
  }

  /** Swapping a table succeeds exactly when there is a free block for each of its unmapped blocks. */
  lemma {:induction false} SwapTableMoves<B>(s: State<B>, o: TableId, m: Mapping<B>, done: seq<B>, todo: seq<B>)
    requires InProgress(s, o, m, done, todo)
    ensures Moves(s, o, m, done, todo, SwapTable(s.gpu, s.cpu, m, done, todo))
    decreases |todo|
  {
    hide Moves, Placed, Counted, Known, Wf, NoDup, Injective, Avoids;
    if todo == [] {
      SwapNothing(s, o, m, done);
    } else if todo[0] in m.dict || s.cpu.free != [] {
      if todo[0] in m.dict {
        PlaceMapped(s, m, todo[0]);
      } else {
        PlaceFresh(s, m, todo[0]);
      }
      var (dst, m1, to) := Place(s.cpu, m, todo[0]);
      SwapOneKeeps(s, o, m, done, todo, dst, m1, to);
      var s' := SwapOne(s, o, todo[0], to, dst, done, todo);
      SwapTableMoves(s', o, m1, done + [to], todo[1..]);
      var r := SwapTable(s'.gpu, s'.cpu, m1, done + [to], todo[1..]);
      SwapTableStep(s, s', o, m, done, todo, dst, m1, to, r);
    } else {
      SwapStuck(s, o, m, done, todo);
    }
  }

  lemma SwapStuck<B>(s: State<B>, o: TableId, m: Mapping<B>, done: seq<B>, todo: seq<B>)
    requires todo != [] && todo[0] !in m.dict && s.cpu.free == []
    ensures Moves(s, o, m, done, todo, Err(OutOfMemory))
  {
  }

  lemma SwapNothing<B>(s: State<B>, o: TableId, m: Mapping<B>, done: seq<B>)
    requires InProgress(s, o, m, done, [])
    ensures Moves(s, o, m, done, [], Ok((s.gpu, s.cpu, m, done)))
  {
    assert done + [] == done;
    assert s.tables[o := done] == s.tables;
    assert Apply(m.dict, []) == [];
  }

  lemma TableSwappedStep<B>(s: State<B>, s': State<B>, o: TableId, x: seq<B>,
                            src: Pool<B>, dst: Pool<B>, m': Mapping<B>, t: seq<B>)
    requires s'.tables == s.tables[o := x]
    requires s'.gpu.refs.Keys == s.gpu.refs.Keys && s'.cpu.refs.Keys == s.cpu.refs.Keys
    requires TableSwapped(s', State(src, dst, s'.tables[o := t]), m', t)
    ensures TableSwapped(s, State(src, dst, s.tables[o := t]), m', t)
  {
    assert s.tables[o := x][o := t] == s.tables[o := t];
  }

  lemma SwapTableStep<B>(s: State<B>, s': State<B>, o: TableId, m: Mapping<B>, done: seq<B>, todo: seq<B>,
                         dst: Pool<B>, m1: Mapping<B>, to: B,
                         r: Result<(Pool<B>, Pool<B>, Mapping<B>, seq<B>)>)
    requires todo != [] && Placed(s, m, todo[0], dst, m1, to)
    requires s'.cpu == dst && s'.tables == s.tables[o := done + [to] + todo[1..]]
    requires s'.gpu.refs.Keys == s.gpu.refs.Keys
    requires Moves(s', o, m1, done + [to], todo[1..], r)
    ensures Moves(s, o, m, done, todo, r)
  {
    hide Maps, TableSwapped, Injective, Wf;
    MapsStep(s, m, done, todo, dst, m1, to, r);
    if r.Ok? {
      TableSwappedStep(s, s', o, done + [to] + todo[1..], r.value.0, r.value.1, r.value.2, r.value.3);
    }
  }

  lemma MapsStep<B>(s: State<B>, m: Mapping<B>, done: seq<B>, todo: seq<B>, dst: Pool<B>, m1: Mapping<B>, to: B,
                    r: Result<(Pool<B>, Pool<B>, Mapping<B>, seq<B>)>)
    requires todo != [] && Placed(s, m, todo[0], dst, m1, to)
    requires Maps(dst, m1, done + [to], todo[1..], r)
    ensures Maps(s.cpu, m, done, todo, r)
  {
    if r.Ok? {
      GrownStep(s, m, todo, dst, m1, to, r.value.2.dict);
      ApplyCons(r.value.2.dict, todo);
    }
  }

  lemma ApplyCons<B>(d: map<B, B>, t: seq<B>)
    requires t != []
    ensures Apply(d, t) == [Image(d, t[0])] + Apply(d, t[1..])
  {
  }

  lemma {:induction false} UnmappedIsCardinality<B>(mapped: set<B>, todo: seq<B>)
    ensures Unmapped(mapped, todo) == |Elems(todo) - mapped|
    decreases |todo|
  {
    if todo == [] {
      assert Elems(todo) - mapped == {};
    } else {
      assert todo == [todo[0]] + todo[1..];
      assert Elems(todo) == {todo[0]} + Elems(todo[1..]);
      UnmappedIsCardinality(mapped + {todo[0]}, todo[1..]);
      if todo[0] in mapped {
        assert Elems(todo[1..]) - (mapped + {todo[0]}) == Elems(todo) - mapped;
      } else {
        assert Elems(todo[1..]) - (mapped + {todo[0]}) == Elems(todo) - mapped - {todo[0]};
      }
    }
  }

  // ----- a whole group

  /** The blocks of the given tables, one table after the other. */
  ghost function Together<B>(tables: map<TableId, seq<B>>, owners: seq<TableId>): seq<B> {
    if owners == [] then [] else TableOf(tables, owners[0]) + Together(tables, owners[1..])
  }

  /** Distinct tables that lie on the source device. */
  ghost predicate Swappable<B>(s: State<B>, owners: seq<TableId>) {
    && NoDup(owners)
    && (forall o :: o in owners ==> o in s.tables && NoDup(s.tables[o]) && Resident(s.gpu, s.tables[o]))
  }

  ghost predicate GroupMaps<B>(dst: Pool<B>, m: Mapping<B>, todo: seq<B>,
                               r: Result<(Pool<B>, Pool<B>, map<TableId, seq<B>>, Mapping<B>)>) {
    var unmapped := Unmapped(m.dict.Keys, todo);
    if unmapped <= |dst.free| then
      && r.Ok?
      && Grown(dst, m.dict, r.value.3.dict, todo) && NotLess(dst, r.value.1)
      && |r.value.1.free| == |dst.free| - unmapped
    else r == Err(OutOfMemory)
  }

  /** Every moved table is the image of the old one; the others are as before. */
  ghost predicate TablesMapped<B>(tables: map<TableId, seq<B>>, tables': map<TableId, seq<B>>,
                                  owners: seq<TableId>, d: map<B, B>) {
    && tables'.Keys == tables.Keys
    && (forall o :: o in tables ==> tables'[o] == if o in owners then Apply(d, tables[o]) else tables[o])
  }

  ghost predicate GroupSwapped<B>(s: State<B>, owners: seq<TableId>, final: State<B>, m': Mapping<B>) {
    && Conserved(final) && MappingOk(final.gpu.refs.Keys, final.cpu, m')
    && final.gpu.refs.Keys == s.gpu.refs.Keys && final.cpu.refs.Keys == s.cpu.refs.Keys
    && TablesMapped(s.tables, final.tables, owners, m'.dict)
    && (forall o :: o in owners ==> o in final.tables && NoDup(final.tables[o]) && Resident(final.cpu, final.tables[o]))
  }

  ghost predicate GroupMoves<B>(s: State<B>, m: Mapping<B>, owners: seq<TableId>,
                                r: Result<(Pool<B>, Pool<B>, map<TableId, seq<B>>, Mapping<B>)>) {
    && GroupMaps(s.cpu, m, Together(s.tables, owners), r)
    && (r.Ok? ==> GroupSwapped(s, owners, State(r.value.0, r.value.1, r.value.2), r.value.3))
  }

  lemma {:induction false} SwapTablesMoves<B>(s: State<B>, m: Mapping<B>, owners: seq<TableId>)
    requires Conserved(s) && MappingOk(s.gpu.refs.Keys, s.cpu, m) && Swappable(s, owners)
    ensures GroupMoves(s, m, owners, SwapTables(s.gpu, s.cpu, s.tables, m, owners))
    decreases |owners|
  {
    if owners == [] {
      GroupDone(s, m);
    } else {
      var o := owners[0];
      StartSwap(s, m, owners);
      SwapTableMoves(s, o, m, [], s.tables[o]);
      var r1 := SwapTable(s.gpu, s.cpu, m, [], s.tables[o]);
      if r1.Ok? {
        var s1 := State(r1.value.0, r1.value.1, s.tables[o := r1.value.3]);
        SwappableRest(s, s1, owners, r1.value.3);
        SwapTablesMoves(s1, r1.value.2, owners[1..]);
        GroupStep(s, m, owners, s1, r1, SwapTables(s1.gpu, s1.cpu, s1.tables, r1.value.2, owners[1..]));
      } else {
        UnmappedConcat(m.dict.Keys, s.tables[o], Together(s.tables, owners[1..]));
      }
    }
  }

  lemma GroupDone<B>(s: State<B>, m: Mapping<B>)
    requires Conserved(s) && MappingOk(s.gpu.refs.Keys, s.cpu, m)
    ensures GroupMoves(s, m, [], Ok((s.gpu, s.cpu, s.tables, m)))
  {
  }

  lemma StartSwap<B>(s: State<B>, m: Mapping<B>, owners: seq<TableId>)
    requires Conserved(s) && MappingOk(s.gpu.refs.Keys, s.cpu, m) && Swappable(s, owners) && owners != []
    ensures InProgress(s, owners[0], m, [], s.tables[owners[0]])
  {
  }

  lemma SwappableRest<B>(s: State<B>, s1: State<B>, owners: seq<TableId>, t: seq<B>)
    requires owners != [] && Swappable(s, owners)
    requires s1.tables == s.tables[owners[0] := t] && s1.gpu.refs.Keys == s.gpu.refs.Keys
    ensures Swappable(s1, owners[1..])
    ensures Together(s1.tables, owners[1..]) == Together(s.tables, owners[1..])
  {
    forall o | o in owners[1..]
      ensures o in s1.tables && NoDup(s1.tables[o]) && Resident(s1.gpu, s1.tables[o])
    {
      assert o in owners && o != owners[0];
      assert s1.tables[o] == s.tables[o];
    }
    TogetherFrame(s.tables, s1.tables, owners[1..]);
  }

  lemma {:induction false} TogetherFrame<B>(tables: map<TableId, seq<B>>, tables': map<TableId, seq<B>>,
                                            owners: seq<TableId>)
    requires forall o :: o in owners ==> TableOf(tables, o) == TableOf(tables', o)
    ensures Together(tables, owners) == Together(tables', owners)
    decreases |owners|
  {
    if owners != [] {
      TogetherFrame(tables, tables', owners[1..]);
    }
  }

  lemma {:induction false} UnmappedConcat<B>(mapped: set<B>, a: seq<B>, b: seq<B>)
    ensures Unmapped(mapped, a + b) == Unmapped(mapped, a) + Unmapped(mapped + Elems(a), b)
    decreases |a|
  {
    if a == [] {
      assert a + b == b;
      assert mapped + Elems(a) == mapped;
    } else {
      assert (a + b)[1..] == a[1..] + b;
      assert a == [a[0]] + a[1..];
      assert mapped + {a[0]} + Elems(a[1..]) == mapped + Elems(a);
      UnmappedConcat(mapped + {a[0]}, a[1..], b);
    }
  }

  lemma GroupStep<B>(s: State<B>, m: Mapping<B>, owners: seq<TableId>, s1: State<B>,
                     r1: Result<(Pool<B>, Pool<B>, Mapping<B>, seq<B>)>,
                     r: Result<(Pool<B>, Pool<B>, map<TableId, seq<B>>, Mapping<B>)>)
    requires owners != [] && Swappable(s, owners) && r1.Ok?
    requires s1 == State(r1.value.0, r1.value.1, s.tables[owners[0] := r1.value.3])
    requires Moves(s, owners[0], m, [], s.tables[owners[0]], r1)
    requires Together(s1.tables, owners[1..]) == Together(s.tables, owners[1..])
    requires GroupMoves(s1, r1.value.2, owners[1..], r)
    ensures GroupMoves(s, m, owners, r)
  {
    GroupMapsStep(s, m, s.tables[owners[0]], Together(s.tables, owners[1..]), r1, r);
    if r.Ok? {
      GroupSwappedStep(s, owners, s1, r1.value.2, r1.value.3, State(r.value.0, r.value.1, r.value.2), r.value.3);
    }
  }

  lemma GroupMapsStep<B>(s: State<B>, m: Mapping<B>, t: seq<B>, rest: seq<B>,
                         r1: Result<(Pool<B>, Pool<B>, Mapping<B>, seq<B>)>,
                         r: Result<(Pool<B>, Pool<B>, map<TableId, seq<B>>, Mapping<B>)>)
    requires r1.Ok? && Maps(s.cpu, m, [], t, r1)
    requires GroupMaps(r1.value.1, r1.value.2, rest, r)
    requires r1.value.1.refs.Keys == s.cpu.refs.Keys
    ensures GroupMaps(s.cpu, m, t + rest, r)
  {
    UnmappedConcat(m.dict.Keys, t, rest);
    var d1 := r1.value.2.dict;
    assert d1.Keys == m.dict.Keys + Elems(t);
  }

  lemma GroupSwappedStep<B>(s: State<B>, owners: seq<TableId>, s1: State<B>, m1: Mapping<B>, t: seq<B>,
                            final: State<B>, m': Mapping<B>)
    requires owners != [] && Swappable(s, owners)
    requires s1.tables == s.tables[owners[0] := t]
    requires s1.gpu.refs.Keys == s.gpu.refs.Keys && s1.cpu.refs.Keys == s.cpu.refs.Keys
    requires t == Apply(m1.dict, s.tables[owners[0]]) && NoDup(t) && Resident(s1.cpu, t)
    requires forall b :: b in s.tables[owners[0]] ==> b in m1.dict
    requires Extends(m1.dict, m'.dict)
    requires GroupSwapped(s1, owners[1..], final, m')
    ensures GroupSwapped(s, owners, final, m')
  {
    assert Resident(final.cpu, t);
    hide Conserved, MappingOk, NoDup, Resident;
    var o := owners[0];
    NoDupHead(owners);
    assert t == Apply(m'.dict, s.tables[o]);
    assert final.tables[o] == t;
  }

  // ----- the returned pairs

  ghost function DictOf<B>(items: seq<(B, B)>): map<B, B> {
    if items == [] then map[] else DictOf(items[..|items| - 1])[items[|items| - 1].0 := items[|items| - 1].1]
  }

  ghost predicate DistinctKeys<B>(items: seq<(B, B)>) {
    forall i, j :: 0 <= i < j < |items| ==> items[i].0 != items[j].0
  }

  /** The items list the dictionary, each key once. */
  ghost predicate Listed<B>(m: Mapping<B>) {
    m.dict == DictOf(m.items) && DistinctKeys(m.items)
  }

  lemma {:induction false} DictOfItem<B>(items: seq<(B, B)>, i: nat)
    requires DistinctKeys(items) && i < |items|
    ensures items[i].0 in DictOf(items) && DictOf(items)[items[i].0] == items[i].1
    decreases |items|
  {
    if i < |items| - 1 {
      DictOfItem(items[..|items| - 1], i);
    }
  }

  lemma {:induction false} DictOfKey<B>(items: seq<(B, B)>, k: B) returns (i: nat)
    requires k in DictOf(items)
    ensures i < |items| && items[i].0 == k
    decreases |items|
  {
    if items[|items| - 1].0 == k {
      i := |items| - 1;
    } else {
      i := DictOfKey(items[..|items| - 1], k);
    }
  }

  lemma PutListed<B>(m: Mapping<B>, k: B, v: B)
    requires Listed(m) && k !in m.dict
    ensures Listed(PutItem(m, k, v))
  {
    var items := m.items + [(k, v)];
    assert items[..|items| - 1] == m.items;
    forall i | 0 <= i < |m.items|
      ensures m.items[i].0 != k
    {
      DictOfItem(m.items, i);
    }
  }

  lemma {:induction false} SwapTableListed<B>(src: Pool<B>, dst: Pool<B>, m: Mapping<B>, done: seq<B>, todo: seq<B>)
    requires Listed(m)
    ensures var r := SwapTable(src, dst, m, done, todo);
            r.Ok? ==> Listed(r.value.2)
    decreases |todo|
  {
    hide Listed, Take, Release;
    if todo != [] && Release(src, todo[0]).Ok? {
      var src' := Release(src, todo[0]).value;
      if todo[0] in m.dict {
        var to := m.dict[todo[0]];
        if to in dst.refs {
          SwapTableListed(src', dst.(refs := dst.refs[to := dst.refs[to] + 1]), m, done + [to], todo[1..]);
        }
      } else if Take(dst).Ok? {
        var (dst', to) := Take(dst).value;
        PutListed(m, todo[0], to);
        SwapTableListed(src', dst', PutItem(m, todo[0], to), done + [to], todo[1..]);
      }
    }
  }

  lemma {:induction false} SwapTablesListed<B>(src: Pool<B>, dst: Pool<B>, tables: map<TableId, seq<B>>,
                                               m: Mapping<B>, owners: seq<TableId>)
    requires Listed(m)
    ensures var r := SwapTables(src, dst, tables, m, owners);
            r.Ok? ==> Listed(r.value.3)
    decreases |owners|
  {
    hide Listed, SwapTable;
    if owners != [] && owners[0] in tables {
      var r := SwapTable(src, dst, m, [], tables[owners[0]]);
      SwapTableListed(src, dst, m, [], tables[owners[0]]);
      if r.Ok? {
        var (src', dst', m', t) := r.value;
        SwapTablesListed(src', dst', tables[owners[0] := t], m', owners[1..]);
      }
    }
  }

  ghost function NoMapping<B>(): Mapping<B> {
    Mapping(map[], [])
  }

  /** The swap of a group, from an empty mapping. */
  lemma SwapGroupMoves<B>(s: State<B>, owners: seq<TableId>)
    requires Conserved(s) && Swappable(s, owners)
    ensures var r := SwapTables(s.gpu, s.cpu, s.tables, NoMapping(), owners);
            && GroupMoves(s, NoMapping(), owners, r)
            && (r.Ok? ==> Listed(r.value.3))
            && (r.Ok? <==> |Elems(Together(s.tables, owners))| <= |s.cpu.free|)
            && (r.Ok? ==> |r.value.1.free| == |s.cpu.free| - |Elems(Together(s.tables, owners))|)
  {
    hide Conserved, Swappable, GroupSwapped, Listed, Grown;
    assert Listed<B>(NoMapping()) by { EmptyListed<B>(); }
    SwapTablesListed(s.gpu, s.cpu, s.tables, NoMapping(), owners);
    SwapTablesMoves(s, NoMapping(), owners);
    UnmappedIsCardinality(NoMapping<B>().dict.Keys, Together(s.tables, owners));
    assert Elems(Together(s.tables, owners)) - NoMapping<B>().dict.Keys == Elems(Together(s.tables, owners));
  }

  lemma EmptyListed<B>()
    ensures Listed<B>(NoMapping())
  {
  }
}
