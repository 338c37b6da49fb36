/** The free-list allocator of one device. */
module UncachedAllocator {
  import opened Wrappers
  import opened Holding

  /** The state of one allocator: its free list (a stack) and the reference count of each of its blocks. */
  datatype Pool<B> = Pool(free: seq<B>, refs: map<B, nat>)

  function Take<B(==)>(p: Pool<B>): Result<(Pool<B>, B)> {
    if p.free == [] then Err(OutOfMemory)
    else
      var b := p.free[|p.free| - 1];
      Ok((Pool(p.free[..|p.free| - 1], p.refs[b := 1]), b))
  }

  /** Returns one reference. A block of another allocator counts as already freed. */
  function Release<B(==)>(p: Pool<B>, b: B): Result<Pool<B>> {
    if b !in p.refs || p.refs[b] == 0 then Err(DoubleFree)
    else if p.refs[b] == 1 then Ok(Pool(p.free + [b], p.refs[b := 0]))
    else Ok(p.(refs := p.refs[b := p.refs[b] - 1]))
  }

  /** The free list holds each block of reference count zero, once. */
  ghost predicate Wf<B>(p: Pool<B>) {
    && NoDup(p.free)
    && (forall b :: b in p.free ==> b in p.refs && p.refs[b] == 0)
    && (forall b :: b in p.refs && p.refs[b] == 0 ==> b in p.free)
  }

  /** Every reference count is the number of tables holding the block. */
  ghost predicate Counted<K, B>(p: Pool<B>, tables: map<K, seq<B>>) {
    forall b :: b in p.refs ==> p.refs[b] == |Holders(tables, b)|
  }

  ghost function Held<K, B>(p: Pool<B>, tables: map<K, seq<B>>): set<B> {
    set b | b in p.refs && Holders(tables, b) != {}
  }

  /** The reported number of free blocks is the total minus the distinct blocks held by some table. */
  lemma FreeCount<K, B>(p: Pool<B>, tables: map<K, seq<B>>)
    requires Wf(p) && Counted(p, tables)
    ensures |p.free| == |p.refs| - |Held(p, tables)|
  {
    ElemsCardinality(p.free);
    assert Elems(p.free) == p.refs.Keys - Held(p, tables);
    assert Held(p, tables) <= p.refs.Keys;
  }

  /** The block that was freed last is the first to be taken again, and taking it undoes the release. */
  lemma LastFreedFirst<B>(p: Pool<B>, b: B)
    requires b in p.refs && p.refs[b] == 1
    ensures Release(p, b).Ok? && Take(Release(p, b).value) == Ok((p, b))
  {
    var q := Release(p, b).value;
    assert q.free[..|q.free| - 1] == p.free;
    assert q.refs[b := 1] == p.refs;
  }

  lemma TakeWf<B>(p: Pool<B>)
    requires Wf(p) && p.free != []
    ensures Wf(Take(p).value.0)
    ensures p.refs[Take(p).value.1] == 0
    ensures Take(p).value.0.refs.Keys == p.refs.Keys
  {
  }

  lemma ReleaseWf<B>(p: Pool<B>, b: B)
    requires Wf(p) && b in p.refs && p.refs[b] > 0
    ensures Release(p, b).Ok? && Wf(Release(p, b).value)
    ensures Release(p, b).value.refs == p.refs[b := p.refs[b] - 1]
  {
  }
}
