/** The content-addressed allocator of one device. */
module CachedAllocator {
  import opened Wrappers
  import opened Holding
  import opened Evictor
  import opened OrderedDict

  /**
   * `all` lists the blocks by block number; those below `current` have been created and have
   * fields in `info`. `cached` maps hashes to blocks in use, `table` is the evictor.
   */
  datatype CPool<B> = CPool(all: seq<B>, current: nat, info: map<B, Info>, cached: map<Key, B>, table: FreeTable<B>,
    ctr: nat)

  const DEFAULT_LAST_ACCESSED_TIME: real := -1.0

  function NumFree<B>(p: CPool<B>): int {
    |p.all| - p.current + |p.table|
  }

  predicate Contains<B>(p: CPool<B>, k: Key) {
    k in p.cached || Has(p.table, k)
  }

  function Bump<B>(p: CPool<B>, b: B): Result<(CPool<B>, B)> {
    if b !in p.info then Err(KeyError)
    else Ok((p.(info := p.info[b := p.info[b].(refs := p.info[b].refs + 1)]), b))
  }

  /** A block for a hash that no block has: a new one, or one evicted from the free table. */
  function AllocateBlock<B(==)>(p: CPool<B>, k: Key, numHashed: nat): Result<(CPool<B>, B)> {
    if p.current < |p.all| then
      var b := p.all[p.current];
      Ok((p.(current := p.current + 1, info := p.info[b := Info(k, 0, numHashed, DEFAULT_LAST_ACCESSED_TIME)]), b))
    else if p.table == [] then Err(OutOfMemory)
    else if exists i :: 0 <= i < |p.table| && p.table[i].1 !in p.info then Err(KeyError)
    else
      var i := Victim(p.table, p.info);
      var b := p.table[i].1;
      Ok((p.(table := Without(p.table, i), info := p.info[b := p.info[b].(key := k, numHashed := numHashed)]), b))
  }

  function AcquireKey<B(==)>(p: CPool<B>, k: Key, numHashed: nat): Result<(CPool<B>, B)> {
    if Has(p.table, k) then
      var i := IndexOf(p.table, k);
      var b := p.table[i].1;
      if k in p.cached || b !in p.info || p.info[b].refs != 0 || p.info[b].key != k then Err(AssertionFailed)
      else Bump(p.(table := Without(p.table, i), cached := p.cached[k := b]), b)
    else if k in p.cached then
      var b := p.cached[k];
      if b !in p.info || p.info[b].key != k then Err(AssertionFailed) else Bump(p, b)
    else
      var (q, b) :- AllocateBlock(p, k, numHashed);
      Bump(q.(cached := q.cached[k := b]), b)
  }

  /** `allocate`: without a hash the block gets the next value of the default counter. */
  function Acquire<B(==)>(p: CPool<B>, want: Option<Key>, numHashed: nat): Result<(CPool<B>, B)> {
    match want
    case None => AcquireKey(p.(ctr := p.ctr + 1), Counter(p.ctr), numHashed)
    case Some(k) => AcquireKey(p, k, numHashed)
  }

  function Release<B(==)>(p: CPool<B>, b: B): Result<CPool<B>> {
    if b !in p.info || p.info[b].refs == 0 then Err(DoubleFree)
    else
      var q := p.(info := p.info[b := p.info[b].(refs := p.info[b].refs - 1)]);
      var k := p.info[b].key;
      if p.info[b].refs > 1 then Ok(q)
      else if Has(p.table, k) then Err(AssertionFailed)
      else if k !in p.cached then Err(KeyError)
      else Ok(q.(table := Put(p.table, k, b), cached := p.cached - {k}))
  }

  function UpdateHash<B(==)>(p: CPool<B>, k: Key, b: B): Result<CPool<B>> {
    if Contains(p, k) then Err(AssertionFailed)
    else if b !in p.info || p.info[b].key !in p.cached then Err(KeyError)
    else Ok(p.(info := p.info[b := p.info[b].(key := k)], cached := (p.cached - {p.info[b].key})[k := b]))
  }

  // ----- the invariant

  /** The created blocks are the first ones; counter hashes are behind the counter. */
  ghost predicate Keyed<B>(p: CPool<B>) {
    && p.current <= |p.all| && NoDup(p.all)
    && (forall i :: 0 <= i < |p.all| ==> (p.all[i] in p.info <==> i < p.current))
    && (forall b :: b in p.info ==> b in p.all && (p.info[b].key.Counter? ==> p.info[b].key.n < p.ctr))
  }

  /** `cached` holds exactly the blocks in use, under their own hashes. */
  ghost predicate CachedOk<B>(p: CPool<B>) {
    && (forall k :: k in p.cached ==>
          p.cached[k] in p.info && p.info[p.cached[k]].key == k && p.info[p.cached[k]].refs > 0)
    && (forall b :: b in p.info && p.info[b].refs > 0 ==> p.info[b].key in p.cached && p.cached[p.info[b].key] == b)
  }

  /**
   * The evictor holds exactly the created blocks that are not in use, under their own hashes,
   * which differ from each other and from those of the blocks in use.
   */
  ghost predicate TableOk<B>(p: CPool<B>) {
    && (forall i :: 0 <= i < |p.table| ==> && p.table[i].1 in p.info && p.info[p.table[i].1].key == p.table[i].0
                                           && p.info[p.table[i].1].refs == 0 && p.table[i].0 !in p.cached)
    && (forall i, j :: 0 <= i < j < |p.table| ==> p.table[i].0 != p.table[j].0)
    && (forall b :: b in p.info && p.info[b].refs == 0 ==> (p.info[b].key, b) in p.table)
  }

  ghost predicate PoolOk<B>(p: CPool<B>) {
    Keyed(p) && CachedOk(p) && TableOk(p)
  }

  function Refs<B>(p: CPool<B>, b: B): nat {
    if b in p.info then p.info[b].refs else 0
  }

  /** No two created blocks have the same hash. */
  lemma HashesDistinct<B>(p: CPool<B>, b: B, b': B)
    requires PoolOk(p) && b in p.info && b' in p.info && p.info[b].key == p.info[b'].key
    ensures b == b'
  {
  }

  /** Blocks held, and the reported free count as total minus held. */
  ghost predicate Counted<K, B>(p: CPool<B>, tables: map<K, seq<B>>) {
    forall b :: b in p.all ==> Refs(p, b) == |Holders(tables, b)|
  }

  ghost function Held<K, B>(p: CPool<B>, tables: map<K, seq<B>>): set<B> {
    set b | b in p.all && Holders(tables, b) != {}
  }

  lemma FreeCount<K, B>(p: CPool<B>, tables: map<K, seq<B>>)
    requires PoolOk(p) && Counted(p, tables)
    ensures NumFree(p) == |p.all| - |Held(p, tables)|
  {
    var freed := Freed(p);
    var created := p.all[..p.current];
    ElemsCardinality(freed);
    ElemsCardinality(created);
    CreatedSplit(p, tables);
  }

  ghost function Freed<B>(p: CPool<B>): (r: seq<B>)
    requires TableOk(p)
    ensures NoDup(r) && |r| == |p.table|
  {
    seq(|p.table|, i requires 0 <= i < |p.table| => p.table[i].1)
  }

  lemma CreatedSplit<K, B>(p: CPool<B>, tables: map<K, seq<B>>)
    requires PoolOk(p) && Counted(p, tables)
    ensures Elems(p.all[..p.current]) == Elems(Freed(p)) + Held(p, tables)
    ensures Elems(Freed(p)) !! Held(p, tables)
  {
    hide CachedOk;
    var created := p.all[..p.current];
    forall b | b in created
      ensures b in Freed(p) || b in Held(p, tables)
    {
      var k :| 0 <= k < |created| && created[k] == b;
      assert p.all[k] == b && b in p.all;
      if p.info[b].refs == 0 {
        var i :| 0 <= i < |p.table| && p.table[i] == (p.info[b].key, b);
        assert Freed(p)[i] == b;
      }
    }
    forall b | b in Held(p, tables)
      ensures b in created && b !in Freed(p)
    {
      assert Refs(p, b) > 0;
      var k :| 0 <= k < |p.all| && p.all[k] == b;
      assert created[k] == b;
    }
    forall b | b in Freed(p)
      ensures b in created
    {
      var i :| 0 <= i < |p.table| && Freed(p)[i] == b;
      var k :| 0 <= k < |p.all| && p.all[k] == b;
      assert created[k] == b;
    }
  }

  // ----- what the operations keep

  /** Other blocks keep all their fields. */
  ghost predicate OthersKept<B>(p: CPool<B>, q: CPool<B>, b: B) {
    && q.all == p.all
    && (forall x :: x in p.info && x != b ==> x in q.info && q.info[x] == p.info[x])
    && (forall x :: x in q.info && x != b ==> x in p.info)
  }

  /** What `allocate` did: the block with that hash if there was one, else a block nobody used. */
  ghost predicate Acquired<B>(p: CPool<B>, k: Key, numHashed: nat, q: CPool<B>, b: B) {
    && PoolOk(q) && OthersKept(p, q, b)
    && b in q.info && q.info[b].key == k && q.info[b].refs == Refs(p, b) + 1
    && NumFree(q) == NumFree(p) - Bit(Refs(p, b) == 0)
    && (if Contains(p, k) then b in p.info && p.info[b].key == k && q.info[b].numHashed == p.info[b].numHashed
        else Refs(p, b) == 0 && q.info[b].numHashed == numHashed)
  }

  lemma AcquireKeyKeeps<B>(p: CPool<B>, k: Key, numHashed: nat)
    requires PoolOk(p) && (k.Counter? ==> k.n < p.ctr)
    ensures var r := AcquireKey(p, k, numHashed);
            if r.Ok? then Acquired(p, k, numHashed, r.value.0, r.value.1)
            else r == Err(OutOfMemory) && NumFree(p) == 0
  {
    hide PoolOk, AllocateBlock, Acquired, Bump;
    if Has(p.table, k) {
      TakeBackKeeps(p, k);
    } else if k in p.cached {
      HitKeeps(p, k);
    } else {
      NewBlockKeeps(p, k, numHashed);
    }
  }

  lemma TakeBackKeeps<B>(p: CPool<B>, k: Key)
    requires PoolOk(p) && Has(p.table, k)
    ensures var i := IndexOf(p.table, k);
            var b := p.table[i].1;
            && k !in p.cached && b in p.info && p.info[b].refs == 0 && p.info[b].key == k
            && var r := Bump(p.(table := Without(p.table, i), cached := p.cached[k := b]), b);
            r.Ok? && (forall n: nat :: Acquired(p, k, n, r.value.0, r.value.1))
  {
    hide IndexOf, Keyed, CachedOk;
    var i := IndexOf(p.table, k);
    var b := p.table[i].1;
    var q := Bump(p.(table := Without(p.table, i), cached := p.cached[k := b]), b).value.0;
    assert Used(p, q, b, k);
    UseKeyed(p, q, b);
    UseCached(p, q, b, k);
    TableWithout(p, i, q);
  }

  /** The block `b` got hash `k` and one more reference; its table entry, if any, is gone. */
  ghost predicate Used<B>(p: CPool<B>, q: CPool<B>, b: B, k: Key) {
    && OthersKept(p, q, b) && b in q.info && q.info[b].key == k && q.info[b].refs == Refs(p, b) + 1
    && q.cached == p.cached[k := b]
  }

  lemma UseKeyed<B>(p: CPool<B>, q: CPool<B>, b: B)
    requires Keyed(p) && OthersKept(p, q, b) && b in p.info && b in q.info && q.current == p.current && q.ctr == p.ctr
    requires q.info[b].key == p.info[b].key || (q.info[b].key.Counter? ==> q.info[b].key.n < q.ctr)
    ensures Keyed(q)
  {
  }

  lemma CreateKeyed<B>(p: CPool<B>, q: CPool<B>, b: B)
    requires Keyed(p) && OthersKept(p, q, b) && b in q.info && q.ctr == p.ctr
    requires p.current < |p.all| && b == p.all[p.current] && q.current == p.current + 1
    requires q.info[b].key.Counter? ==> q.info[b].key.n < q.ctr
    ensures Keyed(q) && b !in p.info
  {
  }

  lemma UseCached<B>(p: CPool<B>, q: CPool<B>, b: B, k: Key)
    requires CachedOk(p) && Used(p, q, b, k)
    requires k in p.cached ==> p.cached[k] == b
    requires b in p.info && p.info[b].refs > 0 ==> p.info[b].key == k
    ensures CachedOk(q)
  {
  }

  /** The evictor without one entry, whose block is now in use. */
  lemma TableWithout<B>(p: CPool<B>, i: nat, q: CPool<B>)
    requires TableOk(p) && i < |p.table| && q.table == Without(p.table, i)
    requires OthersKept(p, q, p.table[i].1) && p.table[i].1 in q.info && q.info[p.table[i].1].refs > 0
    requires q.cached == p.cached[q.info[p.table[i].1].key := p.table[i].1]
    requires forall j :: 0 <= j < |p.table| && j != i ==> p.table[j].0 != q.info[p.table[i].1].key
    ensures TableOk(q)
  {
    WithoutEntries(p, i, q);
    WithoutListed(p, i, q);
  }

  lemma WithoutEntries<B>(p: CPool<B>, i: nat, q: CPool<B>)
    requires TableOk(p) && i < |p.table| && q.table == Without(p.table, i)
    requires OthersKept(p, q, p.table[i].1) && p.table[i].1 in q.info
    requires q.cached == p.cached[q.info[p.table[i].1].key := p.table[i].1]
    requires forall j :: 0 <= j < |p.table| && j != i ==> p.table[j].0 != q.info[p.table[i].1].key
    ensures forall j :: 0 <= j < |q.table| ==> && q.table[j].1 in q.info && q.info[q.table[j].1].key == q.table[j].0
                                               && q.info[q.table[j].1].refs == 0 && q.table[j].0 !in q.cached
    ensures forall j, l :: 0 <= j < l < |q.table| ==> q.table[j].0 != q.table[l].0
  {
  }

  lemma WithoutListed<B>(p: CPool<B>, i: nat, q: CPool<B>)
    requires forall b :: b in p.info && p.info[b].refs == 0 ==> (p.info[b].key, b) in p.table
    requires i < |p.table| && q.table == Without(p.table, i)
    requires OthersKept(p, q, p.table[i].1) && p.table[i].1 in q.info && q.info[p.table[i].1].refs > 0
    ensures forall b :: b in q.info && q.info[b].refs == 0 ==> (q.info[b].key, b) in q.table
  {
  }

  lemma PoolParts<B>(p: CPool<B>)
    requires PoolOk(p)
    ensures Keyed(p) && CachedOk(p) && TableOk(p)
  {
  }

  lemma AllOk<B>(p: CPool<B>)
    requires Keyed(p) && CachedOk(p) && TableOk(p)
    ensures PoolOk(p)
  {
  }

  lemma CachedEntry<B>(p: CPool<B>, k: Key)
    requires CachedOk(p) && k in p.cached
    ensures var b := p.cached[k];
            b in p.info && p.info[b].key == k && p.info[b].refs > 0
  {
  }

  lemma HitKeeps<B>(p: CPool<B>, k: Key)
    requires PoolOk(p) && k in p.cached && !Has(p.table, k)
    ensures var b := p.cached[k];
            && b in p.info && p.info[b].key == k
            && var r := Bump(p, b);
            r.Ok? && (forall n: nat :: Acquired(p, k, n, r.value.0, r.value.1))
  {
    hide PoolOk, Keyed, CachedOk, TableOk, Has;
    PoolParts(p);
    CachedEntry(p, k);
    var b := p.cached[k];
    var q := Bump(p, b).value.0;
    assert p.cached[k := b] == p.cached;
    UseKeyed(p, q, b);
    UseCached(p, q, b, k);
    SameTable(p, q, b);
    AllOk(q);
  }

  lemma SameTable<B>(p: CPool<B>, q: CPool<B>, b: B)
    requires TableOk(p) && OthersKept(p, q, b) && q.table == p.table
    requires b in q.info && q.info[b].refs > 0 && Refs(p, b) == 0 ==> b !in p.info
    requires b in q.info ==> q.info[b].refs > 0
    requires b in p.info ==> p.info[b].refs > 0
    requires forall k :: k in q.cached && k !in p.cached ==> !Has(p.table, k)
    ensures TableOk(q)
  {
  }

  lemma NewBlockKeeps<B>(p: CPool<B>, k: Key, numHashed: nat)
    requires PoolOk(p) && !Contains(p, k) && (k.Counter? ==> k.n < p.ctr)
    ensures var r := AllocateBlock(p, k, numHashed);
            if r.Ok? then
              && r.value.1 in r.value.0.info
              && var s := Bump(r.value.0.(cached := r.value.0.cached[k := r.value.1]), r.value.1);
              && s.Ok? && Acquired(p, k, numHashed, s.value.0, s.value.1)
            else r == Err(OutOfMemory) && NumFree(p) == 0
  {
    if p.current < |p.all| {
      CreateKeeps(p, k, numHashed);
    } else if p.table != [] {
      EvictKeeps(p, k, numHashed);
    }
  }

  lemma CreateKeeps<B>(p: CPool<B>, k: Key, numHashed: nat)
    requires PoolOk(p) && !Contains(p, k) && (k.Counter? ==> k.n < p.ctr) && p.current < |p.all|
    ensures var (q, b) := AllocateBlock(p, k, numHashed).value;
            && b in q.info
            && Acquired(p, k, numHashed, Bump(q.(cached := q.cached[k := b]), b).value.0, b)
  {
    assert p.all[p.current] !in p.info by { hide CachedOk, TableOk; }
    hide Keyed, CachedOk, TableOk;
    var (q0, b) := AllocateBlock(p, k, numHashed).value;
    var q := Bump(q0.(cached := q0.cached[k := b]), b).value.0;
    assert q.info == p.info[b := Info(k, 1, numHashed, DEFAULT_LAST_ACCESSED_TIME)];
    assert Used(p, q, b, k);
    CreateKeyed(p, q, b);
    hide AllocateBlock, Bump;
    UseCached(p, q, b, k);
    SameTable(p, q, b);
  }

  lemma EvictKeeps<B>(p: CPool<B>, k: Key, numHashed: nat)
    requires PoolOk(p) && !Contains(p, k) && (k.Counter? ==> k.n < p.ctr) && p.table != [] && p.current == |p.all|
    ensures AllocateBlock(p, k, numHashed).Ok?
    ensures var (q, b) := AllocateBlock(p, k, numHashed).value;
            && b in q.info
            && Acquired(p, k, numHashed, Bump(q.(cached := q.cached[k := b]), b).value.0, b)
  {
    hide Scan, Keyed, CachedOk, TableOk, AllocateBlock, Bump;
    EvictForm(p, k, numHashed);
    var (q0, b) := AllocateBlock(p, k, numHashed).value;
    var q := Bump(q0.(cached := q0.cached[k := b]), b).value.0;
    var i := Victim(p.table, p.info);
    UseKeyed(p, q, b);
    UseCached(p, q, b, k);
    TableWithout(p, i, q);
  }

  /** The evicted block and the pool once it is in use under its new hash. */
  lemma EvictForm<B>(p: CPool<B>, k: Key, numHashed: nat)
    requires TableOk(p) && !Contains(p, k) && p.table != [] && p.current == |p.all|
    ensures Described(p.table, p.info) && AllocateBlock(p, k, numHashed).Ok?
    ensures var i := Victim(p.table, p.info);
            var (q0, b) := AllocateBlock(p, k, numHashed).value;
            && b in q0.info && Bump(q0.(cached := q0.cached[k := b]), b).Ok?
            && var q := Bump(q0.(cached := q0.cached[k := b]), b).value.0;
            && Bump(q0.(cached := q0.cached[k := b]), b).value.1 == b
            && b == p.table[i].1 && b in p.info && p.info[b].refs == 0 && q.info[b].numHashed == numHashed
            && Used(p, q, b, k) && q.table == Without(p.table, i) && q.current == p.current && q.ctr == p.ctr
            && (forall j :: 0 <= j < |p.table| && j != i ==> p.table[j].0 != k)
  {
    hide Scan;
    var (q0, b) := AllocateBlock(p, k, numHashed).value;
    var q := Bump(q0.(cached := q0.cached[k := b]), b).value.0;
    assert q.info == p.info[b := p.info[b].(key := k, numHashed := numHashed, refs := 1)];
  }

  /** `allocate` fails only when nothing is free; its assertions never do. */
  lemma AcquireKeeps<B>(p: CPool<B>, want: Option<Key>, numHashed: nat)
    requires PoolOk(p) && (want.Some? ==> want.value.Content?)
    ensures var r := Acquire(p, want, numHashed);
            var k := if want.Some? then want.value else Counter(p.ctr);
            if r.Ok? then
              && Acquired(p, k, numHashed, r.value.0, r.value.1)
              && (want.None? ==> Refs(p, r.value.1) == 0)
            else r == Err(OutOfMemory) && NumFree(p) == 0
  {
    hide PoolOk, AcquireKey;
    match want {
      case None =>
        CounterAdvances(p);
        AcquireKeyKeeps(p.(ctr := p.ctr + 1), Counter(p.ctr), numHashed);
      case Some(k) =>
        AcquireKeyKeeps(p, k, numHashed);
    }
  }

  /**
   * Where the block comes from: the one with that hash; else the first that was never used; else,
   * when all have been used, one of the evictor, and then it is the evictor's victim. Its access
   * time stays; that of a block never used before is -1.
   */
  lemma AcquireSource<B>(p: CPool<B>, k: Key, numHashed: nat)
    requires PoolOk(p)
    ensures var r := AcquireKey(p, k, numHashed);
            && (r.Ok? ==> r.value.0.current == p.current + Bit(r.value.1 !in p.info))
            && (r.Err? ==> !Contains(p, k))
            && (r.Ok? ==> var (q, b) := r.value;
                  b in q.info && q.info[b].last == if b in p.info then p.info[b].last else -1.0)
            && (!Contains(p, k) ==>
                  if p.current < |p.all| then r.Ok? && r.value.1 == p.all[p.current] && r.value.1 !in p.info
                  else if p.table != [] then
                    Described(p.table, p.info) && r.Ok? && r.value.1 == p.table[Victim(p.table, p.info)].1
                  else r == Err(OutOfMemory))
  {
    hide Scan;
    if Has(p.table, k) {
      assert p.info[p.table[IndexOf(p.table, k)].1].key == k;
    }
  }

  /** The next counter value is nobody's hash. */
  lemma CounterAdvances<B>(p: CPool<B>)
    requires PoolOk(p)
    ensures PoolOk(p.(ctr := p.ctr + 1)) && !Contains(p, Counter(p.ctr))
  {
    var q := p.(ctr := p.ctr + 1);
    assert Keyed(q) && CachedOk(q) && TableOk(q);
  }

  ghost predicate Released<B>(p: CPool<B>, q: CPool<B>, b: B) {
    && PoolOk(q) && OthersKept(p, q, b)
    && b in p.info && p.info[b].refs > 0 && b in q.info && q.info[b] == p.info[b].(refs := p.info[b].refs - 1)
    && NumFree(q) == NumFree(p) + Bit(p.info[b].refs == 1)
    && q.ctr == p.ctr
  }

  lemma ReleaseKeeps<B>(p: CPool<B>, b: B)
    requires PoolOk(p) && b in p.info && p.info[b].refs > 0
    ensures Release(p, b).Ok? && Released(p, Release(p, b).value, b)
  {
    hide IndexOf, Has, Keyed, CachedOk, TableOk;
    NotInTable(p, b);
    var q := Release(p, b).value;
    UseKeyed(p, q, b);
    ReleaseCached(p, q, b);
    hide Release;
    if p.info[b].refs == 1 {
      TableGains(p, q, b);
    } else {
      SameTable(p, q, b);
    }
  }

  lemma ReleaseCached<B>(p: CPool<B>, q: CPool<B>, b: B)
    requires CachedOk(p) && OthersKept(p, q, b) && b in p.info && p.info[b].refs > 0 && b in q.info
    requires q.info[b] == p.info[b].(refs := p.info[b].refs - 1)
    requires q.cached == if p.info[b].refs == 1 then p.cached - {p.info[b].key} else p.cached
    ensures CachedOk(q)
  {
  }

  lemma NotInTable<B>(p: CPool<B>, b: B)
    requires PoolOk(p) && b in p.info && p.info[b].refs > 0
    ensures p.info[b].key in p.cached && !Has(p.table, p.info[b].key)
  {
  }

  lemma TableGains<B>(p: CPool<B>, q: CPool<B>, b: B)
    requires TableOk(p) && OthersKept(p, q, b) && b in p.info && b in q.info && q.info[b].refs == 0
    requires q.info[b].key == p.info[b].key && !Has(p.table, p.info[b].key)
    requires q.table == p.table + [(p.info[b].key, b)] && q.cached == p.cached - {p.info[b].key}
    requires p.info[b].refs > 0
    ensures TableOk(q)
  {
    forall i | 0 <= i < |p.table|
      ensures p.table[i].0 != p.info[b].key
    {
    }
    forall x | x in q.info && q.info[x].refs == 0
      ensures (q.info[x].key, x) in q.table
    {
      if x == b {
        assert q.table[|p.table|] == (q.info[x].key, x);
      } else {
        var j :| 0 <= j < |p.table| && p.table[j] == (p.info[x].key, x);
        assert q.table[j] == p.table[j];
      }
    }
  }

  ghost predicate Rehashed<B>(p: CPool<B>, k: Key, b: B, q: CPool<B>) {
    && PoolOk(q) && OthersKept(p, q, b)
    && b in p.info && b in q.info && q.info[b] == p.info[b].(key := k)
    && NumFree(q) == NumFree(p)
  }

  lemma UpdateHashKeeps<B>(p: CPool<B>, k: Key, b: B)
    requires PoolOk(p) && b in p.info && p.info[b].refs > 0 && k.Content? && !Contains(p, k)
    ensures UpdateHash(p, k, b).Ok? && Rehashed(p, k, b, UpdateHash(p, k, b).value)
  {
    hide PoolOk, Keyed, CachedOk, TableOk;
    PoolParts(p);
    InUse(p, b);
    var q := UpdateHash(p, k, b).value;
    UseKeyed(p, q, b);
    RehashCached(p, q, k, b);
    SameTable(p, q, b);
    AllOk(q);
  }

  lemma InUse<B>(p: CPool<B>, b: B)
    requires CachedOk(p) && b in p.info && p.info[b].refs > 0
    ensures p.info[b].key in p.cached
  {
  }

  lemma RehashCached<B>(p: CPool<B>, q: CPool<B>, k: Key, b: B)
    requires CachedOk(p) && OthersKept(p, q, b) && b in p.info && p.info[b].refs > 0 && k !in p.cached
    requires b in q.info && q.info[b] == p.info[b].(key := k)
    requires q.cached == (p.cached - {p.info[b].key})[k := b]
    ensures CachedOk(q)
  {
  }
}
