/**
 * Swapping a sequence with prefix caching: the destination allocates by the hash of each source block,
 * so that it can hand out a block that another swapped sequence holds, and the data is copied over it.
 */
module PrefixSwap {
  import opened Wrappers
  import opened Holding
  import opened OrderedDict
  import opened Evictor
  import opened CachedAllocator
  import opened PrefixCache
  import opened PrefixSoundness
  import opened PrefixRuns
  import BlockManager
  import Paging

  // ----- the operation

  /** `_swap_block_table` on two caching allocators. */
  function SwapTable<B(==)>(src: CPool<B>, dst: CPool<B>, m: BlockManager.Mapping<B>, done: seq<B>, todo: seq<B>)
    : Result<(CPool<B>, CPool<B>, BlockManager.Mapping<B>, seq<B>)>
    decreases |todo|
  {
    if todo == [] then Ok((src, dst, m, done))
    else
      var from := todo[0];
      if from in m.dict then
        var (dst', to) :- Bump(dst, m.dict[from]);
        var src' :- Release(src, from);
        SwapTable(src', dst', m, done + [to], todo[1..])
      else if from !in src.info then Err(KeyError)
      else
        var (dst', to) :- AcquireKey(dst, src.info[from].key, src.info[from].numHashed);
        var src' :- Release(src, from);
        SwapTable(src', dst', BlockManager.Mapping(m.dict[from := to], m.items + [(from, to)]), done + [to], todo[1..])
  }

  // ----- what arrives at the destination

  /** A block on its way: its hash, its position, and its contents. */
  datatype Cargo<V> = Cargo(key: Key, numHashed: nat, block: seq<V>)

  /** It is the block of position `i` of the sequence, as its source held it. */
  ghost predicate CargoTrue<V>(c: Cargo<V>, kv: Kv<V>, bs: nat, d: SeqData, i: nat)
    requires bs > 0
  {
    && |c.block| == bs && c.numHashed == BlockEnd(i, bs) && Holds(c.block, kv, d.lora, Tokens(d), BlockEnd(i, bs) - bs)
    && (c.key.Content? ==>
          && c.key.lora == d.lora && KeyTokens(c.key) <= Tokens(d) && KeyTokens(c.key) != []
          && c.numHashed == BlockManager.NBlocks(|KeyTokens(c.key)|, bs) * bs)
  }

  /** A hash of the counter is one that was given out, and stands for that position. */
  ghost predicate CounterKnown<B, V>(p: CPool<B>, c: Cargo<V>) {
    c.key.Counter? ==> c.key.n < p.ctr && forall b :: b in p.info && p.info[b].key == c.key ==>
      p.info[b].numHashed == c.numHashed
  }

  /** All blocks of a sequence, under hashes of their own. */
  ghost predicate Shipment<B, V>(w: World<B, V>, kv: Kv<V>, bs: nat, d: SeqData, cargo: seq<Cargo<V>>)
    requires bs > 0
  {
    && |cargo| == NBlocks(d, bs)
    && (forall i :: 0 <= i < |cargo| ==> CargoTrue(cargo[i], kv, bs, d, i) && CounterKnown(w.mgr.gpu, cargo[i]))
    && (forall i, j :: 0 <= i < j < |cargo| ==> cargo[i].key != cargo[j].key)
  }

  /** The blocks allocated one after the other, each with the data copied into it. */
  ghost function ArriveAll<B, V>(w: World<B, V>, id: nat, d: SeqData, cargo: seq<Cargo<V>>): Result<World<B, V>>
    decreases |cargo|
  {
    if cargo == [] then Ok(World(CState(w.mgr.gpu, w.mgr.tables[id := []]), w.data[id := d], w.store))
    else
      var u :- ArriveAll(w, id, d, cargo[..|cargo| - 1]);
      var c := cargo[|cargo| - 1];
      var (q, b) :- AcquireKey(u.mgr.gpu, c.key, c.numHashed);
      if id !in u.mgr.tables then Err(KeyError)
      else Ok(World(CState(q, u.mgr.tables[id := u.mgr.tables[id] + [b]]), u.data, u.store[b := c.block]))
  }

  // ----- what holds after some have arrived, whoever reads what

  ghost predicate SameAt<B>(p: CPool<B>, q: CPool<B>, x: B) {
    && x in p.info && x in q.info && q.info[x].key == p.info[x].key && q.info[x].numHashed == p.info[x].numHashed
  }

  /** The new table holds the cargo; blocks that others hold keep key and position, and all others everything. */
  ghost predicate Loaded<B, V>(w: World<B, V>, u: World<B, V>, id: nat, d: SeqData, cargo: seq<Cargo<V>>) {
    && PoolOk(u.mgr.gpu) && Counted(u.mgr.gpu, u.mgr.tables) && u.mgr.gpu.all == w.mgr.gpu.all
      && u.mgr.gpu.ctr == w.mgr.gpu.ctr
    && id in u.mgr.tables && u.mgr.tables == w.mgr.tables[id := u.mgr.tables[id]] && u.data == w.data[id := d]
    && u.store.Keys == w.store.Keys
    && var t := u.mgr.tables[id];
    && |t| == |cargo| && (forall i :: 0 <= i < |t| ==> CargoAt(u, t[i], cargo[i]))
    && (forall x :: x in w.store && x !in t ==> u.store[x] == w.store[x])
    && (forall x :: x in u.mgr.gpu.info && x !in t ==> SameAt(w.mgr.gpu, u.mgr.gpu, x))
    && (forall x :: HeldIn(w.mgr.tables, x) && x in w.mgr.gpu.info ==> SameAt(w.mgr.gpu, u.mgr.gpu, x))
  }

  ghost predicate HeldIn<B>(tables: map<nat, seq<B>>, x: B) {
    exists h :: h in tables && x in tables[h]
  }

  ghost predicate CargoAt<B, V>(u: World<B, V>, b: B, c: Cargo<V>) {
    && b in u.mgr.gpu.info && u.mgr.gpu.info[b].key == c.key && u.mgr.gpu.info[b].numHashed == c.numHashed
    && b in u.store && u.store[b] == c.block
  }

  lemma StartLoaded<B, V>(w: World<B, V>, kv: Kv<V>, bs: nat, id: nat, d: SeqData)
    requires bs > 0 && Inv(w, kv, bs) && id !in w.mgr.tables
    ensures Loaded(w, ArriveAll(w, id, d, []).value, id, d, [])
  {
    hide PoolOk, KeyTrue, TableTrue, Frame;
    EmptyCounted(w.mgr.gpu, w.mgr.tables, id);
  }

  /** The counter gives out hashes; it plays no part in an allocation under a given one. */
  lemma CounterUnused<B>(p: CPool<B>, k: Key, numHashed: nat, ctr: nat)
    ensures var r, r' := AcquireKey(p, k, numHashed), AcquireKey(p.(ctr := ctr), k, numHashed);
            if r.Ok? then r' == Ok((r.value.0.(ctr := ctr), r.value.1)) else r' == Err(r.error)
  {
    hide Victim, IndexOf, Without;
  }

  lemma AcquireKeyCtr<B>(p: CPool<B>, k: Key, numHashed: nat)
    ensures AcquireKey(p, k, numHashed).Ok? ==> AcquireKey(p, k, numHashed).value.0.ctr == p.ctr
  {
    hide Victim;
  }

  /** The block found under a hash stands for the position that the cargo has. */
  lemma HitPosition<B, V>(w: World<B, V>, kv: Kv<V>, bs: nat, d: SeqData, i: nat, c: Cargo<V>, b: B)
    requires bs > 0 && Inv(w, kv, bs) && CargoTrue(c, kv, bs, d, i) && CounterKnown(w.mgr.gpu, c)
    requires b in w.mgr.gpu.info && w.mgr.gpu.info[b].key == c.key
    ensures w.mgr.gpu.info[b].numHashed == c.numHashed
  {
    hide PoolOk, Counted, TableTrue, Frame, Holds, KeyTokens, Tokens;
    assert KeyTrue(w, kv, bs, b);
  }

  lemma HeldInUse<B>(p: CPool<B>, tables: map<nat, seq<B>>, h: nat, x: B)
    requires PoolOk(p) && Counted(p, tables) && h in tables && x in tables[h] && x in p.info
    ensures p.info[x].refs > 0 && Contains(p, p.info[x].key)
  {
    hide TableOk;
    HeldHasRefs(p, tables, h, x);
  }

  /** A block of the new table is not handed out again under another hash. */
  lemma AcquiredApart<B, V>(u: World<B, V>, id: nat, cargo: seq<Cargo<V>>, c: Cargo<V>, q: CPool<B>, b: B)
    requires PoolOk(u.mgr.gpu) && Counted(u.mgr.gpu, u.mgr.tables) && id in u.mgr.tables
    requires var t := u.mgr.tables[id]; |t| == |cargo| && forall i :: 0 <= i < |t| ==> CargoAt(u, t[i], cargo[i])
    requires forall i :: 0 <= i < |cargo| ==> cargo[i].key != c.key
    requires Acquired(u.mgr.gpu, c.key, c.numHashed, q, b)
    ensures b !in u.mgr.tables[id]
  {
    hide PoolOk, Counted, Contains;
    var t := u.mgr.tables[id];
    forall i | 0 <= i < |t|
      ensures t[i] != b
    {
      assert CargoAt(u, t[i], cargo[i]);
      HeldInUse(u.mgr.gpu, u.mgr.tables, id, t[i]);
    }
  }

  /** A block held by another sequence is handed out under its own hash only. */
  lemma HeldSameAt<B, V>(w: World<B, V>, u: World<B, V>, id: nat, d: SeqData, cargo: seq<Cargo<V>>, c: Cargo<V>,
          q: CPool<B>,
          b: B, x: B)
    requires id !in w.mgr.tables && Loaded(w, u, id, d, cargo) && Acquired(u.mgr.gpu, c.key, c.numHashed, q, b)
    requires HeldIn(w.mgr.tables, x) && x in w.mgr.gpu.info
    ensures SameAt(w.mgr.gpu, q, x)
  {
    hide PoolOk, Counted, Contains, CargoAt;
    var h :| h in w.mgr.tables && x in w.mgr.tables[h];
    assert SameAt(w.mgr.gpu, u.mgr.gpu, x);
    assert u.mgr.tables[h] == w.mgr.tables[h];
    HeldInUse(u.mgr.gpu, u.mgr.tables, h, x);
  }

  lemma LoadNext<B, V>(w: World<B, V>, u: World<B, V>, kv: Kv<V>, bs: nat, id: nat, d: SeqData, cargo: seq<Cargo<V>>,
          c: Cargo<V>,
          q: CPool<B>, b: B)
    requires bs > 0 && Inv(w, kv, bs) && id !in w.mgr.tables && Loaded(w, u, id, d, cargo)
    requires CargoTrue(c, kv, bs, d, |cargo|) && CounterKnown(w.mgr.gpu, c)
    requires forall i :: 0 <= i < |cargo| ==> cargo[i].key != c.key
    requires AcquireKey(u.mgr.gpu, c.key, c.numHashed) == Ok((q, b))
    ensures id in u.mgr.tables
    ensures Loaded(w, World(CState(q, u.mgr.tables[id := u.mgr.tables[id] + [b]]), u.data, u.store[b := c.block]), id,
            d, cargo + [c])
  {
    hide Inv, AcquireKey, PoolOk, Counted, Contains, CargoTrue, HeldIn;
    AcquireKeyKeeps(u.mgr.gpu, c.key, c.numHashed);
    AcquireKeyCtr(u.mgr.gpu, c.key, c.numHashed);
    AcquiredApart(u, id, cargo, c, q, b);
    PushCounted(u.mgr.gpu, q, u.mgr.tables, id, b);
    AcquiredInStore(w, u, kv, bs, c, q, b);
    if Contains(u.mgr.gpu, c.key) {
      assert SameAt(w.mgr.gpu, u.mgr.gpu, b);
      HitPosition(w, kv, bs, d, |cargo|, c, b);
    }
    forall x | HeldIn(w.mgr.tables, x) && x in w.mgr.gpu.info
      ensures SameAt(w.mgr.gpu, q, x)
    {
      HeldSameAt(w, u, id, d, cargo, c, q, b, x);
    }
  }

  lemma AcquiredInStore<B, V>(w: World<B, V>, u: World<B, V>, kv: Kv<V>, bs: nat, c: Cargo<V>, q: CPool<B>, b: B)
    requires bs > 0 && Inv(w, kv, bs) && u.mgr.gpu.all == w.mgr.gpu.all && u.store.Keys == w.store.Keys
    requires Acquired(u.mgr.gpu, c.key, c.numHashed, q, b)
    ensures b in u.store
  {
    hide CachedOk, TableOk, Counted, KeyTrue, TableTrue, Contains;
  }

  lemma NothingArrives<B, V>(w: World<B, V>, id: nat, d: SeqData)
    ensures ArriveAll(w, id, d, []).Ok?
  {
  }

  lemma ArriveNext<B, V>(w: World<B, V>, id: nat, d: SeqData, cargo: seq<Cargo<V>>, k: nat)
    requires k < |cargo|
    ensures var r := ArriveAll(w, id, d, cargo[..k]);
            ArriveAll(w, id, d, cargo[..k + 1])
            == if r.Err? then Err(r.error)
               else
                 var u, a := r.value, AcquireKey(r.value.mgr.gpu, cargo[k].key, cargo[k].numHashed);
                 if a.Err? then Err(a.error) else if id !in u.mgr.tables then Err(KeyError)
                 else Ok(World(CState(a.value.0, u.mgr.tables[id := u.mgr.tables[id] + [a.value.1]]), u.data,
                               u.store[a.value.1 := cargo[k].block]))
  {
    hide AcquireKey;
    assert cargo[..k + 1][..k] == cargo[..k] && cargo[..k + 1][k] == cargo[k];
  }

  lemma {:induction false} ArrivalsLoad<B, V>(w: World<B, V>, kv: Kv<V>, bs: nat, id: nat, d: SeqData,
          cargo: seq<Cargo<V>>)
    requires bs > 0 && Inv(w, kv, bs) && id !in w.mgr.tables
    requires forall i :: 0 <= i < |cargo| ==> CargoTrue(cargo[i], kv, bs, d, i) && CounterKnown(w.mgr.gpu, cargo[i])
    requires forall i, j :: 0 <= i < j < |cargo| ==> cargo[i].key != cargo[j].key
    ensures var r := ArriveAll(w, id, d, cargo); if r.Ok? then Loaded(w, r.value, id, d, cargo)
            else r == Err(OutOfMemory)
    decreases |cargo|
  {
    hide Inv, AcquireKey, CargoTrue, CounterKnown, Loaded, PoolOk, Acquired, ArriveAll;
    if cargo == [] {
      assert ArriveAll(w, id, d, cargo).Ok? by { NothingArrives(w, id, d); }
      StartLoaded(w, kv, bs, id, d);
    } else {
      var n := |cargo| - 1;
      var init, c := cargo[..n], cargo[n];
      ArrivalsLoad(w, kv, bs, id, d, init);
      ArriveNext(w, id, d, cargo, n);
      assert cargo[..n + 1] == cargo;
      if ArriveAll(w, id, d, init).Ok? {
        var u := ArriveAll(w, id, d, init).value;
        LoadedPool(w, u, id, d, init, c);
        AcquireKeyKeeps(u.mgr.gpu, c.key, c.numHashed);
        if AcquireKey(u.mgr.gpu, c.key, c.numHashed).Ok? {
          var (q, b) := AcquireKey(u.mgr.gpu, c.key, c.numHashed).value;
          LoadNext(w, u, kv, bs, id, d, init, c, q, b);
          assert init + [c] == cargo;
        }
      }
    }
  }

  lemma LoadedPool<B, V>(w: World<B, V>, u: World<B, V>, id: nat, d: SeqData, cargo: seq<Cargo<V>>, c: Cargo<V>)
    requires Loaded(w, u, id, d, cargo) && CounterKnown(w.mgr.gpu, c)
    ensures PoolOk(u.mgr.gpu) && id in u.mgr.tables && (c.key.Counter? ==> c.key.n < u.mgr.gpu.ctr)
  {
    hide PoolOk;
  }

  // ----- exactly when everybody still reads their own entries

  /** Position `j` of sequence `h` is in the block that cargo `i` went to. */
  ghost predicate Shares<B, V>(w: World<B, V>, t: seq<B>, h: nat, j: nat, i: nat) {
    && h in w.mgr.tables && h in w.data && j < |w.mgr.tables[h]| && i < |t| && w.mgr.tables[h][j] == t[i]
  }

  /** Each cargo holds the entries of every other sequence in whose block it was put. */
  ghost predicate Welcome<B, V>(w: World<B, V>, kv: Kv<V>, bs: nat, t: seq<B>, cargo: seq<Cargo<V>>)
    requires |t| == |cargo|
  {
    forall h, j: nat, i: nat :: Shares(w, t, h, j, i) ==>
      Holds(cargo[i].block, kv, w.data[h].lora, Tokens(w.data[h]), BlockEnd(j, bs) - bs)
  }

  lemma LoadedKeys<B, V>(w: World<B, V>, u: World<B, V>, kv: Kv<V>, bs: nat, id: nat, d: SeqData, cargo: seq<Cargo<V>>,
          x: B)
    requires bs > 0 && Inv(w, kv, bs) && Loaded(w, u, id, d, cargo) && x in u.mgr.gpu.info
    requires forall i :: 0 <= i < |cargo| ==> CargoTrue(cargo[i], kv, bs, d, i)
    ensures KeyTrue(u, kv, bs, x)
  {
    hide PoolOk, Counted, TableTrue, Holds, KeyTokens, Tokens, HeldIn;
    var t := u.mgr.tables[id];
    if x in t {
      var i :| 0 <= i < |t| && t[i] == x;
      var c := cargo[i];
      assert CargoAt(u, t[i], c) && CargoTrue(c, kv, bs, d, i);
      if c.key.Content? {
        HoldsShorter(c.block, kv, d.lora, KeyTokens(c.key), Tokens(d), c.numHashed - bs);
      }
    } else {
      assert SameAt(w.mgr.gpu, u.mgr.gpu, x);
      assert KeyTrue(w, kv, bs, x);
    }
  }

  lemma LoadedOwn<B, V>(w: World<B, V>, u: World<B, V>, kv: Kv<V>, bs: nat, id: nat, d: SeqData, cargo: seq<Cargo<V>>)
    requires bs > 0 && Loaded(w, u, id, d, cargo) && |cargo| == NBlocks(d, bs)
    requires forall i :: 0 <= i < |cargo| ==> CargoTrue(cargo[i], kv, bs, d, i)
    ensures TableTrue(u, kv, bs, id)
  {
    hide PoolOk, Counted, Holds, KeyTokens, Tokens, HeldIn, NBlocks;
    forall i | 0 <= i < |u.mgr.tables[id]|
      ensures BlockTrue(u, kv, bs, id, i)
    {
      assert CargoAt(u, u.mgr.tables[id][i], cargo[i]) && CargoTrue(cargo[i], kv, bs, d, i);
    }
  }

  lemma LoadedOther<B, V>(w: World<B, V>, u: World<B, V>, kv: Kv<V>, bs: nat, id: nat, d: SeqData,
          cargo: seq<Cargo<V>>, h: nat)
    requires bs > 0 && Inv(w, kv, bs) && Loaded(w, u, id, d, cargo) && id !in w.mgr.tables && h in w.mgr.tables
    requires |u.mgr.tables[id]| == |cargo| && Welcome(w, kv, bs, u.mgr.tables[id], cargo)
    ensures TableTrue(u, kv, bs, h)
  {
    hide PoolOk, Counted, KeyTrue, Holds, KeyTokens, Tokens, NBlocks, Frame;
    var t, s := u.mgr.tables[id], w.mgr.tables[h];
    assert TableTrue(w, kv, bs, h) && u.mgr.tables[h] == s && u.data[h] == w.data[h];
    forall j | 0 <= j < |s|
      ensures BlockTrue(u, kv, bs, h, j)
    {
      assert BlockTrue(w, kv, bs, h, j);
      assert s[j] in s && HeldIn(w.mgr.tables, s[j]);
      assert SameAt(w.mgr.gpu, u.mgr.gpu, s[j]);
      if s[j] in t {
        var i :| 0 <= i < |t| && t[i] == s[j];
        assert Shares(w, t, h, j, i) && CargoAt(u, t[i], cargo[i]);
      }
    }
  }

  lemma LoadedFrame<B, V>(w: World<B, V>, u: World<B, V>, kv: Kv<V>, bs: nat, id: nat, d: SeqData, cargo: seq<Cargo<V>>)
    requires bs > 0 && Frame(w, bs) && Loaded(w, u, id, d, cargo)
    requires forall i :: 0 <= i < |cargo| ==> CargoTrue(cargo[i], kv, bs, d, i)
    ensures Frame(u, bs)
  {
    hide PoolOk, Counted, Holds, KeyTokens, Tokens, HeldIn, SameAt;
    var t := u.mgr.tables[id];
    forall x | x in u.store
      ensures |u.store[x]| == bs
    {
      if x in t {
        var i :| 0 <= i < |t| && t[i] == x;
        assert CargoAt(u, t[i], cargo[i]) && CargoTrue(cargo[i], kv, bs, d, i);
      }
    }
  }

  lemma WelcomeKeeps<B, V>(w: World<B, V>, u: World<B, V>, kv: Kv<V>, bs: nat, id: nat, d: SeqData,
          cargo: seq<Cargo<V>>)
    requires bs > 0 && Inv(w, kv, bs) && Complete(w, bs) && id !in w.mgr.tables && Shipment(w, kv, bs, d, cargo)
    requires Loaded(w, u, id, d, cargo) && |u.mgr.tables[id]| == |cargo| && Welcome(w, kv, bs, u.mgr.tables[id], cargo)
    ensures Inv(u, kv, bs) && Complete(u, bs)
  {
    hide PoolOk, Counted, KeyTrue, TableTrue, CargoTrue, CounterKnown, CargoAt, Welcome, HeldIn, SameAt, NBlocks;
    LoadedFrame(w, u, kv, bs, id, d, cargo);
    forall x | x in u.mgr.gpu.info
      ensures KeyTrue(u, kv, bs, x)
    {
      LoadedKeys(w, u, kv, bs, id, d, cargo, x);
    }
    LoadedOwn(w, u, kv, bs, id, d, cargo);
    forall h | h in u.mgr.tables
      ensures TableTrue(u, kv, bs, h)
    {
      if h != id {
        LoadedOther(w, u, kv, bs, id, d, cargo, h);
      }
    }
  }

  /** What a sequence reads in a shared block is what the cargo brought. */
  lemma ReadsCargo<B, V>(w: World<B, V>, u: World<B, V>, kv: Kv<V>, bs: nat, id: nat, d: SeqData, cargo: seq<Cargo<V>>,
          h: nat,
          j: nat, i: nat)
    requires bs > 0 && Loaded(w, u, id, d, cargo) && id !in w.mgr.tables && ReadsOwn(u, kv, bs)
    requires |u.mgr.tables[id]| == |cargo| && Shares(w, u.mgr.tables[id], h, j, i) && |cargo[i].block| == bs
    ensures Holds(cargo[i].block, kv, w.data[h].lora, Tokens(w.data[h]), BlockEnd(j, bs) - bs)
  {
    hide PoolOk, Counted, Tokens, HeldIn, SameAt;
    var t, c, e := u.mgr.tables[id], cargo[i].block, w.data[h];
    assert CargoAt(u, t[i], cargo[i]);
    BlockEndBasics(j, bs);
    forall x | 0 <= x < |c| && 0 <= j * bs + x < |Tokens(e)|
      ensures c[x] == kv(e.lora, Tokens(e)[..j * bs + x + 1])
    {
      Paging.QuotientUnique(j, bs, x);
      Paging.RemainderUnique(j, bs, x);
      assert EntryAt(u, bs, h, j * bs + x) == Some(kv(e.lora, Tokens(e)[..j * bs + x + 1]));
    }
  }

  /**
   * A sequence's blocks arrive on a device. It fails only by running out of memory, and then every
   * sequence there reads its own entries if and only if each block that was put into one that others hold
   * has their entries too.
   */
  lemma ArrivalReadsIff<B, V>(w: World<B, V>, kv: Kv<V>, bs: nat, id: nat, d: SeqData, cargo: seq<Cargo<V>>)
    requires bs > 0 && Inv(w, kv, bs) && Complete(w, bs) && id !in w.mgr.tables && Shipment(w, kv, bs, d, cargo)
    ensures var r := ArriveAll(w, id, d, cargo);
            if r.Ok? then
              var u := r.value;
              && id in u.mgr.tables && |u.mgr.tables[id]| == |cargo|
              && (ReadsOwn(u, kv, bs) <==> Welcome(w, kv, bs, u.mgr.tables[id], cargo))
              && (Welcome(w, kv, bs, u.mgr.tables[id], cargo) ==> Inv(u, kv, bs) && Complete(u, bs))
            else r == Err(OutOfMemory)
  {
    hide Inv, Complete, ArriveAll, ReadsOwn, Holds, PoolOk, Counted, HeldIn, SameAt, CargoAt;
    ArrivalsLoad(w, kv, bs, id, d, cargo);
    var r := ArriveAll(w, id, d, cargo);
    if r.Ok? {
      var u := r.value;
      if Welcome(w, kv, bs, u.mgr.tables[id], cargo) {
        WelcomeKeeps(w, u, kv, bs, id, d, cargo);
        InvReadsOwn(u, kv, bs);
      }
      if ReadsOwn(u, kv, bs) {
        forall h, j: nat, i: nat | Shares(w, u.mgr.tables[id], h, j, i)
          ensures Holds(cargo[i].block, kv, w.data[h].lora, Tokens(w.data[h]), BlockEnd(j, bs) - bs)
        {
          ReadsCargo(w, u, kv, bs, id, d, cargo, h, j, i);
        }
      }
    }
  }

  /** A block under the hash of its whole content is welcome wherever that hash is in use. */
  lemma FullBlocksWelcome<B, V>(w: World<B, V>, u: World<B, V>, kv: Kv<V>, bs: nat, id: nat, d: SeqData,
          cargo: seq<Cargo<V>>)
    requires bs > 0 && Inv(w, kv, bs) && id !in w.mgr.tables && Shipment(w, kv, bs, d, cargo)
             && Loaded(w, u, id, d, cargo)
    requires |u.mgr.tables[id]| == |cargo|
    requires forall h, j: nat, i: nat :: Shares(w, u.mgr.tables[id], h, j, i) ==>
               cargo[i].key.Content? && |KeyTokens(cargo[i].key)| == cargo[i].numHashed
    ensures Welcome(w, kv, bs, u.mgr.tables[id], cargo)
  {
    hide PoolOk, Counted, KeyTrue, Holds, KeyTokens, Tokens, NBlocks, Frame;
    var t := u.mgr.tables[id];
    forall h, j: nat, i: nat | Shares(w, t, h, j, i)
      ensures Holds(cargo[i].block, kv, w.data[h].lora, Tokens(w.data[h]), BlockEnd(j, bs) - bs)
    {
      var c, x := cargo[i], t[i];
      assert TableTrue(w, kv, bs, h);
      assert BlockTrue(w, kv, bs, h, j);
      assert x in w.mgr.tables[h] && HeldIn(w.mgr.tables, x);
      assert SameAt(w.mgr.gpu, u.mgr.gpu, x) && CargoAt(u, x, c) && CargoTrue(c, kv, bs, d, i);
      BlockEndBasics(j, bs);
      HoldsShorter(c.block, kv, d.lora, KeyTokens(c.key), Tokens(d), c.numHashed - bs);
      HoldsPrefix(c.block, kv, d.lora, KeyTokens(c.key), Tokens(w.data[h]), c.numHashed - bs);
    }
  }

  // ----- and that this is what the swap does

  /** The blocks of a table with what they hold, as the source device has them. */
  ghost function CargoOf<B, V>(src: CPool<B>, store: map<B, seq<V>>, t: seq<B>): (r: seq<Cargo<V>>)
    requires forall b :: b in t ==> b in src.info && b in store
    ensures |r| == |t|
    ensures forall i :: 0 <= i < |t| ==> r[i] == Cargo(src.info[t[i]].key, src.info[t[i]].numHashed, store[t[i]])
  {
    seq(|t|, i requires 0 <= i < |t| => Cargo(src.info[t[i]].key, src.info[t[i]].numHashed, store[t[i]]))
  }

  ghost function Moves<B>(from: seq<B>, to: seq<B>): (r: seq<(B, B)>)
    requires |from| == |to|
    ensures |r| == |from| && forall i :: 0 <= i < |r| ==> r[i] == (from[i], to[i])
  {
    seq(|from|, i requires 0 <= i < |from| => (from[i], to[i]))
  }

  /** The source still has the keys of the blocks to come. */
  ghost predicate KeysLeft<B>(src: CPool<B>, now: CPool<B>, todo: seq<B>) {
    forall b :: b in todo ==> SameAt(src, now, b)
  }

  lemma ReleaseKeysLeft<B>(src: CPool<B>, now: CPool<B>, todo: seq<B>)
    requires todo != [] && KeysLeft(src, now, todo) && Release(now, todo[0]).Ok?
    ensures KeysLeft(src, Release(now, todo[0]).value, todo[1..])
  {
    assert forall b :: b in todo[1..] ==> b in todo;
  }

  lemma KeyLeft<B>(src: CPool<B>, now: CPool<B>, todo: seq<B>)
    requires todo != [] && KeysLeft(src, now, todo)
    ensures SameAt(src, now, todo[0])
  {
    assert todo[0] in todo;
  }

  /**
   * The swap of a table allocates block after block on the destination, as `ArriveAll` does for the cargo
   * of the table, and returns where each block went.
   */
  lemma {:induction false} SwapArrives<B, V>(w: World<B, V>, u: World<B, V>, id: nat, d: SeqData, src: CPool<B>,
          store: map<B, seq<V>>, t: seq<B>, now: CPool<B>, m: BlockManager.Mapping<B>, done: seq<B>, todo: seq<B>)
    requires NoDup(t) && |t| == |done| + |todo| && t == t[..|done|] + todo
             && (forall b :: b in t ==> b in src.info && b in store)
    requires m.dict.Keys == Elems(t[..|done|]) && m.items == Moves(t[..|done|], done) && KeysLeft(src, now, todo)
    requires ArriveAll(w, id, d, CargoOf(src, store, t)[..|done|]) == Ok(u) && id in u.mgr.tables
             && u.mgr.tables[id] == done
    ensures var r := SwapTable(now, u.mgr.gpu, m, done, todo);
            r.Ok? ==>
              var a := ArriveAll(w, id, d, CargoOf(src, store, t));
              && a.Ok? && a.value.mgr.gpu == r.value.1 && id in a.value.mgr.tables
                && a.value.mgr.tables[id] == r.value.3
              && |r.value.3| == |t| && r.value.2.items == Moves(t, r.value.3)
    decreases |todo|
  {
    hide AcquireKey, Release, Bump, ArriveAll, KeysLeft;
    var cargo, k := CargoOf(src, store, t), |done|;
    if todo == [] {
      assert cargo[..k] == cargo && t[..k] == t;
    } else {
      var from := todo[0];
      assert from == t[k] && from in t;
      assert from !in m.dict by { NotBefore(t, k); }
      assert SameAt(src, now, from) by { KeyLeft(src, now, todo); }
      var r := AcquireKey(u.mgr.gpu, cargo[k].key, cargo[k].numHashed);
      if r.Ok? && Release(now, from).Ok? {
        var (q, to) := r.value;
        var u' := World(CState(q, u.mgr.tables[id := done + [to]]), u.data, u.store[to := cargo[k].block]);
        ArriveNext(w, id, d, cargo, k);
        ReleaseKeysLeft(src, now, todo);
        assert t[..k + 1] == t[..k] + [from];
        var m' := BlockManager.Mapping(m.dict[from := to], m.items + [(from, to)]);
        assert m'.items == Moves(t[..k + 1], done + [to]);
        SwapArrives(w, u', id, d, src, store, t, Release(now, from).value, m', done + [to], todo[1..]);
      }
    }
  }

  lemma NotBefore<B>(t: seq<B>, k: nat)
    requires NoDup(t) && k < |t|
    ensures t[k] !in Elems(t[..k])
  {
    assert forall i :: 0 <= i < k ==> t[..k][i] == t[i];
  }
}
