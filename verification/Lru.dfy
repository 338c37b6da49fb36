/** The least-recently-used cache with pinned keys. */
module Lru {
  import opened Wrappers
  import opened Holding
  import OrderedDict

  /** Entries from the least to the most recently used, the pinned keys, and the calls of the removal hook. */
  datatype Cache<K, V> = Cache(entries: seq<(K, V)>, pinned: set<K>, hooked: seq<(K, V)>)

  predicate Contains<K(==), V>(s: Cache<K, V>, k: K) {
    OrderedDict.Has(s.entries, k)
  }

  /** The entry moved to the end, with a value. */
  function Use<K(==), V>(s: Cache<K, V>, k: K, v: V): Cache<K, V> {
    if Contains(s, k) then s.(entries := OrderedDict.Without(s.entries, OrderedDict.IndexOf(s.entries, k)) + [(k, v)])
    else s.(entries := s.entries + [(k, v)])
  }

  function Get<K(==), V>(s: Cache<K, V>, k: K): (Cache<K, V>, Option<V>) {
    if Contains(s, k) then
      var v := s.entries[OrderedDict.IndexOf(s.entries, k)].1;
      (Use(s, k, v), Some(v))
    else (s, None)
  }

  /** The entry at `i` taken out, unpinned, and handed to the hook. */
  function Drop<K(==), V>(s: Cache<K, V>, i: nat): Cache<K, V>
    requires i < |s.entries|
  {
    Cache(OrderedDict.Without(s.entries, i), s.pinned - {s.entries[i].0}, s.hooked + [s.entries[i]])
  }

  function Pop<K(==), V>(s: Cache<K, V>, k: K): Cache<K, V> {
    if Contains(s, k) then Drop(s, OrderedDict.IndexOf(s.entries, k)) else s.(pinned := s.pinned - {k})
  }

  function Pin<K(==), V>(s: Cache<K, V>, k: K): Result<Cache<K, V>> {
    if Contains(s, k) then Ok(s.(pinned := s.pinned + {k})) else Err(ValueError)
  }

  /** The first entry from `i` on that is not pinned, or the end. */
  function FirstUnpinned<K(==), V>(entries: seq<(K, V)>, pinned: set<K>, i: nat): (r: nat)
    requires i <= |entries|
    ensures i <= r <= |entries|
    ensures r < |entries| ==> entries[r].0 !in pinned
    ensures forall j :: i <= j < r ==> entries[j].0 in pinned
    decreases |entries| - i
  {
    if i == |entries| || entries[i].0 !in pinned then i else FirstUnpinned(entries, pinned, i + 1)
  }

  function RemoveOldest<K(==), V>(s: Cache<K, V>, removePinned: bool): Result<Cache<K, V>> {
    if s.entries == [] then Ok(s)
    else if removePinned then Ok(Drop(s, 0))
    else
      var i := FirstUnpinned(s.entries, s.pinned, 0);
      if i == |s.entries| then Err(RuntimeError) else Ok(Drop(s, i))
  }

  function RemoveOldIfNeeded<K(==), V>(s: Cache<K, V>, capacity: nat): Result<Cache<K, V>>
    decreases |s.entries|
  {
    if |s.entries| <= capacity then Ok(s)
    else
      var t :- RemoveOldest(s, false);
      RemoveOldIfNeeded(t, capacity)
  }

  function Put<K(==), V>(s: Cache<K, V>, capacity: nat, k: K, v: V): Result<Cache<K, V>> {
    RemoveOldIfNeeded(Use(s, k, v), capacity)
  }

  function Clear<K(==), V>(s: Cache<K, V>): Cache<K, V>
    decreases |s.entries|
  {
    if s.entries == [] then s else Clear(Drop(s, 0))
  }

  // ----- the invariant

  function KeysOf<K, V>(entries: seq<(K, V)>): (r: seq<K>)
    ensures |r| == |entries| && forall i :: 0 <= i < |r| ==> r[i] == entries[i].0
  {
    seq(|entries|, i requires 0 <= i < |entries| => entries[i].0)
  }

  function Keys<K, V>(s: Cache<K, V>): seq<K> {
    KeysOf(s.entries)
  }

  ghost predicate Valid<K, V>(s: Cache<K, V>, capacity: nat) {
    NoDup(Keys(s)) && |s.entries| <= capacity && (forall k :: k in s.pinned ==> k in Keys(s))
  }

  lemma ContainsKeys<K, V>(s: Cache<K, V>, k: K)
    ensures Contains(s, k) <==> k in Keys(s)
  {
  }

  lemma WithoutKeys<K, V>(entries: seq<(K, V)>, i: nat)
    requires i < |entries| && NoDup(KeysOf(entries))
    ensures var r := KeysOf(OrderedDict.Without(entries, i));
            && NoDup(r) && entries[i].0 !in r
            && (forall k :: k in KeysOf(entries) && k != entries[i].0 ==> k in r)
            && (forall k :: k in r ==> k in KeysOf(entries))
  {
    var ks, r := KeysOf(entries), KeysOf(OrderedDict.Without(entries, i));
    assert forall j :: 0 <= j < |r| ==> r[j] == ks[if j < i then j else j + 1];
    forall k | k in ks && k != entries[i].0
      ensures k in r
    {
      var j :| 0 <= j < |ks| && ks[j] == k;
      assert r[if j < i then j else j - 1] == k;
    }
  }

  lemma UseKeys<K, V>(s: Cache<K, V>, k: K, v: V)
    requires NoDup(Keys(s))
    ensures var t := Use(s, k, v);
            && NoDup(Keys(t)) && (forall x :: x in Keys(t) <==> x in Keys(s) || x == k)
            && |t.entries| == |s.entries| + Bit(k !in Keys(s))
            && |t.entries| > 0 && t.entries[|t.entries| - 1] == (k, v)
            && t.pinned == s.pinned && t.hooked == s.hooked
  {
    ContainsKeys(s, k);
    var t := Use(s, k, v);
    var rest := t.entries[..|t.entries| - 1];
    if Contains(s, k) {
      WithoutKeys(s.entries, OrderedDict.IndexOf(s.entries, k));
    }
    assert rest == if Contains(s, k) then OrderedDict.Without(s.entries, OrderedDict.IndexOf(s.entries, k))
           else s.entries;
    assert Keys(t) == KeysOf(rest) + [k];
  }

  lemma DropKeys<K, V>(s: Cache<K, V>, i: nat)
    requires i < |s.entries| && NoDup(Keys(s)) && forall k :: k in s.pinned ==> k in Keys(s)
    ensures var t := Drop(s, i);
            && NoDup(Keys(t)) && (forall x :: x in Keys(t) <==> x in Keys(s) && x != s.entries[i].0)
            && (forall k :: k in t.pinned ==> k in Keys(t)) && |t.entries| == |s.entries| - 1
  {
    WithoutKeys(s.entries, i);
  }

  /** What a put does when it has to make room: the victim is the least recently used unpinned key. */
  ghost predicate PutDone<K, V>(s: Cache<K, V>, capacity: nat, k: K, v: V, t: Cache<K, V>) {
    var u := Use(s, k, v);
    if |u.entries| <= capacity then t == u
    else
      var i := FirstUnpinned(u.entries, u.pinned, 0);
      i < |u.entries| && t == Drop(u, i)
  }

  /**
   * Put never raises, keeps the size within the capacity and never drops a pinned key. The new key
   * itself stays exactly if it was there, there was room, or some other key was not pinned.
   */
  lemma PutKeeps<K, V>(s: Cache<K, V>, capacity: nat, k: K, v: V)
    requires Valid(s, capacity)
    ensures var r := Put(s, capacity, k, v);
            && r.Ok? && Valid(r.value, capacity) && PutDone(s, capacity, k, v, r.value)
            && r.value.pinned == s.pinned
            && (k in Keys(r.value) <==>
                || k in Keys(s) || |s.entries| < capacity
                || exists j :: 0 <= j < |s.entries| && s.entries[j].0 !in s.pinned)
  {
    hide Use, KeysOf;
    UseKeys(s, k, v);
    var u := Use(s, k, v);
    var n := |u.entries| - 1;
    if |u.entries| > capacity {
      assert k !in s.pinned;
      NewIsLast(s, k, v);
      var i := FirstUnpinned(u.entries, u.pinned, 0);
      assert u.entries[n].0 !in u.pinned;
      DropKeys(u, i);
      assert RemoveOldest(u, false) == Ok(Drop(u, i));
      assert RemoveOldIfNeeded(Drop(u, i), capacity) == Ok(Drop(u, i));
    }
  }

  lemma NewIsLast<K, V>(s: Cache<K, V>, k: K, v: V)
    requires NoDup(Keys(s)) && k !in Keys(s)
    ensures Use(s, k, v).entries == s.entries + [(k, v)]
  {
  }

  // ----- runs

  datatype Op<K, V> =
    | OpPut(k: K, v: V)
    | OpGet(k: K)
    | OpTouch(k: K)
    | OpPop(k: K)
    | OpPin(k: K)
    | OpRemoveOldest(removePinned: bool)
    | OpClear

  /** An operation that raises leaves the cache as it was. */
  function Step<K(==), V>(s: Cache<K, V>, capacity: nat, op: Op<K, V>): Cache<K, V> {
    match op
    case OpPut(k, v) => Or(Put(s, capacity, k, v), s)
    case OpGet(k) => Get(s, k).0
    case OpTouch(k) => Get(s, k).0
    case OpPop(k) => Pop(s, k)
    case OpPin(k) => Or(Pin(s, k), s)
    case OpRemoveOldest(p) => Or(RemoveOldest(s, p), s)
    case OpClear => Clear(s)
  }

  function Or<T>(r: Result<T>, t: T): T {
    if r.Ok? then r.value else t
  }

  function Run<K(==), V>(capacity: nat, ops: seq<Op<K, V>>): Cache<K, V> {
    if ops == [] then Cache([], {}, [])
    else Step(Run(capacity, ops[..|ops| - 1]), capacity, ops[|ops| - 1])
  }

  predicate Mentions<K(==), V>(op: Op<K, V>, k: K) {
    (op.OpPut? || op.OpGet? || op.OpTouch?) && op.k == k
  }

  /** When the key was last used: the last operation that mentions it. */
  function LastUse<K(==), V>(ops: seq<Op<K, V>>, k: K): int {
    if ops == [] then -1
    else if Mentions(ops[|ops| - 1], k) then |ops| - 1
    else LastUse(ops[..|ops| - 1], k)
  }

  lemma {:induction false} LastUseBefore<K, V>(ops: seq<Op<K, V>>, k: K)
    ensures -1 <= LastUse(ops, k) < |ops|
  {
    if ops != [] {
      LastUseBefore(ops[..|ops| - 1], k);
    }
  }

  /** The entries stand in the order of last use. */
  ghost predicate InUseOrder<K, V>(s: Cache<K, V>, ops: seq<Op<K, V>>) {
    forall i, j :: 0 <= i < j < |s.entries| ==> LastUse(ops, s.entries[i].0) < LastUse(ops, s.entries[j].0)
  }

  /** The value of the last put of a key. */
  function LastPut<K(==), V>(ops: seq<Op<K, V>>, k: K): Option<V> {
    if ops == [] then None
    else if ops[|ops| - 1].OpPut? && ops[|ops| - 1].k == k then Some(ops[|ops| - 1].v)
    else LastPut(ops[..|ops| - 1], k)
  }

  /** Every entry has the value of the last put of its key. */
  ghost predicate Latest<K, V>(s: Cache<K, V>, ops: seq<Op<K, V>>) {
    forall i :: 0 <= i < |s.entries| ==> LastPut(ops, s.entries[i].0) == Some(s.entries[i].1)
  }

  /** What the entries say about the history so far. */
  ghost predicate TrueTo<K, V>(s: Cache<K, V>, ops: seq<Op<K, V>>) {
    InUseOrder(s, ops) && Latest(s, ops)
  }

  /** `t` has entries of `s` in their order. */
  ghost predicate SubOrder<K, V>(t: seq<(K, V)>, s: seq<(K, V)>) {
    exists at: seq<nat> :: |at| == |t| && Picks(at, t, s)
  }

  ghost predicate Picks<K, V>(at: seq<nat>, t: seq<(K, V)>, s: seq<(K, V)>)
    requires |at| == |t|
  {
    && (forall i :: 0 <= i < |t| ==> at[i] < |s| && t[i] == s[at[i]])
    && (forall i, j :: 0 <= i < j < |t| ==> at[i] < at[j])
  }

  lemma SubOrderKeeps<K, V>(s: Cache<K, V>, t: Cache<K, V>, ops: seq<Op<K, V>>)
    requires TrueTo(s, ops) && SubOrder(t.entries, s.entries)
    ensures TrueTo(t, ops)
  {
  }

  lemma WithoutSubOrder<K, V>(s: seq<(K, V)>, i: nat)
    requires i < |s|
    ensures SubOrder(OrderedDict.Without(s, i), s)
  {
    var t := OrderedDict.Without(s, i);
    var at: seq<nat> := seq(|t|, j requires 0 <= j < |t| => if j < i then j else j + 1);
    assert Picks(at, t, s);
  }

  /** An operation that mentions none of the keys keeps their order. */
  lemma OrderLater<K, V>(s: Cache<K, V>, ops: seq<Op<K, V>>, op: Op<K, V>)
    requires TrueTo(s, ops) && forall i :: 0 <= i < |s.entries| ==> !Mentions(op, s.entries[i].0)
    ensures TrueTo(s, ops + [op])
  {
  }

  /** Using a key with the value of its last put. */
  lemma UseTrue<K, V>(s: Cache<K, V>, ops: seq<Op<K, V>>, op: Op<K, V>, k: K, v: V)
    requires NoDup(Keys(s)) && TrueTo(s, ops) && Mentions(op, k) && LastPut(ops + [op], k) == Some(v)
    ensures TrueTo(Use(s, k, v), ops + [op])
  {
    hide KeysOf, TrueTo, LastUse, LastPut, Use;
    var t := Use(s, k, v);
    var n := |t.entries| - 1;
    UseKeys(s, k, v);
    UsePrefix(s, k, v);
    var rest := s.(entries := t.entries[..n]);
    SubOrderKeeps(s, rest, ops);
    OrderLater(rest, ops, op);
    NewestLast(t, rest, ops, op);
  }

  /** The entry just used goes last. */
  lemma NewestLast<K, V>(t: Cache<K, V>, rest: Cache<K, V>, ops: seq<Op<K, V>>, op: Op<K, V>)
    requires t.entries != [] && rest.entries == t.entries[..|t.entries| - 1] && TrueTo(rest, ops + [op])
    requires var (k, v) := t.entries[|t.entries| - 1];
             && Mentions(op, k) && LastPut(ops + [op], k) == Some(v)
             && (forall i :: 0 <= i < |t.entries| - 1 ==> t.entries[i].0 != k)
    ensures TrueTo(t, ops + [op])
  {
    hide LastPut;
    var n := |t.entries| - 1;
    assert (ops + [op])[..|ops|] == ops;
    forall i | 0 <= i < n
      ensures LastUse(ops + [op], t.entries[i].0) < |ops|
    {
      LastUseBefore(ops, t.entries[i].0);
    }
    assert forall i :: 0 <= i < n ==> t.entries[i] == rest.entries[i];
  }

  lemma UsePrefix<K, V>(s: Cache<K, V>, k: K, v: V)
    requires NoDup(Keys(s))
    ensures var t := Use(s, k, v);
            && |t.entries| > 0 && SubOrder(t.entries[..|t.entries| - 1], s.entries)
            && (forall i :: 0 <= i < |t.entries| - 1 ==> t.entries[i].0 != k)
  {
    ContainsKeys(s, k);
    var t := Use(s, k, v);
    if Contains(s, k) {
      var i := OrderedDict.IndexOf(s.entries, k);
      WithoutSubOrder(s.entries, i);
      WithoutKeys(s.entries, i);
      assert t.entries[..|t.entries| - 1] == OrderedDict.Without(s.entries, i);
      forall j | 0 <= j < |t.entries| - 1
        ensures t.entries[j].0 != k
      {
        assert KeysOf(OrderedDict.Without(s.entries, i))[j] == t.entries[j].0;
      }
    } else {
      assert t.entries[..|t.entries| - 1] == s.entries;
      var at: seq<nat> := seq(|s.entries|, j requires 0 <= j < |s.entries| => j);
      assert Picks(at, s.entries, s.entries);
    }
  }

  // ----- the removal hook

  /** How often the hook has been called for a key. */
  function Hooks<K(==), V>(hooked: seq<(K, V)>, k: K): nat {
    if hooked == [] then 0
    else Hooks(hooked[..|hooked| - 1], k) + if hooked[|hooked| - 1].0 == k then 1 else 0
  }

  ghost function Presence<K, V>(s: Cache<K, V>, k: K): nat {
    Hooks(s.hooked, k) + Bit(k in Keys(s))
  }

  /** How often a key has come into the cache: puts while it was not there. */
  function Entered<K(==), V>(capacity: nat, ops: seq<Op<K, V>>, k: K): nat {
    if ops == [] then 0
    else
      var n := |ops| - 1;
      Entered(capacity, ops[..n], k)
      + if ops[n].OpPut? && ops[n].k == k && !Contains(Run(capacity, ops[..n]), k) then 1 else 0
  }

  lemma DropPresence<K, V>(s: Cache<K, V>, i: nat, k: K)
    requires i < |s.entries| && NoDup(Keys(s)) && forall x :: x in s.pinned ==> x in Keys(s)
    ensures Presence(Drop(s, i), k) == Presence(s, k)
  {
    hide KeysOf;
    DropKeys(s, i);
    var t := Drop(s, i);
    assert t.hooked[..|s.hooked|] == s.hooked;
    assert s.entries[i].0 in Keys(s) by { assert Keys(s)[i] == s.entries[i].0; }
  }

  /** What an operation keeps: validity, the order of use, and the balance of every key. */
  ghost predicate Kept<K(!new), V>(s: Cache<K, V>, t: Cache<K, V>, capacity: nat, ops: seq<Op<K, V>>, op: Op<K, V>) {
    && Valid(t, capacity) && TrueTo(t, ops + [op])
    && forall k :: Presence(t, k) == Presence(s, k) + Bit(op.OpPut? && op.k == k && !Contains(s, k))
  }

  lemma DropKept<K(!new), V>(s: Cache<K, V>, i: nat, capacity: nat, ops: seq<Op<K, V>>)
    requires Valid(s, capacity) && TrueTo(s, ops) && i < |s.entries|
    ensures Valid(Drop(s, i), capacity) && TrueTo(Drop(s, i), ops)
    ensures forall k :: Presence(Drop(s, i), k) == Presence(s, k)
  {
    hide Presence;
    DropKeys(s, i);
    WithoutSubOrder(s.entries, i);
    SubOrderKeeps(s, Drop(s, i), ops);
    forall k
      ensures Presence(Drop(s, i), k) == Presence(s, k)
    {
      DropPresence(s, i, k);
    }
  }

  lemma {:induction false} ClearKept<K(!new), V>(s: Cache<K, V>, capacity: nat, ops: seq<Op<K, V>>)
    requires Valid(s, capacity) && TrueTo(s, ops)
    ensures Clear(s).entries == [] && Valid(Clear(s), capacity) && TrueTo(Clear(s), ops)
    ensures forall k :: Presence(Clear(s), k) == Presence(s, k)
    decreases |s.entries|
  {
    hide Presence, TrueTo;
    if s.entries != [] {
      DropKept(s, 0, capacity, ops);
      ClearKept(Drop(s, 0), capacity, ops);
    }
  }

  lemma UsePresence<K, V>(s: Cache<K, V>, k: K, v: V, x: K)
    requires NoDup(Keys(s))
    ensures Presence(Use(s, k, v), x) == Presence(s, x) + Bit(x == k && !Contains(s, x))
  {
    hide KeysOf, Use;
    UseKeys(s, k, v);
    ContainsKeys(s, x);
  }

  lemma PutKept<K(!new), V>(s: Cache<K, V>, capacity: nat, ops: seq<Op<K, V>>, k: K, v: V)
    requires Valid(s, capacity) && TrueTo(s, ops)
    ensures Kept(s, Step(s, capacity, OpPut(k, v)), capacity, ops, OpPut(k, v))
  {
    hide Presence, TrueTo, Use, KeysOf, Put;
    PutKeeps(s, capacity, k, v);
    UseKeys(s, k, v);
    var u := Use(s, k, v);
    UseTrue(s, ops, OpPut(k, v), k, v);
    forall x
      ensures Presence(u, x) == Presence(s, x) + Bit(x == k && !Contains(s, x))
    {
      UsePresence(s, k, v, x);
    }
    if |u.entries| > capacity {
      DropKept(u, FirstUnpinned(u.entries, u.pinned, 0), |u.entries|, ops + [OpPut(k, v)]);
    }
  }

  lemma GetKept<K(!new), V>(s: Cache<K, V>, capacity: nat, ops: seq<Op<K, V>>, op: Op<K, V>)
    requires Valid(s, capacity) && TrueTo(s, ops) && (op.OpGet? || op.OpTouch?)
    ensures Kept(s, Step(s, capacity, op), capacity, ops, op)
  {
    hide Presence, TrueTo, Use, KeysOf;
    ContainsKeys(s, op.k);
    if Contains(s, op.k) {
      var v := s.entries[OrderedDict.IndexOf(s.entries, op.k)].1;
      UseKeys(s, op.k, v);
      GetKeepsValue(s, ops, op);
      UseTrue(s, ops, op, op.k, v);
      forall x
        ensures Presence(Use(s, op.k, v), x) == Presence(s, x)
      {
        UsePresence(s, op.k, v, x);
      }
    } else {
      OrderLater(s, ops, op);
    }
  }

  lemma GetKeepsValue<K, V>(s: Cache<K, V>, ops: seq<Op<K, V>>, op: Op<K, V>)
    requires TrueTo(s, ops) && (op.OpGet? || op.OpTouch?) && Contains(s, op.k)
    ensures LastPut(ops + [op], op.k) == Some(s.entries[OrderedDict.IndexOf(s.entries, op.k)].1)
  {
    assert (ops + [op])[..|ops|] == ops;
  }

  lemma StepKept<K(!new), V>(s: Cache<K, V>, capacity: nat, ops: seq<Op<K, V>>, op: Op<K, V>)
    requires Valid(s, capacity) && TrueTo(s, ops)
    ensures Kept(s, Step(s, capacity, op), capacity, ops, op)
  {
    hide TrueTo, Use, KeysOf, Clear;
    match op {
      case OpPut(k, v) =>
        PutKept(s, capacity, ops, k, v);
      case OpGet(k) =>
        GetKept(s, capacity, ops, op);
      case OpTouch(k) =>
        GetKept(s, capacity, ops, op);
      case OpPop(k) =>
        ContainsKeys(s, k);
        OrderLater(s, ops, op);
        if Contains(s, k) {
          DropKept(s, OrderedDict.IndexOf(s.entries, k), capacity, ops + [op]);
        } else {
          OrderLater(Step(s, capacity, op), ops, op) by { UnpinnedOrder(s, Step(s, capacity, op), ops); }
        }
      case OpPin(k) =>
        ContainsKeys(s, k);
        UnpinnedOrder(s, Step(s, capacity, op), ops);
        OrderLater(Step(s, capacity, op), ops, op);
      case OpRemoveOldest(p) =>
        OrderLater(s, ops, op);
        if s.entries != [] {
          var i := if p then 0 else FirstUnpinned(s.entries, s.pinned, 0);
          if i < |s.entries| {
            DropKept(s, i, capacity, ops + [op]);
          }
        }
      case OpClear =>
        OrderLater(s, ops, op);
        ClearKept(s, capacity, ops + [op]);
    }
  }

  lemma UnpinnedOrder<K, V>(s: Cache<K, V>, t: Cache<K, V>, ops: seq<Op<K, V>>)
    requires TrueTo(s, ops) && t.entries == s.entries
    ensures TrueTo(t, ops)
  {
  }

  /**
   * Over every history: at most `capacity` entries in the order of their last use, each with the value
   * that was put last, pinned keys are keys, and every key that came in is either still there or was
   * handed to the hook exactly once.
   */
  lemma {:induction false} RunKeeps<K(!new), V>(capacity: nat, ops: seq<Op<K, V>>)
    ensures Valid(Run(capacity, ops), capacity) && TrueTo(Run(capacity, ops), ops)
    ensures forall k :: Presence(Run(capacity, ops), k) == Entered(capacity, ops, k)
    decreases |ops|
  {
    hide Valid, TrueTo, Presence, Step;
    if ops == [] {
      EmptyKept<K, V>(capacity);
    } else {
      var n := |ops| - 1;
      RunKeeps(capacity, ops[..n]);
      StepKept(Run(capacity, ops[..n]), capacity, ops[..n], ops[n]);
      assert ops[..n] + [ops[n]] == ops;
    }
  }

  lemma EmptyKept<K(!new), V>(capacity: nat)
    ensures var s: Cache<K, V> := Cache([], {}, []);
            Valid(s, capacity) && TrueTo(s, []) && forall k :: Presence(s, k) == 0
  {
  }

  /** What a lookup finds in every run: the value that was put last, if the key is there. */
  lemma RunFinds<K(!new), V>(capacity: nat, ops: seq<Op<K, V>>, k: K)
    ensures var s := Run(capacity, ops);
            Get(s, k).1 == if k in Keys(s) then LastPut(ops, k) else None
  {
    hide LastPut, LastUse, Run, Valid, Presence;
    RunKeeps(capacity, ops);
    ContainsKeys(Run(capacity, ops), k);
  }

  // ----- pins

  /** The operations that take a pin away: pop, clear, and removing the oldest entry whatever it is. */
  ghost predicate Unpins<K, V>(s: Cache<K, V>, op: Op<K, V>, k: K) {
    || op == OpPop(k)
    || op.OpClear?
    || (op == OpRemoveOldest(true) && s.entries != [] && s.entries[0].0 == k)
  }

  /** It was pinned while it was there, and nothing since took the pin away. */
  ghost predicate PinnedSince<K, V>(capacity: nat, ops: seq<Op<K, V>>, k: K, i: nat) {
    && i < |ops| && ops[i] == OpPin(k) && k in Keys(Run(capacity, ops[..i]))
    && (forall j :: i < j < |ops| ==> !Unpins(Run(capacity, ops[..j]), ops[j], k))
  }

  /** `clear` hands every entry to the hook, oldest first. */
  lemma {:induction false} ClearHooks<K, V>(s: Cache<K, V>)
    ensures Clear(s).entries == [] && Clear(s).hooked == s.hooked + s.entries
    decreases |s.entries|
  {
    hide Drop;
    if s.entries != [] {
      var t := Drop(s, 0);
      DroppedFirst(s);
      ClearHooks(t);
      FirstMoved(s.hooked, s.entries);
    }
  }

  lemma DroppedFirst<K, V>(s: Cache<K, V>)
    requires s.entries != []
    ensures Drop(s, 0).entries == s.entries[1..] && Drop(s, 0).hooked == s.hooked + [s.entries[0]]
  {
  }

  lemma FirstMoved<T>(a: seq<T>, b: seq<T>)
    requires b != []
    ensures (a + [b[0]]) + b[1..] == a + b
  {
  }

  lemma {:induction false} ClearUnpinned<K, V>(s: Cache<K, V>, k: K)
    requires k in s.pinned ==> exists i :: 0 <= i < |s.entries| && s.entries[i].0 == k
    ensures k !in Clear(s).pinned
    decreases |s.entries|
  {
    if s.entries != [] {
      var t := Drop(s, 0);
      assert t.entries == s.entries[1..];
      if k in t.pinned {
        var i :| 0 <= i < |s.entries| && s.entries[i].0 == k;
        assert t.entries[i - 1].0 == k;
      }
      ClearUnpinned(t, k);
    }
  }

  lemma StepPins<K, V>(s: Cache<K, V>, capacity: nat, op: Op<K, V>, k: K)
    requires Valid(s, capacity)
    ensures k in Step(s, capacity, op).pinned <==>
            (op == OpPin(k) && k in Keys(s)) || (k in s.pinned && !Unpins(s, op, k))
  {
    hide KeysOf, Put, Clear, NoDup;
    match op {
      case OpPut(x, v) =>
        PutKeeps(s, capacity, x, v);
      case OpGet(x) =>
      case OpTouch(x) =>
      case OpPop(x) =>
      case OpPin(x) =>
        ContainsKeys(s, x);
      case OpRemoveOldest(_) =>
      case OpClear =>
        assert k in s.pinned ==> exists i :: 0 <= i < |s.entries| && Keys(s)[i] == k;
        ClearUnpinned(s, k);
    }
  }

  lemma PinnedSinceStep<K, V>(capacity: nat, ops: seq<Op<K, V>>, k: K, i: nat)
    requires ops != [] && i < |ops| - 1
    ensures var n := |ops| - 1;
            PinnedSince(capacity, ops, k, i) <==>
            PinnedSince(capacity, ops[..n], k, i) && !Unpins(Run(capacity, ops[..n]), ops[n], k)
  {
    hide Unpins, Run;
    var n := |ops| - 1;
    assert forall j :: 0 <= j <= n ==> ops[..n][..j] == ops[..j];
    assert forall j :: 0 <= j < n ==> ops[..n][j] == ops[j];
    if PinnedSince(capacity, ops, k, i) {
      forall j | i < j < n
        ensures !Unpins(Run(capacity, ops[..n][..j]), ops[..n][j], k)
      {
        assert !Unpins(Run(capacity, ops[..j]), ops[j], k);
      }
    }
  }

  /** Over every history: the pinned keys are those pinned while present and not unpinned since. */
  lemma {:induction false} RunPins<K(!new), V>(capacity: nat, ops: seq<Op<K, V>>, k: K)
    ensures k in Run(capacity, ops).pinned <==> exists i: nat :: PinnedSince(capacity, ops, k, i)
    ensures k in Run(capacity, ops).pinned ==> k in Keys(Run(capacity, ops))
    decreases |ops|
  {
    hide Step, Unpins, PinnedSince, Presence, TrueTo, KeysOf;
    RunKeeps(capacity, ops);
    if ops == [] {
      NeverPinned(capacity, ops, k);
    } else {
      var n := |ops| - 1;
      RunPins(capacity, ops[..n], k);
      RunKeeps(capacity, ops[..n]);
      StepPins(Run(capacity, ops[..n]), capacity, ops[n], k);
      PinnedLast(capacity, ops, k);
      forall i: nat | i < n
        ensures PinnedSince(capacity, ops, k, i) <==>
                PinnedSince(capacity, ops[..n], k, i) && !Unpins(Run(capacity, ops[..n]), ops[n], k)
      {
        PinnedSinceStep(capacity, ops, k, i);
      }
      PinnedWithin(capacity, ops, k);
      PinnedWithin(capacity, ops[..n], k);
    }
  }

  lemma NeverPinned<K, V>(capacity: nat, ops: seq<Op<K, V>>, k: K)
    requires ops == []
    ensures k !in Run(capacity, ops).pinned && !exists i: nat :: PinnedSince(capacity, ops, k, i)
  {
  }

  lemma PinnedLast<K, V>(capacity: nat, ops: seq<Op<K, V>>, k: K)
    requires ops != []
    ensures var n := |ops| - 1;
            PinnedSince(capacity, ops, k, n) <==> ops[n] == OpPin(k) && k in Keys(Run(capacity, ops[..n]))
  {
  }

  lemma PinnedWithin<K, V>(capacity: nat, ops: seq<Op<K, V>>, k: K)
    ensures forall i: nat :: PinnedSince(capacity, ops, k, i) ==> i < |ops|
  {
  }

  /**
   * `remove_oldest` takes out the least recently used entry, or the least recently used one that is
   * not pinned, and calls the hook for it; it raises exactly if every entry is pinned.
   */
  lemma RemovesOldest<K, V>(s: Cache<K, V>, removePinned: bool, i: nat)
    requires i < |s.entries|
    requires if removePinned then i == 0
             else s.entries[i].0 !in s.pinned && forall j :: 0 <= j < i ==> s.entries[j].0 in s.pinned
    ensures RemoveOldest(s, removePinned)
            == Ok(Cache(s.entries[..i] + s.entries[i + 1..], s.pinned - {s.entries[i].0}, s.hooked + [s.entries[i]]))
  {
    assert !removePinned ==> FirstUnpinned(s.entries, s.pinned, 0) == i;
  }

  lemma RemovesNothing<K, V>(s: Cache<K, V>)
    ensures RemoveOldest(s, false).Err? <==>
            s.entries != [] && forall j :: 0 <= j < |s.entries| ==> s.entries[j].0 in s.pinned
    ensures RemoveOldest(s, true).Ok?
  {
  }

  /** A value can be lost as it is put: with every other key pinned, the new key is the victim. */
  lemma PutLosesNewKey(v: int, w: int)
    ensures var s := Cache([(1, v)], {1}, []);
            Valid(s, 1) && Put(s, 1, 2, w) == Ok(Cache([(1, v)], {1}, [(2, w)]))
  {
    var s := Cache([(1, v)], {1}, []);
    assert Keys(s) == [1];
    ContainsKeys(s, 2);
    var u := Use(s, 2, w);
    assert u.entries == [(1, v), (2, w)];
    assert FirstUnpinned(u.entries, u.pinned, 0) == FirstUnpinned(u.entries, u.pinned, 1) == 1;
    assert Drop(u, 1) == Cache([(1, v)], {1}, [(2, w)]);
    assert RemoveOldIfNeeded(u, 1) == RemoveOldIfNeeded(Drop(u, 1), 1);
  }

  // ----- the object

  class LRUCache<K(==), V> {
    const capacity: nat
    var entries: seq<(K, V)>
    var pinned: set<K>
    var hooked: seq<(K, V)>

    ghost function Snapshot(): Cache<K, V>
      reads this
    {
      Cache(entries, pinned, hooked)
    }

    constructor (capacity: nat)
      ensures this.capacity == capacity && Snapshot() == Cache([], {}, []) && Valid(Snapshot(), capacity)
    {
      this.capacity, entries, pinned, hooked := capacity, [], {}, [];
    }

    method GetItem(k: K) returns (r: Result<V>)
      modifies this
      ensures var (s, v) := Get(old(Snapshot()), k);
              Snapshot() == s && r == if v.Some? then Ok(v.value) else Err(KeyError)
    {
      if !OrderedDict.Has(entries, k) {
        return Err(KeyError);
      }
      var i := OrderedDict.IndexOf(entries, k);
      r := Ok(entries[i].1);
      entries := OrderedDict.Without(entries, i) + [entries[i]];
    }

    method PutItem(k: K, v: V) returns (r: Result<()>)
      requires Valid(Snapshot(), capacity)
      modifies this
      ensures Valid(Snapshot(), capacity) && r == Ok(()) && Put(old(Snapshot()), capacity, k, v) == Ok(Snapshot())
    {
      PutKeeps(Snapshot(), capacity, k, v);
      if OrderedDict.Has(entries, k) {
        entries := OrderedDict.Without(entries, OrderedDict.IndexOf(entries, k)) + [(k, v)];
      } else {
        entries := entries + [(k, v)];
      }
      assert Snapshot() == Use(old(Snapshot()), k, v);
      r := RemoveOldItems();
    }

    method PinItem(k: K) returns (r: Result<()>)
      modifies this`pinned
      ensures var spec := Pin(old(Snapshot()), k);
              if spec.Ok? then r == Ok(()) && Snapshot() == spec.value
              else r == Err(spec.error) && Snapshot() == old(Snapshot())
    {
      if !OrderedDict.Has(entries, k) {
        return Err(ValueError);
      }
      pinned := pinned + {k};
      return Ok(());
    }

    method PopItem(k: K) returns (r: Option<V>)
      modifies this
      ensures Snapshot() == Pop(old(Snapshot()), k) && r == Get(old(Snapshot()), k).1
    {
      var present := OrderedDict.Has(entries, k);
      if present {
        var i := OrderedDict.IndexOf(entries, k);
        r := Some(entries[i].1);
        hooked := hooked + [entries[i]];
        entries := OrderedDict.Without(entries, i);
      } else {
        r := None;
      }
      pinned := pinned - {k};
    }

    method RemoveOldestItem(removePinned: bool) returns (r: Result<()>)
      requires NoDup(KeysOf(entries))
      modifies this
      ensures var spec := RemoveOldest(old(Snapshot()), removePinned);
              if spec.Ok? then r == Ok(()) && Snapshot() == spec.value
              else r == Err(spec.error) && Snapshot() == old(Snapshot())
    {
      if |entries| == 0 {
        return Ok(());
      }
      var i := 0;
      if !removePinned {
        while i < |entries| && entries[i].0 in pinned
          invariant i <= |entries|
          invariant FirstUnpinned(entries, pinned, 0) == FirstUnpinned(entries, pinned, i)
        {
          i := i + 1;
        }
        if i == |entries| {
          return Err(RuntimeError);
        }
      }
      assert OrderedDict.Has(entries, entries[i].0);
      assert OrderedDict.IndexOf(entries, entries[i].0) == i by {
        var j := OrderedDict.IndexOf(entries, entries[i].0);
        assert KeysOf(entries)[i] == KeysOf(entries)[j];
      }
      var _ := PopItem(entries[i].0);
      return Ok(());
    }

    method RemoveOldItems() returns (r: Result<()>)
      requires NoDup(KeysOf(entries)) && forall k :: k in pinned ==> k in KeysOf(entries)
      modifies this
      ensures var spec := RemoveOldIfNeeded(old(Snapshot()), capacity);
              if spec.Ok? then r == Ok(()) && Snapshot() == spec.value else r == Err(spec.error)
    {
      while |entries| > capacity
        invariant NoDup(KeysOf(entries)) && forall k :: k in pinned ==> k in KeysOf(entries)
        invariant RemoveOldIfNeeded(Snapshot(), capacity) == RemoveOldIfNeeded(old(Snapshot()), capacity)
        decreases |entries|
      {
        OldestKeys(Snapshot(), false);
        var o := RemoveOldestItem(false);
        if o.Err? {
          return o;
        }
      }
      return Ok(());
    }

    method ClearItems()
      requires NoDup(KeysOf(entries)) && forall k :: k in pinned ==> k in KeysOf(entries)
      modifies this
      ensures Snapshot() == Clear(old(Snapshot())) && entries == []
    {
      while |entries| > 0
        invariant NoDup(KeysOf(entries)) && forall k :: k in pinned ==> k in KeysOf(entries)
        invariant Clear(Snapshot()) == Clear(old(Snapshot()))
        decreases |entries|
      {
        OldestKeys(Snapshot(), true);
        var _ := RemoveOldestItem(true);
      }
    }
  }

  lemma OldestKeys<K, V>(s: Cache<K, V>, removePinned: bool)
    requires NoDup(Keys(s)) && (forall k :: k in s.pinned ==> k in Keys(s)) && s.entries != []
    ensures var r := RemoveOldest(s, removePinned);
            r.Ok? ==> && NoDup(Keys(r.value)) && (forall k :: k in r.value.pinned ==> k in Keys(r.value))
                      && |r.value.entries| == |s.entries| - 1
  {
    var i := if removePinned then 0 else FirstUnpinned(s.entries, s.pinned, 0);
    if i < |s.entries| {
      DropKeys(s, i);
    }
  }
}
