/** Block keys, and the least-recently-used evictor over an ordered dictionary of free blocks. */
module Evictor {
  import opened Wrappers
  import opened OrderedDict

  type Token = nat

  /**
   * What a block hash stands for, hashes being taken as injective: a value of the default counter,
   * or the prefix tokens (of the prompt, and of the output if the prefix reaches into it) with the
   * LoRA id.
   */
  datatype Key = Counter(n: nat) | Content(prompt: seq<Token>, output: Option<seq<Token>>, lora: nat)

  /** The mutable fields of a block. */
  datatype Info = Info(key: Key, refs: nat, numHashed: nat, last: real)

  /** The ordered dictionary from hashes to free blocks. */
  type FreeTable<B> = Dict<Key, B>

  ghost predicate Described<B>(t: FreeTable<B>, info: map<B, Info>) {
    forall i :: 0 <= i < |t| ==> t[i].1 in info
  }

  /** The scan from position `i` with the best candidate so far; it stops at a later access time. */
  function Scan<B(==)>(t: FreeTable<B>, info: map<B, Info>, best: nat, i: nat): (r: nat)
    requires Described(t, info) && best < |t| && i <= |t|
    ensures r < |t|
    decreases |t| - i
  {
    if i == |t| || info[t[best].1].last < info[t[i].1].last then best
    else if info[t[best].1].numHashed < info[t[i].1].numHashed then Scan(t, info, i, i + 1)
    else Scan(t, info, best, i + 1)
  }

  function Victim<B(==)>(t: FreeTable<B>, info: map<B, Info>): (r: nat)
    requires Described(t, info) && t != []
    ensures r < |t|
  {
    Scan(t, info, 0, 0)
  }

  // ----- the choice

  ghost predicate Sorted<B>(t: FreeTable<B>, info: map<B, Info>)
    requires Described(t, info)
  {
    forall i, j :: 0 <= i < j < |t| ==> info[t[i].1].last <= info[t[j].1].last
  }

  /** Least recent access; among those, the most hashed tokens. */
  ghost predicate Chosen<B>(t: FreeTable<B>, info: map<B, Info>, r: nat)
    requires Described(t, info) && r < |t|
  {
    forall j :: 0 <= j < |t| ==>
      && info[t[r].1].last <= info[t[j].1].last
      && (info[t[j].1].last == info[t[r].1].last ==> info[t[j].1].numHashed <= info[t[r].1].numHashed)
  }

  lemma {:induction false} ScanChooses<B>(t: FreeTable<B>, info: map<B, Info>, best: nat, i: nat)
    requires Described(t, info) && Sorted(t, info) && best < |t| && i <= |t| && (best < i || best == 0 == i)
    requires info[t[best].1].last == info[t[0].1].last
    requires forall j :: 0 <= j < i ==> info[t[j].1].last == info[t[0].1].last
    requires forall j :: 0 <= j < i ==> info[t[j].1].numHashed <= info[t[best].1].numHashed
    ensures Chosen(t, info, Scan(t, info, best, i))
    decreases |t| - i
  {
    if i == |t| || info[t[best].1].last < info[t[i].1].last {
    } else if info[t[best].1].numHashed < info[t[i].1].numHashed {
      ScanChooses(t, info, i, i + 1);
    } else {
      ScanChooses(t, info, best, i + 1);
    }
  }

  /** On a table in order of access, the early exit of the scan agrees with a full search. */
  lemma EvictChooses<B>(t: FreeTable<B>, info: map<B, Info>)
    requires Described(t, info) && t != [] && Sorted(t, info)
    ensures Chosen(t, info, Victim(t, info))
  {
    ScanChooses(t, info, 0, 0);
  }

  // ----- the choice on any table

  /** The first of the first `n` entries with the most hashed tokens. */
  function MostHashed<B(==)>(t: FreeTable<B>, info: map<B, Info>, n: nat): (r: nat)
    requires Described(t, info) && 0 < n <= |t|
    ensures r < n
  {
    if n == 1 then 0
    else
      var b := MostHashed(t, info, n - 1);
      if info[t[b].1].numHashed < info[t[n - 1].1].numHashed then n - 1 else b
  }

  lemma {:induction false} MostHashedIsFirst<B>(t: FreeTable<B>, info: map<B, Info>, n: nat)
    requires Described(t, info) && 0 < n <= |t|
    ensures var r := MostHashed(t, info, n);
            && (forall i :: 0 <= i < n ==> info[t[i].1].numHashed <= info[t[r].1].numHashed)
            && (forall i :: 0 <= i < r ==> info[t[i].1].numHashed < info[t[r].1].numHashed)
  {
    if n > 1 {
      MostHashedIsFirst(t, info, n - 1);
    }
  }

  /** No entry up to `j` was accessed later than the most hashed one before it, so the scan gets to `j`. */
  ghost predicate InReach<B>(t: FreeTable<B>, info: map<B, Info>, j: nat)
    requires Described(t, info) && j < |t|
  {
    forall i :: 0 < i <= j ==> info[t[i].1].last <= info[t[MostHashed(t, info, i)].1].last
  }

  ghost predicate FirstOfItsSize<B>(t: FreeTable<B>, info: map<B, Info>, j: nat)
    requires Described(t, info) && j < |t|
  {
    forall i :: 0 <= i < j ==> info[t[i].1].numHashed < info[t[j].1].numHashed
  }

  /** The scan from `i` on, with everything before it in reach. */
  lemma {:induction false} ScanStops<B>(t: FreeTable<B>, info: map<B, Info>, i: nat) returns (r: nat)
    requires Described(t, info) && 0 < i <= |t| && InReach(t, info, i - 1)
    ensures i <= r <= |t| && InReach(t, info, r - 1) && Scan(t, info, MostHashed(t, info, i), i)
            == MostHashed(t, info, r)
    ensures r < |t| ==> info[t[MostHashed(t, info, r)].1].last < info[t[r].1].last
    decreases |t| - i
  {
    r := i;
    if i < |t| && info[t[i].1].last <= info[t[MostHashed(t, info, i)].1].last {
      r := ScanStops(t, info, i + 1);
    }
  }

  /** The victim is the most hashed entry of those in reach. */
  lemma VictimIs<B>(t: FreeTable<B>, info: map<B, Info>) returns (n: nat)
    requires Described(t, info) && t != []
    ensures 0 < n <= |t| && InReach(t, info, n - 1) && Victim(t, info) == MostHashed(t, info, n)
    ensures n < |t| ==> info[t[MostHashed(t, info, n)].1].last < info[t[n].1].last
  {
    assert Victim(t, info) == Scan(t, info, MostHashed(t, info, 1), 1);
    n := ScanStops(t, info, 1);
  }

  /**
   * On any table: the early exit finds a block of least access and most hashed tokens if and only if
   * some such block is in reach of the scan and has more hashed tokens than all before it.
   */
  lemma EvictChoosesIff<B>(t: FreeTable<B>, info: map<B, Info>)
    requires Described(t, info) && t != []
    ensures Chosen(t, info, Victim(t, info)) <==>
            exists j :: 0 <= j < |t| && Chosen(t, info, j) && FirstOfItsSize(t, info, j) && InReach(t, info, j)
  {
    hide Victim;
    var n := VictimIs(t, info);
    MostHashedIsFirst(t, info, n);
    if Chosen(t, info, Victim(t, info)) {
      var v := Victim(t, info);
      assert FirstOfItsSize(t, info, v) && InReach(t, info, v);
    }
    if j :| 0 <= j < |t| && Chosen(t, info, j) && FirstOfItsSize(t, info, j) && InReach(t, info, j) {
      ReachedIsVictim(t, info, j, n);
    }
  }

  lemma ReachedIsVictim<B>(t: FreeTable<B>, info: map<B, Info>, j: nat, n: nat)
    requires Described(t, info) && j < |t| && Chosen(t, info, j) && FirstOfItsSize(t, info, j) && InReach(t, info, j)
    requires 0 < n <= |t| && InReach(t, info, n - 1)
    requires n < |t| ==> info[t[MostHashed(t, info, n)].1].last < info[t[n].1].last
    ensures MostHashed(t, info, n) == j
  {
    if j < n {
      StaysChosen(t, info, j, n);
    }
  }

  /** Once reached, the chosen entry stays the most hashed one in reach. */
  lemma {:induction false} StaysChosen<B>(t: FreeTable<B>, info: map<B, Info>, j: nat, n: nat)
    requires Described(t, info) && j < n <= |t| && Chosen(t, info, j) && FirstOfItsSize(t, info, j)
             && InReach(t, info, n - 1)
    ensures MostHashed(t, info, n) == j
  {
    if n == j + 1 {
      if j > 0 {
        assert info[t[MostHashed(t, info, j)].1].numHashed < info[t[j].1].numHashed;
      }
    } else {
      StaysChosen(t, info, j, n - 1);
      assert info[t[n - 1].1].last <= info[t[MostHashed(t, info, n - 1)].1].last;
    }
  }

  // ----- runs of the evictor

  datatype EvictorOp<B> = AddBlock(b: B) | RemoveKey(k: Key) | EvictOne | Use(b: B, i: Info)

  /** A free table with the fields of all blocks. */
  datatype EvictorState<B> = EvictorState(t: FreeTable<B>, info: map<B, Info>)

  ghost predicate Ordered<B>(s: EvictorState<B>) {
    Described(s.t, s.info) && Sorted(s.t, s.info)
  }

  /**
   * Blocks come in with a new hash and no earlier access than those already there; the fields of a
   * block change only while it is not in the table.
   */
  ghost predicate InOrder<B>(s: EvictorState<B>, op: EvictorOp<B>)
    requires Described(s.t, s.info)
  {
    match op
    case AddBlock(b) =>
      && b in s.info && !Has(s.t, s.info[b].key)
      && (forall i :: 0 <= i < |s.t| ==> s.info[s.t[i].1].last <= s.info[b].last)
    case RemoveKey(k) => Has(s.t, k)
    case EvictOne => s.t != []
    case Use(b, _) => forall i :: 0 <= i < |s.t| ==> s.t[i].1 != b
  }

  ghost function EvictorStep<B>(s: EvictorState<B>, op: EvictorOp<B>): EvictorState<B>
    requires Described(s.t, s.info) && InOrder(s, op)
  {
    match op
    case AddBlock(b) => s.(t := Put(s.t, s.info[b].key, b))
    case RemoveKey(k) => s.(t := Without(s.t, IndexOf(s.t, k)))
    case EvictOne => s.(t := Without(s.t, Victim(s.t, s.info)))
    case Use(b, i) => s.(info := s.info[b := i])
  }

  ghost predicate EvictorRun<B>(s: EvictorState<B>, ops: seq<EvictorOp<B>>, s': EvictorState<B>)
    decreases |ops|
  {
    if ops == [] then s' == s
    else Described(s.t, s.info) && InOrder(s, ops[0]) && EvictorRun(EvictorStep(s, ops[0]), ops[1..], s')
  }

  lemma StepOrdered<B>(s: EvictorState<B>, op: EvictorOp<B>)
    requires Ordered(s) && InOrder(s, op)
    ensures Ordered(EvictorStep(s, op))
  {
    hide IndexOf, Scan;
    match op {
      case AddBlock(b) =>
      case RemoveKey(k) => WithoutOrdered(s, IndexOf(s.t, k));
      case EvictOne => WithoutOrdered(s, Victim(s.t, s.info));
      case Use(b, i) =>
    }
  }

  lemma WithoutOrdered<B>(s: EvictorState<B>, i: nat)
    requires Ordered(s) && i < |s.t|
    ensures Ordered(s.(t := Without(s.t, i)))
  {
  }

  /** The table stays in order, so every eviction of a run is the right one. */
  lemma {:induction false} EvictorRunChooses<B>(s: EvictorState<B>, ops: seq<EvictorOp<B>>, s': EvictorState<B>)
    requires Ordered(s) && EvictorRun(s, ops, s')
    ensures Ordered(s')
    ensures s'.t != [] ==> Chosen(s'.t, s'.info, Victim(s'.t, s'.info))
    decreases |ops|
  {
    hide Ordered;
    if ops == [] {
      assert Described(s.t, s.info) && Sorted(s.t, s.info) by { OrderedParts(s); }
      if s.t != [] {
        EvictChooses(s.t, s.info);
      }
    } else {
      StepOrdered(s, ops[0]);
      EvictorRunChooses(EvictorStep(s, ops[0]), ops[1..], s');
    }
  }

  lemma OrderedParts<B>(s: EvictorState<B>)
    requires Ordered(s)
    ensures Described(s.t, s.info) && Sorted(s.t, s.info)
  {
  }
}
