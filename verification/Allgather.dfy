/**
 * The hand-written allgather as a protocol: any number of ranks, back-to-back calls, and channels
 * that keep the order of the messages of a pair (section 3.5 of the MPI standard).
 */
module Allgather {
  import opened Arith

  /** What each rank contributes to each call; all contributions of one call have the same size. */
  datatype Job<T> = Job(ranks: nat, inputs: seq<seq<seq<T>>>)

  ghost predicate Valid<T>(a: Job<T>) {
    forall r :: 0 <= r < |a.inputs| ==>
      && |a.inputs[r]| == a.ranks
      && forall i, j :: 0 <= i < a.ranks && 0 <= j < a.ranks ==> |a.inputs[r][i]| == |a.inputs[r][j]|
  }

  /** Between calls, sending to rank `k` next, receiving from rank `k` next, or stopped by an error. */
  datatype Phase = Idle | Sending(k: nat) | Receiving(k: nat) | Failed

  /** One process: the calls it has finished with their results, and the call it is in. */
  datatype Rank<T> = Rank(results: seq<seq<T>>, phase: Phase, buf: seq<T>)

  type Channel<T> = seq<seq<T>>

  datatype State<T> = State(ranks: seq<Rank<T>>, chan: map<(nat, nat), Channel<T>>)

  function Done<T>(s: State<T>, i: nat): nat
    requires i < |s.ranks|
  {
    |s.ranks[i].results|
  }

  /** The buffer with `slice` at position `k` of its slices. */
  function WithSlice<T>(buf: seq<T>, k: nat, slice: seq<T>): seq<T> {
    var at := k * |slice|;
    if at + |slice| <= |buf| then
      MulStep(k, |slice|);
      buf[..at] + slice + buf[at + |slice|..]
    else buf
  }

  ghost predicate Shaped<T>(a: Job<T>, s: State<T>) {
    && |s.ranks| == a.ranks
    && (forall i, j :: 0 <= i < a.ranks && 0 <= j < a.ranks ==> (i, j) in s.chan)
    && (forall i :: 0 <= i < a.ranks ==> Done(s, i) <= |a.inputs|)
    && (forall i :: 0 <= i < a.ranks && !s.ranks[i].phase.Idle? ==> Done(s, i) < |a.inputs|)
  }

  // ----- steps

  /** What a rank does next; a call begins with a result buffer of some content `raw`. */
  datatype Action<T> = Start(raw: seq<T>) | Send | Receive | Finish

  ghost predicate Enabled<T>(a: Job<T>, s: State<T>, i: nat, act: Action<T>)
    requires Valid(a) && Shaped(a, s) && i < a.ranks
  {
    var r := s.ranks[i];
    match act
    case Start(raw) =>
      r.phase.Idle? && Done(s, i) < |a.inputs| && |raw| == a.ranks * |a.inputs[Done(s, i)][i]|
    case Send => r.phase.Sending? && r.phase.k < a.ranks
    case Receive => r.phase.Receiving? && r.phase.k < a.ranks && (r.phase.k != i ==> s.chan[(r.phase.k, i)] != [])
    case Finish => r.phase == Receiving(a.ranks)
  }

  function NextSend(n: nat, k: nat): Phase {
    if k + 1 < n then Sending(k + 1) else Receiving(0)
  }

  ghost function Next<T>(a: Job<T>, s: State<T>, i: nat, act: Action<T>): State<T>
    requires Valid(a) && Shaped(a, s) && i < a.ranks && Enabled(a, s, i, act)
  {
    var r, c := s.ranks[i], Done(s, i);
    match act
    case Start(raw) => // copies the own slice
      s.(ranks := s.ranks[i := r.(phase := Sending(0), buf := WithSlice(raw, i, a.inputs[c][i]))])
    case Send =>
      var k := r.phase.k;
      State(s.ranks[i := r.(phase := NextSend(a.ranks, k))],
            if k == i then s.chan else s.chan[(i, k) := s.chan[(i, k)] + [a.inputs[c][i]]])
    case Receive =>
      var k := r.phase.k;
      if k == i then s.(ranks := s.ranks[i := r.(phase := Receiving(k + 1))])
      else
        var m := s.chan[(k, i)][0];
        var rest := s.chan[(k, i) := s.chan[(k, i)][1..]];
        State(s.ranks[i := if |m| != |a.inputs[c][i]| then r.(phase := Failed)
                           else r.(phase := Receiving(k + 1), buf := WithSlice(r.buf, k, m))], rest)
    case Finish =>
      s.(ranks := s.ranks[i := Rank(r.results + [r.buf], Idle, [])])
  }

  // ----- the invariant

  /** Messages rank `i` has posted to `j`: one per finished call, and this call's once the loop is past `j`. */
  function Posted<T>(s: State<T>, i: nat, j: nat): nat
    requires i < |s.ranks|
  {
    Done(s, i) + match s.ranks[i].phase
                 case Idle => 0
                 case Sending(k) => if j < k then 1 else 0
                 case Receiving(_) => 1
                 case Failed => 1
  }

  /** Messages rank `j` has taken from `i`. */
  function Taken<T>(s: State<T>, j: nat, i: nat): nat
    requires j < |s.ranks|
  {
    Done(s, j) + match s.ranks[j].phase
                 case Idle => 0
                 case Sending(_) => 0
                 case Receiving(k) => if i < k then 1 else 0
                 case Failed => 0
  }

  /** The contributions of rank `i` to the calls from `lo` up to `hi`. */
  ghost function Contributions<T>(a: Job<T>, i: nat, lo: nat, hi: nat): (c: seq<seq<T>>)
    requires Valid(a) && i < a.ranks && lo <= hi <= |a.inputs|
    ensures |c| == hi - lo && forall x :: 0 <= x < hi - lo ==> c[x] == a.inputs[lo + x][i]
  {
    seq(hi - lo, x requires 0 <= x < hi - lo => a.inputs[lo + x][i])
  }

  /** A channel holds exactly what was posted and not yet taken, in order. */
  ghost predicate ChannelOk<T>(a: Job<T>, s: State<T>, i: nat, j: nat)
    requires Valid(a) && i < a.ranks == |s.ranks| && j < a.ranks && (i, j) in s.chan
  {
    && Taken(s, j, i) <= Posted(s, i, j) <= |a.inputs|
    && s.chan[(i, j)] == Contributions(a, i, Taken(s, j, i), Posted(s, i, j))
  }

  /** Slice `k` of a buffer of slices of length `n`. */
  function Slice<T>(buf: seq<T>, k: nat, n: nat): seq<T> {
    if 0 <= k * n && k * n + n <= |buf| then buf[k * n..k * n + n] else []
  }

  ghost predicate Gathered<T>(slices: seq<seq<T>>, buf: seq<T>, k: nat)
    requires k < |slices|
  {
    Slice(buf, k, |slices[k]|) == slices[k]
  }

  /** The buffer of a call in progress: the own slice, and those received so far. */
  ghost predicate BufferOk<T>(a: Job<T>, s: State<T>, i: nat)
    requires Valid(a) && i < a.ranks == |s.ranks| && Done(s, i) < |a.inputs|
  {
    var r, slices := s.ranks[i], a.inputs[Done(s, i)];
    && |r.buf| == a.ranks * |slices[i]|
    && (forall k :: 0 <= k < a.ranks && (k == i || (r.phase.Receiving? && k < r.phase.k)) ==>
      Gathered(slices, r.buf, k))
  }

  /** All slices of a call, in rank order. */
  ghost function Concat<T>(slices: seq<seq<T>>): seq<T> {
    if slices == [] then [] else Concat(slices[..|slices| - 1]) + slices[|slices| - 1]
  }

  ghost predicate RankOk<T>(a: Job<T>, s: State<T>, i: nat)
    requires Valid(a) && Shaped(a, s) && i < a.ranks
  {
    && !s.ranks[i].phase.Failed?
    && (s.ranks[i].phase.Sending? ==> s.ranks[i].phase.k < a.ranks)
    && (s.ranks[i].phase.Receiving? ==> s.ranks[i].phase.k <= a.ranks)
    && (!s.ranks[i].phase.Idle? ==> BufferOk(a, s, i))
    && (forall c :: 0 <= c < Done(s, i) ==> s.ranks[i].results[c] == Concat(a.inputs[c]))
  }

  ghost predicate Inv<T>(a: Job<T>, s: State<T>) {
    && Valid(a) && Shaped(a, s)
    && (forall i :: 0 <= i < a.ranks ==> RankOk(a, s, i))
    && (forall i, j :: 0 <= i < a.ranks && 0 <= j < a.ranks && i != j ==> ChannelOk(a, s, i, j))
  }

  // ----- every step keeps it

  lemma StepKeeps<T>(a: Job<T>, s: State<T>, i: nat, act: Action<T>)
    requires Inv(a, s) && i < a.ranks && Enabled(a, s, i, act)
    ensures Inv(a, Next(a, s, i, act))
  {
    hide BufferOk, Contributions, WithSlice, Concat;
    var s' := Next(a, s, i, act);
    assert RankOk(a, s, i);
    StepShaped(a, s, i, act);
    StepRank(a, s, i, act);
    forall j | 0 <= j < a.ranks
      ensures RankOk(a, s', j)
    {
      if j != i {
        OtherRank(a, s, s', j);
      }
    }
    forall p, q | 0 <= p < a.ranks && 0 <= q < a.ranks && p != q
      ensures ChannelOk(a, s', p, q)
    {
      assert ChannelOk(a, s, p, q);
      StepChannel(a, s, i, act, p, q);
    }
  }

  lemma StepShaped<T>(a: Job<T>, s: State<T>, i: nat, act: Action<T>)
    requires Inv(a, s) && i < a.ranks && Enabled(a, s, i, act)
    ensures Shaped(a, Next(a, s, i, act))
  {
    hide WithSlice, RankOk, ChannelOk, Inv;
    InvShape(a, s);
    var s' := Next(a, s, i, act);
    OneRankShaped(a, s, s', i, s'.ranks[i]);
  }

  lemma InvShape<T>(a: Job<T>, s: State<T>)
    requires Inv(a, s)
    ensures Valid(a) && Shaped(a, s)
  {
  }

  /** A step that changes one rank and no more than the content of the channels keeps the shape. */
  lemma OneRankShaped<T>(a: Job<T>, s: State<T>, s': State<T>, i: nat, r: Rank<T>)
    requires Shaped(a, s) && i < a.ranks && s'.ranks == s.ranks[i := r]
    requires |r.results| <= |a.inputs| && (!r.phase.Idle? ==> |r.results| < |a.inputs|)
    requires forall p :: p in s.chan ==> p in s'.chan
    ensures Shaped(a, s')
  {
    forall j | 0 <= j < a.ranks
      ensures Done(s', j) <= |a.inputs| && (!s'.ranks[j].phase.Idle? ==> Done(s', j) < |a.inputs|)
    {
      assert Done(s, j) <= |a.inputs|;
      assert s'.ranks[j] == if j == i then r else s.ranks[j];
    }
  }

  lemma OtherRank<T>(a: Job<T>, s: State<T>, s': State<T>, j: nat)
    requires Valid(a) && Shaped(a, s) && Shaped(a, s') && j < a.ranks && RankOk(a, s, j) && s'.ranks[j] == s.ranks[j]
    ensures RankOk(a, s', j)
  {
  }

  lemma StepChannel<T>(a: Job<T>, s: State<T>, i: nat, act: Action<T>, p: nat, q: nat)
    requires Inv(a, s) && i < a.ranks && Enabled(a, s, i, act) && p < a.ranks && q < a.ranks && p != q
    requires Shaped(a, Next(a, s, i, act))
    ensures ChannelOk(a, Next(a, s, i, act), p, q)
  {
    hide BufferOk, WithSlice, Concat, RankOk, Valid;
    assert Valid(a) && Shaped(a, s);
    assert ChannelOk(a, s, p, q);
    RankPhase(a, s, i);
    match act {
      case Start(_) =>
      case Send => SendChannel(a, s, i, p, q);
      case Receive => ReceiveChannel(a, s, i, p, q);
      case Finish =>
    }
  }

  lemma RankPhase<T>(a: Job<T>, s: State<T>, i: nat)
    requires Inv(a, s) && i < a.ranks
    ensures !s.ranks[i].phase.Failed?
    ensures s.ranks[i].phase.Sending? ==> s.ranks[i].phase.k < a.ranks
    ensures s.ranks[i].phase.Receiving? ==> s.ranks[i].phase.k <= a.ranks
  {
    assert RankOk(a, s, i);
  }

  lemma SendChannel<T>(a: Job<T>, s: State<T>, i: nat, p: nat, q: nat)
    requires Valid(a) && Shaped(a, s) && i < a.ranks && Enabled(a, s, i, Send) && p < a.ranks && q < a.ranks && p != q
    requires ChannelOk(a, s, p, q) && Shaped(a, Next(a, s, i, Send))
    ensures ChannelOk(a, Next(a, s, i, Send), p, q)
  {
    hide Valid;
  }

  lemma ReceiveChannel<T>(a: Job<T>, s: State<T>, i: nat, p: nat, q: nat)
    requires Valid(a) && Shaped(a, s) && i < a.ranks && Enabled(a, s, i, Receive) && p < a.ranks && q < a.ranks
             && p != q
    requires ChannelOk(a, s, p, q) && Shaped(a, Next(a, s, i, Receive))
    requires forall k :: 0 <= k < a.ranks && k != i ==> ChannelOk(a, s, k, i)
    ensures ChannelOk(a, Next(a, s, i, Receive), p, q)
  {
    hide WithSlice;
    if s.ranks[i].phase.k != i {
      assert ChannelOk(a, s, s.ranks[i].phase.k, i);
    }
  }

  lemma StepRank<T>(a: Job<T>, s: State<T>, i: nat, act: Action<T>)
    requires Inv(a, s) && i < a.ranks && Enabled(a, s, i, act) && Shaped(a, Next(a, s, i, act))
    ensures RankOk(a, Next(a, s, i, act), i)
  {
    hide Contributions, WithSlice, Concat, Gathered;
    assert RankOk(a, s, i);
    match act {
      case Start(raw) => OwnSlice(a, s, i, raw);
      case Send =>
      case Receive => ReceiveRank(a, s, i);
      case Finish => FinishRank(a, s, i);
    }
  }

  lemma OwnSlice<T>(a: Job<T>, s: State<T>, i: nat, raw: seq<T>)
    requires Valid(a) && Shaped(a, s) && i < a.ranks && Enabled(a, s, i, Start(raw))
    ensures var own := a.inputs[Done(s, i)][i];
            |WithSlice(raw, i, own)| == |raw| && Gathered(a.inputs[Done(s, i)], WithSlice(raw, i, own), i)
  {
    StepsApart(i, a.ranks, |a.inputs[Done(s, i)][i]|);
  }

  lemma ReceiveRank<T>(a: Job<T>, s: State<T>, i: nat)
    requires Inv(a, s) && i < a.ranks && Enabled(a, s, i, Receive) && Shaped(a, Next(a, s, i, Receive))
    ensures RankOk(a, Next(a, s, i, Receive), i)
  {
    hide WithSlice, Concat, Gathered;
    var k, slices := s.ranks[i].phase.k, a.inputs[Done(s, i)];
    assert RankOk(a, s, i);
    if k != i {
      assert ChannelOk(a, s, k, i);
      var m := s.chan[(k, i)][0];
      assert m == slices[k];
      assert |m| == |slices[i]|;
      forall j | 0 <= j < a.ranks && (j == i || j < k + 1)
        ensures Gathered(slices, WithSlice(s.ranks[i].buf, k, m), j)
      {
        SliceWritten(slices, s.ranks[i].buf, k, j);
      }
      SliceWritten(slices, s.ranks[i].buf, k, k);
    }
  }

  /** Writing slice `k` gathers it and leaves the other slices. */
  lemma SliceWritten<T>(slices: seq<seq<T>>, buf: seq<T>, k: nat, j: nat)
    requires k < |slices| && j < |slices| && |buf| == |slices| * |slices[k]| && |slices[j]| == |slices[k]|
    requires j == k || Gathered(slices, buf, j)
    ensures |WithSlice(buf, k, slices[k])| == |buf| && Gathered(slices, WithSlice(buf, k, slices[k]), j)
  {
    var n := |slices[k]|;
    StepsApart(k, |slices|, n);
    StepsApart(j, |slices|, n);
    if j < k {
      StepsApart(j, k, n);
    } else if k < j {
      StepsApart(k, j, n);
    }
    var now := WithSlice(buf, k, slices[k]);
    assert now[j * n..j * n + n] == slices[j];
  }

  /** All slices in place make the concatenation. */
  lemma {:induction false} AllGathered<T>(slices: seq<seq<T>>, buf: seq<T>, n: nat, m: nat)
    requires m <= |slices| && |buf| == |slices| * n && forall k :: 0 <= k < |slices| ==> |slices[k]| == n
    requires forall k :: 0 <= k < m ==> Gathered(slices, buf, k)
    ensures 0 <= m * n <= |buf| && buf[..m * n] == Concat(slices[..m])
    decreases m
  {
    if m > 0 {
      AllGathered(slices, buf, n, m - 1);
      MulStep(m - 1, n);
      MulMono(m, |slices|, n);
      assert Gathered(slices, buf, m - 1);
      assert slices[..m][..m - 1] == slices[..m - 1];
      assert buf[..m * n] == buf[..(m - 1) * n] + buf[(m - 1) * n..m * n];
    }
  }

  lemma FinishRank<T>(a: Job<T>, s: State<T>, i: nat)
    requires Inv(a, s) && i < a.ranks && Enabled(a, s, i, Finish) && Shaped(a, Next(a, s, i, Finish))
    ensures RankOk(a, Next(a, s, i, Finish), i)
  {
    hide Concat, Gathered;
    var slices := a.inputs[Done(s, i)];
    assert RankOk(a, s, i);
    AllGathered(slices, s.ranks[i].buf, |slices[i]|, a.ranks);
    assert slices[..a.ranks] == slices;
  }

  // ----- progress

  /**
   * The rank can move on even if a send completes only when its message has been received, which is
   * the latest that the standard allows.
   */
  ghost predicate Ready<T>(a: Job<T>, s: State<T>, i: nat)
    requires Valid(a) && Shaped(a, s) && i < a.ranks
  {
    match s.ranks[i].phase
    case Idle => Done(s, i) < |a.inputs|
    case Sending(k) => k < a.ranks
    case Receiving(k) =>
      if k < a.ranks then k == i || s.chan[(k, i)] != []
      else k == a.ranks && forall j :: 0 <= j < a.ranks && j != i ==> Taken(s, j, i) > Done(s, i)
    case Failed => false
  }

  lemma ReadyMoves<T>(a: Job<T>, s: State<T>, i: nat) returns (act: Action<T>)
    requires Valid(a) && Shaped(a, s) && i < a.ranks && Ready(a, s, i)
    ensures Enabled(a, s, i, act)
  {
    match s.ranks[i].phase {
      case Idle =>
        var own := a.inputs[Done(s, i)][i];
        MulMono(0, a.ranks, |own|);
        act := Start(if own == [] then [] else seq(a.ranks * |own|, _ => own[0]));
      case Sending(_) => act := Send;
      case Receiving(k) => act := if k < a.ranks then Receive else Finish;
    }
  }

  /** The rank has finished no more calls than any other. */
  ghost predicate Behind<T>(s: State<T>, i: nat)
    requires i < |s.ranks|
  {
    forall j :: 0 <= j < |s.ranks| ==> Done(s, i) <= Done(s, j)
  }

  lemma {:induction false} SomeBehind<T>(s: State<T>, n: nat) returns (i: nat)
    requires 0 < n <= |s.ranks|
    ensures i < n && forall j :: 0 <= j < n ==> Done(s, i) <= Done(s, j)
  {
    i := 0;
    if n > 1 {
      i := SomeBehind(s, n - 1);
      if Done(s, n - 1) < Done(s, i) {
        i := n - 1;
      }
    }
  }

  /** A rank that is behind waits only for a rank that can move. */
  lemma ReceiverWaits<T>(a: Job<T>, s: State<T>, i: nat)
    requires Inv(a, s) && i < a.ranks && Behind(s, i) && Done(s, i) < |a.inputs|
    requires s.ranks[i].phase.Receiving? && s.ranks[i].phase.k < a.ranks
    ensures Ready(a, s, i) || Ready(a, s, s.ranks[i].phase.k)
  {
    hide BufferOk, Concat, Contributions;
    var k := s.ranks[i].phase.k;
    if !Ready(a, s, i) {
      assert ChannelOk(a, s, k, i);
      RankPhase(a, s, k);
    }
  }

  lemma SenderWaits<T>(a: Job<T>, s: State<T>, i: nat) returns (j: nat)
    requires Inv(a, s) && i < a.ranks && Behind(s, i) && Done(s, i) < |a.inputs|
             && s.ranks[i].phase == Receiving(a.ranks)
    ensures j < a.ranks && Ready(a, s, j)
  {
    hide BufferOk, Concat, Contributions, RankOk, ChannelOk;
    if Ready(a, s, i) {
      j := i;
    } else {
      j :| 0 <= j < a.ranks && j != i && Taken(s, j, i) <= Done(s, i);
      RankPhase(a, s, j);
      if !Ready(a, s, j) {
        ReceiverWaits(a, s, j);
        j := s.ranks[j].phase.k;
      }
    }
  }

  /** No deadlock: while some rank has calls left, some rank can move. */
  lemma Progress<T>(a: Job<T>, s: State<T>, unfinished: nat) returns (i: nat)
    requires Inv(a, s) && unfinished < a.ranks && Done(s, unfinished) < |a.inputs|
    ensures i < a.ranks && Ready(a, s, i)
  {
    hide RankOk, ChannelOk;
    i := SomeBehind(s, a.ranks);
    RankPhase(a, s, i);
    match s.ranks[i].phase {
      case Idle =>
      case Sending(_) =>
      case Receiving(k) =>
        if k == a.ranks {
          i := SenderWaits(a, s, i);
        } else if !Ready(a, s, i) {
          ReceiverWaits(a, s, i);
          i := k;
        }
      case Failed =>
    }
  }

  // ----- every run ends

  /** Steps a rank has taken. */
  function Position<T>(a: Job<T>, r: Rank<T>): nat {
    |r.results| * (2 * a.ranks + 2) + match r.phase
                                      case Idle => 0
                                      case Sending(k) => 1 + k
                                      case Receiving(k) => 1 + a.ranks + k
                                      case Failed => 0
  }

  function Positions<T>(a: Job<T>, ranks: seq<Rank<T>>): nat {
    if ranks == [] then 0 else Positions(a, ranks[..|ranks| - 1]) + Position(a, ranks[|ranks| - 1])
  }

  /** Steps still to be taken by all ranks together. */
  function Remaining<T>(a: Job<T>, s: State<T>): int {
    a.ranks * (|a.inputs| * (2 * a.ranks + 2)) - Positions(a, s.ranks)
  }

  lemma {:induction false} PositionsStep<T>(a: Job<T>, ranks: seq<Rank<T>>, i: nat, r: Rank<T>)
    requires i < |ranks|
    ensures Positions(a, ranks[i := r]) == Positions(a, ranks) - Position(a, ranks[i]) + Position(a, r)
  {
    var n := |ranks| - 1;
    if i < n {
      assert ranks[i := r][..n] == ranks[..n][i := r];
      PositionsStep(a, ranks[..n], i, r);
    } else {
      assert ranks[i := r][..n] == ranks[..n];
    }
  }

  lemma {:induction false} PositionsBound<T>(a: Job<T>, ranks: seq<Rank<T>>, bound: nat)
    requires forall i :: 0 <= i < |ranks| ==> Position(a, ranks[i]) <= bound
    ensures Positions(a, ranks) <= |ranks| * bound
  {
    if ranks != [] {
      var n := |ranks| - 1;
      PositionsBound(a, ranks[..n], bound);
      MulStep(n, bound);
    }
  }

  /** Every step brings the end one step nearer, and the distance is never negative. */
  lemma StepAdvances<T>(a: Job<T>, s: State<T>, i: nat, act: Action<T>)
    requires Inv(a, s) && i < a.ranks && Enabled(a, s, i, act)
    ensures Remaining(a, Next(a, s, i, act)) == Remaining(a, s) - 1
    ensures Remaining(a, s) >= 0
  {
    hide Positions, RankOk, ChannelOk, WithSlice, Valid;
    var s' := Next(a, s, i, act);
    PositionsStep(a, s.ranks, i, s'.ranks[i]);
    assert s'.ranks == s.ranks[i := s'.ranks[i]];
    OneStepOn(a, s, i, act);
    RemainingNat(a, s);
  }

  lemma OneStepOn<T>(a: Job<T>, s: State<T>, i: nat, act: Action<T>)
    requires Inv(a, s) && i < a.ranks && Enabled(a, s, i, act)
    ensures Position(a, Next(a, s, i, act).ranks[i]) == Position(a, s.ranks[i]) + 1
  {
    hide ChannelOk, WithSlice, Concat;
    StepKeeps(a, s, i, act);
    RankPhase(a, s, i);
    RankPhase(a, Next(a, s, i, act), i);
    MulStep(Done(s, i), 2 * a.ranks + 2);
  }

  lemma RemainingNat<T>(a: Job<T>, s: State<T>)
    requires Inv(a, s)
    ensures Remaining(a, s) >= 0
  {
    hide ChannelOk, RankOk, Positions;
    var w := 2 * a.ranks + 2;
    forall i | 0 <= i < a.ranks
      ensures Position(a, s.ranks[i]) <= |a.inputs| * w
    {
      RankPhase(a, s, i);
      if s.ranks[i].phase.Idle? {
        MulMono(Done(s, i), |a.inputs|, w);
      } else {
        StepsApart(Done(s, i), |a.inputs|, w);
      }
    }
    PositionsBound(a, s.ranks, |a.inputs| * w);
  }

  // ----- runs

  ghost function Initial<T>(a: Job<T>): State<T> {
    State(seq(a.ranks, _ => Rank([], Idle, [])),
          map i, j | 0 <= i < a.ranks && 0 <= j < a.ranks :: (i, j) := [])
  }

  lemma InitialInv<T>(a: Job<T>)
    requires Valid(a)
    ensures Inv(a, Initial(a))
  {
    hide BufferOk, Concat;
  }

  ghost predicate Run<T>(a: Job<T>, s: State<T>, moves: seq<(nat, Action<T>)>, s': State<T>)
    decreases |moves|
  {
    if moves == [] then s' == s
    else
      && Valid(a) && Shaped(a, s) && moves[0].0 < a.ranks && Enabled(a, s, moves[0].0, moves[0].1)
      && Run(a, Next(a, s, moves[0].0, moves[0].1), moves[1..], s')
  }

  lemma {:induction false} RunKeeps<T>(a: Job<T>, s: State<T>, moves: seq<(nat, Action<T>)>, s': State<T>)
    requires Inv(a, s) && Run(a, s, moves, s')
    ensures Inv(a, s') && Remaining(a, s') == Remaining(a, s) - |moves|
    decreases |moves|
  {
    hide RankOk, ChannelOk, Remaining, Next;
    if moves != [] {
      StepKeeps(a, s, moves[0].0, moves[0].1);
      StepAdvances(a, s, moves[0].0, moves[0].1);
      RunKeeps(a, Next(a, s, moves[0].0, moves[0].1), moves[1..], s');
    }
  }

  /**
   * Over every run: no rank fails, every finished call of every rank returned the concatenation of
   * that call's contributions in rank order, the number of steps is bounded, and a run that cannot
   * be continued has finished all calls on all ranks.
   */
  lemma RunGathers<T>(a: Job<T>, moves: seq<(nat, Action<T>)>, s: State<T>)
    requires Valid(a) && Run(a, Initial(a), moves, s)
    ensures |moves| <= a.ranks * (|a.inputs| * (2 * a.ranks + 2))
    ensures Shaped(a, s)
    ensures forall i :: 0 <= i < a.ranks ==> !s.ranks[i].phase.Failed?
    ensures forall i, c :: 0 <= i < a.ranks && 0 <= c < Done(s, i) ==> s.ranks[i].results[c] == Concat(a.inputs[c])
    ensures (forall i :: 0 <= i < a.ranks ==> !Ready(a, s, i)) ==> forall i :: 0 <= i < a.ranks ==>
            Done(s, i) == |a.inputs|
  {
    hide ChannelOk, BufferOk, Concat, Run, Initial, Ready;
    InitialInv(a);
    RunKeeps(a, Initial(a), moves, s);
    RemainingNat(a, s);
    FreshPositions(a);
    forall i | 0 <= i < a.ranks
      ensures !s.ranks[i].phase.Failed?
      ensures forall c :: 0 <= c < Done(s, i) ==> s.ranks[i].results[c] == Concat(a.inputs[c])
      ensures Done(s, i) < |a.inputs| ==> exists j :: 0 <= j < a.ranks && Ready(a, s, j)
    {
      assert RankOk(a, s, i);
      if Done(s, i) < |a.inputs| {
        var j := Progress(a, s, i);
      }
    }
  }

  lemma FreshPositions<T>(a: Job<T>)
    ensures Positions(a, Initial(a).ranks) == 0
  {
    AllFresh(a, Initial(a).ranks);
  }

  lemma {:induction false} AllFresh<T>(a: Job<T>, ranks: seq<Rank<T>>)
    requires forall i :: 0 <= i < |ranks| ==> ranks[i] == Rank([], Idle, [])
    ensures Positions(a, ranks) == 0
  {
    if ranks != [] {
      AllFresh(a, ranks[..|ranks| - 1]);
    }
  }
}
