/** Keeping a worker's copy of a sequence up to date by sending what was appended. */
module SequenceDelta {
  import opened Wrappers

  type Token = int

  datatype Stage = Prefill | Decode

  /** `cached` is the list of all tokens, `appended` what has not been sent yet. */
  datatype Data = Data(prompt: seq<Token>, output: seq<Token>, logprob: real, computed: int, stage: Stage,
                       cached: seq<Token>, appended: seq<Token>)

  datatype Delta = Delta(tokens: seq<Token>, logprob: real, computed: int, stage: Stage)

  function Created(prompt: seq<Token>, output: seq<Token>): Data {
    Data(prompt, output, 0.0, 0, Prefill, prompt + output, [])
  }

  function Append(d: Data, token: Token, logprob: real): Data {
    d.(output := d.output + [token], appended := d.appended + [token], cached := d.cached + [token],
       logprob := d.logprob + logprob)
  }

  /** The count goes up before the assertion looks at it, so it stays up if the assertion fails. */
  function Compute(d: Data, n: int): (Data, bool) {
    var d' := d.(computed := d.computed + n);
    var len := |d.prompt| + |d.output|;
    (if d'.computed == len then d'.(stage := Decode) else d', d'.computed <= len)
  }

  function Reset(d: Data): Data {
    d.(computed := 0, stage := Prefill, appended := [])
  }

  function DeltaOf(d: Data): (Delta, Data) {
    (Delta(d.appended, d.logprob, d.computed, d.stage), d.(appended := []))
  }

  function Apply(d: Data, delta: Delta): Data {
    d.(computed := delta.computed, logprob := delta.logprob, stage := delta.stage,
       output := d.output + delta.tokens, cached := d.cached + delta.tokens)
  }

  // ----- a source and its replica

  datatype Pair = Pair(source: Data, replica: Data)

  datatype Op = OpAppend(token: Token, logprob: real) | OpCompute(n: int) | OpReset | OpExchange

  function Step(p: Pair, op: Op): Pair {
    match op
    case OpAppend(t, l) => p.(source := Append(p.source, t, l))
    case OpCompute(n) => p.(source := Compute(p.source, n).0)
    case OpReset => p.(source := Reset(p.source))
    case OpExchange =>
      var (delta, d) := DeltaOf(p.source);
      Pair(d, Apply(p.replica, delta))
  }

  function Run(p: Pair, ops: seq<Op>): Pair {
    if ops == [] then p else Step(Run(p, ops[..|ops| - 1]), ops[|ops| - 1])
  }

  /** The replica lacks exactly the tokens that are waiting to be sent. */
  ghost predicate InSync(p: Pair) {
    p.source.output == p.replica.output + p.source.appended
  }

  /** Fields that hold in any case: same prompt, token lists true to the tokens, nothing pending on the replica. */
  ghost predicate Sound(p: Pair) {
    && p.source.prompt == p.replica.prompt
    && p.source.cached == p.source.prompt + p.source.output
    && p.replica.cached == p.replica.prompt + p.replica.output
    && p.replica.appended == []
  }

  /** All that the model reads is the same on both sides. */
  ghost predicate SameSequence(a: Data, b: Data) {
    && a.prompt == b.prompt && a.output == b.output && a.cached == b.cached
    && a.computed == b.computed && a.stage == b.stage && a.logprob == b.logprob
  }

  /** Tokens dropped by resets that came while tokens were waiting. */
  function Lost(p: Pair, ops: seq<Op>): nat {
    if ops == [] then 0
    else
      var n := |ops| - 1;
      Lost(p, ops[..n]) + if ops[n].OpReset? then |Run(p, ops[..n]).source.appended| else 0
  }

  ghost predicate ResetsClean(p: Pair, ops: seq<Op>) {
    forall k :: 0 <= k < |ops| && ops[k].OpReset? ==> Run(p, ops[..k]).source.appended == []
  }

  lemma {:induction false} RunSound(p: Pair, ops: seq<Op>)
    requires Sound(p) && InSync(p)
    ensures var q := Run(p, ops);
            && Sound(q) && |q.source.output| == |q.replica.output| + |q.source.appended| + Lost(p, ops)
            && (Lost(p, ops) == 0 ==> InSync(q))
            && (|ops| > 0 && ops[|ops| - 1].OpExchange? && Lost(p, ops) == 0 ==> SameSequence(q.source, q.replica))
    decreases |ops|
  {
    if ops != [] {
      RunSound(p, ops[..|ops| - 1]);
    }
  }

  lemma {:induction false} LostNothing(p: Pair, ops: seq<Op>)
    ensures Lost(p, ops) == 0 <==> ResetsClean(p, ops)
    decreases |ops|
  {
    if ops != [] {
      var n := |ops| - 1;
      LostNothing(p, ops[..n]);
      assert forall k :: 0 <= k < n ==> ops[..n][..k] == ops[..k];
      if ResetsClean(p, ops) {
        forall k | 0 <= k < n && ops[..n][k].OpReset?
          ensures Run(p, ops[..n][..k]).source.appended == []
        {
          assert ops[k].OpReset?;
        }
      }
      assert forall k :: 0 <= k < n ==> ops[..n][k] == ops[k];
    }
  }

  /**
   * For every interleaving: the source's output is the replica's plus the pending tokens if and only
   * if no reset came while tokens were pending, and then every exchange makes the two sides equal.
   */
  lemma Replication(prompt: seq<Token>, output: seq<Token>, ops: seq<Op>)
    ensures var p := Pair(Created(prompt, output), Created(prompt, output));
            var q := Run(p, ops);
            && Sound(q)
            && (InSync(q) <==> ResetsClean(p, ops))
            && (|ops| > 0 && ops[|ops| - 1].OpExchange? ==>
              (SameSequence(q.source, q.replica) <==> ResetsClean(p, ops)))
  {
    hide ResetsClean;
    var p := Pair(Created(prompt, output), Created(prompt, output));
    RunSound(p, ops);
    LostNothing(p, ops);
    ExchangeSends(p, ops);
  }

  lemma ExchangeSends(p: Pair, ops: seq<Op>)
    ensures |ops| > 0 && ops[|ops| - 1].OpExchange? ==> Run(p, ops).source.appended == []
  {
  }

  /** A reset with a token pending loses it for good: the replica's output stays short. */
  lemma DirtyResetLoses(token: Token)
    ensures var p := Pair(Created([1], []), Created([1], []));
            var q := Run(p, [OpAppend(token, 0.0), OpReset, OpExchange]);
            q.source.output == [token] && q.replica.output == []
  {
    var p := Pair(Created([1], []), Created([1], []));
    var ops := [OpAppend(token, 0.0), OpReset, OpExchange];
    assert ops[..2] == [OpAppend(token, 0.0), OpReset];
    assert ops[..2][..1] == [OpAppend(token, 0.0)];
    assert ops[..2][..1][..0] == [];
    assert Run(p, ops[..2][..1]) == p.(source := Append(p.source, token, 0.0));
    assert Run(p, ops[..2]) == p.(source := Reset(Append(p.source, token, 0.0)));
  }

  // ----- the fields by the history

  /** The operations after the last reset. */
  ghost function SinceReset(ops: seq<Op>): seq<Op> {
    if ops == [] then []
    else if ops[|ops| - 1].OpReset? then []
    else SinceReset(ops[..|ops| - 1]) + [ops[|ops| - 1]]
  }

  ghost function AppendedTokens(ops: seq<Op>): seq<Token> {
    if ops == [] then []
    else AppendedTokens(ops[..|ops| - 1]) + if ops[|ops| - 1].OpAppend? then [ops[|ops| - 1].token] else []
  }

  ghost function TotalLogprob(ops: seq<Op>): real {
    if ops == [] then 0.0
    else TotalLogprob(ops[..|ops| - 1]) + if ops[|ops| - 1].OpAppend? then ops[|ops| - 1].logprob else 0.0
  }

  ghost function TotalComputed(ops: seq<Op>): int {
    if ops == [] then 0
    else TotalComputed(ops[..|ops| - 1]) + if ops[|ops| - 1].OpCompute? then ops[|ops| - 1].n else 0
  }

  /** With operation `k` the count reached the length of the sequence, and no reset came after it. */
  ghost predicate ReachedAt(len: nat, ops: seq<Op>, k: nat) {
    && k < |ops| && ops[k].OpCompute? && (forall j :: k < j < |ops| ==> !ops[j].OpReset?)
    && TotalComputed(SinceReset(ops[..k + 1])) == len + |AppendedTokens(ops[..k + 1])|
  }

  lemma ReachedBefore(len: nat, ops: seq<Op>, k: nat)
    requires ops != [] && k < |ops| - 1
    ensures ReachedAt(len, ops, k) <==> ReachedAt(len, ops[..|ops| - 1], k) && !ops[|ops| - 1].OpReset?
  {
    var n := |ops| - 1;
    assert ops[..n][..k + 1] == ops[..k + 1];
    assert forall j :: 0 <= j < n ==> ops[..n][j] == ops[j];
  }

  ghost predicate Reached(len: nat, ops: seq<Op>) {
    exists k: nat :: ReachedAt(len, ops, k)
  }

  lemma {:induction false} SourceOutput(p: Pair, ops: seq<Op>)
    ensures var d := Run(p, ops).source;
            d.prompt == p.source.prompt && d.output == p.source.output + AppendedTokens(ops)
    decreases |ops|
  {
    if ops != [] {
      var n := |ops| - 1;
      SourceOutput(p, ops[..n]);
      OutputStep(Run(p, ops[..n]), ops[n], p.source.output, AppendedTokens(ops[..n]));
    }
  }

  lemma OutputStep(q: Pair, op: Op, output: seq<Token>, appended: seq<Token>)
    requires q.source.output == output + appended
    ensures Step(q, op).source.prompt == q.source.prompt
    ensures Step(q, op).source.output == output + (appended + if op.OpAppend? then [op.token] else [])
  {
  }

  lemma {:induction false} SourceCounts(p: Pair, ops: seq<Op>)
    requires p.source.logprob == 0.0 && p.source.computed == 0
    ensures var d := Run(p, ops).source;
            d.logprob == TotalLogprob(ops) && d.computed == TotalComputed(SinceReset(ops))
    decreases |ops|
  {
    if ops != [] {
      var n := |ops| - 1;
      SourceCounts(p, ops[..n]);
      CountsStep(Run(p, ops[..n]), ops[n]);
      SinceSnoc(SinceReset(ops[..n]), ops[n]);
    }
  }

  lemma CountsStep(q: Pair, op: Op)
    ensures var d := Step(q, op).source;
            && d.logprob == q.source.logprob + (if op.OpAppend? then op.logprob else 0.0)
            && d.computed == (if op.OpReset? then 0
                              else if op.OpCompute? then q.source.computed + op.n
                              else q.source.computed)
            && (d.stage.Decode? <==> (op.OpCompute? && d.computed == |d.prompt| + |d.output|)
                                     || (q.source.stage.Decode? && !op.OpReset?))
  {
  }

  lemma SinceSnoc(ops: seq<Op>, op: Op)
    ensures TotalComputed(ops + [op]) == TotalComputed(ops) + if op.OpCompute? then op.n else 0
  {
    assert (ops + [op])[..|ops|] == ops;
  }

  /** What the last operation does to the stage that the history calls for. */
  lemma ReachedStep(len: nat, ops: seq<Op>)
    requires ops != []
    ensures var n := |ops| - 1;
            Reached(len, ops) <==>
            || (ops[n].OpCompute? && TotalComputed(SinceReset(ops)) == len + |AppendedTokens(ops)|)
            || (Reached(len, ops[..n]) && !ops[n].OpReset?)
  {
    hide AppendedTokens, TotalComputed, SinceReset;
    var n := |ops| - 1;
    assert ops[..n + 1] == ops;
    assert ReachedAt(len, ops, n) <==>
           ops[n].OpCompute? && TotalComputed(SinceReset(ops)) == len + |AppendedTokens(ops)|;
    forall k: nat | k < n
      ensures ReachedAt(len, ops, k) <==> ReachedAt(len, ops[..n], k) && !ops[n].OpReset?
    {
      ReachedBefore(len, ops, k);
    }
    assert forall k: nat :: ReachedAt(len, ops, k) ==> k <= n;
    assert forall k: nat :: ReachedAt(len, ops[..n], k) ==> k < n;
    hide ReachedAt;
    if Reached(len, ops) {
      var k: nat :| ReachedAt(len, ops, k);
      assert k == n || ReachedAt(len, ops[..n], k);
    }
    if Reached(len, ops[..n]) {
      var k: nat :| ReachedAt(len, ops[..n], k);
      assert ReachedAt(len, ops, k) <==> !ops[n].OpReset?;
    }
  }

  lemma {:induction false} SourceStage(p: Pair, ops: seq<Op>)
    requires p.source == Created(p.source.prompt, p.source.output)
    ensures Run(p, ops).source.stage.Decode? <==> Reached(|p.source.prompt| + |p.source.output|, ops)
    decreases |ops|
  {
    hide Reached, AppendedTokens, TotalComputed, SinceReset, Step;
    var len := |p.source.prompt| + |p.source.output|;
    if ops == [] {
      NothingReached(len);
    } else {
      var n := |ops| - 1;
      SourceStage(p, ops[..n]);
      SourceOutput(p, ops);
      SourceCounts(p, ops);
      CountsStep(Run(p, ops[..n]), ops[n]);
      ReachedStep(len, ops);
    }
  }

  lemma NothingReached(len: nat)
    ensures !Reached(len, [])
  {
  }

  /**
   * The fields of the source after every history: the tokens appended so far, the sum of their
   * log-probabilities, the tokens computed since the last reset, and decoding exactly if since then
   * an update brought the count to the length.
   */
  lemma SourceHistory(prompt: seq<Token>, output: seq<Token>, ops: seq<Op>)
    ensures var d := Run(Pair(Created(prompt, output), Created(prompt, output)), ops).source;
            && d.prompt == prompt && d.output == output + AppendedTokens(ops)
            && d.logprob == TotalLogprob(ops) && d.computed == TotalComputed(SinceReset(ops))
            && (d.stage.Decode? <==> Reached(|prompt| + |output|, ops))
  {
    hide Run, Reached;
    var p := Pair(Created(prompt, output), Created(prompt, output));
    SourceOutput(p, ops);
    SourceCounts(p, ops);
    SourceStage(p, ops);
  }

  lemma AppendInSync(d: Data, replica: Data, token: Token, logprob: real)
    ensures InSync(Pair(Append(d, token, logprob), replica)) <==> InSync(Pair(d, replica))
  {
    var now, sent := d.output + [token], replica.output + (d.appended + [token]);
    assert sent == (replica.output + d.appended) + [token];
    if now == sent {
      assert d.output == now[..|now| - 1] && replica.output + d.appended == sent[..|sent| - 1];
    }
  }

  // ----- the object, beside a replica that a worker keeps

  class SequenceData {
    var prompt: seq<Token>
    var output: seq<Token>
    var cumulativeLogprob: real
    var numComputed: int
    var stage: Stage
    var cachedAll: seq<Token>
    var newAppended: seq<Token>

    ghost function Snapshot(): Data
      reads this
    {
      Data(prompt, output, cumulativeLogprob, numComputed, stage, cachedAll, newAppended)
    }

    constructor (prompt: seq<Token>, output: seq<Token>)
      ensures Snapshot() == Created(prompt, output)
      ensures Sound(Pair(Snapshot(), Created(prompt, output))) && InSync(Pair(Snapshot(), Created(prompt, output)))
    {
      this.prompt, this.output := prompt, output;
      cumulativeLogprob, numComputed, stage := 0.0, 0, Prefill;
      cachedAll, newAppended := prompt + output, [];
    }

    method AppendTokenId(token: Token, logprob: real, ghost replica: Data)
      modifies this
      ensures Snapshot() == Append(old(Snapshot()), token, logprob)
      ensures old(Sound(Pair(Snapshot(), replica))) ==> Sound(Pair(Snapshot(), replica))
      ensures old(InSync(Pair(Snapshot(), replica))) <==> InSync(Pair(Snapshot(), replica))
    {
      AppendInSync(Snapshot(), replica, token, logprob);
      output := output + [token];
      newAppended := newAppended + [token];
      cachedAll := cachedAll + [token];
      cumulativeLogprob := cumulativeLogprob + logprob;
    }

    method UpdateNumComputedTokens(n: int, ghost replica: Data) returns (r: Result<()>)
      modifies this
      ensures var (d, held) := Compute(old(Snapshot()), n);
              Snapshot() == d && r == if held then Ok(()) else Err(AssertionFailed)
      ensures numComputed == old(numComputed) + n && (r.Ok? <==> numComputed <= |prompt| + |output|)
      ensures stage == if numComputed == |prompt| + |output| then Decode else old(stage)
      ensures old(Sound(Pair(Snapshot(), replica))) ==> Sound(Pair(Snapshot(), replica))
      ensures old(InSync(Pair(Snapshot(), replica))) <==> InSync(Pair(Snapshot(), replica))
    {
      numComputed := numComputed + n;
      if numComputed > |prompt| + |output| {
        return Err(AssertionFailed);
      }
      if |output| + |prompt| - numComputed == 0 {
        stage := Decode;
      }
      return Ok(());
    }

    /** The replica stays in step exactly if nothing was waiting to be sent. */
    method ResetStateForRecompute(ghost replica: Data)
      modifies this
      ensures Snapshot() == Reset(old(Snapshot()))
      ensures old(Sound(Pair(Snapshot(), replica))) ==> Sound(Pair(Snapshot(), replica))
      ensures old(InSync(Pair(Snapshot(), replica))) ==> (InSync(Pair(Snapshot(), replica)) <==> old(newAppended) == [])
    {
      numComputed, stage, newAppended := 0, Prefill, [];
    }

    /** A replica that is in step and applies the delta is the same sequence. */
    method GetDeltaAndReset(ghost replica: Data) returns (delta: Delta)
      modifies this
      ensures (delta, Snapshot()) == DeltaOf(old(Snapshot()))
      ensures old(Sound(Pair(Snapshot(), replica)) && InSync(Pair(Snapshot(), replica))) ==>
                var p := Pair(Snapshot(), Apply(replica, delta));
                Sound(p) && InSync(p) && SameSequence(p.source, p.replica)
    {
      delta := Delta(newAppended, cumulativeLogprob, numComputed, stage);
      newAppended := [];
    }

    /** On the replica's side: in step with `source` before, the same sequence after applying its delta. */
    method ApplyDelta(delta: Delta, ghost source: Data)
      modifies this
      ensures Snapshot() == Apply(old(Snapshot()), delta)
      ensures old(Sound(Pair(source, Snapshot())) && InSync(Pair(source, Snapshot()))) && delta == DeltaOf(source).0 ==>
                var p := Pair(DeltaOf(source).1, Snapshot());
                Sound(p) && InSync(p) && SameSequence(p.source, p.replica)
    {
      numComputed, cumulativeLogprob, stage := delta.computed, delta.logprob, delta.stage;
      output := output + delta.tokens;
      cachedAll := cachedAll + delta.tokens;
    }
  }
}
