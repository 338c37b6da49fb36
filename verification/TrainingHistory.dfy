/** The loss history of a training run, thinned to a maximum length. */
module TrainingHistory {
  import opened Wrappers

  datatype Entry = Entry(step: int, loss: real)

  /** The gap that would open if the entry at `i` went. */
  function Diff(h: seq<Entry>, i: nat): int
    requires 0 < i < |h| - 1
  {
    h[i + 1].step - h[i - 1].step
  }

  /** The first of the inner entries before `n` with the smallest such gap. */
  function Closest(h: seq<Entry>, n: nat): (b: nat)
    requires 1 < n < |h|
    ensures 0 < b < n
  {
    if n == 2 then 1
    else
      var b := Closest(h, n - 1);
      if Diff(h, n - 1) < Diff(h, b) then n - 1 else b
  }

  lemma {:induction false} ClosestIsFirstLeast(h: seq<Entry>, n: nat)
    requires 1 < n < |h|
    ensures var b := Closest(h, n);
            && (forall i :: 0 < i < n ==> Diff(h, b) <= Diff(h, i))
            && (forall i :: 0 < i < b ==> Diff(h, b) < Diff(h, i))
  {
    if n > 2 {
      ClosestIsFirstLeast(h, n - 1);
    }
  }

  function Remove(h: seq<Entry>, i: nat): (r: seq<Entry>)
    requires i < |h|
    ensures |r| == |h| - 1 && forall k :: 0 <= k < |r| ==> r[k] == if k < i then h[k] else h[k + 1]
  {
    h[..i] + h[i + 1..]
  }

  /** Removal of closest entries until the length fits; with fewer than three entries there is none to remove. */
  function Thinned(h: seq<Entry>, maxLength: int): Result<seq<Entry>>
    decreases |h|
  {
    if |h| <= maxLength then Ok(h)
    else if |h| < 3 then Err(TypeError)
    else Thinned(Remove(h, Closest(h, |h| - 1)), maxLength)
  }

  /** The scan for the closest entry; without inner entries it finds none. */
  method FindClosest(h: seq<Entry>) returns (minIndex: Option<nat>)
    ensures minIndex == if |h| < 3 then None else Some(Closest(h, |h| - 1))
  {
    minIndex := None;
    var minDiff: Option<int> := None; // infinite
    var i := 1;
    while i < |h| - 1
      invariant 1 <= i && (i == 1 || i < |h|)
      invariant if i == 1 then minDiff == None && minIndex == None
                else minIndex == Some(Closest(h, i)) && minDiff == Some(Diff(h, Closest(h, i)))
    {
      var diff := h[i + 1].step - h[i - 1].step;
      if minDiff.None? || diff < minDiff.value {
        minDiff, minIndex := Some(diff), Some(i);
      }
      i := i + 1;
    }
  }

  method RemoveClosestEntry(h: seq<Entry>, maxLength: int) returns (r: Result<seq<Entry>>)
    ensures r == Thinned(h, maxLength)
  {
    hide Closest;
    var history := h;
    while |history| > maxLength
      invariant Thinned(history, maxLength) == Thinned(h, maxLength)
      decreases |history|
    {
      var minIndex := FindClosest(history);
      if minIndex.None? {
        return Err(TypeError);
      }
      history := Remove(history, minIndex.value);
    }
    return Ok(history);
  }

  /** The thinning fails exactly for a limit below two that the history exceeds. */
  lemma {:induction false} ThinnedFails(h: seq<Entry>, maxLength: int)
    ensures Thinned(h, maxLength).Err? <==> maxLength < 2 && |h| > maxLength
    ensures Thinned(h, maxLength).Err? ==> Thinned(h, maxLength).error == TypeError
    decreases |h|
  {
    if |h| > maxLength && |h| >= 3 {
      ThinnedFails(Remove(h, Closest(h, |h| - 1)), maxLength);
    }
  }

  // ----- spacing

  ghost predicate Increasing(h: seq<Entry>) {
    forall i, j :: 0 <= i < j < |h| ==> h[i].step < h[j].step
  }

  function Span(h: seq<Entry>): int
    requires h != []
  {
    h[|h| - 1].step - h[0].step
  }

  /** Adjacent entries are one step apart, or at most twice the even spacing. */
  ghost predicate Spaced(h: seq<Entry>, maxLength: int) {
    forall i :: 0 < i < |h| ==> GapOk(h[i].step - h[i - 1].step, Span(h), maxLength)
  }

  ghost predicate GapOk(gap: int, span: int, maxLength: int) {
    gap == 1 || gap * (maxLength - 1) <= 2 * span
  }

  /** A bound on every double gap bounds their sum, in which all but the outermost gaps count twice. */
  lemma {:induction false} DoubleGaps(h: seq<Entry>, n: nat, m: int)
    requires 1 <= n < |h| && forall i :: 0 < i < n ==> m <= Diff(h, i)
    ensures m * (n - 1) <= h[n].step + h[n - 1].step - h[1].step - h[0].step
  {
    if n > 1 {
      DoubleGaps(h, n - 1, m);
      assert m * (n - 1) == m * (n - 2) + m;
      assert m <= Diff(h, n - 1);
    }
  }

  /** The gap that the removal opens is at most twice the even spacing. */
  lemma ClosestGap(h: seq<Entry>)
    requires |h| >= 3 && Increasing(h)
    ensures GapOk(Diff(h, Closest(h, |h| - 1)), Span(h), |h| - 1)
  {
    hide Closest;
    ClosestIsFirstLeast(h, |h| - 1);
    DoubleGaps(h, |h| - 1, Diff(h, Closest(h, |h| - 1)));
  }

  lemma RemoveKeeps(h: seq<Entry>, maxLength: int)
    requires maxLength >= 2 && |h| == maxLength + 1 && Increasing(h) && Spaced(h, maxLength)
    ensures var r := Remove(h, Closest(h, |h| - 1));
            && |r| == maxLength && Increasing(r) && Spaced(r, maxLength)
            && r[0] == h[0] && r[|r| - 1] == h[|h| - 1] && (forall e :: e in r ==> e in h)
  {
    hide GapOk, Closest;
    var b := Closest(h, |h| - 1);
    ClosestGap(h);
    RemoveInner(h, b, maxLength);
  }

  /** Removing an inner entry keeps the other gaps and opens the one across it. */
  lemma RemoveInner(h: seq<Entry>, b: nat, maxLength: int)
    requires 0 < b < |h| - 1 && Increasing(h) && Spaced(h, maxLength) && GapOk(Diff(h, b), Span(h), maxLength)
    ensures var r := Remove(h, b);
            && |r| == |h| - 1 && Increasing(r) && Spaced(r, maxLength)
            && r[0] == h[0] && r[|r| - 1] == h[|h| - 1] && (forall e :: e in r ==> e in h)
  {
    hide GapOk, Spaced, Increasing, Remove;
    RemoveSpaced(h, b, maxLength);
    RemoveIncreasing(h, b);
    RemoveMembers(h, b);
  }

  lemma RemoveIncreasing(h: seq<Entry>, b: nat)
    requires b < |h| && Increasing(h)
    ensures Increasing(Remove(h, b))
  {
    var r := Remove(h, b);
    forall i, j | 0 <= i < j < |r|
      ensures r[i].step < r[j].step
    {
      var i', j' := if i < b then i else i + 1, if j < b then j else j + 1;
      assert r[i] == h[i'] && r[j] == h[j'];
    }
  }

  lemma RemoveMembers(h: seq<Entry>, b: nat)
    requires 0 < b < |h| - 1
    ensures var r := Remove(h, b);
            |r| == |h| - 1 && r[0] == h[0] && r[|r| - 1] == h[|h| - 1] && forall e :: e in r ==> e in h
  {
    var r := Remove(h, b);
    forall k | 0 <= k < |r|
      ensures r[k] in h
    {
      assert h[if k < b then k else k + 1] == r[k];
    }
  }

  lemma RemoveSpaced(h: seq<Entry>, b: nat, maxLength: int)
    requires 0 < b < |h| - 1 && Spaced(h, maxLength) && GapOk(Diff(h, b), Span(h), maxLength)
    ensures Spaced(Remove(h, b), maxLength)
  {
    hide GapOk;
    var r := Remove(h, b);
    assert Span(r) == Span(h);
    forall i | 0 < i < |r|
      ensures GapOk(r[i].step - r[i - 1].step, Span(r), maxLength)
    {
      if i < b {
        assert GapOk(h[i].step - h[i - 1].step, Span(h), maxLength);
      } else if b < i {
        assert GapOk(h[i + 1].step - h[i + 1 - 1].step, Span(h), maxLength);
      }
    }
  }

  // ----- runs

  /** `update_history`: the new entry, then the thinning. */
  function Updated(h: seq<Entry>, maxLength: int, e: Entry): Result<seq<Entry>> {
    Thinned(h + [e], maxLength)
  }

  /** The history of a fresh run that starts at step `first` and records these losses. */
  function Recorded(first: int, maxLength: int, losses: seq<real>): Result<seq<Entry>> {
    if losses == [] then Ok([])
    else
      var n := |losses| - 1;
      var h :- Recorded(first, maxLength, losses[..n]);
      Updated(h, maxLength, Entry(first + n, losses[n]))
  }

  /** What is kept of a run: first and latest step, at most the limit, evenly enough. */
  ghost predicate Shape(first: int, maxLength: int, count: nat, h: seq<Entry>) {
    && |h| == (if count < maxLength then count else maxLength)
    && Increasing(h) && Spaced(h, maxLength)
    && (count > 0 ==> h != [] && h[0].step == first && h[|h| - 1].step == first + count - 1)
  }

  /** Every entry has the loss that was recorded for its step. */
  ghost predicate Faithful(first: int, losses: seq<real>, h: seq<Entry>) {
    forall i :: 0 <= i < |h| ==> 0 <= h[i].step - first < |losses| && h[i].loss == losses[h[i].step - first]
  }

  ghost predicate Kept(first: int, maxLength: int, losses: seq<real>, h: seq<Entry>) {
    Shape(first, maxLength, |losses|, h) && Faithful(first, losses, h)
  }

  lemma {:induction false} RecordedKeeps(first: int, maxLength: int, losses: seq<real>)
    requires maxLength >= 2
    ensures Recorded(first, maxLength, losses).Ok? && Kept(first, maxLength, losses,
            Recorded(first, maxLength, losses).value)
  {
    hide GapOk, Closest, Increasing, Spaced;
    if losses == [] {
      NothingRecorded(maxLength);
    } else {
      var n := |losses| - 1;
      RecordedKeeps(first, maxLength, losses[..n]);
      var h := Recorded(first, maxLength, losses[..n]).value;
      UpdatedKeeps(first, maxLength, losses, h);
    }
  }

  lemma NothingRecorded(maxLength: int)
    ensures Increasing([]) && Spaced([], maxLength)
  {
  }

  lemma UpdatedKeeps(first: int, maxLength: int, losses: seq<real>, h: seq<Entry>)
    requires maxLength >= 2 && losses != [] && Kept(first, maxLength, losses[..|losses| - 1], h)
    ensures var n := |losses| - 1;
            var r := Updated(h, maxLength, Entry(first + n, losses[n]));
            r.Ok? && Kept(first, maxLength, losses, r.value)
  {
    hide Shape, Faithful, Thinned;
    var n := |losses| - 1;
    var e := Entry(first + n, losses[n]);
    UpdatedShape(first, maxLength, n, h, e);
    OnlyRecorded(first, losses, h, e, Thinned(h + [e], maxLength).value);
  }

  lemma UpdatedShape(first: int, maxLength: int, count: nat, h: seq<Entry>, e: Entry)
    requires maxLength >= 2 && Shape(first, maxLength, count, h) && e.step == first + count
    ensures var r := Thinned(h + [e], maxLength);
            r.Ok? && Shape(first, maxLength, count + 1, r.value) && forall x :: x in r.value ==> x in h + [e]
  {
    hide GapOk, Closest, Increasing, Spaced, Remove, Thinned;
    AppendKeeps(h, e, maxLength);
    ThinnedOnce(h + [e], maxLength);
    if |h| == maxLength {
      RemoveKeeps(h + [e], maxLength);
    }
  }

  lemma AppendKeeps(h: seq<Entry>, e: Entry, maxLength: int)
    requires Increasing(h) && Spaced(h, maxLength) && (h != [] ==> e.step == h[|h| - 1].step + 1)
    ensures Increasing(h + [e]) && Spaced(h + [e], maxLength)
  {
  }

  lemma ThinnedOnce(h: seq<Entry>, maxLength: int)
    requires maxLength >= 2 && |h| <= maxLength + 1
    ensures Thinned(h, maxLength) == Ok(if |h| <= maxLength then h else Remove(h, Closest(h, |h| - 1)))
  {
  }

  lemma OnlyRecorded(first: int, losses: seq<real>, h: seq<Entry>, e: Entry, r: seq<Entry>)
    requires losses != [] && e == Entry(first + |losses| - 1, losses[|losses| - 1])
    requires Faithful(first, losses[..|losses| - 1], h) && forall x :: x in r ==> x in h + [e]
    ensures Faithful(first, losses, r)
  {
    forall i | 0 <= i < |r|
      ensures 0 <= r[i].step - first < |losses| && r[i].loss == losses[r[i].step - first]
    {
      assert r[i] in h + [e];
      if r[i] in h {
        var k :| 0 <= k < |h| && h[k] == r[i];
      }
    }
  }

  /** With a limit below two, a run fails at the first entry beyond the limit. */
  lemma {:induction false} RecordedFails(first: int, maxLength: int, losses: seq<real>)
    requires maxLength < 2
    ensures Recorded(first, maxLength, losses).Err? <==> losses != [] && |losses| > maxLength
    ensures Recorded(first, maxLength, losses).Ok? ==> |Recorded(first, maxLength, losses).value| == |losses|
  {
    if losses != [] {
      var n := |losses| - 1;
      RecordedFails(first, maxLength, losses[..n]);
      if Recorded(first, maxLength, losses[..n]).Ok? {
        ThinnedFails(Recorded(first, maxLength, losses[..n]).value + [Entry(first + n, losses[n])], maxLength);
      }
    }
  }

  class TrainingState {
    var history: seq<Entry>
    var currentStep: int

    constructor ()
      ensures history == [] && currentStep == 0
    {
      history, currentStep := [], 0;
    }

    method UpdateHistory(loss: real, maxLength: int) returns (r: Result<()>)
      modifies this`history
      ensures var spec := Updated(old(history), maxLength, Entry(currentStep, loss));
              if spec.Ok? then r == Ok(()) && history == spec.value else r == Err(spec.error)
    {
      history := history + [Entry(currentStep, loss)];
      if |history| > maxLength {
        var t := RemoveClosestEntry(history, maxLength);
        if t.Err? {
          return Err(t.error);
        }
        history := t.value;
      }
      return Ok(());
    }

    /** The step loop of a fresh run, with the losses that the steps will have. */
    method Train(losses: seq<real>, maxLength: int) returns (r: Result<()>)
      requires history == [] && currentStep == 0
      modifies this
      ensures var spec := Recorded(0, maxLength, losses);
              if spec.Ok? then r == Ok(()) && history == spec.value else r == Err(spec.error)
      ensures maxLength >= 2 ==> r.Ok? && Kept(0, maxLength, losses, history)
    {
      if maxLength >= 2 {
        RecordedKeeps(0, maxLength, losses);
      }
      for step := 0 to |losses|
        invariant Recorded(0, maxLength, losses[..step]) == Ok(history)
      {
        currentStep := step;
        assert losses[..step + 1][..step] == losses[..step];
        r := UpdateHistory(losses[step], maxLength);
        if r.Err? {
          RecordedStops(0, maxLength, losses, step + 1);
          return;
        }
      }
      assert losses[..|losses|] == losses;
      return Ok(());
    }
  }

  /** A run that has failed stays failed. */
  lemma {:induction false} RecordedStops(first: int, maxLength: int, losses: seq<real>, n: nat)
    requires n <= |losses| && Recorded(first, maxLength, losses[..n]).Err?
    ensures Recorded(first, maxLength, losses) == Recorded(first, maxLength, losses[..n])
    decreases |losses|
  {
    if n == |losses| {
      assert losses[..n] == losses;
    } else {
      var m := |losses| - 1;
      assert losses[..m][..n] == losses[..n];
      RecordedStops(first, maxLength, losses[..m], n);
    }
  }
}
