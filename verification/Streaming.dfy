/** Streaming output text while holding back what a stop string may still take away. */
module Streaming {
  import opened Wrappers

  /** The stop strings are not empty. */
  datatype Params = Params(stop: seq<string>, includeStop: bool, minTokens: nat)

  ghost predicate Sound(p: Params) {
    forall i :: 0 <= i < |p.stop| ==> p.stop[i] != ""
  }

  function MaxLen(stop: seq<string>): (m: nat)
    ensures forall i :: 0 <= i < |stop| ==> |stop[i]| <= m
    ensures stop != [] ==> exists i :: 0 <= i < |stop| && |stop[i]| == m
  {
    if |stop| <= 1 then if stop == [] then 0 else |stop[0]|
    else
      var n := |stop| - 1;
      var m := MaxLen(stop[..n]);
      assert exists i :: 0 <= i < n && |stop[..n][i]| == m;
      if m >= |stop[n]| then m else |stop[n]|
  }

  /** The characters held back until the sequence is finished. */
  function BufferLength(p: Params): int {
    if p.stop != [] && !p.includeStop then MaxLen(p.stop) - 1 else 0
  }

  // ----- finding a stop string

  predicate Occurs(text: string, s: string, at: nat) {
    at + |s| <= |text| && text[at..at + |s|] == s
  }

  /** The first occurrence at or after `from`. */
  function Find(text: string, s: string, from: nat): (r: Option<nat>)
    ensures r.Some? ==> from <= r.value && Occurs(text, s, r.value) && forall k :: from <= k < r.value ==>
            !Occurs(text, s, k)
    ensures r.None? ==> forall k :: from <= k ==> !Occurs(text, s, k)
    decreases |text| - from
  {
    if from + |s| > |text| then None
    else if Occurs(text, s, from) then Some(from)
    else Find(text, s, from + 1)
  }

  /** Where the search starts: enough before the new characters for an occurrence that ends in them. */
  function Window(len: nat, newChars: nat, stopLen: nat): nat {
    if len >= newChars + stopLen then len - newChars - stopLen else 0
  }

  /** The first stop string of the list from `i` on that is found, and where. */
  function FirstStop(text: string, newChars: nat, stop: seq<string>, i: nat): (r: Option<(nat, nat)>)
    requires i <= |stop|
    ensures r.Some? ==> i <= r.value.0 < |stop| && Find(text, stop[r.value.0],
            Window(|text|, newChars, |stop[r.value.0]|)) == Some(r.value.1)
    ensures r.None? ==> forall k :: i <= k < |stop| ==> Find(text, stop[k], Window(|text|, newChars, |stop[k]|)).None?
    decreases |stop| - i
  {
    if i == |stop| then None
    else
      var f := Find(text, stop[i], Window(|text|, newChars, |stop[i]|));
      if f.Some? then Some((i, f.value)) else FirstStop(text, newChars, stop, i + 1)
  }

  /** The text after a stop string was found, cut at its beginning or its end. */
  function Cut(text: string, p: Params, which: nat, at: nat): string
    requires which < |p.stop| && Occurs(text, p.stop[which], at)
  {
    if p.includeStop then text[..at + |p.stop[which]|] else text[..at]
  }

  // ----- a sequence being generated

  /** `emitted` is what the caller has got so far. */
  datatype Stream = Stream(text: string, offset: nat, tokens: nat, finished: bool, emitted: string)

  /**
   * One token: the characters it adds, whether it is the end-of-sequence or a stop token, whether a
   * length limit is reached, and whether output is asked for after it.
   */
  datatype Event = Event(chunk: string, stopToken: bool, capped: bool, polled: bool)

  function Grown(s: Stream, e: Event): Stream {
    s.(text := s.text + e.chunk, tokens := s.tokens + 1)
  }

  /** `maybe_stop_sequence` */
  function MaybeStop(s: Stream, p: Params, e: Event): Stream
    requires |e.chunk| <= |s.text|
  {
    if s.tokens < p.minTokens then s
    else if e.stopToken then
      s.(text := if p.includeStop then s.text else s.text[..|s.text| - |e.chunk|], finished := true)
    else
      var found := if e.chunk == "" then None else FirstStop(s.text, |e.chunk|, p.stop, 0);
      if found.Some? then s.(text := Cut(s.text, p, found.value.0, found.value.1), finished := true)
      else if e.capped then s.(finished := true)
      else s
  }

  /** `get_output_text_to_return` with delta: the text up to the held-back part that was not returned yet. */
  function Poll(s: Stream, buffer: int): (Stream, string) {
    var length := if buffer != 0 && !s.finished then |s.text| - buffer else |s.text|;
    if s.offset < length <= |s.text| then
      var delta := s.text[s.offset..length];
      (s.(offset := length, emitted := s.emitted + delta), delta)
    else (s, "")
  }

  function Step(s: Stream, p: Params, e: Event): Stream {
    var t := MaybeStop(Grown(s, e), p, e);
    if e.polled then Poll(t, BufferLength(p)).0 else t
  }

  // ----- what holds while the sequence grows

  /** What was returned is the text up to the offset, and the hold-back was kept. */
  ghost predicate Held(s: Stream, p: Params) {
    && !s.finished && s.offset <= |s.text| && s.emitted == s.text[..s.offset]
    && (s.offset == 0 || s.offset + BufferLength(p) <= |s.text|)
  }

  lemma BufferBound(p: Params)
    requires Sound(p)
    ensures BufferLength(p) >= 0
    ensures !p.includeStop ==> forall i :: 0 <= i < |p.stop| ==> |p.stop[i]| <= BufferLength(p) + 1
  {
  }

  lemma GrownText(s: Stream, e: Event)
    ensures Grown(s, e).text[..|s.text|] == s.text
  {
  }

  lemma StepHeld(s: Stream, p: Params, e: Event)
    requires Sound(p) && Held(s, p) && !Step(s, p, e).finished
    ensures Held(Step(s, p, e), p)
  {
    hide MaxLen, FirstStop;
    BufferBound(p);
    GrownText(s, e);
    hide BufferLength;
    var g := Grown(s, e);
    assert MaybeStop(g, p, e) == g;
    assert g.text[..s.offset] == s.emitted;
    var length := if BufferLength(p) != 0 then |g.text| - BufferLength(p) else |g.text|;
    if s.offset < length {
      assert g.text[..length] == g.text[..s.offset] + g.text[s.offset..length];
    }
  }

  // ----- while the sequence grows, all but the hold-back is streamed

  /** The hold-back: one less than the longest stop string; nothing without stop strings or if they are kept. */
  ghost predicate IsHoldBack(p: Params, h: nat) {
    if p.stop == [] || p.includeStop then h == 0
    else
      && (forall i :: 0 <= i < |p.stop| ==> |p.stop[i]| <= h + 1)
      && (exists i :: 0 <= i < |p.stop| && |p.stop[i]| == h + 1)
  }

  ghost function AllBut(text: string, h: nat): string {
    if h < |text| then text[..|text| - h] else ""
  }

  lemma HoldBackIs(p: Params, h: nat)
    requires Sound(p) && IsHoldBack(p, h)
    ensures BufferLength(p) == h
  {
  }

  /** Whatever was asked for before: after output is asked for, all but the hold-back has been returned. */
  lemma PolledIsCurrent(s: Stream, p: Params, e: Event, h: nat)
    requires Sound(p) && Held(s, p) && e.polled && !Step(s, p, e).finished && IsHoldBack(p, h)
    ensures Step(s, p, e).text == s.text + e.chunk && Step(s, p, e).tokens == s.tokens + 1
    ensures Step(s, p, e).emitted == AllBut(s.text + e.chunk, h)
  {
    HoldBackIs(p, h);
    hide MaxLen, FirstStop, BufferLength, IsHoldBack;
    GrownText(s, e);
    var g := Grown(s, e);
    assert MaybeStop(g, p, e) == g;
    assert g.text[..s.offset] == s.emitted;
    var length := if h != 0 then |g.text| - h else |g.text|;
    if s.offset < length {
      assert g.text[..length] == g.text[..s.offset] + g.text[s.offset..length];
    }
  }

  lemma UnfinishedText(s: Stream, p: Params, e: Event)
    requires !Step(s, p, e).finished
    ensures Step(s, p, e).text == s.text + e.chunk
  {
    hide FirstStop, BufferLength;
  }

  // ----- when and where the text is stopped

  /** The string stands at `at` in the text and ends no earlier than position `from`. */
  ghost predicate StopsAt(text: string, from: nat, stop: string, at: nat) {
    && from <= at + |stop| <= |text|
    && (forall k :: 0 <= k < |stop| ==> text[at + k] == stop[k])
  }

  lemma StopsAtFound(text: string, newChars: nat, stop: string, at: nat)
    requires newChars <= |text|
    ensures StopsAt(text, |text| - newChars, stop, at) <==>
            Window(|text|, newChars, |stop|) <= at && Occurs(text, stop, at)
  {
    if at + |stop| <= |text| {
      var x := text[at..at + |stop|];
      assert forall k :: 0 <= k < |stop| ==> x[k] == text[at + k];
    }
  }

  /** Below the minimum number of tokens nothing stops; beyond it, a stop token does. */
  lemma StopTokenLaw(s: Stream, p: Params, e: Event)
    ensures var g := Grown(s, e);
            var t := MaybeStop(g, p, e);
            && (s.tokens + 1 < p.minTokens ==> t == g)
            && (s.tokens + 1 >= p.minTokens && e.stopToken ==>
                  t == g.(finished := true, text := if p.includeStop then s.text + e.chunk else s.text))
  {
    GrownText(s, e);
  }

  /**
   * The first string of the list that ends in the new characters, or right before them, stops the
   * sequence: the text is cut at its first such place, before the string or after it.
   */
  lemma StopStringLaw(s: Stream, p: Params, e: Event, i: nat, at: nat)
    requires s.tokens + 1 >= p.minTokens && !e.stopToken && e.chunk != "" && i < |p.stop|
    requires var text := s.text + e.chunk;
             && StopsAt(text, |s.text|, p.stop[i], at)
             && (forall k: nat :: k < at ==> !StopsAt(text, |s.text|, p.stop[i], k))
             && (forall j, k: nat :: 0 <= j < i ==> !StopsAt(text, |s.text|, p.stop[j], k))
    ensures var g := Grown(s, e);
            MaybeStop(g, p, e)
            == g.(finished := true, text := g.text[..if p.includeStop then at + |p.stop[i]| else at])
  {
    hide StopsAt;
    var g := Grown(s, e);
    forall j, k: nat | 0 <= j < |p.stop|
      ensures StopsAt(g.text, |s.text|, p.stop[j], k) <==>
              Window(|g.text|, |e.chunk|, |p.stop[j]|) <= k && Occurs(g.text, p.stop[j], k)
    {
      StopsAtFound(g.text, |e.chunk|, p.stop[j], k);
    }
    hide Occurs, Window;
    FirstStopIs(g.text, |e.chunk|, p.stop, 0, i, at);
  }

  lemma {:induction false} FirstStopIs(text: string, newChars: nat, stop: seq<string>, m: nat, i: nat, at: nat)
    requires m <= i < |stop| && Window(|text|, newChars, |stop[i]|) <= at && Occurs(text, stop[i], at)
    requires forall k :: Window(|text|, newChars, |stop[i]|) <= k < at ==> !Occurs(text, stop[i], k)
    requires forall j, k: nat :: m <= j < i && Window(|text|, newChars, |stop[j]|) <= k ==> !Occurs(text, stop[j], k)
    ensures FirstStop(text, newChars, stop, m) == Some((i, at))
    decreases i - m
  {
    hide Occurs, Window;
    if m < i {
      FirstStopIs(text, newChars, stop, m + 1, i, at);
    }
  }

  /** If no string does, only a length limit ends the sequence, and the text stays whole. */
  lemma NoStopLaw(s: Stream, p: Params, e: Event)
    requires s.tokens + 1 >= p.minTokens && !e.stopToken
    requires e.chunk == "" || forall j, k: nat :: 0 <= j < |p.stop| ==>
             !StopsAt(s.text + e.chunk, |s.text|, p.stop[j], k)
    ensures MaybeStop(Grown(s, e), p, e) == Grown(s, e).(finished := s.finished || e.capped)
  {
    hide StopsAt;
    var g := Grown(s, e);
    if e.chunk != "" && FirstStop(g.text, |e.chunk|, p.stop, 0).Some? {
      var (j, k) := FirstStop(g.text, |e.chunk|, p.stop, 0).value;
      StopsAtFound(g.text, |e.chunk|, p.stop[j], k);
      assert false;
    }
  }

  // ----- the end

  /**
   * The hold-back is one character short: the text ended with a stop string of the greatest length
   * before this token, unnoticed, everything but the hold-back had been returned, and the string is
   * found only now.
   */
  ghost predicate Leaks(s: Stream, p: Params, e: Event) {
    && !p.includeStop && s.tokens + 1 >= p.minTokens && !e.stopToken && e.chunk != ""
    && var found := FirstStop(s.text + e.chunk, |e.chunk|, p.stop, 0);
    && found.Some? && |p.stop[found.value.0]| == MaxLen(p.stop)
    && found.value.1 + |p.stop[found.value.0]| == |s.text| && s.offset + BufferLength(p) == |s.text|
  }

  /** Where the text is cut, no earlier than one character before what was returned. */
  lemma FoundAfter(s: Stream, p: Params, e: Event, which: nat, at: nat)
    requires Sound(p) && Held(s, p) && e.chunk != ""
    requires FirstStop(s.text + e.chunk, |e.chunk|, p.stop, 0) == Some((which, at))
    ensures which < |p.stop| && at + |p.stop[which]| >= |s.text|
    ensures !p.includeStop && s.offset > at ==>
              s.offset == at + 1 && |p.stop[which]| == MaxLen(p.stop) && at + |p.stop[which]| == |s.text|
  {
  }

  /**
   * The stopped text is a prefix of the grown one, and is at least as long as what was returned
   * unless there is a leak.
   */
  lemma StoppedText(s: Stream, p: Params, e: Event)
    requires Sound(p) && Held(s, p)
    ensures var g := Grown(s, e);
            var t := MaybeStop(g, p, e);
            && |t.text| <= |g.text| && t.text == g.text[..|t.text|]
            && (t.finished ==>
                  && (s.offset <= |t.text| <==> !Leaks(s, p, e))
                  && (Leaks(s, p, e) ==> s.offset == |t.text| + 1))
  {
    hide FirstStop, MaxLen;
    var g := Grown(s, e);
    if e.chunk != "" && !e.stopToken && g.tokens >= p.minTokens {
      var found := FirstStop(g.text, |e.chunk|, p.stop, 0);
      if found.Some? {
        FoundAfter(s, p, e, found.value.0, found.value.1);
      }
    }
  }

  /**
   * At the end, what was returned over the whole run is exactly the final text, if and only if there
   * is no leak; a leak is one character long.
   */
  lemma FinishExact(s: Stream, p: Params, e: Event)
    requires Sound(p) && Held(s, p) && e.polled && Step(s, p, e).finished
    ensures var r := Step(s, p, e);
            && (r.emitted == r.text <==> !Leaks(s, p, e))
            && (Leaks(s, p, e) ==> |r.emitted| == |r.text| + 1 && r.emitted[..|r.text|] == r.text)
  {
    hide FirstStop, MaxLen, BufferLength, Leaks, MaybeStop;
    var g := Grown(s, e);
    var t := MaybeStop(g, p, e);
    StoppedText(s, p, e);
    GrownText(s, e);
    StopKeeps(g, p, e);
    assert s.emitted == g.text[..s.offset];
    if s.offset <= |t.text| {
      assert s.emitted == t.text[..s.offset];
      assert t.text == t.text[..s.offset] + t.text[s.offset..];
    }
  }

  lemma StopKeeps(g: Stream, p: Params, e: Event)
    requires |e.chunk| <= |g.text|
    ensures var t := MaybeStop(g, p, e);
            t.offset == g.offset && t.emitted == g.emitted && t.tokens == g.tokens
  {
  }

  // ----- runs

  const Empty: Stream := Stream("", 0, 0, false, "")

  function Run(p: Params, events: seq<Event>): Stream {
    if events == [] then Empty
    else
      var s := Run(p, events[..|events| - 1]);
      if s.finished then s else Step(s, p, events[|events| - 1])
  }

  lemma {:induction false} RunHeld(p: Params, events: seq<Event>)
    requires Sound(p) && !Run(p, events).finished
    ensures Held(Run(p, events), p)
    decreases |events|
  {
    hide Step, BufferLength;
    if events != [] {
      var n := |events| - 1;
      RunHeld(p, events[..n]);
      StepHeld(Run(p, events[..n]), p, events[n]);
    }
  }

  ghost function Chunks(events: seq<Event>): string {
    if events == [] then "" else Chunks(events[..|events| - 1]) + events[|events| - 1].chunk
  }

  /** Until it is finished, the text of a sequence is all that its tokens added. */
  lemma {:induction false} RunText(p: Params, events: seq<Event>)
    requires !Run(p, events).finished
    ensures Run(p, events).text == Chunks(events) && Run(p, events).tokens == |events|
    decreases |events|
  {
    hide FirstStop, BufferLength, MaxLen;
    if events != [] {
      RunText(p, events[..|events| - 1]);
    }
  }

  /**
   * Over every run that is not finished: when output has been asked for, the caller has all that the
   * tokens added but the hold-back. Without stop strings, that is everything.
   */
  lemma RunStreams(p: Params, events: seq<Event>, h: nat)
    requires Sound(p) && events != [] && events[|events| - 1].polled && !Run(p, events).finished
    requires IsHoldBack(p, h)
    ensures Run(p, events).emitted == AllBut(Chunks(events), h)
    ensures p.stop == [] ==> Run(p, events).emitted == Chunks(events)
  {
    var n := |events| - 1;
    hide Step, BufferLength, AllBut;
    RunText(p, events);
    RunHeld(p, events[..n]);
    PolledIsCurrent(Run(p, events[..n]), p, events[n], h);
    AllButNothing(Chunks(events));
  }

  lemma AllButNothing(text: string)
    ensures AllBut(text, 0) == text
  {
  }

  /** Over every run: the returned pieces make up the final text, if and only if the last token does not leak. */
  lemma RunExact(p: Params, events: seq<Event>)
    requires Sound(p) && events != [] && events[|events| - 1].polled
    requires !Run(p, events[..|events| - 1]).finished && Run(p, events).finished
    ensures var s, r := Run(p, events[..|events| - 1]), Run(p, events);
            r.emitted == r.text <==> !Leaks(s, p, events[|events| - 1])
  {
    hide Step, Leaks;
    var n := |events| - 1;
    RunHeld(p, events[..n]);
    FinishExact(Run(p, events[..n]), p, events[n]);
  }

  // ----- when stop strings are looked for from the first token on

  /** No stop string is at the end of the text. */
  ghost predicate Clean(text: string, p: Params) {
    forall i :: 0 <= i < |p.stop| && |p.stop[i]| <= |text| ==> !Occurs(text, p.stop[i], |text| - |p.stop[i]|)
  }

  /** A leak needs a stop string at the end of the text. */
  lemma LeakNeedsSuffix(s: Stream, p: Params, e: Event)
    requires Leaks(s, p, e)
    ensures !Clean(s.text, p)
  {
  }

  lemma StepClean(s: Stream, p: Params, e: Event)
    requires Sound(p) && p.minTokens <= 1 && Clean(s.text, p) && !Step(s, p, e).finished && !s.finished
    ensures Clean(Step(s, p, e).text, p)
  {
  }

  lemma {:induction false} RunClean(p: Params, events: seq<Event>)
    requires Sound(p) && p.minTokens <= 1 && !Run(p, events).finished
    ensures Clean(Run(p, events).text, p)
    decreases |events|
  {
    hide Step;
    if events != [] {
      var n := |events| - 1;
      RunClean(p, events[..n]);
      StepClean(Run(p, events[..n]), p, events[n]);
    }
  }

  /** Without a minimum number of tokens, nothing at or after the cut is ever returned. */
  lemma StreamingExact(p: Params, events: seq<Event>)
    requires Sound(p) && p.minTokens <= 1 && events != [] && events[|events| - 1].polled
    requires !Run(p, events[..|events| - 1]).finished && Run(p, events).finished
    ensures Run(p, events).emitted == Run(p, events).text
  {
    hide Step, Leaks, Clean;
    var n := |events| - 1;
    RunClean(p, events[..n]);
    if Leaks(Run(p, events[..n]), p, events[n]) {
      LeakNeedsSuffix(Run(p, events[..n]), p, events[n]);
    }
    RunExact(p, events);
  }

  /** With one, a character can: the stop string is complete while the checks are still off. */
  lemma MinimumTokensLeak()
    ensures var p := Params(["ab"], false, 2);
            var r := Run(p, [Event("ab", false, false, true), Event("c", false, false, true)]);
            r.finished && r.text == "" && r.emitted == "a"
  {
    var p := Params(["ab"], false, 2);
    var e1, e2 := Event("ab", false, false, true), Event("c", false, false, true);
    var events := [e1, e2];
    assert events[..1] == [e1] && [e1][..0] == [];
    assert MaxLen(["ab"]) == 2;
    assert BufferLength(p) == 1;
    assert Grown(Empty, e1).text == "ab";
    var s := Stream("ab", 1, 1, false, "a");
    assert Run(p, [e1]) == s by {
      assert "" + "ab" == "ab";
      assert "ab"[0..1] == "a" && "" + "a" == "a";
    }
    var g := Grown(s, e2);
    assert g.text == "abc";
    assert Occurs("abc", "ab", 0);
    assert Find("abc", "ab", 0) == Some(0);
    assert FirstStop("abc", 1, ["ab"], 0) == Some((0, 0));
    assert MaybeStop(g, p, e2) == g.(text := "", finished := true);
  }

  // ----- the objects

  class Sequence {
    var outputText: string
    var lastOutputTextOffset: nat
    var outputLen: nat
    var finished: bool
    ghost var returned: string

    ghost function Snapshot(): Stream
      reads this
    {
      Stream(outputText, lastOutputTextOffset, outputLen, finished, returned)
    }

    constructor ()
      ensures Snapshot() == Empty
    {
      outputText, lastOutputTextOffset, outputLen, finished, returned := "", 0, 0, false, "";
    }

    method GetOutputTextToReturn(buffer: nat) returns (delta: string)
      modifies this
      ensures (Snapshot(), delta) == Poll(old(Snapshot()), buffer)
      ensures unchanged(`outputText) && unchanged(`finished) && returned == old(returned) + delta
      ensures old(lastOutputTextOffset) <= |outputText| && old(returned) == outputText[..old(lastOutputTextOffset)] ==>
                returned == if finished then outputText
                            else if |outputText| - buffer > old(lastOutputTextOffset) then AllBut(outputText, buffer)
                            else old(returned)
    {
      var length: int := |outputText|;
      if buffer != 0 && !finished {
        length := length - buffer;
      }
      if lastOutputTextOffset < length {
        delta := outputText[lastOutputTextOffset..length];
        lastOutputTextOffset := length;
        returned := returned + delta;
      } else {
        delta := "";
      }
    }

    /** `_check_stop_strings`: true if one was found, and then the text is cut. */
    method CheckStopStrings(newChars: nat, p: Params) returns (stopped: bool)
      requires newChars <= |outputText|
      modifies this`outputText
      ensures var found := if newChars == 0 then None else FirstStop(old(outputText), newChars, p.stop, 0);
              && stopped == found.Some?
              && outputText == if found.Some? then Cut(old(outputText), p, found.value.0, found.value.1)
                else old(outputText)
    {
      if newChars == 0 {
        return false;
      }
      for i := 0 to |p.stop|
        invariant outputText == old(outputText)
        invariant FirstStop(outputText, newChars, p.stop, 0) == FirstStop(outputText, newChars, p.stop, i)
      {
        var stop := p.stop[i];
        var found := Find(outputText, stop, Window(|outputText|, newChars, |stop|));
        if found.Some? {
          var index := found.value;
          if p.includeStop {
            index := index + |stop|;
            if index >= |outputText| {
              return true;
            }
          }
          outputText := outputText[..index];
          return true;
        }
      }
      return false;
    }

    method MaybeStopSequence(e: Event, p: Params)
      requires |e.chunk| <= |outputText|
      modifies this
      ensures Snapshot() == MaybeStop(old(Snapshot()), p, e)
    {
      hide FirstStop;
      if outputLen < p.minTokens {
        return;
      }
      if e.stopToken {
        if |e.chunk| > 0 && !p.includeStop {
          outputText := outputText[..|outputText| - |e.chunk|];
        }
        finished := true;
        return;
      }
      var stopped := CheckStopStrings(|e.chunk|, p);
      if stopped || e.capped {
        finished := true;
      }
    }

    /** One token, as the output processor handles it. */
    method ProcessToken(e: Event, p: Params) returns (delta: string)
      requires Sound(p)
      modifies this
      ensures Snapshot() == Step(old(Snapshot()), p, e)
      ensures old(Held(Snapshot(), p)) && !finished ==>
                && Held(Snapshot(), p) && outputText == old(outputText) + e.chunk
                && (e.polled ==> forall h: nat :: IsHoldBack(p, h) ==> returned == AllBut(outputText, h))
    {
      hide FirstStop, MaxLen, MaybeStop, Poll, IsHoldBack, AllBut, BufferLength;
      BufferBound(p);
      ghost var s := Snapshot();
      if Held(s, p) && !Step(s, p, e).finished {
        StepHeld(s, p, e);
        UnfinishedText(s, p, e);
        forall h: nat | IsHoldBack(p, h) && e.polled
          ensures Step(s, p, e).emitted == AllBut(s.text + e.chunk, h)
        {
          PolledIsCurrent(s, p, e, h);
        }
      }
      outputText := outputText + e.chunk;
      outputLen := outputLen + 1;
      MaybeStopSequence(e, p);
      delta := "";
      if e.polled {
        delta := GetOutputTextToReturn(BufferLength(p));
      }
    }
  }
}
