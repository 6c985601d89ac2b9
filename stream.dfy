/** Stream handling of the HuggingChat provider: the decoded events of the response body are
    folded, left to right, into the tokens handed to the caller and an optional error. */
module HuggingChatStream {
  import opened Wrappers
  import opened Text

  /** One decoded line of the response body: its "type" field and its "token" field, each of
      which may be absent. */
  datatype Event = Event(ty: Option<string>, token: Option<string>)

  /** Why processing failed, carrying the offending payload. */
  datatype StreamError =
    | MissingType(payload: Event)   // the event has no "type"
    | MissingToken(payload: Event)  // a "stream" event has no "token"

  /** The tokens handed to the caller, in order, and the error that ended the stream, if any. */
  datatype Outcome = Outcome(emitted: seq<string>, error: Option<StreamError>)

  predicate IsStream(e: Event) { e.ty == Some("stream") }

  predicate IsFinal(e: Event) { e.ty == Some("finalAnswer") }

  /** The error an event raises when it is reached, if any. */
  function ErrorOf(e: Event): Option<StreamError>
  {
    if e.ty.None? then Some(MissingType(e))
    else if IsStream(e) && e.token.None? then Some(MissingToken(e))
    else None
  }

  /** An event at which processing ends: the terminal "finalAnswer" or one that raises. */
  predicate Stops(e: Event) { IsFinal(e) || ErrorOf(e).Some? }

  /** The stream loop as a recursive function; `first` is the flag that is still set while no
      token has been emitted. */
  function Fold(events: seq<Event>, first: bool): Outcome
  {
    if events == [] then Outcome([], None)
    else
      var e := events[0];
      match e.ty
      case None => Outcome([], Some(MissingType(e)))
      case Some(t) =>
        if t == "stream" then
          match e.token
          case None => Outcome([], Some(MissingToken(e)))
          case Some(tok) =>
            var rest := Fold(events[1..], false);
            Outcome([if first then LStrip(tok) else tok] + rest.emitted, rest.error)
        else if t == "finalAnswer" then Outcome([], None)
        else Fold(events[1..], first)
  }

  /** Processing a whole response starts with the first-token flag set. */
  function Process(events: seq<Event>): Outcome
  {
    Fold(events, true)
  }

  // ---------------------------------------------------------------------------------------
  // An independent description: where processing stops, and what it emits up to there.

  /** The index of the first event at which processing stops, or the length if there is none. */
  function StopIndex(events: seq<Event>): (k: nat)
    ensures k <= |events|
    ensures forall j :: 0 <= j < k ==> !Stops(events[j])
    ensures k < |events| ==> Stops(events[k])
  {
    if events == [] || Stops(events[0]) then 0 else 1 + StopIndex(events[1..])
  }

  /** The index of the first "finalAnswer" event, or the length if there is none. */
  function FinalIndex(events: seq<Event>): (k: nat)
    ensures k <= |events|
    ensures forall j :: 0 <= j < k ==> !IsFinal(events[j])
    ensures k < |events| ==> IsFinal(events[k])
  {
    if events == [] || IsFinal(events[0]) then 0 else 1 + FinalIndex(events[1..])
  }

  /** The "token" fields of the "stream" events that carry one, in input order. */
  function StreamTokens(events: seq<Event>): seq<string>
  {
    if events == [] then []
    else (if IsStream(events[0]) && events[0].token.Some? then [events[0].token.value] else [])
         + StreamTokens(events[1..])
  }

  /** The number of "stream" events. */
  function StreamCount(events: seq<Event>): nat
  {
    if events == [] then 0 else (if IsStream(events[0]) then 1 else 0) + StreamCount(events[1..])
  }

  /** `tokens` with the first one left-stripped when the flag is set. */
  function StripFirst(first: bool, tokens: seq<string>): seq<string>
  {
    if first && tokens != [] then [LStrip(tokens[0])] + tokens[1..] else tokens
  }

  /** The error raised at the stop index, if processing stops at an event that raises. */
  function StopError(events: seq<Event>): Option<StreamError>
  {
    var k := StopIndex(events);
    if k < |events| then ErrorOf(events[k]) else None
  }

  /** `o` preceded by the tokens already emitted. */
  function After(emitted: seq<string>, o: Outcome): Outcome
  {
    Outcome(emitted + o.emitted, o.error)
  }

  /** The outcome the independent description predicts. */
  function Expected(events: seq<Event>, first: bool): Outcome
  {
    Outcome(StripFirst(first, StreamTokens(events[..StopIndex(events)])), StopError(events))
  }

  lemma {:induction false} StreamTokensCons(e: Event, events: seq<Event>)
    ensures StreamTokens([e] + events)
         == (if IsStream(e) && e.token.Some? then [e.token.value] else []) + StreamTokens(events)
  {
    assert ([e] + events)[0] == e;
    assert ([e] + events)[1..] == events;
  }

  /** The fold emits the tokens of the "stream" events before the stop index, the first of them
      left-stripped if the flag is set, and fails exactly when the event at the stop index raises. */
  lemma {:induction false} FoldCharacterized(events: seq<Event>, first: bool)
    ensures Fold(events, first) == Expected(events, first)
  {
    if events == [] {
    } else if Stops(events[0]) {
      assert StopIndex(events) == 0;
      assert events[..0] == [];
    } else {
      var e, rest := events[0], events[1..];
      var k := StopIndex(rest);
      assert StopIndex(events) == k + 1;
      assert StopError(events) == StopError(rest);
      assert events[..k + 1] == [e] + rest[..k];
      StreamTokensCons(e, rest[..k]);
      if IsStream(e) {
        var tok := e.token.value;
        FoldCharacterized(rest, false);
        assert StreamTokens(events[..k + 1]) == [tok] + StreamTokens(rest[..k]);
        assert Fold(events, first).emitted == [if first then LStrip(tok) else tok] + Fold(rest, false).emitted;
      } else {
        FoldCharacterized(rest, first);
        assert StreamTokens(events[..k + 1]) == StreamTokens(rest[..k]);
        assert Fold(events, first) == Fold(rest, first);
      }
    }
  }

  // ---------------------------------------------------------------------------------------
  // Properties of processing a response.

  /** Processing ends without an error exactly when no event before the first "finalAnswer"
      raises. */
  lemma ErrorFreeIff(events: seq<Event>)
    ensures Process(events).error.None?
        <==> forall j :: 0 <= j < FinalIndex(events) ==> ErrorOf(events[j]).None?
  {
    FoldCharacterized(events, true);
    var k, f := StopIndex(events), FinalIndex(events);
    if (forall j :: 0 <= j < f ==> ErrorOf(events[j]).None?) {
      assert k == f;
    } else {
      var j :| 0 <= j < f && ErrorOf(events[j]).Some?;
      assert k <= j;
      assert !IsFinal(events[k]);
    }
  }

  /** Without an error, the emitted tokens are the tokens of the "stream" events before the
      first "finalAnswer", in input order, with only the first one left-stripped. */
  lemma ErrorFreeTokens(events: seq<Event>)
    requires Process(events).error.None?
    ensures Process(events).emitted == StripFirst(true, StreamTokens(events[..FinalIndex(events)]))
  {
    FoldCharacterized(events, true);
    ErrorFreeIff(events);
    var k, f := StopIndex(events), FinalIndex(events);
    assert k == f;
  }

  /** Every emitted token after the first is its source token unchanged; the first is a suffix
      of its source token from which exactly the leading whitespace was cut, possibly empty. */
  lemma EmittedShape(events: seq<Event>)
    ensures var src, out := StreamTokens(events[..StopIndex(events)]), Process(events).emitted;
      && |out| == |src|
      && (forall k :: 0 < k < |out| ==> out[k] == src[k])
      && (out != [] ==>
            && |out[0]| <= |src[0]|
            && out[0] == src[0][|src[0]| - |out[0]|..]
            && AllSpace(src[0][..|src[0]| - |out[0]|])
            && (out[0] == [] || !IsSpace(out[0][0])))
  {
    FoldCharacterized(events, true);
  }

  /** Once processing has stopped, whatever follows is never looked at. */
  lemma {:induction false} StoppedIgnoresTail(events: seq<Event>, tail: seq<Event>, first: bool)
    requires StopIndex(events) < |events|
    ensures Fold(events + tail, first) == Fold(events, first)
  {
    var e := events[0];
    assert (events + tail)[0] == e;
    if !Stops(e) {
      assert (events + tail)[1..] == events[1..] + tail;
      StoppedIgnoresTail(events[1..], tail, if IsStream(e) then false else first);
    }
  }

  /** Events after the first "finalAnswer" have no effect on the output or on errors. */
  lemma AfterFinalIgnored(events: seq<Event>, tail: seq<Event>)
    requires exists j :: 0 <= j < |events| && IsFinal(events[j])
    ensures Process(events + tail) == Process(events)
  {
    var j :| 0 <= j < |events| && IsFinal(events[j]);
    assert StopIndex(events) <= j;
    StoppedIgnoresTail(events, tail, true);
  }

  /** An event whose type is neither "stream" nor "finalAnswer" emits nothing, raises nothing
      and leaves the first-token flag as it was, wherever it occurs. */
  lemma {:induction false} SkippedEventInvisible(before: seq<Event>, e: Event, after: seq<Event>, first: bool)
    requires e.ty.Some? && !IsStream(e) && !IsFinal(e)
    ensures Fold(before + [e] + after, first) == Fold(before + after, first)
  {
    if before == [] {
      assert before + [e] + after == [e] + after && before + after == after;
      assert ([e] + after)[0] == e && ([e] + after)[1..] == after;
    } else {
      var h := before[0];
      assert (before + [e] + after)[0] == h && (before + after)[0] == h;
      assert (before + [e] + after)[1..] == before[1..] + [e] + after;
      assert (before + after)[1..] == before[1..] + after;
      SkippedEventInvisible(before[1..], e, after, if IsStream(h) then false else first);
    }
  }

  /** An event that raises, reached before any "finalAnswer", fails processing there: the
      tokens already emitted are exactly those of the "stream" events before it. This covers an
      event without a type. */
  lemma FailsThere(events: seq<Event>, i: nat)
    requires i < |events| && ErrorOf(events[i]).Some?
    requires forall j :: 0 <= j < i ==> !Stops(events[j])
    ensures Process(events) == Outcome(StripFirst(true, StreamTokens(events[..i])), ErrorOf(events[i]))
    ensures events[i].ty.None? ==> Process(events).error == Some(MissingType(events[i]))
  {
    FoldCharacterized(events, true);
    assert StopIndex(events) == i;
  }

  /** No more tokens are emitted than there are "stream" events. */
  lemma {:induction false} EmittedBound(events: seq<Event>, first: bool)
    ensures |Fold(events, first).emitted| <= StreamCount(events)
  {
    if events != [] && !Stops(events[0]) {
      EmittedBound(events[1..], if IsStream(events[0]) then false else first);
    }
  }

  /** Two tokens then the terminal event: only the first token loses its leading whitespace. */
  lemma HelloWorldExample()
    ensures Process([
      Event(Some("stream"), Some("  Hello")),
      Event(Some("stream"), Some(" world")),
      Event(Some("finalAnswer"), None)]) == Outcome(["Hello", " world"], None)
  {
    var final := [Event(Some("finalAnswer"), None)];
    var world := [Event(Some("stream"), Some(" world"))] + final;
    var events := [Event(Some("stream"), Some("  Hello"))] + world;
    assert Fold(final, false) == Outcome([], None);
    assert world[0].token == Some(" world") && world[1..] == final;
    assert events[0].token == Some("  Hello") && events[1..] == world;
    assert Fold(world, false) == Outcome([" world"], None);
    assert Process(events) == Outcome([LStrip("  Hello"), " world"], None);
    assert LStrip("  Hello") == "Hello" by {
      var s2, s1, s0 := "  Hello", " Hello", "Hello";
      assert s2[0] == ' ' && s2[1..] == s1;
      assert s1[0] == ' ' && s1[1..] == s0;
      assert !IsSpace(s0[0]);
      assert LStrip(s1) == s0;
    }
  }

  /** An event without a type ends the stream with an error after the token before it. */
  lemma MissingTypeExample()
    ensures Process([
      Event(Some("stream"), Some("Hi")),
      Event(None, Some("x")),
      Event(Some("stream"), Some("y"))]) == Outcome(["Hi"], Some(MissingType(Event(None, Some("x")))))
  {
  }

  // ---------------------------------------------------------------------------------------
  // The stream loop.

  /** The loop over the response body: a "stream" event emits its token, left-stripped only for
      the first token; the first "finalAnswer" ends the loop; an event without a type raises
      after the earlier tokens have been emitted; any other type is skipped. */
  method ConsumeStream(events: seq<Event>) returns (emitted: seq<string>, error: Option<StreamError>)
    ensures Outcome(emitted, error) == Process(events)
    ensures Outcome(emitted, error) == Expected(events, true)
  {
    FoldCharacterized(events, true);
    emitted, error := [], None;
    var firstToken := true;
    var i := 0;
    while i < |events|
      invariant 0 <= i <= |events|
      invariant firstToken <==> emitted == []
      invariant Process(events) == After(emitted, Fold(events[i..], firstToken))
    {
      var line := events[i];
      assert events[i..][0] == line && events[i..][1..] == events[i + 1..];
      if line.ty.None? {
        error := Some(MissingType(line));
        return;
      } else if line.ty.value == "stream" {
        if line.token.None? {
          error := Some(MissingToken(line));
          return;
        }
        var token := line.token.value;
        if firstToken {
          token := LStrip(token);
          firstToken := false;
        }
        assert Fold(events[i..], emitted == []) == After([token], Fold(events[i + 1..], false));
        assert (emitted + [token]) + Fold(events[i + 1..], false).emitted
            == emitted + ([token] + Fold(events[i + 1..], false).emitted);
        emitted := emitted + [token];
      } else if line.ty.value == "finalAnswer" {
        break;
      }
      i := i + 1;
    }
    assert emitted + [] == emitted;
  }
}
