/** The throttled publisher of a streamed answer (ChannelManager._handle_streaming_chat in
    backend/app/channels/manager.py). */
module StreamPublish {
  import opened Options
  import opened StreamMerge
  import opened Texts

  const MIN_INTERVAL: real := 1.0
  const MIN_CHARS: int := 60
  const BUSY_MESSAGE :=
    "This conversation is already processing another request. "
    + "Please wait for it to finish and try again."
  const ERROR_MESSAGE := "An error occurred while processing your request. Please try again."
  const NO_RESPONSE := "(No response from agent)"

  /** `Values` carries the response text of a state snapshot and whether it asks for clarification. */
  datatype Event =
    | Messages(payload: Payload, now: real)
    | Values(text: string, clarification: bool, now: real)
    | Unrelated(now: real)

  datatype Publication = Publication(text: string, at: real)

  datatype Outbound = Outbound(text: string, final: bool)

  /** How the run's stream ended. */
  datatype Ending = Completed | Busy | Crashed | Cancelled

  // ------------------------------------------------------------------ the text after each event

  datatype Progress = Progress(acc: Accumulator, latest: string, values: Option<string>)

  function Advance(p: Progress, e: Event): Progress {
    match e
    case Messages(payload, _) =>
      var acc := Step(p.acc, payload);
      var target := TargetOf(p.acc.current, payload);
      var text := if target.Some? then acc.buffers[target.value.id] else "";
      Progress(acc, if text != "" then text else p.latest, p.values)
    case Values(text, clarification, _) =>
      Progress(p.acc, if clarification && text != "" then text else p.latest, Some(text))
    case Unrelated(_) => p
  }

  function ProgressAfter(events: seq<Event>): Progress {
    if events == [] then Progress(Accumulator(map[], None), "", None)
    else Advance(ProgressAfter(events[..|events| - 1]), events[|events| - 1])
  }

  // ------------------------------------------------------------------ which texts are published

  /** New text is published at once, then whenever a second has passed or sixty characters were added. */
  predicate Due(published: seq<Publication>, latest: string, now: real) {
    latest != "" &&
    (published == [] ||
     var last := published[|published| - 1];
     latest != last.text && (now - last.at >= MIN_INTERVAL || |latest| - |last.text| >= MIN_CHARS))
  }

  function Partials(events: seq<Event>): seq<Publication> {
    if events == [] then []
    else
      var n := |events| - 1;
      var before, latest, now := Partials(events[..n]), ProgressAfter(events).latest, events[n].now;
      if Due(before, latest, now) then before + [Publication(latest, now)] else before
  }

  /** The texts listing a response's artifacts, "" if there are none: those that could not be
      resolved and those that go out as attachments. */
  datatype Artifacts = Artifacts(unresolved: string, attached: string)

  /** The loop and its `finally` clause: exactly one final message, after all the partial ones. It is the
      response with its listings of artifacts as paragraphs, as far as there are any, or else says that
      the conversation was busy or that the run failed, or gives the latest text, or a placeholder. */
  method StreamChat(events: seq<Event>, artifacts: Artifacts, ending: Ending) returns (sent: seq<Outbound>)
    ensures |sent| == |Partials(events)| + 1 && Partial(sent[..|sent| - 1], Partials(events))
    ensures var p := ProgressAfter(events);
            var response := if p.values.Some? then p.values.value else p.latest;
            var parts := NonEmpty([response, artifacts.unresolved, artifacts.attached]);
            sent[|sent| - 1].text ==
              if parts != [] then Paragraphs(parts)
              else match ending
                case Busy => BUSY_MESSAGE
                case Crashed => "An error occurred while processing your request. Please try again."
                case _ => if p.latest != "" then p.latest else "(No response from agent)"
    ensures sent[|sent| - 1].final && sent[|sent| - 1].text != ""
  {
    sent := [];
    var buffers := new StreamBuffers();
    var current: Option<string> := None;
    var lastValues: Option<string> := None;
    var latest, lastText, lastLength, lastAt := "", "", 0, 0.0;
    ghost var ps: seq<Publication> := [];
    for i := 0 to |events|
      invariant ProgressAfter(events[..i]) == Progress(Accumulator(buffers.buffers, current), latest, lastValues)
      invariant fresh(buffers)
      invariant ps == Partials(events[..i]) && Partial(sent, ps) && LastIs(ps, lastText, lastLength, lastAt)
    {
      PartialsStep(events, i);
      current, latest, lastValues := TakeIn(buffers, events[i], current, latest, lastValues);
      var due := MustPublish(latest, events[i].now, lastText, lastLength, lastAt, ps);
      if due {
        PartialAppend(sent, ps, latest, events[i].now);
        sent := sent + [Outbound(latest + " ▉", false)];
        lastText, lastLength, lastAt := latest, |latest|, events[i].now;
        ps := ps + [Publication(latest, events[i].now)];
      }
    }
    assert events[..|events|] == events;
    var response := FinalResponse(if lastValues.Some? then lastValues.value else latest, artifacts, ending, latest);
    ghost var partials := sent;
    sent := sent + [Outbound(response, true)];
    assert sent[..|sent| - 1] == partials;
  }

  /** What is sent are the partial texts, each with a cursor and not final. */
  ghost predicate Partial(sent: seq<Outbound>, ps: seq<Publication>) {
    |sent| == |ps| && forall i :: 0 <= i < |ps| ==> sent[i] == Outbound(ps[i].text + " ▉", false)
  }

  lemma PartialAppend(sent: seq<Outbound>, ps: seq<Publication>, text: string, at: real)
    requires Partial(sent, ps)
    ensures Partial(sent + [Outbound(text + " ▉", false)], ps + [Publication(text, at)])
  {
  }

  /** The loop's variables say what was published last; no text stands for nothing yet. */
  ghost predicate LastIs(ps: seq<Publication>, text: string, length: int, at: real) {
    if ps == [] then text == "" else text != "" && ps[|ps| - 1] == Publication(text, at) && length == |text|
  }

  /** The throttle: the two conditions under which the loop goes on without publishing. */
  method MustPublish(latest: string, now: real, lastText: string, lastLength: int, lastAt: real,
        ghost ps: seq<Publication>)
      returns (due: bool)
    requires LastIs(ps, lastText, lastLength, lastAt)
    ensures due == Due(ps, latest, now)
  {
    if latest == "" || latest == lastText { return false; }
    var newChars := |latest| - lastLength;
    if lastText != "" && now - lastAt < MIN_INTERVAL && newChars < MIN_CHARS { return false; }
    due := true;
  }

  /** What one streamed event does to the text so far. */
  method TakeIn(buffers: StreamBuffers, event: Event, current: Option<string>, latest: string, values: Option<string>)
      returns (current': Option<string>, latest': string, values': Option<string>)
    modifies buffers
    ensures Progress(Accumulator(buffers.buffers, current'), latest', values')
         == Advance(Progress(Accumulator(old(buffers.buffers), current), latest, values), event)
  {
    current', latest', values' := current, latest, values;
    match event {
      case Messages(payload, _) =>
        var text;
        text, current' := buffers.Accumulate(current, payload);
        if text.Some? && text.value != "" { latest' := text.value; }
      case Values(text, clarification, _) =>
        values' := Some(text);
        if clarification && text != "" && text != latest { latest' := text; }
      case Unrelated(_) =>
    }
  }

  /** The `finally` clause's choice of a text. */
  method FinalResponse(text: string, artifacts: Artifacts, ending: Ending, latest: string) returns (response: string)
    ensures var parts := NonEmpty([text, artifacts.unresolved, artifacts.attached]);
      response ==
        if parts != [] then Paragraphs(parts)
        else match ending
          case Busy => BUSY_MESSAGE
          case Crashed => ERROR_MESSAGE
          case _ => if latest != "" then latest else NO_RESPONSE
    ensures response != ""
  {
    ParagraphAdded([], text);
    ParagraphAdded([text], artifacts.unresolved);
    ParagraphAdded([text, artifacts.unresolved], artifacts.attached);
    assert [] + [text] == [text] && [text] + [artifacts.unresolved] == [text, artifacts.unresolved];
    assert [text, artifacts.unresolved] + [artifacts.attached] == [text, artifacts.unresolved, artifacts.attached];
    NoEmptyParagraph([text, artifacts.unresolved, artifacts.attached]);
    response := text;
    if artifacts.unresolved != "" {
      response := if response != "" then response + "\n\n" + artifacts.unresolved else artifacts.unresolved;
    }
    if artifacts.attached != "" {
      response := if response != "" then response + "\n\n" + artifacts.attached else artifacts.attached;
    }
    if response == "" {
      if ending.Busy? { response := BUSY_MESSAGE; }
      else if ending.Crashed? { response := ERROR_MESSAGE; }
      else { response := if latest != "" then latest else NO_RESPONSE; }
    }
  }

  lemma PartialsStep(events: seq<Event>, i: nat)
    requires i < |events|
    ensures ProgressAfter(events[..i + 1]) == Advance(ProgressAfter(events[..i]), events[i])
    ensures var before, latest, now := Partials(events[..i]), ProgressAfter(events[..i + 1]).latest, events[i].now;
            Partials(events[..i + 1]) == if Due(before, latest, now) then before + [Publication(latest, now)]
                else before
  {
    assert events[..i + 1][..i] == events[..i];
  }

  // ------------------------------------------------------------------ what the latest text is

  /** The streamed messages among the events. */
  function MessagesOf(events: seq<Event>): seq<Payload> {
    if events == [] then []
    else
      var n := |events| - 1;
      MessagesOf(events[..n]) + if events[n].Messages? then [events[n].payload] else []
  }

  lemma {:induction false} AccumulatesMessages(events: seq<Event>)
    ensures ProgressAfter(events).acc == Replay(MessagesOf(events))
  {
    if events != [] {
      var n := |events| - 1;
      AccumulatesMessages(events[..n]);
      var before := MessagesOf(events[..n]);
      if events[n].Messages? {
        assert (before + [events[n].payload])[..|before|] == before;
      } else {
        assert MessagesOf(events) == before + [] == before;
      }
    }
  }

  /** A streamed chunk makes its own message's text so far the latest one; a snapshot that asks for
      clarification makes its text the latest; empty texts and everything else leave it. */
  lemma LatestText(events: seq<Event>, id: string)
    ensures events == [] ==> ProgressAfter(events).latest == "" && ProgressAfter(events).values == None
    ensures events != [] ==>
      var e, ms := events[|events| - 1], MessagesOf(events);
      var before, after := ProgressAfter(events[..|events| - 1]), ProgressAfter(events);
      && after.values == (if e.Values? then Some(e.text) else before.values)
      && (e.Messages? && Counts(e.payload) && Belongs(ms, |ms| - 1, id) ==>
            var text := Fold(ChunksOf(ms, id)); after.latest == if text != "" then text else before.latest)
      && (e.Messages? && !Counts(e.payload) ==> after.latest == before.latest)
      && (e.Values? ==> after.latest == if e.clarification && e.text != "" then e.text else before.latest)
      && (e.Unrelated? ==> after.latest == before.latest)
  {
    if events != [] && events[|events| - 1].Messages? {
      var n := |events| - 1;
      var e, ms := events[n], MessagesOf(events);
      AccumulatesMessages(events[..n]);
      AccumulatesMessages(events);
      assert ms[..|ms| - 1] == MessagesOf(events[..n]) && ms[|ms| - 1] == e.payload;
      TargetIsOwn(ms, id);
      if Counts(e.payload) && Belongs(ms, |ms| - 1, id) { AnswerIsOwnText(ms, id); }
    }
  }

  // ------------------------------------------------------------------ spacing and number of partials

  ghost predicate Clocked(events: seq<Event>) {
    forall i, j :: 0 <= i < j < |events| ==> events[i].now <= events[j].now
  }

  /** Each partial differs from the one before and comes a second later or is sixty characters longer. */
  ghost predicate Spaced(ps: seq<Publication>) {
    forall i :: 0 < i < |ps| ==>
      && ps[i].text != ps[i - 1].text
      && ps[i].at >= ps[i - 1].at
      && (ps[i].at - ps[i - 1].at >= 1.0 || |ps[i].text| - |ps[i - 1].text| >= 60)
  }

  lemma SpacedAppend(ps: seq<Publication>, text: string, now: real)
    requires Spaced(ps) && Due(ps, text, now) && (ps != [] ==> ps[|ps| - 1].at <= now)
    ensures Spaced(ps + [Publication(text, now)])
  {
  }

  lemma {:induction false} PartialsSpaced(events: seq<Event>)
    requires Clocked(events)
    ensures Spaced(Partials(events))
    ensures forall p <- Partials(events) :: p.text != ""
    ensures Partials(events) != [] ==>
        events != [] && Partials(events)[|Partials(events)| - 1].at <= events[|events| - 1].now
  {
    if events != [] {
      var n := |events| - 1;
      var before := Partials(events[..n]);
      PartialsSpaced(events[..n]);
      if Due(before, ProgressAfter(events).latest, events[n].now) {
        SpacedAppend(before, ProgressAfter(events).latest, events[n].now);
      }
    }
  }

  /** The characters gained from one partial to the next, where any were. */
  function Growth(ps: seq<Publication>): int {
    if |ps| < 2 then 0
    else
      var n := |ps| - 1;
      Growth(ps[..n]) + (if |ps[n].text| > |ps[n - 1].text| then |ps[n].text| - |ps[n - 1].text| else 0)
  }

  function Elapsed(ps: seq<Publication>): real {
    if ps == [] then 0.0 else ps[|ps| - 1].at - ps[0].at
  }

  /** The number of partials is bounded by the time and the growth of the text. */
  lemma {:induction false} SpacedBound(ps: seq<Publication>)
    requires Spaced(ps)
    ensures |ps| as real <= 1.0 + Elapsed(ps) + Growth(ps) as real / 60.0
  {
    if |ps| >= 2 {
      var n := |ps| - 1;
      SpacedBound(ps[..n]);
    }
  }

  lemma {:induction false} GrowthTelescopes(ps: seq<Publication>)
    requires ps != [] && forall i :: 0 < i < |ps| ==> |ps[i - 1].text| <= |ps[i].text|
    ensures Growth(ps) == |ps[|ps| - 1].text| - |ps[0].text|
  {
    if |ps| >= 2 {
      GrowthTelescopes(ps[..|ps| - 1]);
    }
  }

  ghost predicate NeverShrinks(ps: seq<Publication>) {
    forall i :: 0 < i < |ps| ==> |ps[i - 1].text| <= |ps[i].text|
  }

  lemma LengthBound(ps: seq<Publication>)
    requires Spaced(ps) && NeverShrinks(ps) && ps != []
    ensures |ps| as real <= 1.0 + Elapsed(ps) + |ps[|ps| - 1].text| as real / 60.0
  {
    SpacedBound(ps);
    GrowthTelescopes(ps);
    assert Growth(ps) <= |ps[|ps| - 1].text|;
  }

  /** For every stream: at most one partial, plus one per elapsed second, plus one per sixty
      characters gained; for texts that never shrink, that is sixty characters of the last one. */
  lemma FewPartials(events: seq<Event>)
    requires Clocked(events)
    ensures var ps := Partials(events);
            && Spaced(ps)
            && |ps| as real <= 1.0 + Elapsed(ps) + Growth(ps) as real / 60.0
            && (ps != [] && NeverShrinks(ps) ==>
                  |ps| as real <= 1.0 + Elapsed(ps) + |ps[|ps| - 1].text| as real / 60.0)
  {
    PartialsSpaced(events);
    var ps := Partials(events);
    SpacedBound(ps);
    if ps != [] && NeverShrinks(ps) { LengthBound(ps); }
  }

  /** Nothing is held back for long: after every event the latest text is the last published one,
      or the last partial is less than a second old and less than sixty characters behind. */
  lemma LatestIsRecent(events: seq<Event>)
    requires events != [] && ProgressAfter(events).latest != ""
    ensures var ps, latest := Partials(events), ProgressAfter(events).latest;
            && ps != []
            && var last := ps[|ps| - 1];
               latest == last.text ||
               (events[|events| - 1].now - last.at < 1.0 && |latest| - |last.text| < 60)
  {
  }
}
