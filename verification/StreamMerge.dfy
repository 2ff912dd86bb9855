/** Merging streamed text (backend/app/channels/manager.py, _merge_stream_text and
    _accumulate_stream_text). Providers send either deltas or the whole text so far, without
    saying which; both are folded into one snapshot per message. */
module StreamMerge {
  import opened Options
  import opened Texts

  predicate EndsWith(s: string, t: string) {
    |t| <= |s| && s[|s| - |t|..] == t
  }

  function Merge(existing: string, chunk: string): string {
    if chunk == "" then existing
    else if existing == "" || chunk == existing then chunk
    else if existing <= chunk then chunk
    else if EndsWith(existing, chunk) then existing
    else existing + chunk
  }

  /** Nothing already shown is lost, the chunk is shown last, and repeating it changes nothing. */
  lemma MergeKeepsBoth(existing: string, chunk: string)
    ensures var merged := Merge(existing, chunk);
            && existing <= merged && |chunk| <= |merged| && merged[|merged| - |chunk|..] == chunk
            && Merge(merged, chunk) == merged && |merged| <= |existing| + |chunk|
  {
  }

  function Fold(chunks: seq<string>): string {
    if chunks == [] then "" else Merge(Fold(chunks[..|chunks| - 1]), chunks[|chunks| - 1])
  }

  /** Each chunk repeats the text so far and goes on. */
  ghost predicate Cumulative(chunks: seq<string>) {
    forall i :: 0 < i < |chunks| ==> chunks[i - 1] <= chunks[i]
  }

  lemma {:induction false} CumulativeFold(chunks: seq<string>)
    requires chunks != [] && Cumulative(chunks)
    ensures Fold(chunks) == chunks[|chunks| - 1]
  {
    if |chunks| > 1 {
      var n := |chunks| - 1;
      CumulativeFold(chunks[..n]);
      assert chunks[..n][n - 1] == chunks[n - 1];
    }
  }

  /** A delta that cannot be mistaken: not an extension of the text so far, nor its ending. */
  predicate Plain(existing: string, chunk: string) {
    || chunk == "" || existing == ""
    || (!(existing <= chunk) && !(|chunk| <= |existing| && existing[|existing| - |chunk|..] == chunk))
  }

  lemma {:induction false} FoldShorter(chunks: seq<string>)
    ensures |Fold(chunks)| <= |Concat(chunks)|
  {
    if chunks != [] {
      var n := |chunks| - 1;
      FoldShorter(chunks[..n]);
      ConcatAppend(chunks[..n], chunks[n]);
      assert chunks[..n] + [chunks[n]] == chunks;
    }
  }

  /** A plain chunk is appended, and any other makes the text shorter than that. */
  lemma AppendsIffPlain(existing: string, chunk: string)
    ensures if Plain(existing, chunk) then Merge(existing, chunk) == existing + chunk
            else |Merge(existing, chunk)| < |existing| + |chunk|
  {
  }

  /** Text lost to an earlier mistake is never made up for. */
  lemma MergeCatchesUpIff(existing: string, whole: string, chunk: string)
    requires |existing| <= |whole|
    ensures Merge(existing, chunk) == whole + chunk <==> existing == whole && Plain(existing, chunk)
  {
    AppendsIffPlain(existing, chunk);
    assert (existing + chunk)[..|existing|] == existing && (whole + chunk)[..|whole|] == whole;
    assert |existing + chunk| == |existing| + |chunk| && |whole + chunk| == |whole| + |chunk|;
  }

  /** Each of the first `n` chunks is plain for the text of those before it. */
  ghost predicate AllPlain(chunks: seq<string>, n: nat)
    requires n <= |chunks|
  {
    forall i :: 0 <= i < n ==> Plain(Concat(chunks[..i]), chunks[i])
  }

  lemma AllPlainPrefix(chunks: seq<string>)
    requires chunks != []
    ensures var n := |chunks| - 1; AllPlain(chunks[..n], n) == AllPlain(chunks, n)
  {
    var n := |chunks| - 1;
    assert forall i :: 0 <= i < n ==> chunks[..n][..i] == chunks[..i] && chunks[..n][i] == chunks[i];
  }

  lemma AllPlainSnoc(chunks: seq<string>)
    requires chunks != []
    ensures var n := |chunks| - 1;
      AllPlain(chunks, |chunks|) <==> AllPlain(chunks[..n], n) && Plain(Concat(chunks[..n]), chunks[n])
  {
    AllPlainPrefix(chunks);
  }

  /** Folding deltas gives their concatenation exactly when every delta is plain. */
  lemma {:induction false} DeltasConcatenateIff(chunks: seq<string>)
    ensures Fold(chunks) == Concat(chunks) <==> AllPlain(chunks, |chunks|)
  {
    if chunks != [] {
      var n := |chunks| - 1;
      DeltasConcatenateIff(chunks[..n]);
      FoldShorter(chunks[..n]);
      ConcatAppend(chunks[..n], chunks[n]);
      assert chunks[..n] + [chunks[n]] == chunks;
      MergeCatchesUpIff(Fold(chunks[..n]), Concat(chunks[..n]), chunks[n]);
      AllPlainSnoc(chunks);
    }
  }

  /** Two deltas that are not told apart from a repetition: a doubled letter loses one of the two. */
  lemma RepeatedDeltaIsLost()
    ensures Fold(["o", "o"]) == "o" && Concat(["o", "o"]) == "oo"
  {
    assert ["o", "o"][..1] == ["o"] && ["o"][..0] == [];
    assert Fold(["o"]) == Merge(Fold([]), "o");
    assert ["o", "o"][1..] == ["o"] && ["o"][1..] == [];
    assert Concat(["o"]) == "o" + Concat([]);
  }

  // ------------------------------------------------------------------ one buffer per message

  const DEFAULT_ID := "__default__"

  /** A streamed event: plain text; a message with the text found in its content or else in its
      `kwargs`, the ids found in the order they are looked for ("" if absent), and whether its type
      mentions a tool; or something else. */
  datatype Payload =
    | TextPayload(text: string)
    | MessagePayload(tool: bool, content: string, kwargsContent: string, ids: seq<string>)
    | OtherPayload

  function FirstNonEmpty(ids: seq<string>): string {
    if ids == [] then "" else if ids[0] != "" then ids[0] else FirstNonEmpty(ids[1..])
  }

  datatype Target = Target(id: string, chunk: string)

  /** Which buffer an event adds to, and what; None if the event is ignored. */
  function TargetOf(current: Option<string>, payload: Payload): Option<Target> {
    var fallback := if current.Some? && current.value != "" then current.value else DEFAULT_ID;
    match payload
    case TextPayload(text) => Some(Target(fallback, text))
    case MessagePayload(tool, content, kwargsContent, ids) =>
      var text := if content != "" then content else kwargsContent;
      if tool || text == "" then None
      else Some(Target(if FirstNonEmpty(ids) != "" then FirstNonEmpty(ids) else fallback, text))
    case OtherPayload => None
  }

  function Lookup(buffers: map<string, string>, id: string): string {
    if id in buffers then buffers[id] else ""
  }

  class StreamBuffers {
    var buffers: map<string, string>

    constructor ()
      ensures buffers == map[]
    {
      buffers := map[];
    }

    method Accumulate(current: Option<string>, payload: Payload) returns (text: Option<string>, next: Option<string>)
      modifies this
      ensures var target := TargetOf(current, payload);
              if target.None? then text == None && next == current && buffers == old(buffers)
              else
                var merged := Merge(Lookup(old(buffers), target.value.id), target.value.chunk);
                text == Some(merged) && next == Some(target.value.id)
                    && buffers == old(buffers)[target.value.id := merged]
    {
      var id, chunk := if current.Some? && current.value != "" then current.value else DEFAULT_ID, "";
      match payload {
        case TextPayload(t) => chunk := t;
        case MessagePayload(tool, content, kwargsContent, ids) =>
          if tool { return None, current; }
          chunk := content;
          if chunk == "" { chunk := kwargsContent; }
          if chunk == "" { return None, current; }
          var found := FirstNonEmpty(ids);
          if found != "" { id := found; }
        case OtherPayload => return None, current;
      }
      var existing := if id in buffers then buffers[id] else "";
      buffers := buffers[id := Merge(existing, chunk)];
      return Some(buffers[id]), Some(id);
    }
  }

  /** The accumulator after a stream of events. */
  datatype Accumulator = Accumulator(buffers: map<string, string>, current: Option<string>)

  function Step(a: Accumulator, payload: Payload): Accumulator {
    match TargetOf(a.current, payload)
    case None => a
    case Some(target) =>
      Accumulator(a.buffers[target.id := Merge(Lookup(a.buffers, target.id), target.chunk)], Some(target.id))
  }

  function Replay(payloads: seq<Payload>): Accumulator {
    if payloads == [] then Accumulator(map[], None)
    else Step(Replay(payloads[..|payloads| - 1]), payloads[|payloads| - 1])
  }

  // ------------------------------------------------------------------ whose chunk an event is

  /** The events that carry text: any plain text, and a message with some text that no tool sent. */
  ghost predicate Counts(payload: Payload) {
    payload.TextPayload?
    || (payload.MessagePayload? && !payload.tool && (payload.content != "" || payload.kwargsContent != ""))
  }

  ghost function TextOf(payload: Payload): string
    requires Counts(payload)
  {
    if payload.TextPayload? then payload.text
    else if payload.content != "" then payload.content
    else payload.kwargsContent
  }

  /** The first id that is not empty. */
  ghost predicate FirstId(ids: seq<string>, id: string) {
    id != "" && exists k :: 0 <= k < |ids| && ids[k] == id && forall j :: 0 <= j < k ==> ids[j] == ""
  }

  /** The event counts and is a message with an id of its own. */
  ghost predicate Names(payload: Payload, id: string) {
    Counts(payload) && payload.MessagePayload? && FirstId(payload.ids, id)
  }

  /** The last event up to the k-th that names a message names `id`, or none does and `id` is the default. */
  ghost predicate Belongs(payloads: seq<Payload>, k: nat, id: string)
    requires k < |payloads|
  {
    || (id == "__default__" && forall i, other :: 0 <= i <= k ==> !Names(payloads[i], other))
    || exists j :: 0 <= j <= k && Names(payloads[j], id)
         && forall i, other :: j < i <= k ==> !Names(payloads[i], other)
  }

  /** The chunks of one message, in order, picked out of the interleaved stream. */
  ghost function ChunksOf(payloads: seq<Payload>, id: string): seq<string> {
    if payloads == [] then []
    else
      var n := |payloads| - 1;
      if Counts(payloads[n]) && Belongs(payloads, n, id) then ChunksOf(payloads[..n], id) + [TextOf(payloads[n])]
      else ChunksOf(payloads[..n], id)
  }

  lemma {:induction false} FirstIsNamed(ids: seq<string>, id: string)
    ensures FirstId(ids, id) <==> id != "" && FirstNonEmpty(ids) == id
  {
    if ids != [] {
      FirstIsNamed(ids[1..], id);
      if FirstId(ids, id) && ids[0] == "" {
        var k :| 0 <= k < |ids| && ids[k] == id && forall j :: 0 <= j < k ==> ids[j] == "";
        assert ids[1..][k - 1] == id && forall j :: 0 <= j < k - 1 ==> ids[1..][j] == "";
      }
      if FirstId(ids[1..], id) && ids[0] == "" {
        var k :| 0 <= k < |ids[1..]| && ids[1..][k] == id && forall j :: 0 <= j < k ==> ids[1..][j] == "";
        assert ids[k + 1] == id;
        forall j | 0 <= j < k + 1 ensures ids[j] == "" { if j > 0 { assert ids[1..][j - 1] == ""; } }
      }
      if ids[0] == id { assert ids[0] == id; }
    }
  }

  /** The first id is the only one a message is named by. */
  lemma NamesIff(payload: Payload, id: string)
    requires payload.MessagePayload?
    ensures Names(payload, id) <==> Counts(payload) && id != "" && FirstNonEmpty(payload.ids) == id
  {
    FirstIsNamed(payload.ids, id);
  }

  /** An event that names a message belongs to it; any other goes on with the message before it. */
  lemma BelongsNext(payloads: seq<Payload>, id: string)
    requires payloads != []
    ensures var n := |payloads| - 1;
      Belongs(payloads, n, id) <==>
        if exists other :: Names(payloads[n], other) then Names(payloads[n], id)
        else if n == 0 then id == DEFAULT_ID
        else Belongs(payloads[..n], n - 1, id)
  {
    var n := |payloads| - 1;
    if other :| Names(payloads[n], other) { NamesIff(payloads[n], other); NamesIff(payloads[n], id); }
    assert forall i :: 0 <= i < n ==> payloads[..n][i] == payloads[i];
  }

  /** The message that streaming has come to. */
  ghost predicate Reached(payloads: seq<Payload>, id: string) {
    if payloads == [] then id == DEFAULT_ID else Belongs(payloads, |payloads| - 1, id)
  }

  lemma {:induction false} CurrentIsReached(payloads: seq<Payload>, id: string)
    ensures var current := Replay(payloads).current;
      Reached(payloads, id) <==> id == if current.Some? then current.value else DEFAULT_ID
    ensures Replay(payloads).current != Some("")
  {
    if payloads != [] {
      var n := |payloads| - 1;
      CurrentIsReached(payloads[..n], id);
      BelongsNext(payloads, id);
      if payloads[n].MessagePayload? {
        NamesIff(payloads[n], id);
        if Counts(payloads[n]) && FirstNonEmpty(payloads[n].ids) != "" {
          NamesIff(payloads[n], FirstNonEmpty(payloads[n].ids));
        } else {
          forall other ensures !Names(payloads[n], other) { NamesIff(payloads[n], other); }
        }
      }
    }
  }

  lemma StepAt(a: Accumulator, payload: Payload, id: string)
    ensures var target, b := TargetOf(a.current, payload), Step(a, payload).buffers;
      if target.Some? && target.value.id == id
      then id in b && b[id] == Merge(Lookup(a.buffers, id), target.value.chunk)
      else (id in b <==> id in a.buffers) && Lookup(b, id) == Lookup(a.buffers, id)
  {
  }

  lemma FoldNext(chunks: seq<string>, chunk: string)
    ensures Fold(chunks + [chunk]) == Merge(Fold(chunks), chunk)
  {
    assert (chunks + [chunk])[..|chunks|] == chunks;
  }

  lemma TargetIsOwn(payloads: seq<Payload>, id: string)
    requires payloads != []
    ensures var n := |payloads| - 1; var target := TargetOf(Replay(payloads[..n]).current, payloads[n]);
      && (target.Some? <==> Counts(payloads[n]))
      && (target.Some? ==> target.value.chunk == TextOf(payloads[n])
                           && (target.value.id == id <==> Belongs(payloads, n, id)))
  {
    var n := |payloads| - 1;
    CurrentIsReached(payloads[..n], id);
    CurrentIsReached(payloads, id);
  }

  /** However messages interleave, each buffer is the fold of that message's own chunks: a chunk belongs
      to the message that its event names, or else to the one that the last event before it with a name
      did, or to a default one. */
  lemma {:induction false} BuffersNeverMix(payloads: seq<Payload>, id: string)
    ensures Lookup(Replay(payloads).buffers, id) == Fold(ChunksOf(payloads, id))
    ensures id in Replay(payloads).buffers <==> ChunksOf(payloads, id) != []
  {
    if payloads != [] {
      var n := |payloads| - 1;
      BuffersNeverMix(payloads[..n], id);
      TargetIsOwn(payloads, id);
      StepAt(Replay(payloads[..n]), payloads[n], id);
      if Counts(payloads[n]) { FoldNext(ChunksOf(payloads[..n], id), TextOf(payloads[n])); }
    }
  }

  /** What an event that counts is answered with: the text so far of the message it belongs to. */
  lemma AnswerIsOwnText(payloads: seq<Payload>, id: string)
    requires payloads != [] && Counts(payloads[|payloads| - 1]) && Belongs(payloads, |payloads| - 1, id)
    ensures Replay(payloads).current == Some(id)
    ensures id in Replay(payloads).buffers && Replay(payloads).buffers[id] == Fold(ChunksOf(payloads, id))
  {
    TargetIsOwn(payloads, id);
    BuffersNeverMix(payloads, id);
  }

  /** An event that does not count changes nothing. */
  lemma OthersAreIgnored(payloads: seq<Payload>)
    requires payloads != [] && !Counts(payloads[|payloads| - 1])
    ensures Replay(payloads) == Replay(payloads[..|payloads| - 1])
  {
  }
}
