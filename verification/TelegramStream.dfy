/** Streaming into an edited Telegram message (backend/app/channels/telegram.py).

    The channel remembers, per conversation, which message it is editing and what that
    message shows. The bot is an adversary that picks the outcome of every call; the
    model carries along what the messages really show, so the two can be compared. */
module TelegramStream {
  import opened Texts
  import opened TextSplit
  import opened RecencyLists

  const MAX_TRACKED: nat := 256
  const PRIVATE_INTERVAL: real := 1.0
  const GROUP_INTERVAL: real := 3.0
  const WORKING := "Working on it..."

  type StreamKey = string

  datatype Stream = Stream(messageId: nat, lastEditAt: real, lastText: string)

  /** `order` and `streams` are the tracking dictionary, oldest entry first; `shown` is what each
      message in the chats displays, and `nextId` the next message id the bot will hand out. */
  datatype World = World(order: seq<StreamKey>, streams: map<StreamKey, Stream>, shown: map<nat, string>, nextId: nat)

  /** An edit is accepted, rejected because the text is already there, rejected because of rate
      limits, or fails in another way, in which case it may or may not have been carried out. */
  datatype EditOutcome = Edited | NotModified | RetryAfter | EditFailed(applied: bool)

  function AfterEdit(shown: map<nat, string>, id: nat, text: string, outcome: EditOutcome): map<nat, string> {
    if outcome.Edited? || (outcome.EditFailed? && outcome.applied) then shown[id := text] else shown
  }

  /** The bot only claims "not modified" if the message does show that text. */
  predicate Honest(shown: map<nat, string>, id: nat, text: string, outcome: EditOutcome) {
    outcome.NotModified? ==> id in shown && shown[id] == text
  }

  /** A text too long for one message is cut and marked. */
  function Display(text: string): (display: string)
    ensures |text| <= 4096 ==> display == text
    ensures |text| > 4096 ==> |display| == 4096 && display[..4095] == text[..4095] && display[4095] == '…'
  {
    if |text| > TELEGRAM_MAX then text[..TELEGRAM_MAX - 1] + "…" else text
  }

  function Interval(group: bool): real {
    if group then GROUP_INTERVAL else PRIVATE_INTERVAL
  }

  function Posted(w: World, text: string): World {
    w.(shown := w.shown[w.nextId := text], nextId := w.nextId + 1)
  }

  /** Tracking a message drops the oldest entries beyond the bound. */
  function Registered(w: World, key: StreamKey, stream: Stream): World {
    var others := Latest(Drop(w.order, key), MAX_TRACKED - 1);
    w.(order := others + [key],
       streams := (map k | k in w.streams && k in others :: w.streams[k])[key := stream])
  }

  predicate Attempts(w: World, key: StreamKey, text: string, now: real, group: bool) {
    key in w.streams && now - w.streams[key].lastEditAt >= Interval(group) && Display(text) != w.streams[key].lastText
  }

  /** What a non-final update does, given the bot's answers (a send either posts or fails) and the
      clock before and after the calls. */
  function AfterUpdate(w: World, key: StreamKey, text: string, group: bool, now: real, later: real,
                       edit: EditOutcome, sends: bool): World {
    var display := Display(text);
    if text == "" then w
    else if key !in w.streams then
      if sends then Registered(Posted(w, display), key, Stream(w.nextId, later, display)) else w
    else if !Attempts(w, key, text, now, group) then w
    else
      var state := w.streams[key];
      var v := w.(shown := AfterEdit(w.shown, state.messageId, display, edit));
      match edit
      case Edited => v.(streams := w.streams[key := Stream(state.messageId, later, display)])
      case NotModified => v.(streams := w.streams[key := state.(lastText := display)])
      case RetryAfter => v
      case EditFailed(_) =>
        if sends then Posted(v, display).(streams := w.streams[key := Stream(w.nextId, later, display)]) else v
  }

  // ------------------------------------------------------------------ the tracked text is what is shown

  ghost predicate Agrees(w: World, key: StreamKey)
    requires key in w.streams
  {
    w.streams[key].messageId in w.shown && w.shown[w.streams[key].messageId] == w.streams[key].lastText
  }

  /** The dictionary is well formed and small, and its entries name different, existing messages. */
  ghost predicate Tidy(w: World) {
    && Distinct(w.order)
    && (forall k :: k in w.order <==> k in w.streams)
    && |w.order| <= MAX_TRACKED
    && (forall id <- w.shown :: id < w.nextId)
    && (forall k <- w.streams :: w.streams[k].messageId in w.shown)
    && (forall k <- w.streams, l <- w.streams :: w.streams[k].messageId == w.streams[l].messageId ==> k == l)
  }

  ghost predicate Agreement(w: World) {
    Tidy(w) && forall k <- w.streams :: Agrees(w, k)
  }

  /** The order lists the keys of the dictionary, each once. */
  ghost predicate Keyed(order: seq<StreamKey>, streams: map<StreamKey, Stream>) {
    Distinct(order) && forall k :: k in order <==> k in streams
  }

  lemma RegisteredOrder(order: seq<StreamKey>, key: StreamKey)
    requires Distinct(order)
    ensures var others := Latest(Drop(order, key), MAX_TRACKED - 1);
            && Distinct(others)
            && key !in others && |others| < MAX_TRACKED && forall k <- others :: k in order
  {
    DropDistinct(order, key);
    var all := Drop(order, key);
    forall k ensures k in all <==> k in order && k != key { DropMember(order, key, k); }
    assert forall k <- Latest(all, MAX_TRACKED - 1) :: k in all;
  }

  lemma RegisteredStreams(w: World, key: StreamKey, stream: Stream)
    requires Tidy(w)
    ensures var v := Registered(w, key, stream);
            && (forall k :: k in v.order <==> k in v.streams)
            && (forall k <- v.streams :: k != key ==> k in w.streams && v.streams[k] == w.streams[k])
            && key in v.streams && v.streams[key] == stream && v.shown == w.shown && v.nextId == w.nextId
            && |v.order| <= MAX_TRACKED && Distinct(v.order)
  {
    RegisteredOrder(w.order, key);
  }

  lemma RegisterKeepsTidy(w: World, key: StreamKey, stream: Stream)
    requires Tidy(w) && stream.messageId in w.shown
    requires forall k <- w.streams :: w.streams[k].messageId != stream.messageId
    ensures Tidy(Registered(w, key, stream))
  {
    RegisteredStreams(w, key, stream);
  }

  /** Starting to track a freshly posted message keeps agreement and the bound of 256. */
  lemma RegisterKeepsAgreement(w: World, key: StreamKey, text: string, at: real)
    requires Agreement(w)
    ensures Agreement(Registered(Posted(w, text), key, Stream(w.nextId, at, text)))
  {
    var posted, stream := Posted(w, text), Stream(w.nextId, at, text);
    RegisterKeepsTidy(posted, key, stream);
    RegisteredStreams(posted, key, stream);
    forall k <- Registered(posted, key, stream).streams ensures Agrees(Registered(posted, key, stream), k) {
      if k != key { assert Agrees(w, k); }
    }
  }

  /** Replacing one entry's fields keeps agreement if the new entry agrees. */
  lemma RetargetKeepsTidy(w: World, key: StreamKey, stream: Stream, shown: map<nat, string>, nextId: nat)
    requires Tidy(w) && key in w.streams && w.nextId <= nextId
    requires w.shown.Keys <= shown.Keys && forall id <- shown :: id < nextId
    requires stream.messageId in shown
    requires stream.messageId == w.streams[key].messageId || stream.messageId !in w.shown
    ensures Tidy(World(w.order, w.streams[key := stream], shown, nextId))
  {
  }

  // ------------------------------------------------------------------ the final message

  /** The final edit succeeds, or finds the text there already, if need be after one rate limit. */
  predicate Counts(first: EditOutcome, second: EditOutcome) {
    || first.Edited? || first.NotModified?
    || (first.RetryAfter? && (second.Edited? || second.NotModified?))
  }

  predicate Applied(outcome: EditOutcome) {
    outcome.Edited? || outcome.NotModified?
  }

  /** The final edit with one retry after a rate limit: what is shown then, and whether it counts as done. */
  function FinalEdit(shown: map<nat, string>, id: nat, text: string, first: EditOutcome,
        second: EditOutcome): (map<nat, string>, bool) {
    var once := AfterEdit(shown, id, text, first);
    if first.RetryAfter? then (AfterEdit(once, id, text, second), Applied(second))
    else (once, Applied(first))
  }

  /** Sends chunks one after the other until the bot refuses for good after `budget` of them. */
  function SendAll(w: World, chunks: seq<string>, budget: nat): World
    decreases |chunks|
  {
    if chunks == [] || budget == 0 then w else SendAll(Posted(w, chunks[0]), chunks[1..], budget - 1)
  }

  function Forgotten(w: World, key: StreamKey): World {
    w.(order := Drop(w.order, key), streams := w.streams - {key})
  }

  function FinalEditOf(w: World, key: StreamKey, text: string, first: EditOutcome,
        second: EditOutcome): (map<nat, string>, bool)
    requires key in w.streams
  {
    var chunk := TelegramSplit(text)[0];
    if chunk == w.streams[key].lastText then (w.shown, true)
    else FinalEdit(w.shown, w.streams[key].messageId, chunk, first, second)
  }

  function LeftToSend(w: World, key: StreamKey, text: string, first: EditOutcome, second: EditOutcome): seq<string>
    requires key in w.streams
  {
    if FinalEditOf(w, key, text, first, second).1 then TelegramSplit(text)[1..] else TelegramSplit(text)
  }

  /** What a final update does to a tracked conversation. */
  function AfterFinal(w: World, key: StreamKey, text: string, first: EditOutcome, second: EditOutcome,
        budget: nat): World
    requires key in w.streams
  {
    SendAll(Forgotten(w, key).(shown := FinalEditOf(w, key, text, first, second).0),
            LeftToSend(w, key, text, first, second), budget)
  }

  function Smaller(a: nat, b: nat): nat {
    if a < b then a else b
  }

  /** The ids the bot hands out to the next `n` messages. */
  function IdsFrom(from: nat, n: nat): (ids: seq<nat>)
    ensures |ids| == n && forall i :: 0 <= i < n ==> ids[i] == from + i
  {
    seq(n, i requires 0 <= i => from + i)
  }

  /** The messages that carry the final text: the tracked one if its edit counts, then the posted ones. */
  function Carriers(w: World, key: StreamKey, text: string, first: EditOutcome, second: EditOutcome,
        budget: nat): seq<nat>
    requires key in w.streams
  {
    var left := LeftToSend(w, key, text, first, second);
    (if FinalEditOf(w, key, text, first, second).1 then [w.streams[key].messageId] else [])
    + IdsFrom(w.nextId, Smaller(|left|, budget))
  }

  /** `messages` show exactly `texts`, in order. */
  ghost predicate Shows(shown: map<nat, string>, messages: seq<nat>, texts: seq<string>) {
    |messages| == |texts| && forall i :: 0 <= i < |messages| ==> messages[i] in shown && shown[messages[i]] == texts[i]
  }

  lemma {:induction false} SendAllShows(w: World, chunks: seq<string>, budget: nat)
    requires forall id <- w.shown :: id < w.nextId
    ensures var v := SendAll(w, chunks, budget);
            v == w.(shown := v.shown, nextId := w.nextId + Smaller(|chunks|, budget))
    ensures var v := SendAll(w, chunks, budget); forall id <- w.shown :: id in v.shown && v.shown[id] == w.shown[id]
    ensures var v := SendAll(w, chunks, budget); forall id <- v.shown :: id < v.nextId
    ensures var v := SendAll(w, chunks, budget);
            forall id :: w.nextId <= id < v.nextId ==> id in v.shown && v.shown[id] == chunks[id - w.nextId]
    decreases |chunks|
  {
    if chunks != [] && budget > 0 {
      var p := Posted(w, chunks[0]);
      SendAllShows(p, chunks[1..], budget - 1);
      var v := SendAll(w, chunks, budget);
      assert v == SendAll(p, chunks[1..], budget - 1);
      assert w.nextId in p.shown && w.nextId !in w.shown;
      forall id | w.nextId < id < v.nextId ensures v.shown[id] == chunks[id - w.nextId] {
        assert chunks[1..][id - p.nextId] == chunks[id - w.nextId];
      }
    }
  }

  /** The bot's answers to the final edits, as far as any are tried. */
  predicate HonestFinal(w: World, key: StreamKey, text: string, first: EditOutcome, second: EditOutcome)
    requires key in w.streams
  {
    var chunk, state := TelegramSplit(text)[0], w.streams[key];
    chunk != state.lastText ==>
      && Honest(w.shown, state.messageId, chunk, first)
      && (first.RetryAfter? ==> Honest(w.shown, state.messageId, chunk, second))
  }

  /** The final edit is skipped although the message does not show the text it is tracked with. */
  ghost predicate SkipsWrongly(w: World, key: StreamKey, text: string)
    requires key in w.streams
  {
    TelegramSplit(text)[0] == w.streams[key].lastText && !Agrees(w, key)
  }

  /** The final text arrives, or else an edit was skipped wrongly. The tracked message (or its
      replacement) followed by the overflow messages shows the chunks of the final text in order (all
      of it once no send fails, and otherwise a prefix of its chunks) exactly unless the final edit is
      skipped because of a tracked text that the message does not show. Whatever happens, no other
      conversation is disturbed and this one is no longer tracked. */
  lemma FinalShowsText(w: World, key: StreamKey, text: string, first: EditOutcome, second: EditOutcome, budget: nat)
    requires Tidy(w) && key in w.streams && HonestFinal(w, key, text, first, second)
    ensures var v := AfterFinal(w, key, text, first, second, budget);
            var carriers := Carriers(w, key, text, first, second, budget);
            && |carriers| <= |TelegramSplit(text)|
            && (Shows(v.shown, carriers, TelegramSplit(text)[..|carriers|]) <==> !SkipsWrongly(w, key, text))
            && (|LeftToSend(w, key, text, first, second)| <= budget ==> |carriers| == |TelegramSplit(text)|)
            && (w.streams[key].messageId in carriers
                <==> TelegramSplit(text)[0] == w.streams[key].lastText || Counts(first, second))
            && Concat(TelegramSplit(text)) == text
            && Tidy(v) && v.streams == w.streams - {key}
            && (forall other <- v.streams :: Agrees(v, other) <==> Agrees(w, other))
  {
    TelegramSplitRejoins(text);
    var u := Forgotten(w, key).(shown := FinalEditOf(w, key, text, first, second).0);
    CarriersShow(w, key, text, first, second, budget, u);
    TrackedFinalKeepsTidy(w, key, text, first, second, budget);
    if SkipsWrongly(w, key, text) { SkippedIsWrong(w, key, text, first, second, budget, u); }
    OwnCarries(w, key, text, first, second, budget);
  }

  lemma OwnCarries(w: World, key: StreamKey, text: string, first: EditOutcome, second: EditOutcome, budget: nat)
    requires Tidy(w) && key in w.streams
    ensures w.streams[key].messageId in Carriers(w, key, text, first, second, budget)
      <==> TelegramSplit(text)[0] == w.streams[key].lastText || Counts(first, second)
  {
    var ids := IdsFrom(w.nextId, Smaller(|LeftToSend(w, key, text, first, second)|, budget));
    assert w.streams[key].messageId !in ids;
    if FinalEditOf(w, key, text, first, second).1 {
      assert Carriers(w, key, text, first, second, budget)[0] == w.streams[key].messageId;
    }
  }

  lemma SkippedIsWrong(w: World, key: StreamKey, text: string, first: EditOutcome, second: EditOutcome,
        budget: nat, u: World)
    requires Tidy(w) && key in w.streams && SkipsWrongly(w, key, text)
    requires u == Forgotten(w, key).(shown := FinalEditOf(w, key, text, first, second).0)
    ensures var carriers := Carriers(w, key, text, first, second, budget);
            && 0 < |carriers| <= |TelegramSplit(text)|
            && !Shows(AfterFinal(w, key, text, first, second, budget).shown, carriers,
                TelegramSplit(text)[..|carriers|])
  {
    var carriers, left := Carriers(w, key, text, first, second, budget), LeftToSend(w, key, text, first, second);
    SendAllShows(u, left, budget);
    assert carriers[0] == w.streams[key].messageId;
  }

  lemma CarriersShow(w: World, key: StreamKey, text: string, first: EditOutcome, second: EditOutcome,
        budget: nat, u: World)
    requires key in w.streams && w.streams[key].messageId in w.shown
    requires u == Forgotten(w, key).(shown := FinalEditOf(w, key, text, first, second).0)
    requires forall id <- u.shown :: id < u.nextId
    requires w.streams[key].messageId in u.shown
    ensures var carriers := Carriers(w, key, text, first, second, budget);
            var left := LeftToSend(w, key, text, first, second);
            && |carriers| <= |TelegramSplit(text)|
            && (|left| <= budget ==> |carriers| == |TelegramSplit(text)|)
            && ((FinalEditOf(w, key, text, first, second).1 ==>
                u.shown[w.streams[key].messageId] == TelegramSplit(text)[0]) ==>
                  Shows(AfterFinal(w, key, text, first, second, budget).shown, carriers,
                      TelegramSplit(text)[..|carriers|]))
  {
    var edited := FinalEditOf(w, key, text, first, second).1;
    if edited ==> u.shown[w.streams[key].messageId] == TelegramSplit(text)[0] {
      SendingShows(u, w.streams[key].messageId, TelegramSplit(text), edited, budget);
    }
  }

  lemma SendingShows(u: World, id: nat, chunks: seq<string>, edited: bool, budget: nat)
    requires (forall other <- u.shown :: other < u.nextId) && chunks != []
    requires edited ==> id in u.shown && u.shown[id] == chunks[0]
    ensures var left := if edited then chunks[1..] else chunks;
            var ids := (if edited then [id] else []) + IdsFrom(u.nextId, Smaller(|left|, budget));
            && |ids| <= |chunks|
            && Shows(SendAll(u, left, budget).shown, ids, chunks[..|ids|])
            && (|left| <= budget ==> |ids| == |chunks|)
  {
    var left := if edited then chunks[1..] else chunks;
    SendAllShows(u, left, budget);
    ChunksShow(SendAll(u, left, budget).shown, id, chunks, edited, u.nextId, Smaller(|left|, budget));
  }

  /** Whether or not the edit counted, the messages carry as many chunks as there are messages. */
  lemma ChunksShow(shown: map<nat, string>, id: nat, chunks: seq<string>, edited: bool, from: nat, n: nat)
    requires chunks != [] && n <= if edited then |chunks| - 1 else |chunks|
    requires edited ==> id in shown && shown[id] == chunks[0]
    requires var left := if edited then chunks[1..] else chunks;
             forall m :: from <= m < from + n ==> m in shown && shown[m] == left[m - from]
    ensures var ids := (if edited then [id] else []) + IdsFrom(from, n);
            |ids| <= |chunks| && Shows(shown, ids, chunks[..|ids|])
  {
    var left := if edited then chunks[1..] else chunks;
    var head, first := if edited then [id] else [], if edited then [chunks[0]] else [];
    assert first + left == chunks;
    HeadAndTail(shown, head, first, left, from, n);
  }

  /** The edited message, if any, and the ids from `from` on show the chunks one after the other. */
  lemma HeadAndTail(shown: map<nat, string>, head: seq<nat>, first: seq<string>, left: seq<string>, from: nat, n: nat)
    requires |head| == |first| && n <= |left|
    requires forall i :: 0 <= i < |head| ==> head[i] in shown && shown[head[i]] == first[i]
    requires forall id :: from <= id < from + n ==> id in shown && shown[id] == left[id - from]
    ensures var ids := head + IdsFrom(from, n);
            |ids| == |head| + n && Shows(shown, ids, (first + left)[..|ids|])
  {
    var ids := head + IdsFrom(from, n);
    forall i | 0 <= i < |ids| ensures ids[i] in shown && shown[ids[i]] == (first + left)[i] {
      if i >= |head| { assert ids[i] == from + (i - |head|); }
    }
  }

  lemma ForgetKeepsTidy(w: World, key: StreamKey, u: World, v: World)
    requires Tidy(w) && key in w.streams
    requires u == Forgotten(w, key).(shown := u.shown) && u.shown.Keys == w.shown.Keys
    requires forall other <- w.shown :: other != w.streams[key].messageId ==> u.shown[other] == w.shown[other]
    requires v == u.(shown := v.shown, nextId := v.nextId) && v.nextId >= u.nextId
    requires forall id <- u.shown :: id in v.shown && v.shown[id] == u.shown[id]
    requires forall id <- v.shown :: id < v.nextId
    ensures Tidy(v) && forall other <- v.streams :: Agrees(v, other) <==> Agrees(w, other)
  {
    DropDistinct(w.order, key);
    forall k ensures k in v.order <==> k in v.streams { DropMember(w.order, key, k); }
  }

  // ------------------------------------------------------------------ whole runs

  /** A message out for sending, final or not, or a "Working on it..." reply, with the bot's answers. */
  datatype Action =
    | Update(key: StreamKey, text: string, group: bool, now: real, later: real, edit: EditOutcome, sends: bool)
    | Running(key: StreamKey, sends: bool)
    | Final(key: StreamKey, text: string, first: EditOutcome, second: EditOutcome, budget: nat)

  function Apply(w: World, a: Action): World {
    match a
    case Update(key, text, group, now, later, edit, sends) => AfterUpdate(w, key, text, group, now, later, edit, sends)
    case Running(key, sends) => if sends then Registered(Posted(w, WORKING), key, Stream(w.nextId, 0.0, WORKING)) else w
    case Final(key, text, first, second, budget) =>
      if key in w.streams then AfterFinal(w, key, text, first, second, budget)
      else if budget > 0 then Posted(w, text)
      else w
  }

  /** The bot says "not modified" only if that is so. */
  predicate HonestBot(w: World, a: Action) {
    match a
    case Update(key, text, group, now, _, edit, _) =>
      Attempts(w, key, text, now, group) ==> Honest(w.shown, w.streams[key].messageId, Display(text), edit)
    case Running(_, _) => true
    case Final(key, text, first, second, _) => key in w.streams ==> HonestFinal(w, key, text, first, second)
  }

  const NEW_CHANNEL := World([], map[], map[], 0)

  function After(actions: seq<Action>): World {
    if actions == [] then NEW_CHANNEL else Apply(After(actions[..|actions| - 1]), actions[|actions| - 1])
  }

  predicate HonestRun(actions: seq<Action>) {
    actions == [] ||
    (HonestRun(actions[..|actions| - 1]) && HonestBot(After(actions[..|actions| - 1]), actions[|actions| - 1]))
  }

  lemma StartKeepsTidy(w: World, key: StreamKey, text: string, at: real)
    requires Tidy(w)
    ensures Tidy(Registered(Posted(w, text), key, Stream(w.nextId, at, text)))
  {
    RegisterKeepsTidy(PostedTidy(w, text), key, Stream(w.nextId, at, text));
  }

  lemma AttemptKeepsTidy(w: World, a: Action)
    requires Tidy(w) && a.Update? && a.text != "" && Attempts(w, a.key, a.text, a.now, a.group)
    ensures Tidy(Apply(w, a))
  {
    var v := Apply(w, a);
    assert v == World(w.order, w.streams[a.key := v.streams[a.key]], v.shown, v.nextId);
    RetargetKeepsTidy(w, a.key, v.streams[a.key], v.shown, v.nextId);
  }

  lemma UpdateKeepsTidy(w: World, a: Action)
    requires Tidy(w) && a.Update?
    ensures Tidy(Apply(w, a))
  {
    if a.text != "" {
      if a.key !in w.streams { StartKeepsTidy(w, a.key, Display(a.text), a.later); }
      else if Attempts(w, a.key, a.text, a.now, a.group) { AttemptKeepsTidy(w, a); }
    }
  }

  lemma FinalKeepsTidy(w: World, a: Action)
    requires Tidy(w) && a.Final?
    ensures Tidy(Apply(w, a)) && Apply(w, a).streams == w.streams - {a.key}
    ensures forall other <- Apply(w, a).streams :: Agrees(Apply(w, a), other) <==> Agrees(w, other)
  {
    if a.key in w.streams {
      TrackedFinalKeepsTidy(w, a.key, a.text, a.first, a.second, a.budget);
    } else {
      assert w.streams - {a.key} == w.streams;
      var v := PostedTidy(w, a.text);
    }
  }

  lemma TrackedFinalKeepsTidy(w: World, key: StreamKey, text: string, first: EditOutcome, second: EditOutcome,
        budget: nat)
    requires Tidy(w) && key in w.streams
    ensures var v := AfterFinal(w, key, text, first, second, budget);
      Tidy(v) && v.streams == w.streams - {key} && forall other <- v.streams :: Agrees(v, other) <==> Agrees(w, other)
  {
    var u := Forgotten(w, key).(shown := FinalEditOf(w, key, text, first, second).0);
    SendAllShows(u, LeftToSend(w, key, text, first, second), budget);
    ForgetKeepsTidy(w, key, u, AfterFinal(w, key, text, first, second, budget));
  }

  lemma TidyStep(w: World, a: Action)
    requires Tidy(w)
    ensures Tidy(Apply(w, a))
  {
    match a {
      case Update(_, _, _, _, _, _, _) => UpdateKeepsTidy(w, a);
      case Running(key, sends) => if sends { StartKeepsTidy(w, key, WORKING, 0.0); }
      case Final(_, _, _, _, _) => FinalKeepsTidy(w, a);
    }
  }

  /** In every run, whatever the bot answers, at most 256 conversations are tracked, each with an
      existing message of its own. */
  lemma {:induction false} AlwaysTidy(actions: seq<Action>)
    ensures Tidy(After(actions)) && |After(actions).streams| <= 256
  {
    if actions != [] {
      AlwaysTidy(actions[..|actions| - 1]);
      TidyStep(After(actions[..|actions| - 1]), actions[|actions| - 1]);
    }
    KeysBound(After(actions).order, After(actions).streams);
  }

  lemma {:induction false} KeysBound(order: seq<StreamKey>, streams: map<StreamKey, Stream>)
    requires forall k <- streams :: k in order
    ensures |streams| <= |order|
  {
    if order == [] {
      assert streams.Keys == {};
    } else {
      assert order == [order[0]] + order[1..];
      KeysBound(order[1..], streams - {order[0]});
      assert streams.Keys <= (streams - {order[0]}).Keys + {order[0]};
      assert |streams.Keys| <= |(streams - {order[0]}).Keys + {order[0]}|;
    }
  }

  // ------------------------------------------------------------------ when the tracked text is right

  /** The text is new, and the last edit was a second ago, or three in a group. */
  predicate Ready(w: World, key: StreamKey, text: string, now: real, group: bool)
    requires key in w.streams
  {
    && text != "" && Display(text) != w.streams[key].lastText
    && now >= w.streams[key].lastEditAt + (if group then 3.0 else 1.0)
  }

  /** An edit that reports a failure after being carried out, with no replacement sent. */
  predicate Loses(w: World, a: Action, key: StreamKey) {
    && a.Update? && a.key == key && key in w.streams && Ready(w, key, a.text, a.now, a.group)
    && a.edit == EditFailed(true) && !a.sends
  }

  /** A step after which the conversation is tracked with a text that a call has just put there. */
  predicate Refreshes(w: World, a: Action, key: StreamKey) {
    match a
    case Update(k, text, group, now, _, edit, sends) =>
      && k == key && text != ""
      && (if key in w.streams
          then Ready(w, key, text, now, group) && (edit.Edited? || edit.NotModified? || (edit.EditFailed? && sends))
          else sends)
    case Running(k, sends) => k == key && sends
    case Final(_, _, _, _, _) => false
  }

  lemma OwnUpdateAgrees(w: World, a: Action)
    requires Tidy(w) && a.Update? && HonestBot(w, a) && a.key in Apply(w, a).streams
    ensures a.key !in w.streams ==> Refreshes(w, a, a.key)
    ensures Agrees(Apply(w, a), a.key) <==>
      Refreshes(w, a, a.key) || (a.key in w.streams && Agrees(w, a.key) && !Loses(w, a, a.key))
  {
    if a.key !in w.streams && a.text != "" && a.sends {
      RegisteredStreams(PostedTidy(w, Display(a.text)), a.key, Stream(w.nextId, a.later, Display(a.text)));
    }
  }

  /** The world after a post, which is tidy if the one before was. */
  ghost function PostedTidy(w: World, text: string): (v: World)
    requires Tidy(w)
    ensures Tidy(v) && v == Posted(w, text)
  {
    Posted(w, text)
  }

  lemma OtherUpdateAgrees(w: World, a: Action, key: StreamKey)
    requires Tidy(w) && a.Update? && a.key != key && key in Apply(w, a).streams
    ensures key in w.streams && (Agrees(Apply(w, a), key) <==> Agrees(w, key))
  {
  }

  /** Exactly which steps decide whether a conversation's tracked text is what its message shows. */
  lemma AgreesStepIff(w: World, a: Action, key: StreamKey)
    requires Tidy(w) && HonestBot(w, a) && key in Apply(w, a).streams
    ensures key !in w.streams ==> Refreshes(w, a, key)
    ensures Agrees(Apply(w, a), key) <==>
      Refreshes(w, a, key) || (key in w.streams && Agrees(w, key) && !Loses(w, a, key))
  {
    match a {
      case Update(k, _, _, _, _, _, _) =>
        if k == key { OwnUpdateAgrees(w, a); } else { OtherUpdateAgrees(w, a, key); }
      case Running(_, _) =>
      case Final(_, _, _, _, _) => FinalKeepsTidy(w, a);
    }
  }

  lemma UpdateTracks(w: World, a: Action)
    requires Tidy(w) && a.Update?
    ensures var v, key := Apply(w, a), a.key;
      && (Refreshes(w, a, key) ==>
            && key in v.streams && v.streams[key].lastText == Display(a.text)
            && v.streams[key].messageId ==
                 (if key !in w.streams || a.edit.EditFailed? then w.nextId else w.streams[key].messageId)
            && v.streams[key].lastEditAt ==
                 if key in w.streams && a.edit.NotModified? then w.streams[key].lastEditAt else a.later)
      && (!Refreshes(w, a, key) ==> v.streams == w.streams && v.order == w.order
                                    && (v == w || Loses(w, a, key)))
  {
    if a.key !in w.streams && a.text != "" && a.sends {
      RegisteredStreams(PostedTidy(w, Display(a.text)), a.key, Stream(w.nextId, a.later, Display(a.text)));
    }
  }

  /** A step makes its text the tracked one exactly if it refreshes the conversation: it says which text
      that is, on which message, and from when the next edit has to wait. */
  lemma RefreshTracks(w: World, a: Action, key: StreamKey)
    requires Tidy(w)
    ensures var v := Apply(w, a);
      && (Refreshes(w, a, key) ==>
            && key in v.streams
            && v.streams[key].lastText == (if a.Running? then "Working on it..." else Display(a.text))
            && v.streams[key].messageId ==
                 (if a.Running? || key !in w.streams || a.edit.EditFailed? then w.nextId
                  else w.streams[key].messageId)
            && v.streams[key].lastEditAt ==
                 if a.Running? then 0.0
                 else if key in w.streams && a.edit.NotModified? then w.streams[key].lastEditAt else a.later)
      && (!Refreshes(w, a, key) && key in v.streams ==> key in w.streams && v.streams[key] == w.streams[key])
  {
    match a {
      case Update(k, _, _, _, _, _, _) =>
        UpdateTracks(w, a);
        if k != key && key in Apply(w, a).streams { OtherUpdateAgrees(w, a, key); }
      case Running(k, sends) =>
        if sends { RegisteredStreams(PostedTidy(w, WORKING), k, Stream(w.nextId, 0.0, WORKING)); }
      case Final(_, _, _, _, _) => FinalKeepsTidy(w, a);
    }
  }

  /** An update that is not ready, or that cannot start a message, does nothing at all; one that posts
      adds one message, and one that edits changes its own message alone. */
  lemma UpdateShows(w: World, a: Action)
    requires Tidy(w) && a.Update?
    ensures var v, key, display := Apply(w, a), a.key, Display(a.text);
      if a.text == "" then v == w
      else if key !in w.streams then
        if a.sends then w.nextId !in w.shown && v.shown == w.shown[w.nextId := display] else v == w
      else if !Ready(w, key, a.text, a.now, a.group) then v == w
      else
        var own := w.streams[key].messageId;
        match a.edit
        case Edited => v.shown == w.shown[own := display]
        case NotModified => v.shown == w.shown
        case RetryAfter => v == w
        case EditFailed(applied) =>
          var edited := if applied then w.shown[own := display] else w.shown;
          v.shown == if a.sends then edited[w.nextId := display] else edited
  {
  }

  lemma EvictedOrder(order: seq<StreamKey>, key: StreamKey)
    requires Distinct(order) && |order| <= 256
    ensures Latest(Drop(order, key), MAX_TRACKED - 1)
      == if key in order then Drop(order, key) else if |order| < 256 then order else order[1..]
  {
    DropDistinct(order, key);
  }

  /** Which conversations stay tracked when one more is: all of them while there are 256 at most, and
      otherwise all but the one tracked longest. */
  lemma OnlyOldestIsEvicted(w: World, key: StreamKey, stream: Stream, other: StreamKey)
    requires Tidy(w)
    ensures var v := Registered(w, key, stream);
      && v.order == (if key in w.streams then Drop(w.order, key)
                     else if |w.order| < 256 then w.order else w.order[1..]) + [key]
      && (other in v.streams <==>
            || other == key
            || (other in w.streams && (key in w.streams || |w.order| < 256 || other != w.order[0])))
  {
    var v := Registered(w, key, stream);
    RegisteredStreams(w, key, stream);
    EvictedOrder(w.order, key);
    DropMember(w.order, key, other);
    assert other in v.streams <==> other in v.order;
    if w.order != [] {
      DistinctTail(w.order);
      assert other in w.order <==> other == w.order[0] || other in w.order[1..];
    }
  }

  /** The exact condition for an update to keep every tracked text equal to the shown text: it is
      lost only if an edit fails after being carried out and the replacement cannot be sent. */
  lemma UpdateAgreesIff(w: World, key: StreamKey, text: string, group: bool, now: real, later: real,
        edit: EditOutcome, sends: bool)
    requires Agreement(w)
    requires Attempts(w, key, text, now, group) ==> Honest(w.shown, w.streams[key].messageId, Display(text), edit)
    ensures Agreement(AfterUpdate(w, key, text, group, now, later, edit, sends)) <==>
              !(key in w.streams && Ready(w, key, text, now, group) && edit == EditFailed(true) && !sends)
  {
    var a := Update(key, text, group, now, later, edit, sends);
    TidyStep(w, a);
    forall k <- Apply(w, a).streams ensures Agrees(Apply(w, a), k) <==> !Loses(w, a, k) {
      AgreesStepIff(w, a, k);
    }
    if Loses(w, a, key) { assert key in Apply(w, a).streams && !Agrees(Apply(w, a), key); }
  }

  /** Step i lost an edit of this conversation and no later step has refreshed it. */
  ghost predicate LostAt(actions: seq<Action>, key: StreamKey, i: nat) {
    && i < |actions| && Loses(After(actions[..i]), actions[i], key)
    && forall j :: i < j < |actions| ==> !Refreshes(After(actions[..j]), actions[j], key)
  }

  ghost predicate LastEditLost(actions: seq<Action>, key: StreamKey) {
    exists i :: LostAt(actions, key, i)
  }

  lemma LostAtPrefix(actions: seq<Action>, key: StreamKey, i: nat)
    requires i < |actions| - 1
    ensures var n := |actions| - 1;
      LostAt(actions, key, i) <==> LostAt(actions[..n], key, i) && !Refreshes(After(actions[..n]), actions[n], key)
  {
    var n := |actions| - 1;
    assert forall j :: 0 <= j < n ==> actions[..n][..j] == actions[..j] && actions[..n][j] == actions[j];
  }

  lemma LastEditLostSnoc(actions: seq<Action>, key: StreamKey)
    requires actions != []
    ensures var n := |actions| - 1;
      LastEditLost(actions, key) <==>
        Loses(After(actions[..n]), actions[n], key)
        || (LastEditLost(actions[..n], key) && !Refreshes(After(actions[..n]), actions[n], key))
  {
    var n := |actions| - 1;
    if LastEditLost(actions, key) {
      var i: nat :| LostAt(actions, key, i);
      if i < n { LostAtPrefix(actions, key, i); }
    }
    if Loses(After(actions[..n]), actions[n], key) { assert LostAt(actions, key, n); }
    if LastEditLost(actions[..n], key) && !Refreshes(After(actions[..n]), actions[n], key) {
      var i: nat :| LostAt(actions[..n], key, i);
      LostAtPrefix(actions, key, i);
    }
  }

  /** Over every run with an honest bot, a tracked conversation's text is what its message shows
      exactly unless the last edit that counted was lost. */
  lemma {:induction false} AgreesUnlessLost(actions: seq<Action>, key: StreamKey)
    requires HonestRun(actions) && key in After(actions).streams
    ensures Agrees(After(actions), key) <==> !LastEditLost(actions, key)
  {
    var n := |actions| - 1;
    var w := After(actions[..n]);
    AlwaysTidy(actions[..n]);
    AgreesStepIff(w, actions[n], key);
    LastEditLostSnoc(actions, key);
    if key in w.streams { AgreesUnlessLost(actions[..n], key); }
  }

  /** A final text for a conversation that is not tracked goes out whole as one new message, unless it
      cannot be sent; nothing else changes. */
  lemma UntrackedFinal(w: World, key: StreamKey, text: string, first: EditOutcome, second: EditOutcome, budget: nat)
    requires Tidy(w) && key !in w.streams
    ensures var v := Apply(w, Final(key, text, first, second, budget));
      && v.streams == w.streams && v.order == w.order
      && (budget > 0 ==> w.nextId !in w.shown && v.shown == w.shown[w.nextId := text])
      && (budget == 0 ==> v == w)
  {
  }

  /** Beside the tracked message a final text touches only new ones. */
  lemma FinalTouchesOwn(w: World, key: StreamKey, text: string, first: EditOutcome, second: EditOutcome, budget: nat)
    requires Tidy(w) && key in w.streams
    ensures var v := AfterFinal(w, key, text, first, second, budget);
      && (forall id <- w.shown :: id in v.shown && (id != w.streams[key].messageId ==> v.shown[id] == w.shown[id]))
      && (forall id <- v.shown :: id in w.shown || id in Carriers(w, key, text, first, second, budget))
  {
    var u := Forgotten(w, key).(shown := FinalEditOf(w, key, text, first, second).0);
    var left := LeftToSend(w, key, text, first, second);
    SendAllShows(u, left, budget);
    var v := AfterFinal(w, key, text, first, second, budget);
    var ids := IdsFrom(w.nextId, Smaller(|left|, budget));
    forall id <- v.shown | id !in w.shown ensures id in Carriers(w, key, text, first, second, budget) {
      SendAllNew(u, left, budget, id);
      assert ids[id - w.nextId] == id;
    }
  }

  lemma {:induction false} SendAllNew(w: World, chunks: seq<string>, budget: nat, id: nat)
    requires id in SendAll(w, chunks, budget).shown && id !in w.shown
    ensures w.nextId <= id < w.nextId + Smaller(|chunks|, budget)
    decreases |chunks|
  {
    if chunks != [] && budget > 0 && id != w.nextId {
      SendAllNew(Posted(w, chunks[0]), chunks[1..], budget - 1, id);
    }
  }

  /** Every final text after any run. For a tracked conversation its messages show the text exactly
      unless the last edit that counted was lost and the text tracked since is the first chunk of the
      final one; otherwise the text goes out as one message. No other message is touched. */
  lemma FinalAfterRun(actions: seq<Action>, key: StreamKey, text: string, first: EditOutcome,
        second: EditOutcome, budget: nat)
    requires HonestRun(actions) && HonestBot(After(actions), Final(key, text, first, second, budget))
    ensures var w := After(actions);
      var v := After(actions + [Final(key, text, first, second, budget)]);
      && v.streams == w.streams - {key}
      && if key in w.streams then
           var carriers, own := Carriers(w, key, text, first, second, budget), w.streams[key].messageId;
           && |carriers| <= |TelegramSplit(text)|
           && (|LeftToSend(w, key, text, first, second)| <= budget ==> |carriers| == |TelegramSplit(text)|)
           && (own in carriers <==> TelegramSplit(text)[0] == w.streams[key].lastText || Counts(first, second))
           && Concat(TelegramSplit(text)) == text
           && (Shows(v.shown, carriers, TelegramSplit(text)[..|carriers|]) <==>
                 !(LastEditLost(actions, key) && TelegramSplit(text)[0] == w.streams[key].lastText))
           && (forall id <- w.shown :: id in v.shown && (id != own ==> v.shown[id] == w.shown[id]))
           && (forall id <- v.shown :: id in w.shown || id in carriers)
         else if budget > 0 then w.nextId !in w.shown && v.shown == w.shown[w.nextId := text]
         else v.shown == w.shown
  {
    AlwaysTidy(actions);
    assert (actions + [Final(key, text, first, second, budget)])[..|actions|] == actions;
    if key in After(actions).streams {
      AgreesUnlessLost(actions, key);
      FinalShowsText(After(actions), key, text, first, second, budget);
      FinalTouchesOwn(After(actions), key, text, first, second, budget);
    } else {
      UntrackedFinal(After(actions), key, text, first, second, budget);
      assert After(actions).streams - {key} == After(actions).streams;
    }
  }

  // ------------------------------------------------------------------ how often a message is edited

  ghost predicate Clocked(actions: seq<Action>) {
    && (forall a <- actions :: a.Update? ==> a.now <= a.later)
    && (forall i, j :: 0 <= i < j < |actions| && actions[i].Update? && actions[j].Update? ==>
          actions[i].later <= actions[j].now)
  }

  /** The conversation stays tracked from step i to step j, with neither a new reply nor a final text. */
  ghost predicate GoesOn(actions: seq<Action>, key: StreamKey, i: nat, j: nat)
    requires j <= |actions|
  {
    && (forall k :: i < k <= j ==> key in After(actions[..k]).streams)
    && (forall k :: i < k < j && !actions[k].Update? ==> actions[k].key != key)
  }

  /** Step i has posted or edited the message of the conversation. */
  ghost predicate Touches(actions: seq<Action>, key: StreamKey, i: nat)
    requires i < |actions|
  {
    var w, a := After(actions[..i]), actions[i];
    a.Update? && a.key == key && Refreshes(w, a, key) && (key in w.streams ==> !a.edit.NotModified?)
  }

  lemma AfterNext(actions: seq<Action>, k: nat)
    requires k < |actions|
    ensures After(actions[..k + 1]) == Apply(After(actions[..k]), actions[k])
  {
    assert actions[..k + 1][..k] == actions[..k];
  }

  lemma WaitsStep(w: World, a: Action, key: StreamKey, since: real)
    requires Tidy(w) && key in w.streams && w.streams[key].lastEditAt >= since
    requires key in Apply(w, a).streams
    requires if a.Update? then since <= a.now <= a.later else a.key != key
    ensures Apply(w, a).streams[key].lastEditAt >= since
  {
    RefreshTracks(w, a, key);
  }

  lemma TouchSets(actions: seq<Action>, key: StreamKey, i: nat)
    requires i < |actions| && Touches(actions, key, i)
    ensures var v := After(actions[..i + 1]); key in v.streams && v.streams[key].lastEditAt == actions[i].later
  {
    AlwaysTidy(actions[..i]);
    AfterNext(actions, i);
    RefreshTracks(After(actions[..i]), actions[i], key);
  }

  lemma WaitsOn(actions: seq<Action>, key: StreamKey, i: nat, k: nat)
    requires Clocked(actions) && i < k < |actions|
    requires actions[i].Update? && (!actions[k].Update? ==> actions[k].key != key)
    requires key in After(actions[..k]).streams && After(actions[..k]).streams[key].lastEditAt >= actions[i].later
    requires key in After(actions[..k + 1]).streams
    ensures After(actions[..k + 1]).streams[key].lastEditAt >= actions[i].later
  {
    AlwaysTidy(actions[..k]);
    AfterNext(actions, k);
    assert actions[k] in actions;
    WaitsStep(After(actions[..k]), actions[k], key, actions[i].later);
  }

  lemma {:induction false} WaitsSince(actions: seq<Action>, key: StreamKey, i: nat, j: nat)
    requires Clocked(actions) && i < j <= |actions| && Touches(actions, key, i) && GoesOn(actions, key, i, j)
    ensures After(actions[..j]).streams[key].lastEditAt >= actions[i].later
  {
    if i == j - 1 {
      TouchSets(actions, key, i);
    } else {
      WaitsSince(actions, key, i, j - 1);
      WaitsOn(actions, key, i, j - 1);
    }
  }

  /** In every run a message that was posted or edited for a conversation is left alone for at least a
      second, or three seconds in a group: an update that changes anything comes that much later. */
  lemma EditsSpaced(actions: seq<Action>, key: StreamKey, i: nat, j: nat)
    requires Clocked(actions) && i < j < |actions| && Touches(actions, key, i) && GoesOn(actions, key, i, j)
    requires actions[j].Update? && actions[j].key == key
    ensures After(actions[..j + 1]) != After(actions[..j]) ==>
      actions[j].now - actions[i].later >= if actions[j].group then 3.0 else 1.0
  {
    WaitsSince(actions, key, i, j);
    AlwaysTidy(actions[..j]);
    AfterNext(actions, j);
    UpdateShows(After(actions[..j]), actions[j]);
  }

  // ------------------------------------------------------------------ the failing run

  /** The reply that work has begun, and then a lost edit to the first text that arrives. */
  const LOST_EDIT: seq<Action> := [
    Running("chat:1", true),
    Update("chat:1", "AB ▉", false, 1.0, 1.0, EditFailed(true), false)]

  /** The final text "Working on it..." never shows: its edit is skipped because that text is still
      tracked, and the message goes on showing the partial one. */
  lemma LostEditHidesFinal()
    ensures HonestRun(LOST_EDIT) && "chat:1" in After(LOST_EDIT).streams
    ensures Carriers(After(LOST_EDIT), "chat:1", WORKING, Edited, Edited, 1) == [0]
    ensures After(LOST_EDIT + [Final("chat:1", WORKING, Edited, Edited, 1)]).shown == map[0 := "AB ▉"]
  {
    assert TelegramSplit(WORKING) == [WORKING];
    assert (LOST_EDIT + [Final("chat:1", WORKING, Edited, Edited, 1)])[..2] == LOST_EDIT;
  }

  // ------------------------------------------------------------------ the channel object

  class TelegramChannel {
    var order: seq<StreamKey>
    var streams: map<StreamKey, Stream>
    ghost var shown: map<nat, string>
    var nextId: nat

    ghost function Value(): World
      reads this
    {
      World(order, streams, shown, nextId)
    }

    constructor ()
      ensures Value() == NEW_CHANNEL && Agreement(Value())
    {
      order, streams, shown, nextId := [], map[], map[], 0;
    }

    /** `bot.send_message`, when it succeeds. */
    method Post(text: string) returns (id: nat)
      modifies this`shown, this`nextId
      ensures id == old(nextId) && Value() == Posted(old(Value()), text)
    {
      id := nextId;
      shown := shown[nextId := text];
      nextId := nextId + 1;
    }

    /** The loop of `_register_stream_message` that drops the oldest entries. */
    method DropOldest()
      requires Keyed(order, streams)
      modifies this`order, this`streams
      ensures order == Latest(old(order), MAX_TRACKED - 1)
      ensures Keyed(order, streams) && Submap(streams, old(streams))
    {
      ghost var all := order;
      while |order| >= MAX_TRACKED
        invariant Keyed(order, streams) && Submap(streams, old(streams))
        invariant |order| <= |all| && order == all[|all| - |order|..]
        invariant |order| == |all| || |order| >= MAX_TRACKED - 1
        decreases |order|
      {
        PopOldest();
      }
    }

    method PopOldest()
      requires Keyed(order, streams) && order != []
      modifies this`order, this`streams
      ensures order == old(order)[1..]
      ensures Keyed(order, streams) && Submap(streams, old(streams))
    {
      DistinctTail(order);
      streams := streams - {order[0]};
      order := order[1..];
    }

    /** `self._stream_messages.pop(key, None)` */
    method Untrack(key: StreamKey)
      requires Keyed(order, streams)
      modifies this`order, this`streams
      ensures order == Drop(old(order), key) && streams == old(streams) - {key}
      ensures Keyed(order, streams)
    {
      forall k ensures k in Drop(order, key) <==> k in order && k != key { DropMember(order, key, k); }
      DropDistinct(order, key);
      order, streams := Drop(order, key), streams - {key};
    }

    /** `_register_stream_message` */
    method Register(key: StreamKey, stream: Stream)
      requires Keyed(order, streams)
      modifies this`order, this`streams
      ensures Value() == Registered(old(Value()), key, stream)
    {
      Untrack(key);
      DropOldest();
      RestrictedTo(old(streams), order, streams);
      order := order + [key];
      streams := streams[key := stream];
    }

    /** `_send_stream_update` */
    method Update(key: StreamKey, text: string, group: bool, now: real, later: real, edit: EditOutcome, sends: bool)
      requires Tidy(Value())
      modifies this
      ensures Value() == AfterUpdate(old(Value()), key, text, group, now, later, edit, sends)
    {
      if text == "" { return; }
      var display := Display(text);
      if key !in streams {
        if !sends { return; }
        var id := Post(display);
        Register(key, Stream(id, later, display));
        return;
      }
      var state := streams[key];
      if now - state.lastEditAt < Interval(group) { return; }
      if display == state.lastText { return; }
      shown := AfterEdit(shown, state.messageId, display, edit);
      var messageId := state.messageId;
      match edit {
        case Edited =>
        case NotModified =>
          streams := streams[key := state.(lastText := display)];
          return;
        case RetryAfter => return;
        case EditFailed(_) =>
          if !sends { return; }
          messageId := Post(display);
      }
      streams := streams[key := Stream(messageId, later, display)];
    }

    /** `_send_running_reply` */
    method SendRunningReply(key: StreamKey, sends: bool)
      requires Tidy(Value())
      modifies this
      ensures Value() == Apply(old(Value()), Running(key, sends))
    {
      if !sends { return; }
      var id := Post(WORKING);
      Register(key, Stream(id, 0.0, WORKING));
    }

    /** `_edit_final_chunk`: at most two attempts, the second only after a rate limit. */
    method EditFinalChunk(id: nat, text: string, outcomes: seq<EditOutcome>) returns (edited: bool)
      requires |outcomes| == 2
      modifies this`shown
      ensures (shown, edited) == FinalEdit(old(shown), id, text, outcomes[0], outcomes[1])
    {
      for attempt := 0 to 2
        invariant attempt == 0 ==> shown == old(shown)
        invariant attempt == 1 ==> outcomes[0].RetryAfter? && shown == AfterEdit(old(shown), id, text, outcomes[0])
        invariant attempt < 2
      {
        shown := AfterEdit(shown, id, text, outcomes[attempt]);
        if Applied(outcomes[attempt]) { return true; }
        if outcomes[attempt].RetryAfter? && attempt == 0 { continue; }
        return false;
      }
      return false;
    }

    /** Posts the chunks in order until one cannot be sent. */
    method PostAll(chunks: seq<string>, budget: nat) returns (ids: seq<nat>, complete: bool)
      modifies this`shown, this`nextId
      ensures Value() == SendAll(old(Value()), chunks, budget)
      ensures ids == IdsFrom(old(nextId), Smaller(|chunks|, budget))
      ensures complete <==> |chunks| <= budget
    {
      ids := [];
      var sent := 0;
      while sent < |chunks|
        invariant sent <= |chunks| && sent <= budget && nextId == old(nextId) + sent
        invariant SendAll(old(Value()), chunks, budget) == SendAll(Value(), chunks[sent..], budget - sent)
        invariant |ids| == sent && forall i :: 0 <= i < sent ==> ids[i] == old(nextId) + i
      {
        if sent == budget { return ids, false; }
        assert chunks[sent..][1..] == chunks[sent + 1..];
        var id := Post(chunks[sent]);
        ids := ids + [id];
        sent := sent + 1;
      }
      complete := true;
    }

    /** `_finalize_stream_message`, preceded by the pop in `send`; `budget` is how many posts get through. */
    method Finalize(key: StreamKey, text: string, outcomes: seq<EditOutcome>, budget: nat)
        returns (carriers: seq<nat>, complete: bool)
      requires key in streams && |outcomes| == 2
      modifies this
      ensures Value() == AfterFinal(old(Value()), key, text, outcomes[0], outcomes[1], budget)
      ensures carriers == Carriers(old(Value()), key, text, outcomes[0], outcomes[1], budget)
      ensures complete <==> |LeftToSend(old(Value()), key, text, outcomes[0], outcomes[1])| <= budget
    {
      var state := streams[key];
      order, streams := Drop(order, key), streams - {key};
      var chunks := TelegramSplit(text);
      var edited := true;
      if chunks[0] != state.lastText {
        edited := EditFinalChunk(state.messageId, chunks[0], outcomes);
      }
      var ids;
      ids, complete := PostAll(if edited then chunks[1..] else chunks, budget);
      carriers := (if edited then [state.messageId] else []) + ids;
    }

    /** `send` for a final message: a tracked one is finished, otherwise the text goes out as it is. */
    method SendFinal(key: StreamKey, text: string, outcomes: seq<EditOutcome>, budget: nat)
      requires |outcomes| == 2
      modifies this
      ensures Value() == Apply(old(Value()), Final(key, text, outcomes[0], outcomes[1], budget))
    {
      if key in streams {
        var _, _ := Finalize(key, text, outcomes, budget);
      } else if budget > 0 {
        var _ := Post(text);
      }
    }
  }
}
