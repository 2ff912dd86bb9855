/** Cutting long texts into messages (backend/app/channels/telegram.py, _split_message, and
    backend/app/channels/discord.py, _split_text). */
module TextSplit {
  import opened Texts

  const TELEGRAM_MAX: nat := 4096
  const DISCORD_MAX: nat := 2000

  /** `[text[i : i + 4096] for i in range(0, len(text), 4096)] or [text]` */
  function Pieces(text: string): (pieces: seq<string>)
    ensures forall p <- pieces :: 0 < |p| <= TELEGRAM_MAX
    ensures text != "" ==> pieces != []
  {
    if |text| <= TELEGRAM_MAX then (if text == "" then [] else [text])
    else [text[..TELEGRAM_MAX]] + Pieces(text[TELEGRAM_MAX..])
  }

  function TelegramSplit(text: string): (chunks: seq<string>)
    ensures chunks != []
    ensures forall c <- chunks :: |c| <= TELEGRAM_MAX
  {
    if Pieces(text) == [] then [text] else Pieces(text)
  }

  lemma {:induction false} PiecesRejoin(text: string)
    ensures Concat(Pieces(text)) == text
  {
    if |text| > TELEGRAM_MAX {
      var rest := Pieces(text[TELEGRAM_MAX..]);
      PiecesRejoin(text[TELEGRAM_MAX..]);
      assert ([text[..TELEGRAM_MAX]] + rest)[1..] == rest;
      assert text == text[..TELEGRAM_MAX] + text[TELEGRAM_MAX..];
    } else if text != "" {
      assert [text][1..] == [];
      assert Concat([text]) == text + Concat([]);
    }
  }

  /** The chunks give the text back exactly, and only an empty text has an empty chunk. */
  lemma TelegramSplitRejoins(text: string)
    ensures Concat(TelegramSplit(text)) == text
    ensures forall c <- TelegramSplit(text) :: c == "" ==> text == ""
  {
    PiecesRejoin(text);
    if Pieces(text) == [] {
      assert [text][1..] == [];
      assert Concat([text]) == text + Concat([]);
    }
  }

  // ------------------------------------------------------------------ Discord

  predicate Newlines(s: string) {
    forall i :: 0 <= i < |s| ==> s[i] == '\n'
  }

  /** What the text looks like when each chunk is followed by its gap. */
  function Woven(chunks: seq<string>, gaps: seq<string>): string
    requires |chunks| == |gaps|
  {
    if chunks == [] then "" else chunks[0] + gaps[0] + Woven(chunks[1..], gaps[1..])
  }

  lemma {:induction false} WovenAppend(chunks: seq<string>, gaps: seq<string>, chunk: string, gap: string)
    requires |chunks| == |gaps|
    ensures Woven(chunks + [chunk], gaps + [gap]) == Woven(chunks, gaps) + chunk + gap
  {
    if chunks == [] {
      assert chunks + [chunk] == [chunk] && gaps + [gap] == [gap];
      assert [chunk][1..] == [] && [gap][1..] == [];
      assert Woven([chunk], [gap]) == chunk + gap + Woven([], []);
    } else {
      assert (chunks + [chunk])[1..] == chunks[1..] + [chunk] && (gaps + [gap])[1..] == gaps[1..] + [gap];
      WovenAppend(chunks[1..], gaps[1..], chunk, gap);
    }
  }

  /** `s.rfind("\n", 0, limit)` */
  method LastNewline(s: string, limit: nat) returns (at: int)
    requires limit <= |s|
    ensures -1 <= at < limit
    ensures at >= 0 ==> s[at] == '\n'
    ensures forall i :: at < i < limit ==> s[i] != '\n'
  {
    at := limit - 1;
    while at >= 0 && s[at] != '\n'
      invariant -1 <= at < limit
      invariant forall i :: at < i < limit ==> s[i] != '\n'
    {
      at := at - 1;
    }
  }

  /** `s.lstrip("\n")` */
  method SkipNewlines(s: string) returns (cut: nat)
    ensures cut <= |s| && Newlines(s[..cut])
    ensures cut < |s| ==> s[cut] != '\n'
  {
    cut := 0;
    while cut < |s| && s[cut] == '\n'
      invariant cut <= |s| && Newlines(s[..cut])
    {
      cut := cut + 1;
    }
  }

  /** How Discord text may be cut: the chunks are sendable, and weaving runs of newlines back in
      after them gives the text. */
  ghost predicate Cuts(text: string, chunks: seq<string>, gaps: seq<string>) {
    && |chunks| == |gaps|
    && (forall i :: 0 <= i < |chunks| ==> 0 < |chunks[i]| <= DISCORD_MAX && Newlines(gaps[i]))
    && Woven(chunks, gaps) == text
  }

  /** A line is broken up only where the first n chunks are as long as they can be. */
  ghost predicate BreaksLate(chunks: seq<string>, gaps: seq<string>, n: nat)
    requires |chunks| == |gaps| && n <= |chunks|
  {
    forall i :: 0 <= i < n && gaps[i] == "" ==> |chunks[i]| == DISCORD_MAX
  }

  lemma ExtendCuts(text: string, chunks: seq<string>, gaps: seq<string>, chunk: string, gap: string)
    requires Cuts(text, chunks, gaps) && 0 < |chunk| <= DISCORD_MAX && Newlines(gap)
    ensures Cuts(text + chunk + gap, chunks + [chunk], gaps + [gap])
  {
    WovenAppend(chunks, gaps, chunk, gap);
  }

  /** Cuts one chunk and the newlines after it off a text that is too long. */
  method CutOne(remaining: string) returns (chunk: string, rest: string, ghost gap: string)
    requires |remaining| > DISCORD_MAX
    ensures 0 < |chunk| <= DISCORD_MAX && Newlines(gap) && remaining == chunk + gap + rest
    ensures gap == "" ==> |chunk| == DISCORD_MAX
    ensures rest != "" ==> rest[0] != '\n'
    ensures forall i :: (if |chunk| == DISCORD_MAX then 0 else |chunk|) < i < DISCORD_MAX ==> remaining[i] != '\n'
  {
    var splitAt := LastNewline(remaining, DISCORD_MAX);
    if splitAt <= 0 { splitAt := DISCORD_MAX; }
    chunk := remaining[..splitAt];
    var tail := remaining[splitAt..];
    var skip := SkipNewlines(tail);
    gap, rest := tail[..skip], tail[skip..];
    assert tail == gap + rest && remaining == chunk + tail;
  }

  method DiscordSplit(text: string) returns (chunks: seq<string>, ghost gaps: seq<string>)
    ensures text == "" ==> chunks == [""]
    ensures text != "" ==> chunks != [] && Cuts(text, chunks, gaps) && BreaksLate(chunks, gaps, |chunks| - 1)
  {
    if text == "" { return [""], [""]; }
    chunks, gaps := [], [];
    var remaining := text;
    ghost var done := "";
    while |remaining| > DISCORD_MAX
      invariant text == done + remaining
      invariant Cuts(done, chunks, gaps) && BreaksLate(chunks, gaps, |chunks|)
      invariant remaining == "" ==> chunks != []
      decreases |remaining|
    {
      var chunk, rest, gap := CutOne(remaining);
      ExtendCuts(done, chunks, gaps, chunk, gap);
      done := done + chunk + gap;
      chunks, gaps := chunks + [chunk], gaps + [gap];
      remaining := rest;
    }
    if remaining != "" {
      ExtendCuts(done, chunks, gaps, remaining, "");
      assert done + remaining + "" == text;
      chunks, gaps := chunks + [remaining], gaps + [""];
    }
  }
}
