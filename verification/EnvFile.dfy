/** Merging settings into a `.env` file and reading it back (scripts/wizard/writer.py,
    read_env_file and write_env_file). */
module EnvFile {
  import opened Options
  import opened TextCodecs

  // ------------------------------------------------------------------ lines

  /** The characters at which `str.splitlines` breaks. */
  predicate IsBreak(c: char) {
    var n := c as int;
    10 <= n <= 13 || 28 <= n <= 30 || n == 0x85 || n == 0x2028 || n == 0x2029
  }

  predicate OneLine(s: string) {
    forall i :: 0 <= i < |s| ==> !IsBreak(s[i])
  }

  /** The length of the first line, without its break. */
  function LineEnd(text: string): (n: nat)
    ensures n <= |text| && OneLine(text[..n]) && (n < |text| ==> IsBreak(text[n]))
  {
    if text == "" || IsBreak(text[0]) then 0
    else
      var n := 1 + LineEnd(text[1..]);
      assert forall i :: 0 < i < n ==> text[i] == text[1..][i - 1];
      n
  }

  function SplitLines(text: string): (lines: seq<string>)
    ensures forall l <- lines :: OneLine(l)
    decreases |text|
  {
    if text == "" then []
    else
      var n := LineEnd(text);
      if n == |text| then [text]
      else if text[n] == '\r' && n + 1 < |text| && text[n + 1] == '\n' then [text[..n]] + SplitLines(text[n + 2..])
      else [text[..n]] + SplitLines(text[n + 1..])
  }

  /** `"\n".join(lines) + "\n"` */
  function JoinLines(lines: seq<string>): string {
    if |lines| == 0 then "\n"
    else if |lines| == 1 then lines[0] + "\n"
    else lines[0] + "\n" + JoinLines(lines[1..])
  }

  /** The ends of lines that `str.splitlines` knows. */
  const LINE_ENDS: set<string> := {
    "\n", "\r", "\r\n", "\U{0B}", "\U{0C}", "\U{1C}", "\U{1D}", "\U{1E}", "\U{85}", "\U{2028}", "\U{2029}"}

  lemma {:induction false} LineEndAt(line: string, rest: string)
    requires OneLine(line) && (rest != "" ==> IsBreak(rest[0]))
    ensures LineEnd(line + rest) == |line|
  {
    if line == "" {
      assert line + rest == rest;
    } else {
      assert (line + rest)[1..] == line[1..] + rest;
      LineEndAt(line[1..], rest);
    }
  }

  /** A text is split at each of these ends, at a carriage return with a line feed as one, and nowhere else. */
  lemma SplitFirst(line: string, end: string, rest: string)
    requires end in LINE_ENDS && !(end == "\r" && rest != "" && rest[0] == '\n')
    requires forall i :: 0 <= i < |line| ==> [line[i]] !in LINE_ENDS
    ensures SplitLines(line + end + rest) == [line] + SplitLines(rest)
    ensures SplitLines(line) == if line == "" then [] else [line]
  {
    var text := line + end + rest;
    OneLineIff(line);
    assert line + (end + rest) == text && line + "" == line;
    LineEndAt(line, end + rest);
    LineEndAt(line, "");
    assert text[..|line|] == line && text[|line|..] == end + rest;
    if end == "\r\n" {
      assert text[|line|] == '\r' && text[|line| + 1] == '\n' && text[|line| + 2..] == rest;
    } else {
      assert text[|line|] == end[0] && text[|line| + 1..] == rest;
    }
  }

  lemma OneLineIff(line: string)
    ensures OneLine(line) <==> forall i :: 0 <= i < |line| ==> [line[i]] !in LINE_ENDS
  {
    forall i | 0 <= i < |line| ensures IsBreak(line[i]) <==> [line[i]] in LINE_ENDS {
      BreakIff(line[i]);
    }
  }

  lemma BreakIff(c: char)
    ensures IsBreak(c) <==> [c] in LINE_ENDS
  {
    assert forall s <- LINE_ENDS :: |s| == 1 ==> IsBreak(s[0]);
    if IsBreak(c) { assert exists s :: s in LINE_ENDS && |s| == 1 && s[0] == c; }
  }

  /** What is written splits into the lines it was joined from; no lines become one empty line. */
  lemma {:induction false} SplitJoined(lines: seq<string>)
    requires forall l <- lines :: OneLine(l)
    ensures SplitLines(JoinLines(lines)) == if lines == [] then [""] else lines
  {
    if lines != [] { OneLineIff(lines[0]); }
    if |lines| == 0 {
      SplitFirst("", "\n", "");
      assert "" + "\n" + "" == "\n";
    } else if |lines| == 1 {
      SplitFirst(lines[0], "\n", "");
      assert lines[0] + "\n" + "" == lines[0] + "\n";
      assert lines == [lines[0]];
    } else {
      SplitJoined(lines[1..]);
      SplitFirst(lines[0], "\n", JoinLines(lines[1..]));
      assert lines == [lines[0]] + lines[1..];
    }
  }

  // ------------------------------------------------------------------ assignments

  datatype Assignment = Assignment(key: string, value: string)

  function FirstEquals(s: string): (n: nat)
    ensures n <= |s| && (n < |s| ==> s[n] == '=') && '=' !in s[..n]
  {
    if s == "" || s[0] == '=' then 0
    else
      var n := 1 + FirstEquals(s[1..]);
      assert s[..n] == [s[0]] + s[1..][..n - 1];
      n
  }

  /** The assignment on a line, if it is neither blank nor a comment. */
  function Parse(line: string): Option<Assignment> {
    var s := Strip(line);
    var n := FirstEquals(s);
    if s == "" || s[0] == '#' || n == |s| then None
    else Some(Assignment(Strip(s[..n]), Strip(s[n + 1..])))
  }

  function Format(a: Assignment): string {
    a.key + "=" + a.value
  }

  /** Assignments that survive being written: stripped, and with a key that is no comment and has no `=`. */
  predicate Clean(a: Assignment) {
    && Strip(a.key) == a.key && '=' !in a.key && (a.key != "" ==> a.key[0] != '#')
    && Strip(a.value) == a.value
  }

  lemma {:induction false} FirstEqualsAt(head: string, tail: string)
    requires '=' !in head
    ensures FirstEquals(head + "=" + tail) == |head|
  {
    var s := head + "=" + tail;
    if head != "" {
      assert head[0] in head && s[1..] == head[1..] + "=" + tail;
      FirstEqualsAt(head[1..], tail);
    }
  }

  lemma FormatIsStripped(a: Assignment)
    requires Clean(a)
    ensures Strip(Format(a)) == Format(a) && Format(a)[0] != '#'
  {
    var line := Format(a);
    assert line[0] == if a.key == "" then '=' else a.key[0];
    assert line[|line| - 1] == if a.value == "" then '=' else a.value[|a.value| - 1];
  }

  lemma CleanReadsBack(a: Assignment)
    requires Clean(a)
    ensures Parse(Format(a)) == Some(a)
  {
    var line := Format(a);
    FormatIsStripped(a);
    FirstEqualsAt(a.key, a.value);
    assert line[..|a.key|] == a.key && line[|a.key| + 1..] == a.value;
  }

  /** Whatever is read from a line is clean, and free of breaks if the line is. */
  lemma ParsedIsClean(line: string)
    requires Parse(line).Some?
    ensures Clean(Parse(line).value)
    ensures OneLine(line) ==> OneLine(Parse(line).value.key) && OneLine(Parse(line).value.value)
  {
    StripTwice(line);
    if OneLine(line) {
      StripKeepsOneLine(line);
      HalvesAreOneLine(Strip(line));
    }
  }

  lemma HalvesAreOneLine(s: string)
    requires OneLine(s) && FirstEquals(s) < |s|
    ensures var n := FirstEquals(s); OneLine(Strip(s[..n])) && OneLine(Strip(s[n + 1..]))
  {
    StripKeepsOneLine(s[..FirstEquals(s)]);
    StripKeepsOneLine(s[FirstEquals(s) + 1..]);
  }

  lemma StripKeepsOneLine(s: string)
    requires OneLine(s)
    ensures OneLine(Strip(s))
  {
    StripIsInside(s);
    forall i | 0 <= i < |Strip(s)| ensures !IsBreak(Strip(s)[i]) { assert Strip(s)[i] in s; }
  }

  /** An assignment reads back from its line exactly if it is clean. */
  lemma ReadsBackIffClean(a: Assignment)
    ensures Parse(Format(a)) == Some(a) <==> Clean(a)
  {
    if Parse(Format(a)) == Some(a) { ParsedIsClean(Format(a)); }
    if Clean(a) { CleanReadsBack(a); }
  }

  lemma {:induction false} StripLeftMembers(s: string, gone: char -> bool, c: char)
    requires c in StripLeft(s, gone)
    ensures c in s
  {
    if s != "" && gone(s[0]) { StripLeftMembers(s[1..], gone, c); }
  }

  /** Stripping keeps the inside, and the first character if it is no space. */
  lemma StripIsInside(s: string)
    ensures forall c <- Strip(s) :: c in s
    ensures s != "" && !IsSpace(s[0]) ==> Strip(s) != "" && Strip(s)[0] == s[0]
  {
    var left := StripLeft(s, IsSpace);
    forall c <- Strip(s) ensures c in s {
      assert c in left;
      StripLeftMembers(s, IsSpace, c);
    }
    if s != "" && !IsSpace(s[0]) { StripRightKeepsFirst(s); }
  }

  lemma {:induction false} StripRightKeepsFirst(s: string)
    requires s != "" && !IsSpace(s[0])
    ensures StripRight(s, IsSpace) != "" && StripRight(s, IsSpace)[0] == s[0]
  {
    if IsSpace(s[|s| - 1]) { StripRightKeepsFirst(s[..|s| - 1]); }
  }

  // ------------------------------------------------------------------ reading and writing

  type Settings = map<string, string>

  function ReadLines(lines: seq<string>): Settings {
    if lines == [] then map[]
    else Assign(ReadLines(lines[..|lines| - 1]), Parse(lines[|lines| - 1]))
  }

  function Assign(settings: Settings, parsed: Option<Assignment>): Settings {
    match parsed
    case Some(a) => settings[a.key := a.value]
    case None => settings
  }

  lemma ReadSnoc(lines: seq<string>, line: string)
    ensures ReadLines(lines + [line]) == Assign(ReadLines(lines), Parse(line))
  {
    assert (lines + [line])[..|lines|] == lines;
  }

  /** The settings of a Python dictionary given as its items in order. */
  function SettingsOf(pairs: seq<Assignment>): Settings {
    if pairs == [] then map[]
    else SettingsOf(pairs[..|pairs| - 1])[pairs[|pairs| - 1].key := pairs[|pairs| - 1].value]
  }

  ghost predicate UniqueKeys(pairs: seq<Assignment>) {
    forall i, j :: 0 <= i < j < |pairs| ==> pairs[i].key != pairs[j].key
  }

  /** A line after the update: assignments to a given key are replaced, everything else stays. */
  function Rewritten(line: string, settings: Settings): string {
    match Parse(line)
    case Some(a) => if a.key in settings then Format(Assignment(a.key, settings[a.key])) else line
    case None => line
  }

  function RewrittenAll(lines: seq<string>, settings: Settings): seq<string> {
    seq(|lines|, i requires 0 <= i < |lines| => Rewritten(lines[i], settings))
  }

  /** The lines for the keys not assigned yet, in order. */
  function Appended(pairs: seq<Assignment>, present: Settings): seq<string> {
    if pairs == [] then []
    else
      var n := |pairs| - 1;
      Appended(pairs[..n], present) + (if pairs[n].key in present then [] else [Format(pairs[n])])
  }

  function WriteLines(lines: seq<string>, pairs: seq<Assignment>): seq<string> {
    RewrittenAll(lines, SettingsOf(pairs)) + Appended(pairs, ReadLines(lines))
  }

  /** The lines of a file; None stands for a missing one. */
  function LinesOf(file: Option<string>): (lines: seq<string>)
    ensures forall l <- lines :: OneLine(l)
  {
    if file.None? then [] else SplitLines(file.value)
  }

  function Read(file: Option<string>): Settings {
    ReadLines(LinesOf(file))
  }

  function Write(file: Option<string>, pairs: seq<Assignment>): string {
    JoinLines(WriteLines(LinesOf(file), pairs))
  }

  method ReadEnvFile(file: Option<string>) returns (result: Settings)
    ensures result == Read(file)
  {
    result := map[];
    if file.None? { return; }
    var lines := SplitLines(file.value);
    for i := 0 to |lines|
      invariant result == ReadLines(lines[..i])
    {
      assert lines[..i + 1] == lines[..i] + [lines[i]];
      ReadSnoc(lines[..i], lines[i]);
      var line := Strip(lines[i]);
      if line == "" || line[0] == '#' { continue; }
      var at := FirstEquals(line);
      if at < |line| {
        result := result[Strip(line[..at]) := Strip(line[at + 1..])];
      }
    }
    assert lines[..|lines|] == lines;
  }

  lemma RewrittenSnoc(lines: seq<string>, settings: Settings)
    requires lines != []
    ensures var n := |lines| - 1;
      RewrittenAll(lines, settings) == RewrittenAll(lines[..n], settings) + [Rewritten(lines[n], settings)]
  {
  }

  method WriteEnvFile(file: Option<string>, pairs: seq<Assignment>) returns (text: string)
    ensures text == Write(file, pairs)
  {
    var lines := LinesOf(file);
    var newLines, updated := UpdateLines(lines, SettingsOf(pairs));
    forall a <- pairs ensures a.key in updated <==> a.key in ReadLines(lines) { SettingsMember(pairs, a); }
    newLines := AppendMissing(newLines, pairs, updated, ReadLines(lines));
    text := JoinLines(newLines);
  }

  /** The second loop: the keys that were not rewritten are appended. */
  method AppendMissing(lines: seq<string>, pairs: seq<Assignment>, updated: set<string>, ghost present: Settings)
      returns (newLines: seq<string>)
    requires forall a <- pairs :: a.key in updated <==> a.key in present
    ensures newLines == lines + Appended(pairs, present)
  {
    newLines := lines;
    for i := 0 to |pairs|
      invariant newLines == lines + Appended(pairs[..i], present)
    {
      assert pairs[..i + 1][..i] == pairs[..i];
      if pairs[i].key !in updated {
        newLines := newLines + [Format(pairs[i])];
      }
    }
    assert pairs[..|pairs|] == pairs;
  }

  /** The first loop of the write: assignments to given keys are replaced where they stand. */
  method UpdateLines(lines: seq<string>, settings: Settings) returns (newLines: seq<string>, updated: set<string>)
    ensures newLines == RewrittenAll(lines, settings)
    ensures forall k <- settings :: k in updated <==> k in ReadLines(lines)
  {
    updated := {};
    newLines := [];
    for i := 0 to |lines|
      invariant newLines == RewrittenAll(lines[..i], settings)
      invariant forall k <- settings :: k in updated <==> k in ReadLines(lines[..i])
    {
      assert lines[..i + 1][..i] == lines[..i];
      RewrittenSnoc(lines[..i + 1], settings);
      var parsed := Parse(lines[i]);
      if parsed.Some? && parsed.value.key in settings {
        var key := parsed.value.key;
        newLines := newLines + [Format(Assignment(key, settings[key]))];
        updated := updated + {key};
      } else {
        newLines := newLines + [lines[i]];
      }
    }
    assert lines[..|lines|] == lines;
  }

  lemma {:induction false} SettingsMember(pairs: seq<Assignment>, a: Assignment)
    requires a in pairs
    ensures a.key in SettingsOf(pairs)
    ensures UniqueKeys(pairs) ==> SettingsOf(pairs)[a.key] == a.value
  {
    var n := |pairs| - 1;
    assert pairs == pairs[..n] + [pairs[n]];
    if a in pairs[..n] { SettingsMember(pairs[..n], a); }
  }

  // ------------------------------------------------------------------ reading what was written

  /** A setting that can be stored: clean, and on one line. */
  predicate Storable(a: Assignment) {
    Clean(a) && OneLine(a.key) && OneLine(a.value)
  }

  ghost predicate AllStorable(settings: Settings) {
    forall k <- settings :: Storable(Assignment(k, settings[k]))
  }

  lemma {:induction false} SettingsStorable(pairs: seq<Assignment>)
    requires forall a <- pairs :: Storable(a)
    ensures AllStorable(SettingsOf(pairs))
  {
    if pairs != [] { SettingsStorable(pairs[..|pairs| - 1]); }
  }

  /** Only storable settings are ever read. */
  lemma {:induction false} ReadIsStorable(lines: seq<string>)
    requires forall l <- lines :: OneLine(l)
    ensures AllStorable(ReadLines(lines))
  {
    if lines != [] {
      ReadIsStorable(lines[..|lines| - 1]);
      if Parse(lines[|lines| - 1]).Some? { ParsedIsClean(lines[|lines| - 1]); }
    }
  }

  /** The settings of `base`, with the values of `settings` where it has the key. */
  function Override(base: Settings, settings: Settings): Settings {
    map k | k in base :: if k in settings then settings[k] else base[k]
  }

  /** A rewritten line assigns the same key as before, with the new value if there is one. */
  lemma RewrittenParses(line: string, settings: Settings)
    requires AllStorable(settings)
    ensures Parse(line).None? ==> Rewritten(line, settings) == line
    ensures Parse(line).Some? ==>
      var a := Parse(line).value;
      Parse(Rewritten(line, settings))
          == Some(Assignment(a.key, if a.key in settings then settings[a.key] else a.value))
  {
    if Parse(line).Some? && Parse(line).value.key in settings {
      var key := Parse(line).value.key;
      CleanReadsBack(Assignment(key, settings[key]));
    }
  }

  lemma OverrideAssign(base: Settings, settings: Settings, a: Assignment)
    ensures Override(base[a.key := a.value], settings)
         == Override(base, settings)[a.key := if a.key in settings then settings[a.key] else a.value]
  {
  }

  lemma {:induction false} RewrittenReads(lines: seq<string>, settings: Settings)
    requires AllStorable(settings)
    ensures ReadLines(RewrittenAll(lines, settings)) == Override(ReadLines(lines), settings)
  {
    if lines != [] {
      var n := |lines| - 1;
      RewrittenReads(lines[..n], settings);
      RewrittenSnoc(lines, settings);
      RewrittenParses(lines[n], settings);
      ReadSnoc(RewrittenAll(lines[..n], settings), Rewritten(lines[n], settings));
      if Parse(lines[n]).Some? { OverrideAssign(ReadLines(lines[..n]), settings, Parse(lines[n]).value); }
    } else {
      assert RewrittenAll(lines, settings) == [];
    }
  }

  /** The pairs whose keys are not present yet. */
  function Missing(settings: Settings, present: Settings): Settings {
    map k | k in settings && k !in present :: settings[k]
  }

  lemma MissingAdded(settings: Settings, present: Settings, base: Settings, a: Assignment)
    ensures a.key in present ==> Missing(settings[a.key := a.value], present) == Missing(settings, present)
    ensures a.key !in present ==>
      base + Missing(settings[a.key := a.value], present) == (base + Missing(settings, present))[a.key := a.value]
  {
  }

  lemma AppendedStep(lines: seq<string>, pairs: seq<Assignment>, present: Settings)
    requires pairs != [] && Clean(pairs[|pairs| - 1])
    ensures var n := |pairs| - 1;
      ReadLines(lines + Appended(pairs, present)) ==
        if pairs[n].key in present then ReadLines(lines + Appended(pairs[..n], present))
        else ReadLines(lines + Appended(pairs[..n], present))[pairs[n].key := pairs[n].value]
  {
    var n := |pairs| - 1;
    var before := lines + Appended(pairs[..n], present);
    if pairs[n].key in present {
      assert lines + Appended(pairs, present) == before;
    } else {
      assert lines + Appended(pairs, present) == before + [Format(pairs[n])];
      ReadSnoc(before, Format(pairs[n]));
      CleanReadsBack(pairs[n]);
    }
  }

  lemma {:induction false} AppendedReads(lines: seq<string>, pairs: seq<Assignment>, present: Settings)
    requires forall a <- pairs :: Clean(a)
    ensures ReadLines(lines + Appended(pairs, present)) == ReadLines(lines) + Missing(SettingsOf(pairs), present)
  {
    if pairs == [] {
      assert lines + Appended(pairs, present) == lines;
      assert Missing(SettingsOf(pairs), present) == map[];
    } else {
      var n := |pairs| - 1;
      AppendedReads(lines, pairs[..n], present);
      MissingAdded(SettingsOf(pairs[..n]), present, ReadLines(lines), pairs[n]);
      AppendedStep(lines, pairs, present);
    }
  }

  lemma OverrideAndMissing(base: Settings, settings: Settings)
    ensures Override(base, settings) + Missing(settings, base) == base + settings
  {
  }

  lemma WrittenLinesRead(lines: seq<string>, pairs: seq<Assignment>)
    requires forall a <- pairs :: Storable(a)
    ensures ReadLines(WriteLines(lines, pairs)) == ReadLines(lines) + SettingsOf(pairs)
  {
    SettingsStorable(pairs);
    RewrittenReads(lines, SettingsOf(pairs));
    AppendedReads(RewrittenAll(lines, SettingsOf(pairs)), pairs, ReadLines(lines));
    OverrideAndMissing(ReadLines(lines), SettingsOf(pairs));
  }

  lemma FormatOneLine(a: Assignment)
    requires OneLine(a.key) && OneLine(a.value)
    ensures OneLine(Format(a))
  {
  }

  lemma {:induction false} AppendedOneLine(pairs: seq<Assignment>, present: Settings)
    requires forall a <- pairs :: Storable(a)
    ensures forall l <- Appended(pairs, present) :: OneLine(l)
  {
    if pairs != [] {
      var n := |pairs| - 1;
      AppendedOneLine(pairs[..n], present);
      assert Storable(pairs[n]);
      FormatOneLine(pairs[n]);
    }
  }

  lemma WrittenOneLine(lines: seq<string>, pairs: seq<Assignment>)
    requires forall l <- lines :: OneLine(l)
    requires forall a <- pairs :: Storable(a)
    ensures forall l <- WriteLines(lines, pairs) :: OneLine(l)
  {
    var settings := SettingsOf(pairs);
    SettingsStorable(pairs);
    AppendedOneLine(pairs, ReadLines(lines));
    forall i | 0 <= i < |lines| ensures OneLine(RewrittenAll(lines, settings)[i]) {
      if Parse(lines[i]).Some? && Parse(lines[i]).value.key in settings {
        var key := Parse(lines[i]).value.key;
        FormatOneLine(Assignment(key, settings[key]));
      }
    }
  }

  /** The written file holds the written lines; if there are none, one empty line. */
  lemma WrittenSplits(file: Option<string>, pairs: seq<Assignment>)
    requires forall a <- pairs :: Storable(a)
    ensures var lines := WriteLines(LinesOf(file), pairs);
      LinesOf(Some(Write(file, pairs))) == if lines == [] then [""] else lines
  {
    WrittenOneLine(LinesOf(file), pairs);
    SplitJoined(WriteLines(LinesOf(file), pairs));
  }

  /** Reading after writing gives the old settings overridden by the new, exactly if the new are storable. */
  lemma ReadAfterWriteIff(file: Option<string>, pairs: seq<Assignment>)
    requires UniqueKeys(pairs)
    ensures Read(Some(Write(file, pairs))) == Read(file) + SettingsOf(pairs)
      <==> forall a <- pairs :: Storable(a)
  {
    var after := LinesOf(Some(Write(file, pairs)));
    if forall a <- pairs :: Storable(a) {
      WrittenSplits(file, pairs);
      WrittenLinesRead(LinesOf(file), pairs);
      assert ReadLines([""]) == ReadLines([]);
    }
    if Read(Some(Write(file, pairs))) == Read(file) + SettingsOf(pairs) {
      ReadIsStorable(after);
      forall i | 0 <= i < |pairs| ensures Storable(pairs[i]) { SettingsMember(pairs, pairs[i]); }
    }
  }

  /** Every old line keeps its place; only an assignment to a given key changes, and only its value. */
  lemma LinesKeepTheirPlace(file: Option<string>, pairs: seq<Assignment>, i: nat)
    requires forall a <- pairs :: Storable(a)
    requires i < |LinesOf(file)|
    ensures var before, after := LinesOf(file), LinesOf(Some(Write(file, pairs)));
      && i < |after|
      && (if Parse(before[i]).Some? && Parse(before[i]).value.key in SettingsOf(pairs)
          then Parse(after[i]) == Some(Assignment(Parse(before[i]).value.key,
              SettingsOf(pairs)[Parse(before[i]).value.key]))
          else after[i] == before[i])
  {
    WrittenSplits(file, pairs);
    SettingsStorable(pairs);
    RewrittenParses(LinesOf(file)[i], SettingsOf(pairs));
  }

  /** Lines are only ever added behind the old ones: one for each given key that was not assigned, in
      order. A file written with no lines at all gets an empty one. */
  lemma NewLinesGoLast(file: Option<string>, pairs: seq<Assignment>)
    requires forall a <- pairs :: Storable(a)
    ensures LinesOf(Some(Write(file, pairs))) ==
      if LinesOf(file) == [] && pairs == [] then [""]
      else RewrittenAll(LinesOf(file), SettingsOf(pairs)) + Appended(pairs, Read(file))
  {
    WrittenSplits(file, pairs);
    if LinesOf(file) != [] {
      assert |RewrittenAll(LinesOf(file), SettingsOf(pairs))| > 0;
    } else if pairs != [] {
      assert Appended(pairs, Read(file)) != [];
    }
  }

  /** A value with white space around it does not read back, whatever the file was. */
  lemma UnstrippedValueIsLost(file: Option<string>)
    ensures var pairs := [Assignment("K", " v")];
      Read(Some(Write(file, pairs))) != Read(file) + SettingsOf(pairs)
  {
    var pairs := [Assignment("K", " v")];
    ReadAfterWriteIff(file, pairs);
    assert pairs[0] in pairs && !Storable(pairs[0]) by {
      assert IsSpace(" v"[0]);
    }
  }

  lemma {:induction false} NothingAppended(pairs: seq<Assignment>, present: Settings)
    requires forall a <- pairs :: a.key in present
    ensures Appended(pairs, present) == []
  {
    if pairs != [] { NothingAppended(pairs[..|pairs| - 1], present); }
  }

  lemma {:induction false} AppendedLineIsNew(pairs: seq<Assignment>, present: Settings, i: nat)
    requires i < |Appended(pairs, present)|
    ensures exists j :: 0 <= j < |pairs| && Appended(pairs, present)[i] == Format(pairs[j])
  {
    var n := |pairs| - 1;
    var before := Appended(pairs[..n], present);
    if i < |before| {
      AppendedLineIsNew(pairs[..n], present, i);
      var j :| 0 <= j < n && before[i] == Format(pairs[..n][j]);
      assert Appended(pairs, present)[i] == Format(pairs[j]);
    } else {
      assert Appended(pairs, present)[i] == Format(pairs[n]);
    }
  }

  /** A written line is left as it is by writing the same settings again. */
  lemma WrittenLineStays(lines: seq<string>, pairs: seq<Assignment>, i: nat)
    requires forall a <- pairs :: Storable(a)
    requires UniqueKeys(pairs)
    requires i < |WriteLines(lines, pairs)|
    ensures Rewritten(WriteLines(lines, pairs)[i], SettingsOf(pairs)) == WriteLines(lines, pairs)[i]
  {
    var settings := SettingsOf(pairs);
    SettingsStorable(pairs);
    if i < |lines| {
      RewrittenParses(lines[i], settings);
    } else {
      AppendedLineIsNew(pairs, ReadLines(lines), i - |lines|);
      var j :| 0 <= j < |pairs| && WriteLines(lines, pairs)[i] == Format(pairs[j]);
      SettingsMember(pairs, pairs[j]);
      CleanReadsBack(pairs[j]);
    }
  }

  lemma WrittenLinesStay(lines: seq<string>, pairs: seq<Assignment>)
    requires forall a <- pairs :: Storable(a)
    requires UniqueKeys(pairs)
    ensures WriteLines(WriteLines(lines, pairs), pairs) == WriteLines(lines, pairs)
  {
    var written, settings := WriteLines(lines, pairs), SettingsOf(pairs);
    WrittenLinesRead(lines, pairs);
    forall i | 0 <= i < |pairs| ensures pairs[i].key in ReadLines(written) { SettingsMember(pairs, pairs[i]); }
    NothingAppended(pairs, ReadLines(written));
    forall i: nat | i < |written| ensures RewrittenAll(written, settings)[i] == written[i] {
      WrittenLineStays(lines, pairs, i);
    }
  }

  /** Writing the same settings twice is writing them once. */
  lemma WriteTwice(file: Option<string>, pairs: seq<Assignment>)
    requires forall a <- pairs :: Storable(a)
    requires UniqueKeys(pairs)
    ensures Write(Some(Write(file, pairs)), pairs) == Write(file, pairs)
  {
    WrittenSplits(file, pairs);
    WrittenLinesStay(LinesOf(file), pairs);
    if WriteLines(LinesOf(file), pairs) == [] {
      assert JoinLines([""]) == "" + "\n" == JoinLines([]);
    }
  }
}
