/** Texts put together from parts. */
module Texts {

  function Concat(parts: seq<string>): string {
    if parts == [] then "" else parts[0] + Concat(parts[1..])
  }

  lemma {:induction false} ConcatAppend(parts: seq<string>, last: string)
    ensures Concat(parts + [last]) == Concat(parts) + last
  {
    if parts == [] {
      assert parts + [last] == [last] && [last][1..] == [];
      assert Concat([last]) == last + Concat([]);
    } else {
      assert (parts + [last])[1..] == parts[1..] + [last];
      ConcatAppend(parts[1..], last);
    }
  }

  /** The texts that are not empty, in order. */
  function NonEmpty(ts: seq<string>): seq<string> {
    if ts == [] then [] else (if ts[0] == "" then [] else [ts[0]]) + NonEmpty(ts[1..])
  }

  /** The texts with an empty line between each two. */
  function Paragraphs(ts: seq<string>): string {
    if ts == [] then "" else if |ts| == 1 then ts[0] else ts[0] + "\n\n" + Paragraphs(ts[1..])
  }

  lemma {:induction false} NonEmptyAppend(ts: seq<string>, last: string)
    ensures NonEmpty(ts + [last]) == NonEmpty(ts) + (if last == "" then [] else [last])
  {
    if ts == [] {
      assert [] + [last] == [last];
      assert [last][1..] == [];
    } else {
      assert (ts + [last])[1..] == ts[1..] + [last];
      NonEmptyAppend(ts[1..], last);
    }
  }

  lemma {:induction false} ParagraphsAppend(ts: seq<string>, last: string)
    requires ts != []
    ensures Paragraphs(ts + [last]) == Paragraphs(ts) + "\n\n" + last
  {
    if |ts| == 1 {
      assert (ts + [last])[1..] == [last];
    } else {
      assert (ts + [last])[1..] == ts[1..] + [last];
      ParagraphsAppend(ts[1..], last);
      assert ts[0] + "\n\n" + (Paragraphs(ts[1..]) + "\n\n" + last) == Paragraphs(ts) + "\n\n" + last;
    }
  }

  lemma {:induction false} NoEmptyParagraph(ts: seq<string>)
    ensures forall t <- NonEmpty(ts) :: t != ""
    ensures NonEmpty(ts) != [] <==> Paragraphs(NonEmpty(ts)) != ""
  {
    if ts != [] { NoEmptyParagraph(ts[1..]); }
  }

  /** One more text is one more paragraph, unless it is empty. */
  lemma ParagraphAdded(ts: seq<string>, last: string)
    ensures var before := Paragraphs(NonEmpty(ts));
      Paragraphs(NonEmpty(ts + [last])) ==
        if last == "" then before else if before == "" then last else before + "\n\n" + last
  {
    NonEmptyAppend(ts, last);
    NoEmptyParagraph(ts);
    if last == "" {
      assert NonEmpty(ts) + [] == NonEmpty(ts);
    } else if NonEmpty(ts) == [] {
      assert [] + [last] == [last];
    } else {
      ParagraphsAppend(NonEmpty(ts), last);
    }
  }
}
