/**
  The two lines printed on a post card and in the post dialog: the post's
  `visual_text` is split at '|' into question and hook, each trimmed; the
  hook line is shown only when it is present and non-empty.
 */
module CardText {
  import opened Types
  import opened Strings

  const HookSeparator: char := '|'

  datatype Card = Card(question: string, hook: Option<string>)

  /** A string with no separator and no whitespace at either end. */
  predicate IsCleanSegment(s: string) {
    HookSeparator !in s && (s == [] || (!IsWhitespace(s[0]) && !IsWhitespace(s[|s| - 1])))
  }

  /**
    The destructuring `[question, hook]` of the trimmed segments: the
    question is the text before the first separator, the hook the text
    between the first and the second (or the end), and later segments are
    dropped.
   */
  function SplitCard(visualText: string): (c: Card)
    ensures IsCleanSegment(c.question)
    ensures c.hook.Some? ==> IsCleanSegment(c.hook.value)
    ensures c.hook.None? <==> HookSeparator !in visualText
    ensures c.hook.None? ==> c.question == Trim(visualText)
    ensures IndexOf(visualText, HookSeparator) >= 0 ==>
      var i := IndexOf(visualText, HookSeparator);
      var after := visualText[i + 1..];
      var j := IndexOf(after, HookSeparator);
      && c.question == Trim(visualText[..i])
      && c.hook == Some(Trim(if j < 0 then after else after[..j]))
  {
    var segments := Split(visualText, HookSeparator);
    var question := TrimSegment(segments[0]);
    var i := IndexOf(visualText, HookSeparator);
    SplitFirstPiece(visualText, HookSeparator);
    var c := if |segments| >= 2 then Card(question, Some(TrimSegment(segments[1]))) else Card(question, None);
    if i >= 0 then
      SplitAtFirst(visualText, HookSeparator, i);
      SplitFirstPiece(visualText[i + 1..], HookSeparator);
      c
    else c
  }

  /** Trimming a separator-free segment keeps it separator-free. */
  function TrimSegment(s: string): (r: string)
    requires HookSeparator !in s
    ensures IsCleanSegment(r) && r == Trim(s)
  {
    var r := Trim(s);
    assert forall k :: 0 <= k < |r| ==> r[k] in s by {
      var i :| TrimmedAt(s, r, i);
      forall k | 0 <= k < |r| ensures r[k] in s {
        assert r[k] == s[i + k];
      }
    }
    r
  }

  /** The hook line is rendered only when it is present and non-empty. */
  predicate ShowsHook(c: Card) {
    c.hook.Some? && c.hook.value != ""
  }

  /** A text of two separator-free segments gives their trimmed forms. */
  lemma TwoSegmentCard(question: string, hook: string)
    requires HookSeparator !in question && HookSeparator !in hook
    ensures SplitCard(question + [HookSeparator] + hook) == Card(Trim(question), Some(Trim(hook)))
  {
    var v := question + [HookSeparator] + hook;
    IndexOfAfterFree(question, HookSeparator, hook);
    assert v[..|question|] == question;
    assert v[|question| + 1..] == hook;
    NotInFromIndex(hook, HookSeparator, |hook|);
    assert hook[..|hook|] == hook;
  }

  /** With a second separator, the first two segments give the card, whatever follows. */
  lemma ThreeSegmentCard(question: string, hook: string, rest: string)
    requires HookSeparator !in question && HookSeparator !in hook
    ensures SplitCard(question + [HookSeparator] + hook + [HookSeparator] + rest)
         == Card(Trim(question), Some(Trim(hook)))
  {
    var after := hook + [HookSeparator] + rest;
    var v := question + [HookSeparator] + after;
    assert v == question + [HookSeparator] + hook + [HookSeparator] + rest;
    IndexOfAfterFree(question, HookSeparator, after);
    assert v[..|question|] == question;
    assert v[|question| + 1..] == after;
    IndexOfAfterFree(hook, HookSeparator, rest);
    assert after[..|hook|] == hook;
  }

  /** A text composed as question, separator, hook splits back into them. */
  lemma ComposedCardRoundTrip(question: string, hook: string)
    requires IsCleanSegment(question) && IsCleanSegment(hook)
    ensures SplitCard(question + [HookSeparator] + hook) == Card(question, Some(hook))
  {
    TwoSegmentCard(question, hook);
    TrimOfTrimmed(question);
    TrimOfTrimmed(hook);
  }

  /** Segments after the second are ignored. */
  lemma ExtraSegmentsDropped(question: string, hook: string, rest: string)
    requires HookSeparator !in question && HookSeparator !in hook
    ensures SplitCard(question + [HookSeparator] + hook + [HookSeparator] + rest)
         == SplitCard(question + [HookSeparator] + hook)
  {
    ThreeSegmentCard(question, hook, rest);
    TwoSegmentCard(question, hook);
  }

  lemma WhitespaceHasNoSeparator(s: string)
    requires AllWhitespace(s)
    ensures HookSeparator !in s
  {
    forall k | 0 <= k < |s| ensures s[k] != HookSeparator {
      assert IsWhitespace(s[k]);
    }
  }

  /** A separator with only whitespace after it yields an empty hook, which is not shown. */
  lemma BlankHookHidden(question: string, blank: string)
    requires HookSeparator !in question && AllWhitespace(blank)
    ensures SplitCard(question + [HookSeparator] + blank).hook == Some("")
    ensures !ShowsHook(SplitCard(question + [HookSeparator] + blank))
  {
    WhitespaceHasNoSeparator(blank);
    TwoSegmentCard(question, blank);
  }
}
