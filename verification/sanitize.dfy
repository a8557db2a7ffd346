/**
  The response sanitiser of the generation service (services/geminiService.ts):
  it cuts the model's reply down to the outermost JSON container, or, when
  the reply holds no opening bracket followed by a closing one, strips the
  markdown code fences and trims.
 */
module Sanitizer {
  import opened Types
  import opened Strings

  predicate IsOpener(c: char) {
    c == '[' || c == '{'
  }

  predicate IsCloser(c: char) {
    c == ']' || c == '}'
  }

  /** Some opening bracket or brace comes before some closing one. */
  predicate HasBracketPair(s: string) {
    exists i, j :: 0 <= i < j < |s| && IsOpener(s[i]) && IsCloser(s[j])
  }

  /**
    The smaller of the positions of the first `[` and the first `{`, where a
    missing character counts as infinitely far (`None`).
   */
  function FirstOpener(s: string): (r: Option<nat>)
    ensures r.None? <==> forall k :: 0 <= k < |s| ==> !IsOpener(s[k])
    ensures r.Some? ==> r.value < |s| && IsOpener(s[r.value])
    ensures r.Some? ==> forall k :: 0 <= k < r.value ==> !IsOpener(s[k])
  {
    var a := IndexOf(s, '[');
    var b := IndexOf(s, '{');
    if a < 0 && b < 0 then None
    else if a < 0 then Some(b)
    else if b < 0 then Some(a)
    else if a <= b then Some(a)
    else Some(b)
  }

  /** The larger of the positions of the last `]` and the last `}`, or -1. */
  function LastCloser(s: string): (r: int)
    ensures -1 <= r < |s|
    ensures r == -1 <==> forall k :: 0 <= k < |s| ==> !IsCloser(s[k])
    ensures r >= 0 ==> IsCloser(s[r]) && forall k :: r < k < |s| ==> !IsCloser(s[k])
  {
    var a := LastIndexOf(s, ']');
    var b := LastIndexOf(s, '}');
    if a >= b then a else b
  }

  /**
    The global replacement of the pattern "```json" with an optional newline,
    or else "```", by nothing: scanning left to right, the first alternative
    is tried first and takes the newline when one follows.
   */
  function StripFences(s: string): (r: string)
    ensures |r| <= |s|
    decreases |s|
  {
    if |s| == 0 then ""
    else if StartsWith(s, "```json\n") then StripFences(s[8..])
    else if StartsWith(s, "```json") then StripFences(s[7..])
    else if StartsWith(s, "```") then StripFences(s[3..])
    else [s[0]] + StripFences(s[1..])
  }

  /**
    Positions `i` and `j` delimit the outermost container of `text`: `i` is
    the first opener, `j` the last closer, and `i` comes first.
   */
  predicate OutermostContainer(text: string, i: int, j: int) {
    && 0 <= i < j < |text|
    && IsOpener(text[i]) && IsCloser(text[j])
    && (forall k :: 0 <= k < i ==> !IsOpener(text[k]))
    && (forall k :: j < k < |text| ==> !IsCloser(text[k]))
  }

  /** The sanitiser: empty input gives an empty array, see the module comment otherwise. */
  function Sanitize(text: string): (r: string)
    ensures |text| == 0 ==> r == "[]"
    ensures |text| > 0 && HasBracketPair(text) ==>
      exists i, j :: OutermostContainer(text, i, j) && r == text[i..j + 1]
    ensures |text| > 0 && !HasBracketPair(text) ==> r == Trim(StripFences(text))
  {
    if |text| == 0 then "[]"
    else
      var start := FirstOpener(text);
      var end := LastCloser(text);
      BracketCondition(text);
      if start.Some? && end != -1 && end > start.value then
        assert OutermostContainer(text, start.value, end);
        text[start.value..end + 1]
      else Trim(StripFences(text))
  }

  /** The guard of the bracket branch holds exactly when an opener precedes a closer. */
  lemma BracketCondition(text: string)
    ensures (FirstOpener(text).Some? && LastCloser(text) != -1 && LastCloser(text) > FirstOpener(text).value)
      <==> HasBracketPair(text)
  {
    var start := FirstOpener(text);
    var end := LastCloser(text);
    if HasBracketPair(text) {
      var i, j :| 0 <= i < j < |text| && IsOpener(text[i]) && IsCloser(text[j]);
      assert start.Some? && start.value <= i;
      assert end >= j;
    }
  }

  /** In the bracket branch the output is the slice from the first opener to the last closer. */
  lemma SanitizeBracketBranch(text: string)
    requires HasBracketPair(text)
    ensures FirstOpener(text).Some? && FirstOpener(text).value < LastCloser(text)
    ensures Sanitize(text) == text[FirstOpener(text).value..LastCloser(text) + 1]
  {
    BracketCondition(text);
  }

  /** In the bracket branch the output starts with an opener and ends with a closer. */
  lemma BracketOutputShape(text: string)
    requires HasBracketPair(text)
    ensures var r := Sanitize(text); |r| >= 2 && IsOpener(r[0]) && IsCloser(r[|r| - 1])
  {
    SanitizeBracketBranch(text);
    SliceEnds(text, FirstOpener(text).value, LastCloser(text));
  }

  lemma SliceEnds(text: string, i: nat, j: nat)
    requires i < j < |text|
    ensures var r := text[i..j + 1]; |r| == j - i + 1 && r[0] == text[i] && r[|r| - 1] == text[j]
  {
  }

  /** Sanitising an output of the bracket branch returns it unchanged. */
  lemma SanitizeIdempotentOnBrackets(text: string)
    requires HasBracketPair(text)
    ensures Sanitize(Sanitize(text)) == Sanitize(text)
  {
    BracketOutputShape(text);
    var r := Sanitize(text);
    ContainerOfWholeString(r);
  }

  /** A string that opens with an opener and closes with a closer is its own outermost container. */
  lemma ContainerOfWholeString(r: string)
    requires |r| >= 2 && IsOpener(r[0]) && IsCloser(r[|r| - 1])
    ensures Sanitize(r) == r
  {
    assert HasBracketPair(r) by {
      assert 0 < |r| - 1;
    }
    SanitizeBracketBranch(r);
    assert FirstOpener(r) == Some(0);
    assert LastCloser(r) == |r| - 1;
    assert r[0..|r|] == r;
  }

  /** Stripping leaves no three consecutive backticks behind. */
  lemma {:induction false} StripFencesLeavesNoFence(s: string)
    ensures !Contains(StripFences(s), "```")
    decreases |s|
  {
    var r := StripFences(s);
    if |s| == 0 {
    } else if StartsWith(s, "```json\n") {
      StripFencesLeavesNoFence(s[8..]);
    } else if StartsWith(s, "```json") {
      StripFencesLeavesNoFence(s[7..]);
    } else if StartsWith(s, "```") {
      StripFencesLeavesNoFence(s[3..]);
    } else {
      var rest := StripFences(s[1..]);
      assert r == [s[0]] + rest;
      StripFencesLeavesNoFence(s[1..]);
      NoFenceAtStart(s);
      forall i ensures !OccursAt(r, "```", i) {
        if 1 <= i && i + 3 <= |r| {
          assert r[i..i + 3] == rest[i - 1..i + 2];
          assert !OccursAt(rest, "```", i - 1);
        }
      }
    }
  }

  /** A scan position that does not start a fence cannot begin a kept "```". */
  lemma NoFenceAtStart(s: string)
    requires |s| > 0 && !StartsWith(s, "```")
    ensures !OccursAt(StripFences(s), "```", 0)
  {
    StripHead(s);
    var rest := StripFences(s[1..]);
    var r := [s[0]] + rest;
    assert StripFences(s) == r;
    if s[0] == '`' && |s| >= 2 {
      var t := s[1..];
      assert t[0] != '`' || |t| == 1 || t[1] != '`' by {
        if |s| >= 3 { assert s[..3] == [s[0], s[1], s[2]]; }
      }
      KeptBacktick(t);
      if s[1] != '`' {
        assert r[1] == s[1];
      } else if |s| == 2 {
        assert |rest| <= 1;
      } else {
        assert s[..3] == [s[0], s[1], s[2]];
        assert s[2] != '`';
        assert r[2] == rest[1] == t[1] == s[2];
        assert r[2] != '`';
      }
    } else if s[0] == '`' {
      assert |rest| == 0;
    } else {
      assert r[0] != '`';
    }
    NotTripleAtStart(r);
  }

  /** After a kept backtick, the next kept character is the following one of the input. */
  lemma KeptBacktick(t: string)
    requires |t| > 0 && (t[0] != '`' || |t| == 1 || t[1] != '`')
    ensures var r := StripFences(t); |r| > 0 && r[0] == t[0]
    ensures t[0] == '`' && |t| >= 2 ==> var r := StripFences(t); |r| >= 2 && r[1] == t[1]
  {
    NotFenceStart(t);
    StripHead(t);
    if t[0] == '`' && |t| >= 2 {
      NotFenceStart(t[1..]);
      StripHead(t[1..]);
    }
  }

  lemma NotTripleAtStart(r: string)
    requires |r| < 3 || r[0] != '`' || r[1] != '`' || r[2] != '`'
    ensures !OccursAt(r, "```", 0)
  {
    if |r| >= 3 {
      assert r[..3] == [r[0], r[1], r[2]];
    }
  }

  /** Both "```json" forms begin with "```". */
  lemma FencePrefixes(s: string)
    ensures StartsWith(s, "```json\n") ==> StartsWith(s, "```json")
    ensures StartsWith(s, "```json") ==> StartsWith(s, "```")
  {
    if StartsWith(s, "```json\n") { assert s[..7] == s[..8][..7]; }
    if StartsWith(s, "```json") { assert s[..3] == s[..7][..3]; }
  }

  /** A string that does not start with a fence keeps its first character in front. */
  lemma StripHead(t: string)
    requires |t| > 0 && !StartsWith(t, "```")
    ensures StripFences(t) == [t[0]] + StripFences(t[1..])
  {
    FencePrefixes(t);
  }

  /** A string whose first two characters are not both backticks does not start with a fence. */
  lemma NotFenceStart(t: string)
    requires |t| > 0 && (t[0] != '`' || |t| == 1 || t[1] != '`')
    ensures !StartsWith(t, "```")
  {
    if |t| >= 3 {
      assert t[..3] == [t[0], t[1], t[2]];
    }
  }

  /** A reply without backticks passes the fence stripping untouched. */
  lemma {:induction false} StripFencesWithoutBackticks(s: string)
    requires '`' !in s
    ensures StripFences(s) == s
    decreases |s|
  {
    if |s| > 0 {
      NotFenceStart(s);
      StripHead(s);
      StripFencesWithoutBackticks(s[1..]);
    }
  }

  /** Text without backticks followed by a closing fence keeps the text and loses the fence. */
  lemma {:induction false} StripClosingFence(b: string)
    requires '`' !in b
    ensures StripFences(b + "```") == b
    decreases |b|
  {
    var s := b + "```";
    if |b| == 0 {
      assert s == "```";
      assert StripFences(s) == StripFences(s[3..]);
    } else {
      assert s[0] == b[0];
      NotFenceStart(s);
      StripHead(s);
      assert s[1..] == b[1..] + "```";
      StripClosingFence(b[1..]);
      assert b == [b[0]] + b[1..];
    }
  }

  /** A fenced block "```json", newline, body, "```" strips to its body when the body has no backticks. */
  lemma FencedReplyStripsToBody(b: string)
    requires '`' !in b
    ensures StripFences("```json\n" + b + "```") == b
  {
    var s := "```json\n" + b + "```";
    assert s[..8] == "```json\n";
    assert StartsWith(s, "```json\n");
    assert s[8..] == b + "```";
    StripClosingFence(b);
  }

  /** A reply made of a fence alone sanitises to the empty string, which is not valid JSON. */
  lemma FenceOnlyReplyBecomesEmpty()
    ensures Sanitize("```json\n```") == ""
  {
    assert !HasBracketPair("```json\n```");
    assert StartsWith("```json\n```", "```json\n");
    assert "```json\n```"[8..] == "```";
    assert StartsWith("```", "```");
    assert StripFences("```") == "";
  }
}
