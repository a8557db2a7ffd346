/**
  The generation service (services/geminiService.ts) around its two
  collaborators: the batch and single-post requests with their id and
  timestamp assignment, the choice of the image part in an image reply, and
  the keyword picked for a category prompt.

  The remote model is a function from attempt number to reply; `JSON.parse`
  is a parameter returning a record or a syntax error; the clock and the
  random source are the values they produced while a reply was mapped.
 */
module Gemini {
  import opened Types
  import opened Strings
  import opened Sanitizer
  import opened Retry

  predicate IsBase36Digit(c: char) {
    ('0' <= c <= '9') || ('a' <= c <= 'z')
  }

  /** Up to nine base-36 digits, the suffix cut from the rendering of a random number. */
  type Base36 = s: string | |s| <= 9 && forall k :: 0 <= k < |s| ==> IsBase36Digit(s[k]) witness ""

  /** What the clock and the random source gave while one batch item was mapped. */
  datatype Draw = Draw(idTime: nat, suffix: Base36, stampTime: nat)

  /** The two clock readings taken while the custom post was built. */
  datatype Stamps = Stamps(idTime: nat, stampTime: nat)

  /** The id of batch item `index`: time, index and suffix joined by "-". */
  function BatchId(idTime: nat, index: nat, suffix: Base36): string {
    NatToString(idTime) + "-" + NatToString(index) + "-" + suffix
  }

  /** The batch index written in an id, read back. */
  function BatchIndexOf(id: string): Option<nat> {
    var parts := Split(id, '-');
    if |parts| == 3 && AllDigits(parts[1]) then Some(ParseDecimal(parts[1])) else None
  }

  /** The three pieces of a batch id are exactly the pieces `Split` finds. */
  lemma BatchIdPieces(idTime: nat, index: nat, suffix: Base36)
    ensures Split(BatchId(idTime, index, suffix), '-') == [NatToString(idTime), NatToString(index), suffix]
  {
    var parts := [NatToString(idTime), NatToString(index), suffix];
    NoDashIn(NatToString(idTime));
    NoDashIn(NatToString(index));
    NoDashIn(suffix);
    assert Join(parts, '-') == BatchId(idTime, index, suffix) by {
      assert Join(parts[2..], '-') == suffix;
      assert parts[1..][1..] == parts[2..];
    }
    SplitJoin(parts, '-');
  }

  /** Decimal and base-36 digits are never the separator. */
  lemma NoDashIn(s: string)
    requires forall k :: 0 <= k < |s| ==> IsBase36Digit(s[k])
    ensures '-' !in s
  {
  }

  /** Reading the index back from a batch id gives the index it was built with. */
  lemma BatchIdIndexRoundTrip(idTime: nat, index: nat, suffix: Base36)
    ensures BatchIndexOf(BatchId(idTime, index, suffix)) == Some(index)
  {
    BatchIdPieces(idTime, index, suffix);
    ParseNatToString(index);
  }

  predicate DistinctIds(posts: seq<QuizPost>) {
    forall i, j :: 0 <= i < j < |posts| ==> posts[i].id != posts[j].id
  }

  /**
    One parsed item with its id and timestamp set; both override whatever
    the item carried, and every other field is kept.
   */
  function NormalizeItem(raw: RawPost, index: nat, d: Draw): (p: QuizPost)
    ensures p.content == raw.content && p.imageUrl == raw.imageUrl
    ensures p.timestamp == Some(d.stampTime)
    ensures BatchIndexOf(p.id) == Some(index)
    ensures Split(p.id, '-') == [NatToString(d.idTime), NatToString(index), d.suffix]
  {
    BatchIdIndexRoundTrip(d.idTime, index, d.suffix);
    BatchIdPieces(d.idTime, index, d.suffix);
    QuizPost(BatchId(d.idTime, index, d.suffix), raw.content, raw.imageUrl, Some(d.stampTime))
  }

  /**
    The mapping of a parsed batch: same length and order, fields kept, and
    ids that are pairwise distinct because each one carries its own index.
   */
  function NormalizeBatch(raw: seq<RawPost>, draw: nat -> Draw): (posts: seq<QuizPost>)
    ensures |posts| == |raw|
    ensures forall i :: 0 <= i < |raw| ==>
      posts[i].content == raw[i].content && posts[i].imageUrl == raw[i].imageUrl
      && posts[i].timestamp == Some(draw(i).stampTime)
      && BatchIndexOf(posts[i].id) == Some(i)
    ensures forall i :: 0 <= i < |raw| ==>
      Split(posts[i].id, '-') == [NatToString(draw(i).idTime), NatToString(i), draw(i).suffix]
    ensures DistinctIds(posts)
  {
    var posts := seq(|raw|, i requires 0 <= i < |raw| => NormalizeItem(raw[i], i, draw(i)));
    assert forall i :: 0 <= i < |raw| ==> posts[i] == NormalizeItem(raw[i], i, draw(i));
    posts
  }

  /** The ids a batch receives do not depend on the ids its raw items carried. */
  lemma RawIdsIgnored(raw: seq<RawPost>, raw': seq<RawPost>, draw: nat -> Draw)
    requires |raw| == |raw'|
    requires forall i :: 0 <= i < |raw| ==>
      raw[i].content == raw'[i].content && raw[i].imageUrl == raw'[i].imageUrl
    ensures NormalizeBatch(raw, draw) == NormalizeBatch(raw', draw)
  {
  }

  const CustomIdPrefix: string := "custom-"

  /** The single custom post: id "custom-" and the time, timestamp the second reading. */
  function CustomPost(raw: RawPost, t: Stamps): (p: QuizPost)
    ensures p.content == raw.content && p.imageUrl == raw.imageUrl
    ensures p.timestamp == Some(t.stampTime)
    ensures StartsWith(p.id, CustomIdPrefix) && p.id[|CustomIdPrefix|..] == NatToString(t.idTime)
  {
    var id := CustomIdPrefix + NatToString(t.idTime);
    assert id[..|CustomIdPrefix|] == CustomIdPrefix;
    QuizPost(id, raw.content, raw.imageUrl, Some(t.stampTime))
  }

  /** A custom post's id never equals a batch id: one starts with a letter, the other with a digit. */
  lemma CustomIdIsNotBatchId(raw: RawPost, t: Stamps, idTime: nat, index: nat, suffix: Base36)
    ensures CustomPost(raw, t).id != BatchId(idTime, index, suffix)
  {
    var b := BatchId(idTime, index, suffix);
    assert b[0] == NatToString(idTime)[0];
    assert IsDigit(b[0]);
    assert CustomPost(raw, t).id[0] == 'c';
  }

  /** Custom posts made at different milliseconds have different ids. */
  lemma CustomIdsDifferAcrossTimes(raw: RawPost, t: Stamps, raw': RawPost, t': Stamps)
    requires t.idTime != t'.idTime
    ensures CustomPost(raw, t).id != CustomPost(raw', t').id
  {
    if CustomPost(raw, t).id == CustomPost(raw', t').id {
      NatToStringInjective(t.idTime, t'.idTime);
    }
  }

  // ---- image reply ----

  datatype InlineData = InlineData(data: string, mimeType: string)

  datatype Part = Part(text: Option<string>, inlineData: Option<InlineData>)

  /** Why no image came back: the reply had no candidate, or no part of the first candidate held image data. */
  datatype ImageFailure = NoCandidate | NoImageGenerated

  const DataUriPrefix: string := "data:image/png;base64,"

  /** The first part that carries inline data. */
  function FirstInlinePart(parts: seq<Part>): (r: Option<nat>)
    ensures r.None? <==> forall k :: 0 <= k < |parts| ==> parts[k].inlineData.None?
    ensures r.Some? ==> r.value < |parts| && parts[r.value].inlineData.Some?
    ensures r.Some? ==> forall k :: 0 <= k < r.value ==> parts[k].inlineData.None?
    decreases |parts|
  {
    if |parts| == 0 then None
    else if parts[0].inlineData.Some? then Some(0)
    else
      var r := FirstInlinePart(parts[1..]);
      assert forall k :: 1 <= k < |parts| ==> parts[k] == parts[1..][k - 1];
      if r.None? then None else Some(r.value + 1)
  }

  /** Part `k` is the first one carrying inline data. */
  predicate FirstWithImage(parts: seq<Part>, k: int) {
    && 0 <= k < |parts| && parts[k].inlineData.Some?
    && (forall m :: 0 <= m < k ==> parts[m].inlineData.None?)
  }

  /**
    The image reference built from the parts of the first candidate: the
    data URI of the first part with inline data, or a failure.
   */
  function ImageFromReply(candidates: seq<seq<Part>>): (r: Result<string, ImageFailure>)
    ensures |candidates| == 0 ==> r == Err(NoCandidate)
    ensures |candidates| > 0 ==>
      (r.Err? <==> forall k :: 0 <= k < |candidates[0]| ==> candidates[0][k].inlineData.None?)
    ensures r.Ok? ==>
      exists k :: FirstWithImage(candidates[0], k) && r.value == DataUriPrefix + candidates[0][k].inlineData.value.data
  {
    if |candidates| == 0 then Err(NoCandidate)
    else
      var parts := candidates[0];
      match FirstInlinePart(parts)
      case None => Err(NoImageGenerated)
      case Some(k) =>
        assert FirstWithImage(parts, k);
        Ok(DataUriPrefix + parts[k].inlineData.value.data)
  }

  /** The payload can be read back from the data URI. */
  lemma ImagePayloadRoundTrip(candidates: seq<seq<Part>>)
    requires ImageFromReply(candidates).Ok?
    ensures var uri := ImageFromReply(candidates).value;
      && StartsWith(uri, DataUriPrefix)
      && uri[|DataUriPrefix|..] == candidates[0][FirstInlinePart(candidates[0]).value].inlineData.value.data
  {
    var uri := ImageFromReply(candidates).value;
    assert uri[..|DataUriPrefix|] == DataUriPrefix;
  }

  // ---- category prompt keyword ----

  const VarietyKeywords: seq<string> :=
    ["obscure", "advanced", "rare", "lateral-thinking", "deceptive", "mind-bending"]

  /** The seed is `floor(random * 1000000)`. */
  type Seed = n: nat | n < 1000000

  /** The keyword chosen for a seed, by its remainder modulo the list length. */
  function KeywordIndex(seed: Seed): (k: nat)
    ensures k < |VarietyKeywords|
    ensures seed < |VarietyKeywords| ==> k == seed
  {
    seed % |VarietyKeywords|
  }

  /** Seeds six apart choose the same keyword, so every keyword is chosen for a sixth of the seeds. */
  lemma KeywordPeriodic(seed: Seed)
    requires seed + 6 < 1000000
    ensures KeywordIndex(seed + 6) == KeywordIndex(seed)
  {
  }

  // ---- composed requests ----

  /** The reply of the text model on one attempt: its `text` (possibly absent or empty), or a thrown error. */
  type Reply = Outcome<Option<string>>

  /** A parsed JSON text: an array of records, or some other JSON value. */
  datatype Json = JArray(items: seq<RawPost>) | JNotArray

  /** `text || fallback`: an absent or empty text is replaced. */
  function TextOr(text: Option<string>, fallback: string): (r: string)
    ensures text.Some? && text.value != "" ==> r == text.value
    ensures text.None? || text.value == "" ==> r == fallback
    ensures |r| > 0 || |fallback| == 0
  {
    if text.Some? && text.value != "" then text.value else fallback
  }

  const NotAnArrayMessage: string := "parsed.map is not a function"

  /** One attempt of the batch request: sanitise, parse, then map with ids and timestamps. */
  function BatchTask(reply: Reply, parse: string -> Result<Json, string>, draw: nat -> Draw): (o: Outcome<seq<QuizPost>>)
    ensures reply.Failure? ==> o == Failure(reply.error)
    ensures o.Success? ==> DistinctIds(o.value)
    ensures o.Success? ==> reply.Success? && exists items ::
      parse(Sanitize(TextOr(reply.value, "[]"))) == Ok(JArray(items)) && o.value == NormalizeBatch(items, draw)
    ensures reply.Success? ==>
      var parsed := parse(Sanitize(TextOr(reply.value, "[]")));
      && (parsed.Err? ==> o == Failure(ApiError(Some(parsed.error), None)))
      && (parsed == Ok(JNotArray) ==> o == Failure(ApiError(Some(NotAnArrayMessage), None)))
      && (parsed.Ok? && parsed.value.JArray? ==> o == Success(NormalizeBatch(parsed.value.items, draw)))
  {
    match reply
    case Failure(e) => Failure(e)
    case Success(text) =>
      match parse(Sanitize(TextOr(text, "[]")))
      case Err(m) => Failure(ApiError(Some(m), None))
      case Ok(JNotArray) => Failure(ApiError(Some(NotAnArrayMessage), None))
      case Ok(JArray(items)) => Success(NormalizeBatch(items, draw))
  }

  /**
    `fetchQuizPosts`: the batch request under the retry wrapper with its
    default of three attempts; `draw(a)` is what attempt `a` drew.
   */
  function FetchQuizPosts(api: nat -> Reply, parse: string -> Result<Json, string>,
                          draw: nat -> nat -> Draw, jitter: nat -> Jitter): (run: Run<seq<QuizPost>>)
    ensures run.calls <= DefaultRetries
    ensures run.settled.Returned? ==> run.calls >= 1
    ensures run.settled.Returned? ==> DistinctIds(run.settled.value)
    ensures run.settled.Returned? ==>
      var a := run.calls - 1;
      && api(a).Success?
      && exists items :: parse(Sanitize(TextOr(api(a).value, "[]"))) == Ok(JArray(items))
                        && run.settled.value == NormalizeBatch(items, draw(a))
  {
    var task := BatchAttempts(api, parse, draw);
    var run := RetryLoop(task, jitter, DefaultRetries, 0, None);
    if run.settled.Returned? then
      var a := run.calls - 1;
      assert BatchTask(api(a), parse, draw(a)) == Success(run.settled.value);
      run
    else run
  }

  /** The attempts of the batch request, one per attempt number. */
  function BatchAttempts(api: nat -> Reply, parse: string -> Result<Json, string>, draw: nat -> nat -> Draw)
    : (task: nat -> Outcome<seq<QuizPost>>)
    ensures forall a :: task(a) == BatchTask(api(a), parse, draw(a))
  {
    (a: nat) => BatchTask(api(a), parse, draw(a))
  }

  /**
    When the calls before attempt `k` fail transiently and attempt `k`'s
    reply parses to an array, the batch is returned after `k` sleeps.
   */
  lemma FetchReturnsParsedBatch(api: nat -> Reply, parse: string -> Result<Json, string>,
                                draw: nat -> nat -> Draw, jitter: nat -> Jitter, k: nat, items: seq<RawPost>)
    requires k < DefaultRetries
    requires forall a :: 0 <= a < k ==> api(a).Failure? && IsTransient(api(a).error)
    requires api(k).Success? && parse(Sanitize(TextOr(api(k).value, "[]"))) == Ok(JArray(items))
    ensures var run := FetchQuizPosts(api, parse, draw, jitter);
      && run.settled == Returned(NormalizeBatch(items, draw(k)))
      && run.calls == k + 1 && |run.delays| == k
  {
    var task := BatchAttempts(api, parse, draw);
    assert forall a :: 0 <= a < k ==> FailedTransiently(task(a));
    LoopStopsAt(task, jitter, DefaultRetries, 0, None, k);
  }

  /** One attempt of the custom request: sanitise, parse, then set the custom id and timestamp. */
  function CustomTask(reply: Reply, parse: string -> Result<RawPost, string>, t: Stamps): (o: Outcome<QuizPost>)
    ensures reply.Failure? ==> o == Failure(reply.error)
    ensures o.Success? ==> StartsWith(o.value.id, CustomIdPrefix) && o.value.timestamp == Some(t.stampTime)
    ensures o.Success? ==> reply.Success? && exists raw ::
      parse(Sanitize(TextOr(reply.value, "{}"))) == Ok(raw) && o.value == CustomPost(raw, t)
    ensures reply.Success? && parse(Sanitize(TextOr(reply.value, "{}"))).Err? ==>
      o == Failure(ApiError(Some(parse(Sanitize(TextOr(reply.value, "{}"))).error), None))
    ensures reply.Success? && parse(Sanitize(TextOr(reply.value, "{}"))).Ok? ==> o.Success?
  {
    match reply
    case Failure(e) => Failure(e)
    case Success(text) =>
      match parse(Sanitize(TextOr(text, "{}")))
      case Err(m) => Failure(ApiError(Some(m), None))
      case Ok(raw) => Success(CustomPost(raw, t))
  }

  /** `generateCustomEnigma`: the custom request under the retry wrapper. */
  function GenerateCustomEnigma(api: nat -> Reply, parse: string -> Result<RawPost, string>,
                                stamps: nat -> Stamps, jitter: nat -> Jitter): (run: Run<QuizPost>)
    ensures run.calls <= DefaultRetries
    ensures run.settled.Returned? ==> run.calls >= 1
    ensures run.settled.Returned? ==>
      var a := run.calls - 1;
      && api(a).Success?
      && exists raw :: parse(Sanitize(TextOr(api(a).value, "{}"))) == Ok(raw)
                      && run.settled.value == CustomPost(raw, stamps(a))
  {
    var task := CustomAttempts(api, parse, stamps);
    var run := RetryLoop(task, jitter, DefaultRetries, 0, None);
    if run.settled.Returned? then
      var a := run.calls - 1;
      assert CustomTask(api(a), parse, stamps(a)) == Success(run.settled.value);
      run
    else run
  }

  /** The attempts of the custom request, one per attempt number. */
  function CustomAttempts(api: nat -> Reply, parse: string -> Result<RawPost, string>, stamps: nat -> Stamps)
    : (task: nat -> Outcome<QuizPost>)
    ensures forall a :: task(a) == CustomTask(api(a), parse, stamps(a))
  {
    (a: nat) => CustomTask(api(a), parse, stamps(a))
  }

  /**
    When the calls before attempt `k` fail transiently and attempt `k`'s
    reply parses to a record, the custom post built from it is returned
    after `k` sleeps.
   */
  lemma GenerateReturnsParsedPost(api: nat -> Reply, parse: string -> Result<RawPost, string>,
                                  stamps: nat -> Stamps, jitter: nat -> Jitter, k: nat, raw: RawPost)
    requires k < DefaultRetries
    requires forall a :: 0 <= a < k ==> api(a).Failure? && IsTransient(api(a).error)
    requires api(k).Success? && parse(Sanitize(TextOr(api(k).value, "{}"))) == Ok(raw)
    ensures var run := GenerateCustomEnigma(api, parse, stamps, jitter);
      && run.settled == Returned(CustomPost(raw, stamps(k)))
      && run.calls == k + 1 && |run.delays| == k
  {
    var task := CustomAttempts(api, parse, stamps);
    assert forall a :: 0 <= a < k ==> FailedTransiently(task(a));
    LoopStopsAt(task, jitter, DefaultRetries, 0, None, k);
  }
}
