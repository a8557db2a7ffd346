/**
  The single-file variant of the app (index.tsx): its own batch request,
  without sanitising and without retries, which ids items as time and
  index; and its feed screen, which keeps the previous feed on failure and
  shows no error. Its category enumeration lacks `All`.
 */
module LiteApp {
  import opened Types
  import opened Strings
  import opened Retry
  import opened Gemini

  /** The categories of index.tsx: those of the shared enumeration except `All`. */
  type LiteCategory = c: Category | c != All witness LogicMath

  /** The id of item `index`: the time and the index joined by "-". */
  function LiteId(idTime: nat, index: nat): string {
    NatToString(idTime) + "-" + NatToString(index)
  }

  /** The index read back from an id. */
  function LiteIndexOf(id: string): Option<nat> {
    var parts := Split(id, '-');
    if |parts| == 2 && AllDigits(parts[1]) then Some(ParseDecimal(parts[1])) else None
  }

  lemma DigitsHaveNoDash(s: string)
    requires AllDigits(s)
    ensures '-' !in s
  {
  }

  /** The two pieces of an id are exactly the pieces `Split` finds. */
  lemma LiteIdPieces(idTime: nat, index: nat)
    ensures Split(LiteId(idTime, index), '-') == [NatToString(idTime), NatToString(index)]
  {
    var parts := [NatToString(idTime), NatToString(index)];
    DigitsHaveNoDash(parts[0]);
    DigitsHaveNoDash(parts[1]);
    assert Join(parts, '-') == LiteId(idTime, index) by {
      assert parts[1..] == [NatToString(index)];
    }
    SplitJoin(parts, '-');
  }

  /** The index of an item can be read back from its id. */
  lemma LiteIdRoundTrip(idTime: nat, index: nat)
    ensures LiteIndexOf(LiteId(idTime, index)) == Some(index)
  {
    LiteIdPieces(idTime, index);
    ParseNatToString(index);
  }

  /**
    The mapping of a parsed batch: the id is set from `clock(i)` and the
    index, and every other field, the timestamp included, is kept.
   */
  function LiteNormalize(raw: seq<RawPost>, clock: nat -> nat): (posts: seq<QuizPost>)
    ensures |posts| == |raw|
    ensures forall i :: 0 <= i < |raw| ==>
      && posts[i].content == raw[i].content && posts[i].imageUrl == raw[i].imageUrl
      && posts[i].timestamp == raw[i].timestamp
      && LiteIndexOf(posts[i].id) == Some(i)
    ensures forall i :: 0 <= i < |raw| ==> Split(posts[i].id, '-') == [NatToString(clock(i)), NatToString(i)]
    ensures Gemini.DistinctIds(posts)
  {
    var posts := seq(|raw|, i requires 0 <= i < |raw| => LiteItem(raw[i], i, clock(i)));
    assert forall i :: 0 <= i < |raw| ==> posts[i] == LiteItem(raw[i], i, clock(i));
    posts
  }

  function LiteItem(raw: RawPost, index: nat, idTime: nat): (p: QuizPost)
    ensures p.content == raw.content && p.imageUrl == raw.imageUrl && p.timestamp == raw.timestamp
    ensures LiteIndexOf(p.id) == Some(index)
    ensures Split(p.id, '-') == [NatToString(idTime), NatToString(index)]
  {
    LiteIdRoundTrip(idTime, index);
    LiteIdPieces(idTime, index);
    QuizPost(LiteId(idTime, index), raw.content, raw.imageUrl, raw.timestamp)
  }

  /** The TypeError of mapping over a parsed value that is not an array. */
  const LiteNotAnArrayMessage: string := "data.map is not a function"

  /**
    `gemini.fetchPosts`: the reply text, or "[]" when it is absent or empty,
    goes straight to the parser; an error of the call or of the parser is
    thrown to the caller, with no retry.
   */
  function FetchPosts(reply: Gemini.Reply, parse: string -> Result<Gemini.Json, string>, clock: nat -> nat): (r: Settled<seq<QuizPost>>)
    ensures reply.Failure? ==> r == Thrown(Some(reply.error))
    ensures r.Returned? ==> Gemini.DistinctIds(r.value)
    ensures r.Returned? ==> exists items :: parse(Gemini.TextOr(reply.value, "[]")) == Ok(Gemini.JArray(items))
                                            && r.value == LiteNormalize(items, clock)
    ensures reply.Success? && parse(Gemini.TextOr(reply.value, "[]")) == Ok(Gemini.JNotArray) ==>
      r == Thrown(Some(ApiError(Some(LiteNotAnArrayMessage), None)))
    ensures reply.Success? && parse(Gemini.TextOr(reply.value, "[]")).Ok? && parse(Gemini.TextOr(reply.value, "[]")).value.JArray? ==>
      r == Returned(LiteNormalize(parse(Gemini.TextOr(reply.value, "[]")).value.items, clock))
    ensures reply.Success? && parse(Gemini.TextOr(reply.value, "[]")).Err? ==>
      r == Thrown(Some(ApiError(Some(parse(Gemini.TextOr(reply.value, "[]")).error), None)))
  {
    match reply
    case Failure(e) => Thrown(Some(e))
    case Success(text) =>
      match parse(Gemini.TextOr(text, "[]"))
      case Err(m) => Thrown(Some(ApiError(Some(m), None)))
      case Ok(JNotArray) => Thrown(Some(ApiError(Some(LiteNotAnArrayMessage), None)))
      case Ok(JArray(items)) => Returned(LiteNormalize(items, clock))
  }

  /** An empty reply is an empty batch. */
  lemma EmptyReplyIsEmptyBatch(parse: string -> Result<Gemini.Json, string>, clock: nat -> nat)
    requires parse("[]") == Ok(Gemini.JArray([]))
    ensures FetchPosts(Success(Some("")), parse, clock) == Returned([])
    ensures FetchPosts(Success(None), parse, clock) == Returned([])
  {
  }

  // ---- the screen ----

  datatype LiteState = LiteState(
    posts: seq<QuizPost>,
    loading: bool,
    view: ViewMode,
    category: Option<LiteCategory>,
    sidebarOpen: bool,
    selected: Option<QuizPost>)

  /** Which prompt a load uses: the ten-post prompt of a category, or the five-post daily prompt. */
  datatype LiteRequest = DailyRequest | ChannelRequest(category: LiteCategory)

  datatype LiteStarted = LiteStarted(state: LiteState, request: LiteRequest)

  const LiteInitial: LiteState := LiteState([], true, Today, None, false, None)

  /** `load(mode, category)`: the mode is ignored; a category selects its prompt. */
  function Load(s: LiteState, mode: ViewMode, category: Option<LiteCategory>): (st: LiteStarted)
    ensures st.state == s.(loading := true)
    ensures st.request.ChannelRequest? <==> category.Some?
    ensures st.request.ChannelRequest? ==> st.request.category == category.value
  {
    LiteStarted(s.(loading := true), if category.Some? then ChannelRequest(category.value) else DailyRequest)
  }

  /** The settlement of a load: a batch replaces the feed; an error is only logged. */
  function FinishLoad(s: LiteState, result: Settled<seq<QuizPost>>): (s': LiteState)
    ensures !s'.loading
    ensures result.Returned? ==> s'.posts == result.value
    ensures s'.(posts := s.posts, loading := s.loading) == s
    ensures result.Thrown? ==> s' == s.(loading := false)
  {
    match result
    case Returned(batch) => s.(posts := batch, loading := false)
    case Thrown(_) => s.(loading := false)
  }

  function ChooseToday(s: LiteState): (st: LiteStarted)
    ensures st.request == DailyRequest && st.state.category.None? && st.state.view == Today && !st.state.sidebarOpen
    ensures st.state.loading
    ensures st.state.(view := s.view, category := s.category, sidebarOpen := s.sidebarOpen, loading := s.loading) == s
  {
    var st := Load(s.(view := Today, category := None), Today, None);
    LiteStarted(st.state.(sidebarOpen := false), st.request)
  }

  function ChooseCategory(s: LiteState, c: LiteCategory): (st: LiteStarted)
    ensures st.request == ChannelRequest(c) && st.state.category == Some(c) && st.state.view == Browse
    ensures !st.state.sidebarOpen && st.state.loading
    ensures st.state.(view := s.view, category := s.category, sidebarOpen := s.sidebarOpen, loading := s.loading) == s
  {
    var st := Load(s.(category := Some(c), view := Browse), Browse, Some(c));
    LiteStarted(st.state.(sidebarOpen := false), st.request)
  }

  /** The refresh button, disabled while loading: the current category's prompt again. */
  function Refresh(s: LiteState): (st: Option<LiteStarted>)
    ensures s.loading <==> st.None?
    ensures st.Some? ==> st.value.request == (if s.category.Some? then ChannelRequest(s.category.value) else DailyRequest)
    ensures st.Some? ==> st.value.state.posts == s.posts && st.value.state.category == s.category
    ensures st.Some? ==> st.value.state.loading && st.value.state.(loading := s.loading) == s
  {
    if s.loading then None else Some(Load(s, s.view, s.category))
  }

  const LiteDefaultTitle: string := "Viral Feed"

  /** `cat || "Viral Feed"`. */
  function LiteTitle(s: LiteState): (t: string)
    ensures s.category.Some? ==> t == CategoryName(s.category.value)
    ensures s.category.None? ==> t == LiteDefaultTitle
  {
    if s.category.Some? then CategoryName(s.category.value) else LiteDefaultTitle
  }

  /** A failed request leaves the feed and its title as they were, and shows no error. */
  lemma FailedLoadKeepsFeed(s: LiteState, c: LiteCategory, e: Option<ApiError>)
    ensures var s' := FinishLoad(ChooseCategory(s, c).state, Thrown(e));
      s'.posts == s.posts && LiteTitle(s') == CategoryName(c) && !s'.loading
  {
  }

  /** The title names every category of the variant by its own string. */
  lemma LiteTitlesDistinct(s: LiteState, s': LiteState)
    requires s.category.Some? && s'.category.Some? && s.category != s'.category
    ensures LiteTitle(s) != LiteTitle(s')
  {
    if LiteTitle(s) == LiteTitle(s') {
      CategoryNameInjective(s.category.value, s'.category.value);
    }
  }

  /** The mount effect: the daily batch is requested once. */
  function Mounted(s: LiteState): (st: LiteStarted)
    ensures st.request == DailyRequest && st.state == s.(loading := true)
  {
    Load(s, Today, None)
  }

  /** What the user and the network can do to the screen. */
  datatype LiteEvent =
    | PressToday
    | PressChannel(c: LiteCategory)
    | PressRefresh
    | Settle(result: Settled<seq<QuizPost>>)
    | SetSidebar(open: bool)
    | Select(post: Option<QuizPost>)

  function LiteApply(s: LiteState, e: LiteEvent): LiteState {
    match e
    case PressToday => ChooseToday(s).state
    case PressChannel(c) => ChooseCategory(s, c).state
    case PressRefresh => if Refresh(s).Some? then Refresh(s).value.state else s
    case Settle(result) => FinishLoad(s, result)
    case SetSidebar(open) => s.(sidebarOpen := open)
    case Select(p) => s.(selected := p)
  }

  function LiteReplay(s: LiteState, events: seq<LiteEvent>): LiteState
    decreases |events|
  {
    if |events| == 0 then s else LiteReplay(LiteApply(s, events[0]), events[1..])
  }

  /** The screen shows the daily view exactly when no category is chosen, and never the custom view. */
  predicate LiteViewMatches(s: LiteState) {
    && s.view != Generate
    && (s.view == Today <==> s.category.None?)
  }

  lemma LiteApplyKeepsViewMatch(s: LiteState, e: LiteEvent)
    requires LiteViewMatches(s)
    ensures LiteViewMatches(LiteApply(s, e))
  {
  }

  lemma {:induction false} LiteReplayKeepsViewMatch(s: LiteState, events: seq<LiteEvent>)
    requires LiteViewMatches(s)
    ensures LiteViewMatches(LiteReplay(s, events))
    decreases |events|
  {
    if |events| > 0 {
      LiteApplyKeepsViewMatch(s, events[0]);
      LiteReplayKeepsViewMatch(LiteApply(s, events[0]), events[1..]);
    }
  }

  lemma CategoryNameNotDefaultTitle(c: Category)
    ensures CategoryName(c) != LiteDefaultTitle
  {
    assert CategoryName(c)[0] != LiteDefaultTitle[0];
  }

  /**
    On every reachable screen the daily button is highlighted (daily view,
    no category) exactly when the header reads "Viral Feed", and a refresh
    asks for the daily batch exactly on the daily view.
   */
  lemma DailyHighlightMatchesTitle(events: seq<LiteEvent>)
    ensures var s := LiteReplay(Mounted(LiteInitial).state, events);
      && ((s.view == Today && s.category.None?) <==> LiteTitle(s) == LiteDefaultTitle)
      && (Refresh(s).Some? ==> (Refresh(s).value.request == DailyRequest <==> s.view == Today))
  {
    LiteReplayKeepsViewMatch(Mounted(LiteInitial).state, events);
    var s := LiteReplay(Mounted(LiteInitial).state, events);
    if s.category.Some? {
      CategoryNameNotDefaultTitle(s.category.value);
    }
  }
}
