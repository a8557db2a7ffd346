/**
  The feed screen (App.tsx): which batch is requested for which view and
  category, how a settled request changes the feed, the custom-generation
  form, the dialog selection, the sidebar, and the header title.

  A request is split into the synchronous part run by the handler, which
  returns the request it issued, and the settlement, which receives the
  result of the service call as a parameter.
 */
module Feed {
  import opened Types
  import opened Strings
  import opened Retry

  const LoadErrorMessage: string := "Failed to ignite the engine. Please check your connection and try again."
  const CustomErrorMessage: string := "Custom generation failed. Try a different prompt."

  /** Which prompt builder a load uses. */
  datatype Request = TodayRequest | CategoryRequest(category: Category) | RefreshRequest

  datatype FeedState = FeedState(
    posts: seq<QuizPost>,
    loading: bool,
    error: Option<string>,
    viewMode: ViewMode,
    selectedCategory: Option<Category>,
    sidebarOpen: bool,
    selectedPost: Option<QuizPost>,
    customPrompt: string,
    generatingCustom: bool)

  /** A handler's new state and the batch request it issued, if any. */
  datatype Started = Started(state: FeedState, request: Option<Request>)

  /** The state before the first render: loading, on the daily view, with nothing else chosen. */
  const Initial: FeedState :=
    FeedState([], true, None, Today, None, false, None, "", false)

  /** The prompt choice of a load: a refresh wins, then the daily view, then a chosen category. */
  function PromptFor(mode: ViewMode, category: Option<Category>, refresh: bool): (r: Request)
    ensures r == RefreshRequest <==> refresh
    ensures r.CategoryRequest? <==> !refresh && mode != Today && category.Some?
    ensures r.CategoryRequest? ==> r.category == category.value
  {
    if refresh then RefreshRequest
    else if mode == Today then TodayRequest
    else if category.Some? then CategoryRequest(category.value)
    else TodayRequest
  }

  /**
    `loadPosts`: nothing in the custom view; otherwise loading starts, the
    error is cleared and a request is issued.
   */
  function BeginLoad(s: FeedState, mode: ViewMode, category: Option<Category>, refresh: bool): (st: Started)
    ensures mode == Generate ==> st == Started(s, None)
    ensures mode != Generate ==>
      && st.request == Some(PromptFor(mode, category, refresh))
      && st.state.loading && st.state.error.None?
      && st.state.(loading := s.loading, error := s.error) == s
  {
    if mode == Generate then Started(s, None)
    else Started(s.(loading := true, error := None), Some(PromptFor(mode, category, refresh)))
  }

  /** The settlement of a load: the batch replaces the feed, or the error message is set; loading ends. */
  function FinishLoad(s: FeedState, result: Settled<seq<QuizPost>>): (s': FeedState)
    ensures !s'.loading
    ensures result.Returned? ==> s'.posts == result.value && s'.error == s.error
    ensures result.Thrown? ==> s'.posts == s.posts && s'.error == Some(LoadErrorMessage)
    ensures s'.(posts := s.posts, loading := s.loading, error := s.error) == s
  {
    match result
    case Returned(batch) => s.(posts := batch, loading := false)
    case Thrown(_) => s.(error := Some(LoadErrorMessage), loading := false)
  }

  /** The mount effect: the daily batch is requested. */
  function Mounted(): (st: Started)
    ensures st.request == Some(TodayRequest) && st.state == Initial
  {
    BeginLoad(Initial, Today, None, false)
  }

  /** A channel button: the category is chosen, the browse view shown, its batch requested, the sidebar closed. */
  function ChooseCategory(s: FeedState, c: Category): (st: Started)
    ensures st.request == Some(CategoryRequest(c))
    ensures st.state.selectedCategory == Some(c) && st.state.viewMode == Browse
    ensures !st.state.sidebarOpen && st.state.loading && st.state.error.None?
    ensures st.state.posts == s.posts
    ensures st.state.(selectedCategory := s.selectedCategory, viewMode := s.viewMode, sidebarOpen := s.sidebarOpen,
                      loading := s.loading, error := s.error) == s
  {
    var chosen := s.(selectedCategory := Some(c), viewMode := Browse);
    var st := BeginLoad(chosen, Browse, Some(c), false);
    Started(st.state.(sidebarOpen := false), st.request)
  }

  /** The daily button: the category is cleared and the daily batch requested. */
  function ChooseToday(s: FeedState): (st: Started)
    ensures st.request == Some(TodayRequest)
    ensures st.state.selectedCategory.None? && st.state.viewMode == Today
    ensures !st.state.sidebarOpen && st.state.loading && st.state.posts == s.posts
    ensures st.state.error.None?
    ensures st.state.(selectedCategory := s.selectedCategory, viewMode := s.viewMode, sidebarOpen := s.sidebarOpen,
                      loading := s.loading, error := s.error) == s
  {
    var chosen := s.(viewMode := Today, selectedCategory := None);
    var st := BeginLoad(chosen, Today, None, false);
    Started(st.state.(sidebarOpen := false), st.request)
  }

  /** The custom button: the custom view is shown; the category is kept and nothing is requested. */
  function ChooseGenerate(s: FeedState): (s': FeedState)
    ensures s'.viewMode == Generate && !s'.sidebarOpen
    ensures s'.selectedCategory == s.selectedCategory && s'.posts == s.posts && s'.loading == s.loading
    ensures s'.(viewMode := s.viewMode, sidebarOpen := s.sidebarOpen) == s
  {
    s.(viewMode := Generate, sidebarOpen := false)
  }

  /** The refresh button is rendered outside the custom view only, and is disabled while loading. */
  predicate RefreshEnabled(s: FeedState) {
    s.viewMode != Generate && !s.loading
  }

  /** Refresh: a load with the refresh prompt for the current view and category. */
  function PressRefresh(s: FeedState): (st: Started)
    ensures RefreshEnabled(s) ==> st.request == Some(RefreshRequest) && st.state.loading && st.state.error.None?
    ensures RefreshEnabled(s) ==> st.state.(loading := s.loading, error := s.error) == s
    ensures !RefreshEnabled(s) ==> st == Started(s, None)
  {
    if RefreshEnabled(s) then BeginLoad(s, s.viewMode, s.selectedCategory, true) else Started(s, None)
  }

  /** The "Reset Feed" button is rendered inside the error banner, so only while an error is shown. */
  predicate ResetShown(s: FeedState) {
    s.error.Some?
  }

  /**
    "Reset Feed" as written: the daily batch is requested and the daily view
    shown, but the chosen category is kept, so the header goes on naming it
    over the daily batch.
   */
  function ResetFeedAsWritten(s: FeedState): (st: Started)
    ensures !ResetShown(s) ==> st == Started(s, None)
    ensures ResetShown(s) ==>
      && st.request == Some(TodayRequest) && st.state.viewMode == Today
      && st.state.selectedCategory == s.selectedCategory
      && st.state.loading && st.state.error.None? && st.state.posts == s.posts
    ensures ResetShown(s) ==> st.state.(viewMode := s.viewMode, loading := s.loading, error := s.error) == s
  {
    if !ResetShown(s) then Started(s, None)
    else
      var st := BeginLoad(s, Today, None, false);
      Started(st.state.(viewMode := Today), st.request)
  }

  /** "Reset Feed" returning to the daily feed as the daily button does: the category is cleared too. */
  function ResetFeed(s: FeedState): (st: Started)
    ensures !ResetShown(s) ==> st == Started(s, None)
    ensures ResetShown(s) ==>
      && st.request == Some(TodayRequest) && st.state.viewMode == Today
      && st.state.selectedCategory.None?
      && st.state.loading && st.state.error.None? && st.state.posts == s.posts
    ensures ResetShown(s) ==>
      st.state.(viewMode := s.viewMode, selectedCategory := s.selectedCategory, loading := s.loading, error := s.error) == s
  {
    if !ResetShown(s) then Started(s, None)
    else
      var st := BeginLoad(s, Today, None, false);
      Started(st.state.(viewMode := Today, selectedCategory := None), st.request)
  }

  // ---- custom generation ----

  /** A custom request: the new state, the prompt sent and the feed captured when it was sent. */
  datatype CustomStarted = CustomStarted(state: FeedState, prompt: Option<string>, captured: seq<QuizPost>)

  /** The submit button is disabled while a request runs or the prompt is blank; the handler also checks the blank case. */
  predicate CanSubmit(s: FeedState) {
    !s.generatingCustom && Trim(s.customPrompt) != ""
  }

  function SubmitCustom(s: FeedState): (cs: CustomStarted)
    ensures !CanSubmit(s) ==> cs.state == s && cs.prompt.None?
    ensures CanSubmit(s) ==>
      && cs.prompt == Some(s.customPrompt) && !AllWhitespace(s.customPrompt)
      && cs.state.generatingCustom && cs.state.error.None? && cs.captured == s.posts
    ensures CanSubmit(s) ==> cs.state.(generatingCustom := s.generatingCustom, error := s.error) == s
  {
    if CanSubmit(s) then CustomStarted(s.(generatingCustom := true, error := None), Some(s.customPrompt), s.posts)
    else CustomStarted(s, None, s.posts)
  }

  /**
    The settlement of a custom request as written: the new post goes in
    front of the feed captured when the request was sent, is opened in the
    dialog, and the prompt is cleared; a failure sets the error message.
   */
  function FinishCustomAsWritten(s: FeedState, captured: seq<QuizPost>, result: Settled<QuizPost>): (s': FeedState)
    ensures !s'.generatingCustom
    ensures result.Returned? ==>
      s'.posts == [result.value] + captured && s'.selectedPost == Some(result.value) && s'.customPrompt == ""
    ensures result.Returned? ==>
      s'.(posts := s.posts, selectedPost := s.selectedPost, customPrompt := s.customPrompt, generatingCustom := s.generatingCustom) == s
    ensures result.Thrown? ==> s'.posts == s.posts && s'.error == Some(CustomErrorMessage)
    ensures result.Thrown? ==> s'.(error := s.error, generatingCustom := s.generatingCustom) == s
  {
    match result
    case Returned(p) => s.(posts := [p] + captured, selectedPost := Some(p), customPrompt := "", generatingCustom := false)
    case Thrown(_) => s.(error := Some(CustomErrorMessage), generatingCustom := false)
  }

  /**
    The settlement with the new post put in front of the feed as it is when
    the request settles: every post shown then is still shown, after it.
   */
  function FinishCustom(s: FeedState, result: Settled<QuizPost>): (s': FeedState)
    ensures !s'.generatingCustom
    ensures result.Returned? ==>
      && |s'.posts| == |s.posts| + 1 && s'.posts[0] == result.value
      && (forall k :: 0 <= k < |s.posts| ==> s'.posts[k + 1] == s.posts[k])
      && s'.selectedPost == Some(result.value) && s'.customPrompt == ""
    ensures result.Returned? ==>
      s'.(posts := s.posts, selectedPost := s.selectedPost, customPrompt := s.customPrompt, generatingCustom := s.generatingCustom) == s
    ensures result.Thrown? ==> s'.posts == s.posts && s'.error == Some(CustomErrorMessage)
    ensures result.Thrown? ==> s'.(error := s.error, generatingCustom := s.generatingCustom) == s
  {
    match result
    case Returned(p) => s.(posts := [p] + s.posts, selectedPost := Some(p), customPrompt := "", generatingCustom := false)
    case Thrown(_) => s.(error := Some(CustomErrorMessage), generatingCustom := false)
  }

  /**
    As written, a batch that loads while a custom request runs is dropped
    when the custom post arrives: submit from an empty feed, choose a
    category, let its batch `[q]` arrive, then the custom post `x`; the
    feed is `[x]` under the category's title. Settling against the current
    feed gives `[x, q]`.
   */
  lemma LoadDuringCustomIsLostAsWritten(s: FeedState, c: Category, q: QuizPost, x: QuizPost)
    requires s.posts == [] && CanSubmit(s)
    ensures var cs := SubmitCustom(s);
      var loaded := FinishLoad(ChooseCategory(cs.state, c).state, Returned([q]));
      && loaded.posts == [q]
      && FinishCustomAsWritten(loaded, cs.captured, Returned(x)).posts == [x]
      && HeaderTitle(FinishCustomAsWritten(loaded, cs.captured, Returned(x))) == CategoryName(c)
      && FinishCustom(loaded, Returned(x)).posts == [x, q]
  {
  }

  // ---- dialog, sidebar and prompt ----

  function OpenPost(s: FeedState, p: QuizPost): (s': FeedState)
    ensures s'.selectedPost == Some(p) && s'.posts == s.posts
    ensures s'.(selectedPost := s.selectedPost) == s
  {
    s.(selectedPost := Some(p))
  }

  function ClosePost(s: FeedState): (s': FeedState)
    ensures s'.selectedPost.None? && s'.posts == s.posts
    ensures s'.(selectedPost := s.selectedPost) == s
  {
    s.(selectedPost := None)
  }

  function SetSidebar(s: FeedState, open: bool): (s': FeedState)
    ensures s'.sidebarOpen == open && s'.posts == s.posts
    ensures s'.(sidebarOpen := s.sidebarOpen) == s
  {
    s.(sidebarOpen := open)
  }

  function EditPrompt(s: FeedState, text: string): (s': FeedState)
    ensures s'.customPrompt == text && s'.posts == s.posts
    ensures s'.(customPrompt := s.customPrompt) == s
  {
    s.(customPrompt := text)
  }

  // ---- header ----

  const CustomLabTitle: string := "Custom Lab"
  const ViralFeedTitle: string := "Viral Feed"
  const BatchFeedTitle: string := "Batch Feed"

  /** The header: the custom view's title, else the chosen category, else the view's own title. */
  function HeaderTitle(s: FeedState): (t: string)
    ensures s.viewMode == Generate ==> t == CustomLabTitle
    ensures s.viewMode != Generate && s.selectedCategory.Some? ==> t == CategoryName(s.selectedCategory.value)
    ensures s.viewMode != Generate && s.selectedCategory.None? ==>
      t == (if s.viewMode == Today then ViralFeedTitle else BatchFeedTitle)
  {
    if s.viewMode == Generate then CustomLabTitle
    else if s.selectedCategory.Some? then CategoryName(s.selectedCategory.value)
    else if s.viewMode == Today then ViralFeedTitle
    else BatchFeedTitle
  }

  /** The header names the category a channel button chose. */
  lemma CategoryTitled(s: FeedState, c: Category)
    ensures HeaderTitle(ChooseCategory(s, c).state) == CategoryName(c)
  {
  }

  /** The title is the one of the last view button pressed. */
  lemma ViewButtonsTitled(s: FeedState)
    ensures HeaderTitle(ChooseToday(s).state) == ViralFeedTitle
    ensures HeaderTitle(ChooseGenerate(s)) == CustomLabTitle
  {
  }

  // ---- reachable states ----

  /** What the user does, and the settlement of requests, at the level of the screen. */
  datatype Event =
    | CategoryButton(category: Category)
    | TodayButton
    | GenerateButton
    | RefreshButton
    | LoadSettled(batch: Settled<seq<QuizPost>>)
    | PromptEdited(text: string)
    | SubmitButton
    | CustomSettled(result: Settled<QuizPost>)
    | CardClicked(card: QuizPost)
    | DialogClosed
    | SidebarToggled(open: bool)
    | ResetButton

  /** The screen's response to an event, with the reset and the custom settlement corrected. */
  function Apply(s: FeedState, e: Event): FeedState {
    match e
    case CategoryButton(c) => ChooseCategory(s, c).state
    case TodayButton => ChooseToday(s).state
    case GenerateButton => ChooseGenerate(s)
    case RefreshButton => PressRefresh(s).state
    case LoadSettled(b) => FinishLoad(s, b)
    case PromptEdited(t) => EditPrompt(s, t)
    case SubmitButton => SubmitCustom(s).state
    case CustomSettled(r) => FinishCustom(s, r)
    case CardClicked(p) => OpenPost(s, p)
    case DialogClosed => ClosePost(s)
    case SidebarToggled(open) => SetSidebar(s, open)
    case ResetButton => ResetFeed(s).state
  }

  /**
    The screen's response as written to everything that decides the view and
    the category: the reset keeps the category. The custom settlement
    as written differs from `FinishCustom` only in the feed, not in the view
    or the category (`CustomSettlementsAgreeOnView`).
   */
  function ApplyAsWritten(s: FeedState, e: Event): FeedState {
    if e.ResetButton? then ResetFeedAsWritten(s).state else Apply(s, e)
  }

  function ReplayAsWritten(s: FeedState, events: seq<Event>): FeedState
    decreases |events|
  {
    if |events| == 0 then s else ReplayAsWritten(ApplyAsWritten(s, events[0]), events[1..])
  }

  lemma CustomSettlementsAgreeOnView(s: FeedState, captured: seq<QuizPost>, result: Settled<QuizPost>)
    ensures FinishCustomAsWritten(s, captured, result).viewMode == FinishCustom(s, result).viewMode
    ensures FinishCustomAsWritten(s, captured, result).selectedCategory == FinishCustom(s, result).selectedCategory
  {
  }

  function Replay(s: FeedState, events: seq<Event>): FeedState
    decreases |events|
  {
    if |events| == 0 then s else Replay(Apply(s, events[0]), events[1..])
  }

  /** The browse view always has a category to name. */
  predicate BrowseHasCategory(s: FeedState) {
    s.viewMode == Browse ==> s.selectedCategory.Some?
  }

  /** The daily view never has a category, and the browse view always has one. */
  predicate ViewMatchesCategory(s: FeedState) {
    && (s.viewMode == Today ==> s.selectedCategory.None?)
    && BrowseHasCategory(s)
  }

  /** With the corrected reset, every event keeps the view and the category consistent. */
  lemma ApplyKeepsViewMatch(s: FeedState, e: Event)
    requires ViewMatchesCategory(s)
    ensures ViewMatchesCategory(Apply(s, e))
  {
  }

  lemma {:induction false} ReplayKeepsViewMatch(s: FeedState, events: seq<Event>)
    requires ViewMatchesCategory(s)
    ensures ViewMatchesCategory(Replay(s, events))
    decreases |events|
  {
    if |events| > 0 {
      ApplyKeepsViewMatch(s, events[0]);
      ReplayKeepsViewMatch(Apply(s, events[0]), events[1..]);
    }
  }

  /** As written, only the browse half holds: every event keeps a category on the browse view. */
  lemma ApplyAsWrittenKeepsBrowseCategory(s: FeedState, e: Event)
    requires BrowseHasCategory(s)
    ensures BrowseHasCategory(ApplyAsWritten(s, e))
  {
  }

  lemma {:induction false} ReplayAsWrittenKeepsBrowseCategory(s: FeedState, events: seq<Event>)
    requires BrowseHasCategory(s)
    ensures BrowseHasCategory(ReplayAsWritten(s, events))
    decreases |events|
  {
    if |events| > 0 {
      ApplyAsWrittenKeepsBrowseCategory(s, events[0]);
      ReplayAsWrittenKeepsBrowseCategory(ApplyAsWritten(s, events[0]), events[1..]);
    }
  }

  /**
    As written, a channel whose batch failed to load, followed by "Reset
    Feed", shows the daily view with the channel still chosen, so the header
    names the channel over the daily batch; the corrected reset titles it
    "Viral Feed".
   */
  lemma ResetKeepsCategoryAsWritten(s: FeedState, c: Category, e: Option<ApiError>)
    ensures var failed := FinishLoad(ChooseCategory(s, c).state, Thrown(e));
      && ResetShown(failed)
      && ResetFeedAsWritten(failed).request == Some(TodayRequest)
      && ResetFeedAsWritten(failed).state.viewMode == Today
      && HeaderTitle(ResetFeedAsWritten(failed).state) == CategoryName(c)
      && !ViewMatchesCategory(ResetFeedAsWritten(failed).state)
      && HeaderTitle(ResetFeed(failed).state) == ViralFeedTitle
  {
  }

  /**
    The "Batch Feed" title is never shown, neither by the program as written
    nor with the corrections: the browse view always has a category to name.
   */
  lemma BatchTitleUnreachable(events: seq<Event>)
    ensures HeaderTitle(ReplayAsWritten(Initial, events)) != BatchFeedTitle
    ensures HeaderTitle(Replay(Initial, events)) != BatchFeedTitle
  {
    ReplayAsWrittenKeepsBrowseCategory(Initial, events);
    ReplayKeepsViewMatch(Initial, events);
    var s := ReplayAsWritten(Initial, events);
    if s.viewMode != Generate && s.selectedCategory.Some? {
      CategoryNameNotBatchTitle(s.selectedCategory.value);
    }
    var s' := Replay(Initial, events);
    if s'.viewMode != Generate && s'.selectedCategory.Some? {
      CategoryNameNotBatchTitle(s'.selectedCategory.value);
    }
  }

  lemma CategoryNameNotBatchTitle(c: Category)
    ensures CategoryName(c) != BatchFeedTitle
  {
    match c
    case LogicMath => assert CategoryName(c)[0] != BatchFeedTitle[0];
    case ScienceTech => assert CategoryName(c)[0] != BatchFeedTitle[0];
    case GeneralKnowledge => assert CategoryName(c)[0] != BatchFeedTitle[0];
    case LanguageLit => assert CategoryName(c)[0] != BatchFeedTitle[0];
    case PopCulture => assert CategoryName(c)[0] != BatchFeedTitle[0];
    case TheArts => assert CategoryName(c)[0] != BatchFeedTitle[0];
    case NatureAnimals => assert CategoryName(c)[0] != BatchFeedTitle[0];
    case Psychology => assert CategoryName(c)[0] != BatchFeedTitle[0];
    case All => assert CategoryName(c)[0] != BatchFeedTitle[0];
  }
}
