/**
  The post dialog (components/PostModal.tsx, and the dialog of index.tsx):
  the post it shows, the backdrop image URL it holds locally, and whether an
  image request is running. The dialog stays mounted while the feed changes
  the post it is given, so its local state lives across posts.

  Two versions of "the dialog is given a post" are modelled:
  `ReceivePostAsWritten` keeps the local image URL, as PostModal.tsx does
  (its state initialiser runs only at mount), while `ReceivePost` resets it
  from the new post, as the dialog of index.tsx does in an effect on the post.
 */
module Modal {
  import opened Types
  import opened Strings
  import opened CardText
  import Gemini

  datatype ModalState = ModalState(post: Option<QuizPost>, imageUrl: Option<string>, generating: bool)

  /** `post?.imageUrl || null`: an absent post, an absent URL and an empty URL all give no URL. */
  function InitialImageUrl(post: Option<QuizPost>): (u: Option<string>)
    ensures u.Some? <==> post.Some? && post.value.imageUrl.Some? && post.value.imageUrl.value != ""
    ensures u.Some? ==> u == post.value.imageUrl
  {
    if post.Some? && post.value.imageUrl.Some? && post.value.imageUrl.value != "" then post.value.imageUrl
    else None
  }

  /** The state right after mounting with a post. */
  function Mount(post: Option<QuizPost>): (m: ModalState)
    ensures m.post == post && !m.generating && OwnBackdrop(m)
  {
    ModalState(post, InitialImageUrl(post), false)
  }

  /** The URL the dialog holds is the one its current post carries. */
  predicate OwnBackdrop(m: ModalState) {
    m.imageUrl == InitialImageUrl(m.post)
  }

  /** PostModal.tsx: a new post is shown, the local URL and the busy flag are kept. */
  function ReceivePostAsWritten(m: ModalState, post: Option<QuizPost>): (m': ModalState)
    ensures m'.post == post && m'.imageUrl == m.imageUrl && m'.generating == m.generating
  {
    m.(post := post)
  }

  /** index.tsx: when the post changes the local URL is reset from it; the same post changes nothing. */
  function ReceivePost(m: ModalState, post: Option<QuizPost>): (m': ModalState)
    ensures m'.post == post && m'.generating == m.generating
    ensures post != m.post ==> OwnBackdrop(m')
    ensures post == m.post ==> m' == m
  {
    if post == m.post then m else m.(post := post, imageUrl := InitialImageUrl(post))
  }

  /** The backdrop button: a press while a request runs is ignored, as the button is disabled then. */
  function BeginGenerate(m: ModalState): (m': ModalState)
    ensures m'.generating
    ensures m'.post == m.post && m'.imageUrl == m.imageUrl
    ensures m.generating ==> m' == m
  {
    if m.generating then m else m.(generating := true)
  }

  /** The end of the image request: a URL replaces the held one, an error is only logged. */
  function FinishGenerate(m: ModalState, result: Result<string, Gemini.ImageFailure>): (m': ModalState)
    ensures !m'.generating && m'.post == m.post
    ensures result.Ok? ==> m'.imageUrl == Some(result.value)
    ensures result.Err? ==> m'.imageUrl == m.imageUrl
  {
    match result
    case Ok(url) => m.(imageUrl := Some(url), generating := false)
    case Err(_) => m.(generating := false)
  }

  /** What happens to a mounted dialog. */
  datatype Event = Select(post: Option<QuizPost>) | GenerateStarted | GenerateFinished(result: Result<string, Gemini.ImageFailure>)

  predicate GeneratedImage(e: Event) {
    e.GenerateFinished? && e.result.Ok?
  }

  function StepAsWritten(m: ModalState, e: Event): ModalState {
    match e
    case Select(p) => ReceivePostAsWritten(m, p)
    case GenerateStarted => BeginGenerate(m)
    case GenerateFinished(r) => FinishGenerate(m, r)
  }

  function Step(m: ModalState, e: Event): ModalState {
    match e
    case Select(p) => ReceivePost(m, p)
    case GenerateStarted => BeginGenerate(m)
    case GenerateFinished(r) => FinishGenerate(m, r)
  }

  function ReplayAsWritten(m: ModalState, events: seq<Event>): (m': ModalState)
    ensures (forall k :: 0 <= k < |events| ==> !events[k].Select?) ==> m'.post == m.post
    decreases |events|
  {
    if |events| == 0 then m else ReplayAsWritten(StepAsWritten(m, events[0]), events[1..])
  }

  function Replay(m: ModalState, events: seq<Event>): (m': ModalState)
    ensures (forall k :: 0 <= k < |events| ==> !events[k].Select?) ==> m'.post == m.post
    decreases |events|
  {
    if |events| == 0 then m else Replay(Step(m, events[0]), events[1..])
  }

  /**
    With the reset, only an image generated while a post is shown can make
    the dialog hold a URL other than that post's own: every other event keeps
    `OwnBackdrop`.
   */
  lemma {:induction false} BackdropStaysOwn(m: ModalState, events: seq<Event>)
    requires OwnBackdrop(m)
    requires forall k :: 0 <= k < |events| ==> !GeneratedImage(events[k])
    ensures OwnBackdrop(Replay(m, events))
    decreases |events|
  {
    if |events| > 0 {
      assert !GeneratedImage(events[0]);
      BackdropStaysOwn(Step(m, events[0]), events[1..]);
    }
  }

  /** With the reset, a change of post followed by no generated image always shows the new post's own backdrop. */
  lemma SwitchShowsOwnBackdrop(m: ModalState, post: Option<QuizPost>, events: seq<Event>)
    requires post != m.post
    requires forall k :: 0 <= k < |events| ==> !GeneratedImage(events[k])
    ensures OwnBackdrop(Replay(m, [Select(post)] + events))
  {
    assert ([Select(post)] + events)[1..] == events;
    BackdropStaysOwn(Step(m, Select(post)), events);
  }

  /**
    As written, an image generated for one post stays on the next: open a
    post without an image, generate `url`, close, open another post without
    an image, and the second one shows `url`. The same events with the reset
    show no backdrop.
   */
  lemma StaleBackdropAsWritten(a: QuizPost, b: QuizPost, url: string)
    requires a.imageUrl.None? && b.imageUrl.None?
    ensures var events := [Select(Some(a)), GenerateStarted, GenerateFinished(Ok(url)), Select(None), Select(Some(b))];
      && ReplayAsWritten(Mount(None), events) == ModalState(Some(b), Some(url), false)
      && !OwnBackdrop(ReplayAsWritten(Mount(None), events))
      && Replay(Mount(None), events) == ModalState(Some(b), None, false)
  {
    var events := [Select(Some(a)), GenerateStarted, GenerateFinished(Ok(url)), Select(None), Select(Some(b))];
    var e1 := events[1..];
    var e2 := e1[1..];
    var e3 := e2[1..];
    var e4 := e3[1..];
    assert e4 == [Select(Some(b))] && e4[1..] == [];
    var m0 := Mount(None);
    var w1 := StepAsWritten(m0, events[0]);
    var w2 := StepAsWritten(w1, e1[0]);
    var w3 := StepAsWritten(w2, e2[0]);
    var w4 := StepAsWritten(w3, e3[0]);
    assert ReplayAsWritten(m0, events) == ReplayAsWritten(w1, e1);
    assert ReplayAsWritten(w1, e1) == ReplayAsWritten(w2, e2);
    assert ReplayAsWritten(w2, e2) == ReplayAsWritten(w3, e3);
    assert ReplayAsWritten(w3, e3) == ReplayAsWritten(w4, e4);
    assert ReplayAsWritten(w4, e4) == ReplayAsWritten(StepAsWritten(w4, e4[0]), []);
    var r1 := Step(m0, events[0]);
    var r2 := Step(r1, e1[0]);
    var r3 := Step(r2, e2[0]);
    var r4 := Step(r3, e3[0]);
    assert r4 == ModalState(None, None, false);
    assert Replay(m0, events) == Replay(r1, e1);
    assert Replay(r1, e1) == Replay(r2, e2);
    assert Replay(r2, e2) == Replay(r3, e3);
    assert Replay(r3, e3) == Replay(r4, e4);
    assert Replay(r4, e4) == Replay(Step(r4, e4[0]), []);
  }

  // ---- what the dialog renders ----

  const RegenerateLabel: string := "Re-Gen Backdrop"
  const AddLabel: string := "Add AI Backdrop"
  const DownloadPrefix: string := "DQ&R-"
  const DownloadSuffix: string := ".png"

  /** The download file name for a post id. */
  function DownloadName(id: string): (name: string)
    ensures StartsWith(name, DownloadPrefix)
    ensures |name| == |DownloadPrefix| + |id| + |DownloadSuffix|
    ensures name[|DownloadPrefix|..|name| - |DownloadSuffix|] == id
    ensures name[|name| - |DownloadSuffix|..] == DownloadSuffix
  {
    var name := DownloadPrefix + id + DownloadSuffix;
    assert name[..|DownloadPrefix|] == DownloadPrefix;
    assert name[|name| - |DownloadSuffix|..] == DownloadSuffix;
    assert name[|DownloadPrefix|..|name| - |DownloadSuffix|] == id;
    name
  }

  /** Distinct posts download under distinct names. */
  lemma DownloadNameInjective(id: string, id': string)
    requires DownloadName(id) == DownloadName(id')
    ensures id == id'
  {
  }

  datatype View = View(card: Card, category: string, answer: string, logic: string,
                       backdrop: Option<string>, buttonLabel: string, downloadName: string)

  /** The rendered dialog: nothing without a post. */
  function Render(m: ModalState): (v: Option<View>)
    ensures v.None? <==> m.post.None?
    ensures v.Some? ==> v.value.card == SplitCard(m.post.value.content.visualText)
    ensures v.Some? ==> (v.value.backdrop.Some? <==> m.imageUrl.Some? && m.imageUrl.value != "")
    ensures v.Some? && v.value.backdrop.Some? ==> v.value.backdrop == m.imageUrl
    ensures v.Some? ==>
      && v.value.category == m.post.value.content.category && v.value.answer == m.post.value.content.answer
      && v.value.logic == m.post.value.content.readMoreContent && v.value.downloadName == DownloadName(m.post.value.id)
    ensures v.Some? ==> (v.value.buttonLabel == RegenerateLabel <==> v.value.backdrop.Some?)
    ensures v.Some? ==> (v.value.buttonLabel == AddLabel <==> v.value.backdrop.None?)
  {
    match m.post
    case None => None
    case Some(p) =>
      var backdrop := if m.imageUrl.Some? && m.imageUrl.value != "" then m.imageUrl else None;
      var caption := if backdrop.Some? then RegenerateLabel else AddLabel;
      Some(View(SplitCard(p.content.visualText), p.content.category, p.content.answer,
                p.content.readMoreContent, backdrop, caption, DownloadName(p.id)))
  }

  /** After a successful generation the dialog offers to regenerate and shows the new image. */
  lemma GeneratedImageIsShown(m: ModalState, uri: string)
    requires m.post.Some? && uri != ""
    ensures var v := Render(FinishGenerate(BeginGenerate(m), Ok(uri)));
      v.Some? && v.value.backdrop == Some(uri) && v.value.buttonLabel == RegenerateLabel
  {
  }
}
