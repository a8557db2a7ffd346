# Daily Quiz & Riddles: a Dafny model of the feed core

This project models the core of "Daily Quiz and Riddles". The app is a browser feed of viral quiz and riddle posts, produced by a generative text model and illustrated on demand by an image model. The model covers:

- **the generation service** (`services/geminiService.ts`):
  - the sanitiser, which cuts a model reply down to its outermost JSON container or strips markdown code fences;
  - the retry wrapper, which classifies failures as transient (429/500) or terminal and sleeps with exponential backoff and jitter;
  - the batch and custom-post requests, which assign ids and timestamps;
  - the choice of the image part in an image reply;
  - the keyword picked for a category prompt.
- **the feed screen** (`App.tsx`): which prompt a load uses, how a settled request changes the feed, the custom-generation form, the header title, the "Reset Feed" button, and an invariant linking the view to the chosen category (with the reset corrected, the daily view has no category and the browse view has one; as written, only the browse half holds).
- **the single-file variant** (`index.tsx`): its own batch request (no sanitiser, no retry, time-and-index ids) and its simpler feed screen, whose view always matches its category.
- **the post dialog** (`components/PostModal.tsx` and the dialog of `index.tsx`):
  - the question/hook split of a card;
  - the locally held backdrop URL;
  - the download file name;
  - what the dialog renders.
- **the offline cache** (`sw.js`): cache storage as named caches in creation order, plus the install, activate and fetch handlers.

The outside world enters as parameters:

| In the app | In the model |
|---|---|
| The remote model | a function from attempt number to reply |
| `JSON.parse` | a function from text to a parsed value or a syntax-error message |
| `Date.now()` and `Math.random()` | the values they returned, given as input |
| The network, in the service worker | a function from URL to a response or a network error |
| URL resolution | the function `resolve` |

Asynchronous handlers are split into two parts. The synchronous part returns the request it issued. The settlement receives the result as a parameter.

Module layout: `Types` (shared records), `Strings` (the JavaScript string operations used), `Sanitizer`, `Retry`, `Gemini`, `CardText`, `Modal`, `Feed`, `LiteApp`, `ServiceWorker`.

Behaviour worth stating plainly:

- There is no persisted content store, archive/unarchive lifecycle, backup import/export or feed projector; the feed is component state.
- An exhausted retry rethrows the last error unchanged, with no extra tagging.
- A parse error is retried like a transport error when its message happens to contain "429" or "500" (`Retry.ParseErrorMentioningPositionIsRetried`).

## Model

| member | source | states |
|---|---|---|
| Types.CategoryFromName | types.ts:2-12 | a string maps back to a category only if it is that category's enumeration value |
| Types.CategoryNameRoundTrip | types.ts:2-12 | every category's string value maps back to that category |
| Types.CategoryNameInjective | types.ts:2-12 | distinct categories carry distinct strings |
| Strings.IndexOf | services/geminiService.ts:11-14 | the result is -1 exactly when the character is absent, otherwise its first position |
| Strings.LastIndexOf | services/geminiService.ts:15-18 | the result is -1 or a position of the character with none after it |
| Strings.Contains | services/geminiService.ts:40-41 | `includes` holds exactly when the pattern occurs at some position |
| Strings.Trim | services/geminiService.ts:22 | the result is the input less a whitespace prefix and suffix, with non-whitespace ends, and is empty iff the input is all whitespace |
| Strings.TrimIdempotent | App.tsx:79 | trimming twice equals trimming once |
| Strings.Split | App.tsx:273 | `split` gives separator-free pieces that join back to the input, a single piece iff the separator is absent |
| Strings.SplitJoin | App.tsx:273 | splitting a join of separator-free pieces gives back the pieces |
| Strings.SplitFirstPiece | App.tsx:273 | the first piece is the text before the first separator, or the whole text when there is none |
| Strings.NatToString | services/geminiService.ts:86 | a number renders as a non-empty string of decimal digits |
| Strings.ParseNatToString | services/geminiService.ts:86 | reading back a rendered number gives the number |
| Strings.NatToStringInjective | services/geminiService.ts:86 | distinct numbers render differently |
| Sanitizer.FirstOpener | services/geminiService.ts:11-14 | the smaller of the first `[` and first `{`, absent iff neither occurs |
| Sanitizer.LastCloser | services/geminiService.ts:15-18 | the larger of the last `]` and last `}`, -1 iff neither occurs |
| Sanitizer.StripFences | services/geminiService.ts:22 | removing fences never lengthens the text (what is removed is stated by the lemmas below) |
| Sanitizer.Sanitize | services/geminiService.ts:9-23 | empty input gives "[]"; with an opener before a closer the output is the slice from the first opener to the last closer; otherwise fences are stripped and the rest trimmed |
| Sanitizer.BracketCondition | services/geminiService.ts:19 | the slice guard holds exactly when some opener precedes some closer |
| Sanitizer.SanitizeBracketBranch | services/geminiService.ts:19-21 | in the bracket case the output is `text[first opener .. last closer]` |
| Sanitizer.BracketOutputShape | services/geminiService.ts:19-21 | in the bracket case the output starts with an opener and ends with a closer |
| Sanitizer.SanitizeIdempotentOnBrackets | services/geminiService.ts:9-23 | sanitising a bracket-case output again changes nothing |
| Sanitizer.StripFencesLeavesNoFence | services/geminiService.ts:22 | after the global replacement no three backticks remain |
| Sanitizer.StripFencesWithoutBackticks | services/geminiService.ts:22 | a reply without backticks passes the replacement unchanged |
| Sanitizer.FenceOnlyReplyBecomesEmpty | services/geminiService.ts:22 | a reply that is only a fence sanitises to the empty string |
| Sanitizer.StripClosingFence | services/geminiService.ts:22 | a closing fence after a backtick-free body is removed and the body kept |
| Sanitizer.FencedReplyStripsToBody | services/geminiService.ts:22 | a reply fenced as ```json … ``` around a backtick-free body strips to exactly the body |
| Retry.BackoffDelay | services/geminiService.ts:45 | the sleep after failure i lies in [2^i·2000, 2^i·2000 + 1000) ms |
| Retry.RetryLoop | services/geminiService.ts:33-53 | calls stay within the attempt budget; every call but the last failed transiently; the result is the last call's value or error (or the previous error if no call was made); one sleep follows each transient failure |
| Retry.WithRetry | services/geminiService.ts:33-53 | at most max(retries, 0) calls, at most one sleep per call, and each sleep is within its exponential window |
| Retry.LoopStopsAt | services/geminiService.ts:35-49 | if attempts before k fail transiently and attempt k does not, exactly k+1 calls and k sleeps are made and attempt k's value or error is the result |
| Retry.LoopExhausts | services/geminiService.ts:35-52 | if every attempt fails transiently, all are made and the last error is thrown |
| Retry.RetrySucceeds | services/geminiService.ts:35-37 | success on attempt k+1 returns its value after k sleeps |
| Retry.RetryStopsOnTerminal | services/geminiService.ts:43-49 | a non-429/500 failure is rethrown at once without sleeping |
| Retry.StatusClassification | services/geminiService.ts:40-43 | without a message, a failure is transient iff its status is 429 or 500 |
| Retry.RetryExhausted | services/geminiService.ts:43-52 | exhausting the attempts sleeps after every failure and throws the last error |
| Retry.RetryWithoutAttempts | services/geminiService.ts:33-35 | with retries <= 0 nothing is called and `undefined` is thrown |
| Retry.TwoRateLimitsThenSuccess | services/geminiService.ts:33-53 | two 429s then a success return the value after two sleeps in the 2 s and 4 s windows |
| Retry.ParseErrorMentioningPositionIsRetried | services/geminiService.ts:40-41 | a parse error whose message contains "500" counts as transient |
| Gemini.BatchIdPieces | services/geminiService.ts:86 | splitting a batch id on "-" gives back its time, index and suffix |
| Gemini.BatchIdIndexRoundTrip | services/geminiService.ts:86 | the index can be read back from a batch id |
| Gemini.NormalizeItem | services/geminiService.ts:84-88 | an item keeps its fields, gets the new timestamp, and its id splits on "-" into the clock time, its index and the random suffix |
| Gemini.NormalizeBatch | services/geminiService.ts:84-88 | the mapped batch has the same length, order and fields, timestamps from the clock, ids that split into each item's time, index and suffix, and pairwise distinct ids |
| Gemini.RawIdsIgnored | services/geminiService.ts:84-86 | ids carried by the parsed items have no effect on the result |
| Gemini.CustomPost | services/geminiService.ts:119 | the custom post keeps the parsed fields, its id is "custom-" followed by the time, and its timestamp is the clock reading |
| Gemini.CustomIdIsNotBatchId | services/geminiService.ts:86 | a custom id never equals a batch id |
| Gemini.CustomIdsDifferAcrossTimes | services/geminiService.ts:119 | custom posts made at different milliseconds have different ids |
| Gemini.FirstInlinePart | services/geminiService.ts:132 | `find` returns the first part with inline data, or nothing iff no part has any |
| Gemini.ImageFromReply | services/geminiService.ts:132-134 | no candidate is an error; otherwise the result is an error iff no part has inline data, else the data URI of the first such part (index.tsx:100-102 selects the image part the same way) |
| Gemini.ImagePayloadRoundTrip | services/geminiService.ts:134 | the base64 payload can be read back from the data URI |
| Gemini.KeywordIndex | services/geminiService.ts:143-145 | the keyword index is within the six keywords, and equals the seed for seeds below six |
| Gemini.KeywordPeriodic | services/geminiService.ts:145 | seeds six apart choose the same keyword |
| Gemini.TextOr | services/geminiService.ts:82 | `text \|\| fallback` is the reply text when it is present and non-empty, and the fallback otherwise |
| Gemini.BatchTask | services/geminiService.ts:56-89 | a call error is passed on unchanged; a parse error is thrown with its message and a non-array value with the fixed TypeError message; an array is returned as its normalised batch, and every success is such a batch |
| Gemini.FetchQuizPosts | services/geminiService.ts:55-92 | at most three attempts; a returned batch comes from the last attempt and is the normalised batch of the array its sanitised reply parsed to, with distinct ids |
| Gemini.FetchReturnsParsedBatch | services/geminiService.ts:33-37 | after transient call failures, the first reply that parses to an array is returned as its normalised batch, after one sleep per failure |
| Gemini.CustomTask | services/geminiService.ts:95-120 | a call error is passed on unchanged; a parse error is thrown with its message; a parsed record always succeeds, as the custom post built from it with a "custom-" id and the clock's timestamp |
| Gemini.GenerateCustomEnigma | services/geminiService.ts:94-123 | at most three attempts; a returned post is the custom post built from the last attempt's parsed reply |
| Gemini.GenerateReturnsParsedPost | services/geminiService.ts:118-122 | after transient call failures, the first reply that parses to a record is returned as the custom post built from it, after one sleep per failure |
| CardText.SplitCard | App.tsx:273 | question and hook are trimmed and separator-free; there is no hook iff there is no '\|'; with no hook the question is the trimmed text; otherwise the question is the trimmed text before the first '\|' and the hook the trimmed text up to the second |
| CardText.TwoSegmentCard | App.tsx:273 | "question\|hook" without further separators gives the trimmed question and hook |
| CardText.ThreeSegmentCard | components/PostModal.tsx:49 | "question\|hook\|rest" gives the trimmed question and hook whatever the rest is |
| CardText.TrimSegment | components/PostModal.tsx:49 | a trimmed segment stays separator-free |
| CardText.ComposedCardRoundTrip | App.tsx:273 | "question\|hook" splits back into that question and hook |
| CardText.ExtraSegmentsDropped | components/PostModal.tsx:49 | any text after a second separator does not change the card |
| CardText.BlankHookHidden | App.tsx:292-296 | a blank hook is empty and not shown |
| Modal.InitialImageUrl | components/PostModal.tsx:15 | `post?.imageUrl \|\| null` is absent for no post, no URL or an empty URL, and is the post's URL otherwise |
| Modal.Mount | components/PostModal.tsx:14-15 | a freshly mounted dialog holds its post's own URL and is not busy |
| Modal.ReceivePostAsWritten | components/PostModal.tsx:13-15 | a new post leaves the held URL and the busy flag as they were |
| Modal.ReceivePost | index.tsx:120-123 | a different post resets the held URL to that post's own; the same post changes nothing |
| Modal.BeginGenerate | components/PostModal.tsx:20-21 | the request starts, and a press while busy changes nothing |
| Modal.FinishGenerate | components/PostModal.tsx:22-29 | a URL replaces the held one; an error leaves it; busy ends either way |
| Modal.BackdropStaysOwn | index.tsx:123 | with the reset, every event but a generated image keeps the held URL equal to the post's own |
| Modal.SwitchShowsOwnBackdrop | index.tsx:123 | with the reset, after a change of post and no generated image the dialog shows the post's own backdrop |
| Modal.StaleBackdropAsWritten | components/PostModal.tsx:15 | as written, an image generated for one post is shown on the next post |
| Modal.DownloadName | components/PostModal.tsx:41 | the file name starts with "DQ&R-", ends with ".png", and the id can be cut back out of it |
| Modal.DownloadNameInjective | components/PostModal.tsx:41 | distinct ids give distinct file names |
| Modal.Render | components/PostModal.tsx:18-105 | nothing renders without a post; the card is the split text; category, answer and explanation are the post's own and the download name is built from its id; a backdrop shows iff a non-empty URL is held, and it is that URL; the label is "Re-Gen Backdrop" iff it shows, else "Add AI Backdrop" |
| Modal.GeneratedImageIsShown | components/PostModal.tsx:105 | after a successful generation the new image shows and the label offers to regenerate |
| Feed.PromptFor | App.tsx:42-51 | a refresh uses the refresh prompt; outside the daily view a chosen category uses its prompt; otherwise the daily prompt |
| Feed.BeginLoad | App.tsx:37-40 | the custom view issues nothing; otherwise loading starts, the error clears and the chosen prompt is requested, with nothing else changed |
| Feed.FinishLoad | App.tsx:53-59 | a batch replaces the feed; a failure keeps the feed and sets the load error message; loading ends; nothing else changes |
| Feed.Mounted | App.tsx:62-64 | the first render requests the daily batch |
| Feed.ChooseCategory | App.tsx:66-71 | a channel selects its category and the browse view, starts loading with the error cleared, requests its batch and closes the sidebar; nothing else changes, so the feed stays until the batch arrives |
| Feed.ChooseToday | App.tsx:147 | the daily button clears the category, shows the daily view, starts loading with the error cleared, requests the daily batch and closes the sidebar; nothing else changes |
| Feed.ChooseGenerate | App.tsx:153 | the custom button shows the custom view and closes the sidebar, requests nothing, and changes nothing else |
| Feed.PressRefresh | App.tsx:73-75 | when the button is present and enabled, refreshing starts loading with the error cleared and requests the refresh prompt, changing nothing else; otherwise it does nothing |
| Feed.ResetFeedAsWritten | App.tsx:214-218 | the button shows only with an error; it requests the daily batch, starts loading with the error cleared and shows the daily view but keeps the chosen category; nothing else changes |
| Feed.ResetFeed | App.tsx:214-218 | the button shows only with an error; it requests the daily batch, starts loading with the error cleared, shows the daily view and clears the category, as the daily button does; nothing else changes |
| Feed.SubmitCustom | App.tsx:77-82 | a blank prompt or a running request sends nothing; otherwise the prompt is sent, busy starts, the error clears and the feed is captured, with nothing else changed |
| Feed.FinishCustomAsWritten | App.tsx:84-92 | the new post goes in front of the captured feed and is opened, and the prompt clears; a failure sets the custom error message; busy ends; nothing else changes, so a failure keeps the prompt, view and category |
| Feed.FinishCustom | App.tsx:84-92 | the new post goes in front of the feed as it is on arrival, keeping every shown post after it; a failure sets the custom error message; busy ends; nothing else changes |
| Feed.LoadDuringCustomIsLostAsWritten | App.tsx:85 | as written, a batch that loaded while a custom request ran is dropped when the custom post arrives |
| Feed.OpenPost | App.tsx:278 | clicking a card opens it in the dialog and changes nothing else |
| Feed.ClosePost | App.tsx:332 | closing the dialog clears the selection and changes nothing else |
| Feed.SetSidebar | App.tsx:106 | the menu buttons open and close the sidebar and change nothing else |
| Feed.EditPrompt | App.tsx:235 | typing replaces the custom prompt and changes nothing else |
| Feed.HeaderTitle | App.tsx:193 | "Custom Lab" in the custom view; otherwise the chosen category; otherwise "Viral Feed" on the daily view and "Batch Feed" elsewhere |
| Feed.CategoryTitled | App.tsx:193 | after a channel is chosen the header names it |
| Feed.ViewButtonsTitled | App.tsx:193 | after the daily button the title is "Viral Feed", after the custom button "Custom Lab" |
| Feed.ApplyKeepsViewMatch | App.tsx:66-71 | with the reset corrected, every event keeps "daily view has no category, browse view has one" |
| Feed.ReplayKeepsViewMatch | App.tsx:147 | with the reset corrected, any sequence of events keeps that invariant |
| Feed.ApplyAsWrittenKeepsBrowseCategory | App.tsx:218 | as written, every event keeps a category on the browse view |
| Feed.ReplayAsWrittenKeepsBrowseCategory | App.tsx:66-71 | as written, any sequence of events keeps a category on the browse view |
| Feed.ResetKeepsCategoryAsWritten | App.tsx:218 | as written, a failed channel load then Reset Feed shows the daily view headed by the channel's name; the corrected reset heads it "Viral Feed" |
| Feed.CustomSettlementsAgreeOnView | App.tsx:84-92 | both custom settlements leave the view and the category alike |
| Feed.BatchTitleUnreachable | App.tsx:193 | no state reachable as written or with the corrections shows "Batch Feed" |
| LiteApp.LiteIdRoundTrip | index.tsx:86 | the index can be read back from a time-index id |
| LiteApp.LiteIdPieces | index.tsx:86 | splitting a time-index id on "-" gives back the time and the index |
| LiteApp.LiteItem | index.tsx:86 | an item keeps every field, its own timestamp included, and its id splits on "-" into the clock time and its index |
| LiteApp.LiteNormalize | index.tsx:86 | the mapped batch has the same length, order and fields, ids that split into each item's time and index, and pairwise distinct ids |
| LiteApp.FetchPosts | index.tsx:61-87 | a call error is thrown unchanged; a parse error is thrown with its message and a non-array value with a fixed message; an array parsed from the unsanitised reply is returned mapped, and every returned batch is such a mapping, with distinct ids |
| LiteApp.EmptyReplyIsEmptyBatch | index.tsx:85 | an absent or empty reply text is an empty batch |
| LiteApp.Load | index.tsx:199-202 | loading starts; the category prompt is used iff a category is given; the mode is ignored |
| LiteApp.FinishLoad | index.tsx:203-204 | a batch replaces the feed; a failure changes nothing but the loading flag; loading ends and nothing else changes |
| LiteApp.ChooseToday | index.tsx:224 | the daily button clears the category, shows the daily view, closes the sidebar, starts loading and requests the daily batch; nothing else changes |
| LiteApp.ChooseCategory | index.tsx:231 | a channel selects its category and the browse view, closes the sidebar, starts loading and requests its batch; nothing else changes |
| LiteApp.Refresh | index.tsx:251 | refresh is ignored while loading; otherwise it starts loading and re-requests the current category's prompt, changing nothing else |
| LiteApp.LiteTitle | index.tsx:247 | the header is the category's name, else "Viral Feed" |
| LiteApp.FailedLoadKeepsFeed | index.tsx:204 | a failed load leaves the previous feed and the chosen title, with no error shown |
| LiteApp.LiteTitlesDistinct | index.tsx:247 | different categories give different titles |
| LiteApp.Mounted | index.tsx:207 | the first render requests the daily batch and changes nothing but the loading flag |
| LiteApp.LiteApplyKeepsViewMatch | index.tsx:224-231 | every handler keeps "daily view iff no category" and never enters the custom view |
| LiteApp.LiteReplayKeepsViewMatch | index.tsx:191-251 | any sequence of events keeps that invariant |
| LiteApp.DailyHighlightMatchesTitle | index.tsx:224-251 | on every reachable screen the daily button is highlighted iff the header reads "Viral Feed", and a refresh asks for the daily batch iff the daily view shows |
| ServiceWorker.Find | sw.js:12 | the first position holding the name, absent iff no cache has it |
| ServiceWorker.Open | sw.js:12 | opening creates the cache last if it is missing and keeps names unique and responses ok |
| ServiceWorker.Put | sw.js:16 | the URL maps to the response in the named cache; other caches and URLs are untouched; unique names and ok responses are kept |
| ServiceWorker.FindByNames | sw.js:12 | storages with the same names in order find a name at the same place |
| ServiceWorker.Match | sw.js:44 | a match is absent iff no cache holds the URL, else it is the response of the first cache, in creation order, that holds it |
| ServiceWorker.MatchIsOk | sw.js:44 | in a storage of ok responses every match is ok |
| ServiceWorker.InstallOne | sw.js:15-18 | an ok response is stored and a failed or non-ok fetch leaves storage unchanged; other URLs and caches are unchanged |
| ServiceWorker.InstallAll | sw.js:14-19 | the fetches leave names, other caches, name uniqueness and ok responses intact |
| ServiceWorker.InstallStoresOk | sw.js:14-19 | every URL whose fetch succeeded is stored with its response afterwards, whatever the other fetches did |
| ServiceWorker.InstallKeepsStored | sw.js:14-19 | a stored URL keeps its response through the remaining fetches |
| ServiceWorker.InstallOnlyOk | sw.js:15-17 | the fetches change a URL's entry only if it is one of them, fetched ok, and stored with that response |
| ServiceWorker.InstallChangesOnlyOkAssets | sw.js:10-19 | an entry the install event changed belongs to an asset whose fetch was ok |
| ServiceWorker.Install | sw.js:10-22 | after installation the current cache exists and holds every asset whose fetch succeeded; any entry that changed is an asset stored with its ok response |
| ServiceWorker.Activate | sw.js:24-33 | activation keeps exactly the caches named as the current one |
| ServiceWorker.ActivateWithoutCurrent | sw.js:28 | with no current cache activation leaves nothing |
| ServiceWorker.ActivateLeavesCurrent | sw.js:26-29 | with unique names at most the current cache remains, unchanged |
| ServiceWorker.NavigateFallbackAsWritten | sw.js:61-62 | as written, the fallback is absent iff no cache holds the shell page, else the first holder's response; the index page is never consulted |
| ServiceWorker.NavigateFallback | sw.js:61-62 | the fallback is the cached shell page, else the cached index page, absent iff neither is cached |
| ServiceWorker.FetchWith | sw.js:35-68 | given a navigation fallback: non-GET and API-origin requests are not intercepted; any other cache hit is answered from the cache without the network; a network response is answered, and stored exactly when it is 200 basic; an offline navigation gets the fallback, anything else nothing |
| ServiceWorker.HandleFetchAsWritten | sw.js:35-68 | as written, an offline navigation gets the cached shell page or nothing, and other offline requests nothing |
| ServiceWorker.HandleFetch | sw.js:35-68 | with both pages consulted: non-GET and API-origin requests are not intercepted; any other cache hit is answered without the network; a network response is answered, and stored exactly when it is 200 basic; an offline navigation gets the shell page, else the index page, nothing iff neither is cached; other offline requests get nothing |
| ServiceWorker.StoredResponseServedNext | sw.js:44-56 | a response stored on a miss answers the next identical request from the cache |
| ServiceWorker.MatchAfterPut | sw.js:54-56 | after storing a URL no cache held, matching it finds the stored response |
| ServiceWorker.MatchUnique | sw.js:44 | when one cache holds a URL, matching gives that cache's response |
| ServiceWorker.MatchByEntries | sw.js:44 | storages holding the same responses for a URL at each position match it alike |
| ServiceWorker.MatchAfterPutOther | sw.js:54-56 | storing one URL does not change what matching another URL finds |
| ServiceWorker.FallbackAsWrittenIgnoresIndex | sw.js:62 | as written, caching the index page never changes the offline fallback |
| ServiceWorker.OfflineNavigationMissesIndexAsWritten | sw.js:62 | as written, an offline navigation with only the index page cached gets nothing |

## Left out

- A persisted content store, archive lifecycle, backup import/export and feed projector: the code has none of them.
- Feed.ReplayAsWritten: the as-written replay uses the corrected custom settlement, because the two agree on the view and the category (Feed.CustomSettlementsAgreeOnView), which is all the as-written invariants speak about.
- JSX markup, styling, icons, skeleton placeholders and the math font chosen for categories containing "Math": these are presentation only.
- Prompt wording, system instructions, response schemas and model names: these are opaque to the model; only which prompt builder a load uses is modelled.
- The generative-model SDK, `JSON.parse` and `html-to-image`'s `toPng`: they are parameters or left out. A parse is either an array of records, another JSON value, or a syntax-error message.
- Gemini.BatchTask: a non-array JSON value (object, `null`, number) is one terminal error with a fixed message, because the model does not distinguish the two TypeError messages. Neither mentions 429 or 500, so both are terminal.
- LiteApp.FetchPosts: a non-array JSON value is one error with the fixed message "data.map is not a function"; a `null` value actually throws "Cannot read properties of null (reading 'map')". The message only reaches `console.error`, so the screen is the same either way.
- Gemini.CustomTask: the parser returns a full five-field record. Fields missing from the reply, and the spreading of a non-object JSON value, are not modelled.
- Real time, randomness and sleeping: clock readings, the random suffix, the seed and the jitter are inputs; `sleep` is recorded as the list of delays.
- Retry.WithRetry: the jitter is whole milliseconds in [0, 1000), not a real number.
- Error values without a string `message` or a numeric `status`: they are not modelled.
- Interleaving of overlapping requests (two loads in flight, a late image reply after the dialog changed post) and React's batching of state updates: these are not modelled. Each settlement is applied to the state it is given.
- Modal.ReceivePost: React compares the post by object identity; the model compares by value.
- Logging through `console.error`, `e.preventDefault()`, the download link click and the export of the card to PNG: these have no state effect, so they are left out.
- URL parsing: the request origin is a field of the request, and relative URLs are resolved by the parameter `resolve`.
- `self.skipWaiting()`, `clients.claim()` and the asynchronous `cache.put` of the fetch handler: the put is applied at once.
- ServiceWorker.HandleFetch: `respondWith(null)` is modelled as an answer with no response.
- The `isMore` flag of the category prompt: it is never passed.

## Findings

| source | as written | input that shows it | evidently intended | confidence | as-written member | corrected member |
|---|---|---|---|---|---|---|
| components/PostModal.tsx:15 | the held backdrop URL is set only when the dialog mounts, and App.tsx:330 keeps the dialog mounted | open a post without an image, generate a backdrop, close, open another post without an image: it shows the first post's backdrop | reset the URL when the post changes, as index.tsx:123 does | high; not executed | Modal.ReceivePostAsWritten, Modal.StaleBackdropAsWritten | Modal.ReceivePost, Modal.SwitchShowsOwnBackdrop |
| App.tsx:85 | the custom post is put in front of `posts` as captured when the request was sent | submit a custom prompt, choose a channel, its batch arrives, then the custom post arrives: the channel's batch is gone and the feed holds only the custom post and the old feed | prepend to the feed as it is when the post arrives | medium; not executed | Feed.FinishCustomAsWritten, Feed.LoadDuringCustomIsLostAsWritten | Feed.FinishCustom |
| sw.js:62 | `caches.match('./') \|\| caches.match('./index.html')` never evaluates its second operand, because a promise is always truthy | offline navigation when the install step cached "./index.html" but fetching "./" failed: no page is returned | fall back to the index page when the shell page is not cached | high; not executed | ServiceWorker.HandleFetchAsWritten, ServiceWorker.OfflineNavigationMissesIndexAsWritten | ServiceWorker.HandleFetch, ServiceWorker.NavigateFallback |
| App.tsx:218 | "Reset Feed" loads the daily batch and shows the daily view but leaves the chosen category set | choose a channel whose load fails, then press Reset Feed: the daily batch loads under the channel's name in the header | clear the category, as the daily button at App.tsx:147 does | medium; not executed | Feed.ResetFeedAsWritten, Feed.ResetKeepsCategoryAsWritten | Feed.ResetFeed, Feed.ApplyKeepsViewMatch |
