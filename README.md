# Unsaid: 2025 — a verified model of the story wall

Unsaid: 2025 is a single-page web application where people post short
anonymous messages ("stories"), react to them, report them, and export a
story as a share image. This project models its logic in Dafny:

- `Stories` — the story collection as a value: reacting and reporting by id,
  the filter that hides stories reported five or more times, the stable
  descending sort behind the "Latest" and "Trending" views, and the three
  featured stories of the home page.
- `Moderation` — the submission gate: a case-insensitive denylist check,
  then an external classifier whose failures let the text through
  ("fail open").
- `App` — the application component as a class whose fields are its state
  hooks (view, theme, stories, filter, confirmation modal, pending draft,
  image preview) and the two storage keys it writes through to; its
  handlers are methods stated against `Stories` and `Moderation`.
- `StoryCard` — the two-step report button as a class, the greedy word-wrap
  loop that lays out the share image, and the name of the downloaded file.
- `Strings` — the string functions the code relies on: `trim`, ASCII case
  mapping, substring search, and `split` on one separator. `Join` is not
  called by the application; it is the inverse of `split` in the round-trip
  lemmas.
- `Types`, `Wrappers` — the story record, the view, filter and theme
  enumerations, and `Option`.

The classifier, the clock, the random id, the `prefers-color-scheme` query
and the canvas's text measurement are parameters. "Stay Silent" in the
confirmation modal (App.tsx:334) only closes the modal and keeps the pending
draft, and an unsafe verdict (App.tsx:104-107) leaves the modal open and the
draft pending; the model does the same.

## Model

| member | source | states |
|---|---|---|
| Moderation.Moderate | services/moderationService.ts:5-36 | a denylisted text gets the fixed "Contains prohibited language." verdict; otherwise a parsed classifier verdict is returned as is, and an empty reply or a failed call yields `safe` with no reason; a text is refused only by the denylist or by the classifier's own verdict |
| Moderation.IsDenylisted | services/moderationService.ts:8-12 | the text is refused by the loop exactly when its lower-cased form includes some entry; no text shorter than the shortest entry (eight letters) is refused; DenylistIgnoresCase is its case property |
| Moderation.DenylistSkipsClassifier | services/moderationService.ts:7-12 | for denylisted text the verdict is the same whatever the classifier would answer: the classifier is never consulted |
| Moderation.DenylistIsLowerCase | constants.ts:14-16 | every denylist entry is its own lower-case form, so each entry can match the lower-cased text |
| Moderation.DenylistIgnoresCase | services/moderationService.ts:7-9 | upper-casing a text does not change whether it is denylisted |
| Strings.ToLower | services/moderationService.ts:7 | lower-casing keeps the length and maps each character to its lower-case form; LowerOfUpper shows upper-casing first changes nothing |
| Strings.Includes | services/moderationService.ts:9 | a word is only found in a text at least as long; IncludesIffAt ties it to the positional definition of a substring |
| Strings.UpperWordNeverInLower | services/moderationService.ts:7-9 | a word with an upper-case letter never occurs in a lower-cased text, which is why the entries must be lower-case |
| Strings.IncludesIffAt | services/moderationService.ts:9 | `includes` holds exactly when the word occurs at some position of the text |
| Strings.Trim | App.tsx:84-85 | the trimmed text is no longer than the input and neither starts nor ends with white space; TrimKeepsMiddle and TrimEmptyIff characterise it fully |
| Strings.TrimStartSpec | App.tsx:84 | trimming the front drops only white space and leaves a suffix that is empty or starts with a non-space |
| Strings.TrimEndSpec | App.tsx:84 | trimming the back drops only white space and leaves a prefix that is empty or ends with a non-space |
| Strings.TrimEmptyIff | App.tsx:84-86 | the trimmed message is empty exactly when the message is all white space, the case the submit handler ignores |
| Strings.TrimKeepsMiddle | App.tsx:84-85 | the trimmed text is a slice of the input with only white space outside it, and it neither starts nor ends with white space |
| Strings.TrimIdempotent | App.tsx:84 | trimming an already trimmed text changes nothing |
| Strings.Split | components/StoryCard.tsx:75 | splitting yields at least one piece and no piece contains the separator |
| Strings.JoinSplit | components/StoryCard.tsx:75 | joining the pieces of a split with the separator gives the text back |
| Strings.SplitJoin | components/StoryCard.tsx:75 | splitting a join of separator-free pieces gives the pieces back |
| Stories.React | App.tsx:54-60 | the story with the given id gains one reaction; every other story, the length and the order are unchanged |
| Stories.Report | App.tsx:62-68 | the story with the given id gains one report; every other story, the length and the order are unchanged |
| Stories.ReactNoOpIff | App.tsx:56 | reacting leaves the collection unchanged exactly when no story has that id |
| Stories.ReportNoOpIff | App.tsx:64 | reporting leaves the collection unchanged exactly when no story has that id |
| Stories.ReportTimesCount | App.tsx:62-68 | reporting the same id n times adds n to that story's report count and to no other |
| Stories.Visible | App.tsx:134 | the filtered collection is never longer than the collection; VisibleMultiset and VisibleAppend characterise it fully |
| Stories.VisibleMultiset | App.tsx:134 | the visible stories are exactly the stories with fewer than five reports, each as often as in the collection |
| Stories.VisibleAppend | App.tsx:134 | the visibility filter distributes over concatenation, so it keeps the order of the collection |
| Stories.ReactCommutesWithVisible | App.tsx:134 | reacting then filtering equals filtering then reacting: reactions never hide or reveal a story |
| Stories.InsertPos | App.tsx:135-138 | the insertion point lies after every key strictly greater than the new story's and before the first key not greater |
| Stories.InsertKeepsSorted | App.tsx:135-138 | inserting at that point keeps a descending sequence descending |
| Stories.Insert | App.tsx:135-138 | insertion adds exactly the new story and keeps a descending sequence descending |
| Stories.SortByKey | App.tsx:135-138 | the sort result is a permutation of its input, ordered by descending timestamp or reaction count |
| Stories.InsertWithKey | App.tsx:135-138 | the inserted story goes ahead of every story of the sorted rest with the same key; in the sort those stories come later in the input, which is what makes the sort stable |
| Stories.SortStable | App.tsx:135-138 | the sort is stable: the stories sharing any one key keep their original relative order |
| Stories.SortedView | App.tsx:134-138 | the view is a permutation of the visible stories, in descending order of the filter's key |
| Stories.SortedViewMembers | App.tsx:134-138 | a story is in the view exactly when it is in the collection and has fewer than five reports |
| Stories.Featured | App.tsx:182 | the home page shows the first three stories of the view, or all of them when fewer, and none of them ranks below a story left out |
| Stories.FiveReportsHide | App.tsx:134 | after five reports a story with non-negative counts disappears from both views |
| Stories.FourReportsKeepVisible | App.tsx:134 | four reports on an unreported story keep it on the wall |
| App.Toggled | App.tsx:49 | the toggled theme differs from the current one (with two themes, it is the other) |
| App.ToggleTwice | App.tsx:48-52 | toggling twice restores the theme |
| App.NonEmpty | App.tsx:90 | an optional value is kept exactly when it is present and not empty; an empty string counts as absent |
| App.AlertText | App.tsx:105 | the alert text is the verdict's reason when that reason is non-empty, and "Content flagged." when it is absent or empty |
| App.NewStory | App.tsx:109-117 | a new story carries the draft's text and image, the fresh id and the current time, no reactions and no reports, a nickname only when it is non-empty, and is visible |
| App.NewStoryShown | App.tsx:118-138 | a newly created story appears on the wall under either ordering |
| App.NewStoryFirstWhenLatest | App.tsx:116-137 | a story created no earlier than all others heads the "Latest" wall |
| App.AppState.constructor | App.tsx:11-46 | mounting starts on the home screen with the latest filter and no draft; the theme is the saved one, else dark if the system prefers it, else light; the collection is the saved one, the three seed stories (also written back) when nothing is saved, or empty when the saved text does not parse |
| App.AppState.ToggleTheme | App.tsx:48-52 | the theme flips and the new choice is persisted |
| App.AppState.LeaveMark | App.tsx:54-60 | the collection becomes its reaction update and is written through to storage |
| App.AppState.ReportStory | App.tsx:62-68 | the collection becomes its report update and is written through to storage |
| App.AppState.AttachImage | App.tsx:70-79 | the read image becomes the preview |
| App.AppState.SubmitForm | App.tsx:81-97 | a blank message changes nothing; otherwise the draft holds the trimmed message, the trimmed nickname and the preview if non-empty, and the confirmation modal opens; a pending draft is always non-empty and trimmed |
| App.AppState.CancelConfirm | App.tsx:334 | the modal closes and the pending draft is kept |
| App.AppState.ConfirmSubmit | App.tsx:99-132 | without a draft nothing changes; a refused draft changes no state and yields the alert text; an accepted draft is prepended as a new story, written through, the draft and preview are cleared, the modal closes and the wall is shown |
| App.AppState.Navigate | App.tsx:165-171 | the chosen screen is shown |
| App.AppState.SetFilter | App.tsx:281-287 | the chosen ordering becomes the filter |
| App.AppState.WallStories | App.tsx:297 | the wall shows a permutation of the visible stories, sorted by the current filter |
| StoryCard.ReportButton.constructor | components/StoryCard.tsx:15-16 | a card starts neither confirming nor reported, with no report sent |
| StoryCard.ReportButton.Click | components/StoryCard.tsx:37-48 | a reported card ignores clicks; the first click only asks for confirmation; the confirming click reports the story once and marks the card reported; a card never reports twice |
| StoryCard.ReportButton.Timeout | components/StoryCard.tsx:42 | the confirmation lapses without reporting |
| StoryCard.PrefixesFitSnoc | components/StoryCard.tsx:84-90 | a word appended only when the line up to it fits keeps every prefix of two or more words within 800 pixels |
| StoryCard.CloseLine | components/StoryCard.tsx:84-87 | closing a non-empty line whose next word did not fit keeps the line breaks greedy: every closed line is non-empty, each of its prefixes of two or more words fits, and each break was forced |
| StoryCard.PlaceFlush | components/StoryCard.tsx:84-87 | starting a new line with the word that did not fit keeps every word placed, in order |
| StoryCard.PlaceExtend | components/StoryCard.tsx:88-90 | adding a fitting word to the current line keeps every word placed, in order |
| StoryCard.DrawLine | components/StoryCard.tsx:85 | drawing the current line trimmed and quoted at the next row keeps every drawn line at its row |
| StoryCard.GreedyFlush | components/StoryCard.tsx:84-87 | a break taken because the next word overflows is a forced break |
| StoryCard.GreedyExtend | components/StoryCard.tsx:88-90 | a line grown only by words that fit keeps every prefix of two or more words within 800 pixels |
| StoryCard.FlushStep | components/StoryCard.tsx:84-87 | a loop pass whose test line overflows draws the current line at its row, starts the next line with the word, and keeps the placement, drawing and greedy invariants |
| StoryCard.ExtendStep | components/StoryCard.tsx:88-90 | a loop pass whose test line fits (or the first word) appends the word to the current line and keeps the placement, drawing and greedy invariants |
| StoryCard.FinishWrap | components/StoryCard.tsx:92 | drawing the last line completes the layout: all words in order, each line at its row, no empty line, every prefix of two or more words of a line fits, every break forced |
| StoryCard.WrapWords | components/StoryCard.tsx:75-92 | the lines hold all the words in order; line k is drawn trimmed and quoted at row k; no line is empty, every prefix of two or more words of a line fits 800 pixels, and every break was forced (the next word would have overflowed) |
| StoryCard.WrapMessage | components/StoryCard.tsx:75-92 | no text is lost: joining the laid-out words with single spaces gives the message back; every line holds at least one word and is drawn at its row; the breaks are the greedy ones |
| StoryCard.DownloadName | components/StoryCard.tsx:118 | the file name is "unsaid-2025-story-", then the story id, then ".png" |
| StoryCard.DownloadNameInjective | components/StoryCard.tsx:118 | different stories download under different file names |
| StoryCard.ShareDownload | components/StoryCard.tsx:112-129 | an image is downloaded exactly when rendering produced one, under the story's file name |

## Left out

- The rendered markup, styling and animations, and the header and footer components. They carry no logic beyond calling the handlers modelled here.
- The classifier call itself (the remote model, its prompt and `JSON.parse` of its reply). It is the `classify` parameter, and a reply that parses is taken to be a well-formed verdict.
- Browser storage is modelled only as the two fields the handlers write (`storedStories`, `storedTheme`). A saved theme other than light or dark is not modelled.
- `Date.now`, `Math.random().toString(36)` and the `prefers-color-scheme` query are parameters. The model does not ensure that new ids are unique.
- `isSubmitting` and the interleaving of events during the `await` in `confirmSubmit` are not modelled. Each handler runs as one atomic step.
- The file reader is modelled only by its result, the data URL passed to `AttachImage`.
- Canvas drawing other than the message lines is not modelled: the background image, the tint, the branding, the icon and the nickname. `measureText` is the `measure` parameter.
- `trim`, `toLowerCase` and `toUpperCase` are modelled on ASCII white space and ASCII letters, not on full Unicode.
- The reaction pop animation, the image preview toggle, the native share sheet, the clipboard fallback and the "image saved" alert are not modelled. They only change display state.
- App.AppState.ConfirmSubmit: does not require the confirmation modal to be open. In the app only the modal's confirm button calls it (App.tsx:315, App.tsx:327); the model keeps the handler's own guard for a missing draft, so it is defined in every valid state.
- Stories.FiveReportsHide: requires the reported story's count to be non-negative. Every count the application creates starts at zero and only grows.
- Report and reaction counts are unbounded integers. JavaScript numbers would lose precision only past 2^53.
