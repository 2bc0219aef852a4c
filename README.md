# WonderW Learning — a Dafny model of the site's logic

WonderW Learning is a small browser learning site. It has a category trivia
quiz, a "Guess the Animal" game, a categories page, two dashboard scripts
and a first-visit tour. This project models the parts of its JavaScript that
compute or keep state, and proves what they promise. The DOM, timers, the
network, local storage and `Math.random` are not modelled directly. Each one
becomes an input, or an abstract field of the state.

One Dafny module per script, plus helper modules:

- `GameTools` (`js/gametools.mjs`): the countdown as a `Countdown` class.
  Its `start`, `stop` and interval firing are given by the step functions
  `StartStep`, `StopStep` and `FireStep`. The callbacks `onTick`/`onDone`
  become a log of signals. Also here: the copying Fisher–Yates `Shuffle`
  and `SampleDistinct`. `Math.random` is replaced by a supplied sequence of
  draws, and the k-th swap uses `draws[k] % (i + 1)`.
- `Quiz` (`js/quiz.mjs`): question shaping (`ShapeQuestion`,
  `FetchQuizData`), the in-place `Shuffle` over an `array`, and the round
  controller `QuizPage`. The controller's fields are the module variables
  `questions`, `current`, `score` and `timer`, plus an abstract page.
  A ghost log of resolutions shows that each question is resolved once.
- `NatureLab` (`js/nature-lab.mjs`): the facts endpoint, the pool
  normalisation, the proxy result selection, `FormatFacts` (built line by
  line as the source pushes) and round drawing. `Lab` is the module state
  (`POOL`, `countdown`, the page), changed by answering, timing out and
  "play again".
- `Utils` (`js/utils.mjs`): `SiteBase` and `ResolveAbs` over an abstract
  location record `Page`, and `HistoryStore.AddQuizResult` over the
  "quizHistory" slot.
- `Categories` (`js/categories.mjs`): `Slugify`, `GetBase`, the three href
  builders and the subject search.
- `Dashboard` (`js/dashboard.mjs`): `CalculateStats`, the activity breakdown
  and `InitDashboard`. JavaScript object key order is modelled as the
  order of first insertion (`Grouping.Keys`).
- `DashboardPage` (`js/dashboard.js`): the summary numbers, the three badges
  on a `BadgeShelf`, the per-category chart, and the in-place reversal of
  the history array before the table is built.
- `Onboarding` (`js/onboarding.mjs`): the tour as a `Tour` class with the
  clamped `step` and the stored "wwl" state.
- Helpers:
  - `Grouping`: first-occurrence keys, buckets, sums and the partition lemma shared by both dashboards;
  - `Rounding`: `Math.round` of a non-negative ratio, as integer arithmetic;
  - `Text`: ASCII lower-casing, JavaScript `trim`, `encodeURIComponent`, query-string reading;
  - `Seqs`: map and reverse;
  - `Wrappers`: `Option`/`Result`.

Where the code and its documentation differ, the model follows the code:

- `getBase` in `js/categories.mjs` has no localhost branch, unlike
  `siteBase`. On localhost it gives "/" where `siteBase` gives "/src/"
  (`Categories.GetBaseOnLocalHost`).
- `calculateAndDisplayStats` in `js/dashboard.js` always shows "N/A" as the
  best category. Its comment asks for the logic to be pasted in, but the
  model keeps the code as written (`DashboardPage.SummaryOf`).
- `js/quiz.mjs` never calls `addQuizResult`, so a finished quiz is not
  recorded. The two dashboards read different field names (`category`,
  `score`, `total`, `type` against `categoryName`, `percentage`). Each
  dashboard is modelled over its own record (`Dashboard.Attempt`,
  `DashboardPage.Result`).
- The timer of the nature game is not cleared when the round times out.
  `countdown` keeps the stopped countdown (`NatureLab.Lab.Fire`, `NatureLab.Lab.TimesUp`).

## Model

| member | source | states |
|---|---|---|
| GameTools.Initial | js/gametools.mjs:9-10 | a new countdown has `remaining = max(0, seconds)` and is not running |
| GameTools.Countdown.constructor | js/gametools.mjs:8-10 | the object starts in the `Initial` state with no signal emitted |
| GameTools.Countdown.Start | js/gametools.mjs:13-25 | `start` stops first, reports the current `remaining` at once, does not reset it and leaves the countdown running |
| GameTools.Countdown.Stop | js/gametools.mjs:26-32 | `stop` clears the interval, emits nothing and keeps `remaining` |
| GameTools.Countdown.Fire | js/gametools.mjs:16-23 | one interval firing lowers `remaining` by one, reports it, and on reaching 0 stops before `onDone` |
| GameTools.RunShape | js/gametools.mjs:16-23 | k firings from a running state report `remain-1, remain-2, …` and `onDone` exactly when the count reached 0 |
| GameTools.StoppedIsQuiet | js/gametools.mjs:26-31 | a stopped countdown never ticks or fires `onDone` again |
| GameTools.FullCountdown | js/gametools.mjs:13-22 | for `seconds = n ≥ 1` the reports are n, n-1, …, 0 then one `onDone`, and the countdown ends stopped at 0 |
| GameTools.ZeroCountdown | js/gametools.mjs:9-22 | for `seconds ≤ 0` the reports are 0, -1 then `onDone` |
| GameTools.DoneOnlyLast | js/gametools.mjs:19-22 | `onDone` can only be the last signal, so no tick follows it |
| GameTools.RestartKeepsRemaining | js/gametools.mjs:13-15 | a restart continues from the current `remaining` and reports it |
| GameTools.StopIdempotent | js/gametools.mjs:26-31 | `stop` is idempotent, keeps `remaining` and changes nothing when not running |
| GameTools.ShuffleInPlace | js/gametools.mjs:42-45 | the swap loop permutes the array (same multiset) |
| GameTools.Shuffle | js/gametools.mjs:40-47 | a copy that is a permutation of the input; a non-array gives `[]` |
| GameTools.ToInt32 | js/gametools.mjs:50 | `n\|0` lies in the 32-bit signed range and keeps values already in it |
| GameTools.SampleDistinct | js/gametools.mjs:49-51 | `min(max(0, n\|0), length)` elements drawn from distinct positions of the input (sub-multiset) |
| Quiz.ShapedAnswers | js/quiz.mjs:74-75 | a shaped question's answers contain the correct one and number `1 + incorrect` |
| Quiz.Shuffle | js/quiz.mjs:32-38 | the quiz shuffle permutes the array in place and returns the same array |
| Quiz.ShapeQuestion | js/quiz.mjs:68-76 | the answers are a permutation of `[correct, ...incorrect_answers]` and the texts are kept |
| Quiz.FetchQuizData | js/quiz.mjs:59-77 | an HTTP failure is an error; a payload without a `results` array gives `[]`; otherwise one shaped question per result, in order |
| Quiz.CorrectCount | js/quiz.mjs:117-120 | the number of correct resolutions never exceeds the number of resolutions |
| Quiz.NextLabel | js/quiz.mjs:136 | the advance label is "See Results" exactly on the last question |
| Quiz.QuizPage.constructor | js/quiz.mjs:52-56 | the module starts with no questions, `current = score = 0` and no timer |
| Quiz.QuizPage.Init | js/quiz.mjs:204-243 | no category: the "pick a category" path; failed or empty fetch: the failure path with nothing rendered; otherwise `current` and `score` reset to 0 and the first question shown with a live timer |
| Quiz.QuizPage.ResetState | js/quiz.mjs:80-90 | clears the interval, the options, the feedback and the advance button and nothing else |
| Quiz.QuizPage.RenderQuestion | js/quiz.mjs:92-111 | the question is shown with enabled options and a fresh timer of `SECS_PER_Q`, after any earlier timer is cleared |
| Quiz.QuizPage.Click | js/quiz.mjs:113-139 | answering resolves the question once: score +1 exactly for the correct text, "Correct!" or "Wrong!" with the right answer, options disabled, timer cleared, advance button labelled by `NextLabel`; a click on disabled options changes nothing (score, feedback, timer, button) |
| Quiz.QuizPage.Tick | js/quiz.mjs:145-153 | one firing lowers the timer by one and shows it, leaving feedback and options alone; on reaching 0 the interval is cleared and the question auto-revealed with the right answer, without changing the score |
| Quiz.QuizPage.AutoReveal | js/quiz.mjs:156-167 | a timeout resolves the question as not scored, disables the options and shows the advance button |
| Quiz.QuizPage.NextClick | js/quiz.mjs:169-176 | `current` rises by exactly one; the next question is rendered, or the summary once `current` reaches the number of questions |
| Quiz.QuizPage.ShowSummary | js/quiz.mjs:183-201 | the summary shows `score/total` and the rounded percentage |
| Quiz.ScoreBounded | js/quiz.mjs:113-167 | on every reachable page, `0 ≤ score ≤ resolved questions ≤ questions.length`, so the summary percentage lies in 0..100 |
| Quiz.CountAllOrNothing | js/quiz.mjs:117-120 | all answers right gives full score; all timeouts gives zero |
| NatureLab.FactsEndpoint | js/nature-lab.mjs:18-34 | meta "none" gives null, another non-blank meta itself (trimmed); otherwise "/api/animals" exactly on a hosted site |
| NatureLab.LocalDevHasNoFacts | js/nature-lab.mjs:23-33 | without the meta element, localhost has facts switched off |
| NatureLab.MetaOverridesHost | js/nature-lab.mjs:19-21 | the meta value wins over the host in both directions |
| NatureLab.KeepAll | js/nature-lab.mjs:67 | only entries with truthy `title` and `img` are kept |
| NatureLab.NormalizeFields | js/nature-lab.mjs:68-71 | a kept entry keeps its title, and `api` falls back to `title` |
| NatureLab.ImageResolved | js/nature-lab.mjs:71 | the image path goes through `resolveAbs` |
| NatureLab.KeepAllMembers | js/nature-lab.mjs:67 | the kept entries are exactly the usable entries of the dataset |
| NatureLab.KeepAllAppend | js/nature-lab.mjs:66-67 | filtering keeps the dataset's order |
| NatureLab.NormalizeMembers | js/nature-lab.mjs:66-72 | every usable entry appears normalised in the pool and every pool entry comes from one |
| NatureLab.NormalizeAppend | js/nature-lab.mjs:66-72 | the pool keeps the dataset's order |
| NatureLab.NormalizeSingle | js/nature-lab.mjs:66-72 | one entry is either kept and normalised or dropped |
| NatureLab.LoadPool | js/nature-lab.mjs:60-72 | a non-array dataset is an error; otherwise the normalised pool |
| NatureLab.FactsUrlRoundTrip | js/nature-lab.mjs:78 | the request goes to the endpoint with the single parameter `name` |
| NatureLab.SelectFacts | js/nature-lab.mjs:76-82 | null without an endpoint, an error on a failed status or a rejected fetch, the first element of a non-empty array, else null |
| NatureLab.LineOf | js/nature-lab.mjs:91-97 | each line starts with its own label, followed by at least the closing period |
| NatureLab.LinesDiffer | js/nature-lab.mjs:91-97 | different kinds of fact never give the same line |
| NatureLab.FactLineIffPresent | js/nature-lab.mjs:91-97 | a kind's line is among the facts exactly when its field is truthy (for locations: non-empty) |
| NatureLab.NoFactLinesIffNothingPresent | js/nature-lab.mjs:99 | there are no lines exactly when no field is present |
| NatureLab.PresentKindsIncreasing | js/nature-lab.mjs:90-97 | lines come in the fixed order slogan, habitat, diet, locations, top speed, lifespan, scientific name |
| NatureLab.LinesSnoc | js/nature-lab.mjs:91-97 | each `if (field) lines.push(…)` step appends that field's line exactly when it is present |
| NatureLab.Card | js/nature-lab.mjs:99-107 | the card is "" exactly when there are no lines |
| NatureLab.PushIfPresent | js/nature-lab.mjs:91-97 | one push step extends the lines of the kinds done so far by the next kind |
| NatureLab.FormatFacts | js/nature-lab.mjs:84-108 | "" for a null animal, otherwise the card of the present lines in the fixed order |
| NatureLab.FactsBox | js/nature-lab.mjs:187-209 | the disabled text without an endpoint, the error text after a failure, the "no extra facts" text for no record or a record with no lines, otherwise the card of the record's lines |
| NatureLab.PairPermutation | js/nature-lab.mjs:224-227 | a shuffled pair is one of its two orders |
| NatureLab.DrawRound | js/nature-lab.mjs:214-227 | no round for a pool of fewer than 2; otherwise a specimen and a distractor from distinct positions and two options, exactly one correct and carrying the specimen's title |
| NatureLab.AgainCaption | js/nature-lab.mjs:196 | "Play again" exactly when the answer was correct |
| NatureLab.Lab.constructor | js/nature-lab.mjs:18-34 | the endpoint is fixed at load and nothing is shown yet |
| NatureLab.Lab.Init | js/nature-lab.mjs:233-246 | no game area: nothing; no dataset: the load error; otherwise the pool is the normalised dataset and a round starts when it has 2 entries |
| NatureLab.Lab.NewRound | js/nature-lab.mjs:214-230 | refuses a pool under 2; otherwise a drawn round with a started countdown of `SECS_PER_ROUND` |
| NatureLab.Lab.RenderRound | js/nature-lab.mjs:116-150 | shows the round with its options enabled and a fresh countdown of `SECS_PER_ROUND` that reports its value at once |
| NatureLab.Lab.AppendFactsAndAgain | js/nature-lab.mjs:184-211 | sets the follow-up caption and the facts box from the endpoint and the proxy's reply, nothing else |
| NatureLab.Lab.Answer | js/nature-lab.mjs:152-171 | answering resolves the round once: options disabled, countdown stopped and cleared, outcome by the option's flag, the follow-up caption and the facts box for the reply; otherwise nothing changes |
| NatureLab.Lab.Fire | js/nature-lab.mjs:145-149 | one countdown firing updates the timer text and leaves the round asking; on expiry the round is resolved as time-up (not correct) with options disabled and the facts box for the reply; outside an asking round nothing shown changes |
| NatureLab.Lab.TimesUp | js/nature-lab.mjs:173-182 | time-up disables the options and resolves the round as not correct, with the "Try another" caption and the facts box for the reply; the stopped countdown is kept |
| NatureLab.Lab.PlayAgain | js/nature-lab.mjs:197 | after a resolved round the follow-up button draws a new round from the pool with a fresh countdown, or shows "not enough" for a pool under 2; otherwise nothing changes |
| Utils.StripEdgeSlashes | js/utils.mjs:15 | only slashes are removed: at most one at the front and at most one at the end, and the input is unchanged when neither end is a slash |
| Utils.SiteBase | js/utils.mjs:6-24 | the base starts and ends with "/", and is "/src/" on localhost |
| Utils.LocalHostWins | js/utils.mjs:9-11 | on localhost or 127.0.0.1 the base is "/src/" whatever the attribute and path |
| Utils.RepoBase | js/utils.mjs:13-16 | on a non-local host a non-empty `data-repo` gives "/" + the attribute with its edge slashes stripped + "/", whatever the path |
| Utils.DataRepoBase | js/utils.mjs:13-16 | "name", "/name", "name/" and "/name/" all give the base "/name/" |
| Utils.GitHubPagesBase | js/utils.mjs:18-21 | on github.io the base is the first path segment in slashes, or "/" without one |
| Utils.DefaultBase | js/utils.mjs:23 | any other host gives "/" |
| Utils.ResolveAbs | js/utils.mjs:30-38 | http(s) URLs, in any letter case, are kept; anything else is put after the base |
| Utils.ResolveMissing | js/utils.mjs:31-37 | a missing or empty path resolves to the base |
| Utils.LeadingSlashIgnored | js/utils.mjs:35-37 | one leading "/" is dropped before appending to the base |
| Utils.AddPrepends | js/utils.mjs:53-57 | the new result is first, the list is one longer and the earlier entries follow in order; a missing history counts as empty |
| Utils.HistoryStore.constructor | js/utils.mjs:45 | storage starts with the given stored value |
| Utils.HistoryStore.AddQuizResult | js/utils.mjs:53-57 | a stored history gains the result at its head; a malformed one makes the call fail and stays as it was |
| Categories.ReplaceAmp | js/categories.mjs:188 | no "&" is left |
| Categories.Collapse | js/categories.mjs:189 | the output is over `a-z0-9-` with no "--" |
| Categories.DropTrailingDash | js/categories.mjs:190 | removing the edge dash leaves a slug |
| Categories.Slugify | js/categories.mjs:185-191 | the output is a slug (only `a-z0-9-`, no edge "-", no "--"); null gives "" |
| Categories.SlugIsFixedPoint | js/categories.mjs:185-191 | a slug is left as it is |
| Categories.SlugifyIdempotent | js/categories.mjs:185-191 | slugify is idempotent |
| Categories.AmpBetweenWords | js/categories.mjs:187-189 | "&" between two words becomes "-and-", because it is replaced before other characters |
| Categories.ScienceAndNature | js/categories.mjs:185-191 | "Science & Nature" gives "science-and-nature" |
| Categories.GetBase | js/categories.mjs:41-46 | the base starts and ends with "/", and is "/" off github.io |
| Categories.GetBaseMatchesSiteBase | js/categories.mjs:41-46 | off localhost and without `data-repo`, `getBase` agrees with `siteBase` |
| Categories.GetBaseOnLocalHost | js/categories.mjs:41-46 | on localhost `getBase` gives "/" where `siteBase` gives "/src/" |
| Categories.BuildIdigbioHref | js/categories.mjs:54-56 | the link starts with base + "pages/", ends with ".html" and carries the slug verbatim between them |
| Categories.IdigbioHrefInjective | js/categories.mjs:54-56 | under one base, different slugs give different links |
| Categories.QuizHrefRoundTrip | js/categories.mjs:50-52 | the quiz link is base + "pages/quiz.html" with parameters `category` then `name`, both URI-encoded |
| Categories.WikiHrefRoundTrip | js/categories.mjs:58-60 | the wiki link is base + "pages/wiki-explorer.html" with the one URI-encoded parameter `topic` |
| Categories.FilterSubjects | js/categories.mjs:130 | a subject is kept exactly when its lower-cased name contains the query |
| Categories.FilterKeepsOrder | js/categories.mjs:130 | the filter keeps the subjects' order |
| Categories.EmptyQueryKeepsAll | js/categories.mjs:130 | the empty query keeps every subject |
| Categories.BlankQueryKeepsAll | js/categories.mjs:129-130 | a missing or blank search box keeps all of `SUBJECTS`, in order |
| Grouping.KeysDistinct | js/dashboard.mjs:14-21 | the accumulator has each key once |
| Grouping.KeysMembers | js/dashboard.mjs:14-21 | a key is present exactly when some entry has it |
| Grouping.SelectMembers | js/dashboard.mjs:72-78 | an entry is in a bucket exactly when its key is the bucket's key |
| Grouping.SelectAppend | js/dashboard.mjs:72-78 | buckets keep the list's order |
| Grouping.Partition | js/dashboard.mjs:86-93 | the bucket sums add up to the sum over the whole list, for any weight |
| Grouping.CountsAddUp | js/dashboard.mjs:14-21 | the bucket sizes add up to the length of the list |
| Grouping.DistinctCardinality | js/dashboard.js:55-56 | a duplicate-free list has as many elements as its set |
| Rounding.RoundDiv | js/quiz.mjs:186 | `Math.round(a/b)` is the integer nearest to `a/b`, ties rounded up |
| Rounding.RoundDivExact | js/dashboard.js:76 | an exact quotient is not changed by rounding |
| Rounding.RoundDivBounds | js/quiz.mjs:186 | a ratio between 0 and m rounds to between 0 and m |
| Seqs.Reversed | js/dashboard.js:21 | element i of the reversal is element `n-1-i` of the input |
| Seqs.ReversedTwice | js/dashboard.js:21 | reversing twice gives the list back |
| Seqs.ReversedPermutes | js/dashboard.js:21 | reversing keeps the entries |
| Dashboard.Ratio | js/dashboard.mjs:11-18 | `score/total` is non-negative and at most 1 when `score ≤ total` |
| Dashboard.EarliestBestUnique | js/dashboard.mjs:23-29 | at most one category is the earliest with maximal mean |
| Dashboard.CategoryData | js/dashboard.mjs:14-21 | one key per distinct category, in first-seen order; each entry holds the category's ratio sum and entry count |
| Dashboard.AccStep | js/dashboard.mjs:15-19 | one `reduce` step changes only the item's category, creating it at zero first |
| Dashboard.BestCategory | js/dashboard.mjs:23-29 | "—" without categories; otherwise a category whose mean is maximal, ties to the earliest key (strict `>`) |
| Dashboard.ListedCategories | js/dashboard.mjs:14-21 | every listed category has at least one entry |
| Dashboard.CalculateStats | js/dashboard.mjs:8-32 | `totalQuizzes` is the length, the average is the rounded mean percentage (0 when empty), the best category is as above |
| Dashboard.StatsDetermined | js/dashboard.mjs:8-32 | the stats are a function of the history |
| Dashboard.CountsAddUp | js/dashboard.mjs:14-21 | the per-category counts add up to the history length |
| Dashboard.PercentSumBounds | js/dashboard.mjs:11 | the percentage sum lies between 0 and 100 per entry |
| Dashboard.AverageIsPercentage | js/dashboard.mjs:11-12 | the average score lies between 0 and 100 |
| Dashboard.Activities | js/dashboard.mjs:72-78 | one group per distinct type, in first-seen order, each holding that type's entries in order |
| Dashboard.CategoryStats | js/dashboard.mjs:86-93 | within a type, each category holds the sums of its entries' `score` and `total` |
| Dashboard.ScoreTotalStep | js/dashboard.mjs:87-91 | one `reduce` step adds to the item's category only |
| Dashboard.TotalsPositive | js/dashboard.mjs:91 | a non-empty group has a positive total |
| Dashboard.CategoryTotalPositive | js/dashboard.mjs:97 | every listed category's total is positive, so its percentage is defined |
| Dashboard.ActivityCard | js/dashboard.mjs:83-104 | one type's card: a row per category of the type, in first-seen order, with its score and total sums and rounded percentage |
| Dashboard.ActivityBreakdown | js/dashboard.mjs:67-118 | nothing without the container; otherwise one card per type with one row per category and its rounded percentage |
| Dashboard.OneGroupEach | js/dashboard.mjs:72-78 | every entry is in exactly one type group |
| Dashboard.GroupSizesAddUp | js/dashboard.mjs:72-78 | the group sizes add up to the history length |
| Dashboard.CategorySumsAddUp | js/dashboard.mjs:86-93 | within a type, the category sums of `score` and `total` add up to the type's sums |
| Dashboard.InitDashboard | js/dashboard.mjs:123-138 | an empty history returns early; otherwise the stats and the breakdown as above |
| DashboardPage.AverageIsPercentage | js/dashboard.js:34-36 | the average of percentages between 0 and 100 is between 0 and 100 |
| DashboardPage.AverageOfEqualScores | js/dashboard.js:34-36 | equal percentages average to that percentage |
| DashboardPage.BadgeShelf.constructor | js/dashboard.js:45-59 | all badges start locked |
| DashboardPage.BadgeShelf.CheckAndDisplayBadges | js/dashboard.js:45-59 | gold unlocks exactly on a 100% entry, scientist on ≥ 5 "Science & Nature" entries, mastermind on ≥ 3 categories; nothing is re-locked |
| DashboardPage.SubsetCardinality | js/dashboard.js:55-56 | a subset of categories is no larger |
| DashboardPage.BadgesKeptByNewResult | js/dashboard.js:45-59 | a new result at the head of the history never takes a badge away |
| DashboardPage.ScientistFromFive | js/dashboard.js:51-58 | five "Science & Nature" entries give the scientist badge but not the mastermind badge |
| DashboardPage.StatStep | js/dashboard.js:66-71 | one `forEach` step adds to the entry's category only |
| DashboardPage.LabelHasResults | js/dashboard.js:65-73 | every label has at least one entry |
| DashboardPage.CategoryChart | js/dashboard.js:61-77 | no chart without the canvas; otherwise labels in first-seen order and each bar the rounded mean of its percentages |
| DashboardPage.ChartLabelsAreCategories | js/dashboard.js:73 | one label per distinct category name |
| DashboardPage.ChartBarsArePercentages | js/dashboard.js:74-77 | each bar of percentages lies between 0 and 100 |
| DashboardPage.Reverse | js/dashboard.js:21 | `reverse()` reverses the array in place |
| DashboardPage.DisplayQuizHistory | js/dashboard.js:3-30 | no table: nothing; empty: the no-history message; otherwise stats, badges and chart from the stored order, then rows in reverse order |
| Onboarding.GetState | js/onboarding.mjs:6-9 | the stored object, or `{settings:{tutorialSeen:false}}` when missing, falsy or unparsable |
| Onboarding.MarkSeenKeepsOthers | js/onboarding.mjs:28-30 | `close` sets `tutorialSeen`, creates `settings` if absent, and keeps every other field |
| Onboarding.MarkSeenIdempotent | js/onboarding.mjs:28-30 | closing twice stores the same state as closing once |
| Onboarding.FirstVisitUnseen | js/onboarding.mjs:6-9 | a first visit has not seen the tour |
| Onboarding.Clamp | js/onboarding.mjs:34 | the result lies in [0,2] and is the input when it is in range |
| Onboarding.Tour.constructor | js/onboarding.mjs:12-18 | `step` starts at 0 with the page as loaded |
| Onboarding.Tour.HighlightStep | js/onboarding.mjs:33-37 | `step` becomes the clamped index and nothing else changes |
| Onboarding.Tour.Prev | js/onboarding.mjs:39 | one step back, saturating at 0 |
| Onboarding.Tour.Next | js/onboarding.mjs:40 | one step forward, saturating at 2 |
| Onboarding.Tour.Open | js/onboarding.mjs:20-24 | shows the existing overlay and modal and resets to step 0 |
| Onboarding.Tour.Close | js/onboarding.mjs:25-32 | hides the existing overlay and modal and stores the state with `tutorialSeen` set |
| Onboarding.Tour.Init | js/onboarding.mjs:43-46 | the tour opens at load exactly when `tutorialSeen` is not truthy |
| Onboarding.ClosedStaysShut | js/onboarding.mjs:25-46 | after a close the stored state counts as seen |
| Onboarding.CloseThenReload | js/onboarding.mjs:25-46 | after closing, the next load leaves the tour shut |

## Left out

- DOM rendering and event wiring are not modelled: the card lists, templates, the question and option markup, the history table HTML of `js/dashboard.mjs` (`displayHistoryTable`, its dates and `toLocaleDateString`), `displayMetrics`, and the whitespace of generated HTML. The page is abstract state: flags, feedback tags, texts.
- Network I/O is not modelled: the trivia request, the candidate-path loop of `loadAnimalsPool` (its outcome, a parsed dataset or none, is an input), the facts proxy, and the Cloudflare function. Responses are inputs.
- Wall-clock timers: one interval firing is a method call (`Fire`, `Tick`), not a second of time.
- `Math.random` becomes a supplied sequence of draws, and properties hold for every sequence.
- Library calls are opaque or ASCII-only: `decode` via a textarea, `decodeURIComponent`, `JSON.parse`/`JSON.stringify`, Unicode `toLowerCase`, `URLSearchParams`, `new URL` and `Chart`. `encodeURIComponent` is modelled over UTF-8 with unreserved characters kept.
- Floating point: `score / total * 100` and `Math.round` are exact real or integer arithmetic. IEEE-754 rounding is not claimed. The history pages take the stored percentages as integers; a non-integer percentage written by some other code is not modelled.
- `GameTools.Initial`: `Number(seconds) || 0` is modelled for integer seconds only; a non-numeric or NaN input is not modelled.
- The "Go to Categories" navigation of `js/quiz.mjs` and the header hiding are only shown as a button target.
- The facts box's transient "Fetching facts…" text is not modelled, only its final content.
- `NatureLab.Lab.Answer`: the awaited facts fetch is modelled as finishing before the next event; clicks during the await are not modelled.
- Object keys that look like integers (JavaScript lists them first) and keys that collide with `Object.prototype` members such as "constructor" are not modelled: keys come out in first-insertion order.
- `Dashboard.Attempt`: `total` is positive, so a zero total (a NaN or Infinity percentage in JavaScript) is not modelled.
- `Onboarding.Tour.Close`: a stored `settings` that is truthy but not an object (assigning to it throws in strict mode) is not modelled. Nor is a stored "wwl" value that parses to a truthy non-object: a number or string makes the assignment throw in strict mode, and an array loses `settings` when it is written back.
- `GameTools.SampleDistinct`: `n|0` is modelled on integers (with its 32-bit wrap-around); its truncation of a non-integer or non-numeric `n` is not modelled.
- A stored "quizHistory" that is truthy but not an array is modelled only for `addQuizResult` (as a failure); the dashboards take the history as a list.
- The wrapper `safeInit`, js/home.mjs, js/features/nav.mjs, js/api.mjs, js/nature-cards.mjs, js/app.js and eslint.config.js are not part of this model.
