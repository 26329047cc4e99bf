# CodeLeap progress and catalog logic in Dafny

CodeLeap is a coding-practice site. A signed-in user opens a problem, writes code and submits or runs it. The site keeps a per-user progress map from problem slug to status. A status is a bare legacy string or a detail record with an optional solve time and an optional time of the last attempt. Every submission is also logged. Around that map sit several derived views:

- the six-month chart of problems solved per month, the daily challenge and the difficulty colours on the home page;
- the one-year contribution graph, with the total number of solves and the current streak;
- the problem table's status, colour and tag cell;
- the problem-set page's search and filters, and its list of available tags;
- the profile page's solved-by-difficulty counts and avatar initials;
- the header's initials and active link.

The catalog service looks problems up by slug and groups them by company and by category. Group names are in sorted order, and each group is sorted stably by difficulty. The explore page drops three categories. A request guard decides which paths need a session cookie.

The model's modules follow the source files:

| module | file |
|---|---|
| `Calendar` | day numbers, civil dates, month keys |
| `Text` | the JavaScript string operations the code uses |
| `Types` | `src/types/index.ts` and the solve-time helpers |
| `CodeEditor` | `src/components/code-editor.tsx` |
| `HomePage` | `src/app/page.tsx` |
| `ContributionGraph` | `src/components/contribution-graph.tsx` |
| `ProblemList` | `src/components/problem-list.tsx` |
| `ProblemsPage` | `src/app/problems/page.tsx` |
| `AvatarInitials`, `ProfilePage` | `src/app/profile/page.tsx` |
| `Header` | `src/components/header.tsx` |
| `Catalog` | `src/services/leetcode.ts` |
| `Middleware` | `middleware.ts` |
| `ExplorePage` | `src/app/explore/page.tsx` |

Modelling choices:

- **Time.** A timestamp is an integer count of milliseconds, already in local time. A day is a day number since 1970-01-01. A month is the key `year * 12 + (month - 1)`. `Calendar` converts between day numbers and proleptic Gregorian dates, and proves the round trip.
- **The editor.** The code editor is a class. Its fields are the user's progress map, the submission log, the code, the language and the output panel. Its methods update those fields in place, as the component's state setters and database writes do.
- **Stateful loops.** Loops that fill dictionaries, sets and counters are methods with loop invariants. Each is proved against a specification function over the whole input.
- **Object keys.** A JavaScript object used as a dictionary is a Dafny `map` while it is filled. It becomes a sequence of named groups once its keys are in a fixed order.

Two behaviours of the code differ from what a reader might expect. The model follows the code in both:

- **Failed submissions.** A failed submission on a solved problem marks it Attempted again. A second failure also drops the solve time.
- **Graph window.** The contribution graph runs from `subYears(today, 1)` through today inclusive. That is 366 or 367 days, not a year of 365 or 366.

## Model

| member | source | states |
|---|---|---|
| Types.ParseStatus | src/types/index.ts:7 | a stored string denotes a status exactly when it is that status's name; any other string denotes none |
| Types.ParseName | src/types/index.ts:7 | the three status names are distinct: each reads back as its own status |
| Types.SolvedTime | src/components/contribution-graph.tsx:28 | an entry has a solve time exactly when it is a detail record marked Solved with `solvedAt` present; a bare string never has one |
| Types.SumFibresIsBand | src/app/page.tsx:58-66 | counting entries per day or month and adding the counts over a range gives the number of entries whose day or month lies in that range: each entry lands in one slot |
| Types.BandWithinSolved | src/components/contribution-graph.tsx:26-37 | the entries in any range of days or months are timed solves, so no range holds more than the number of timed solves |
| Calendar.YearAgoSpan | src/components/contribution-graph.tsx:19-21 | one year back is 365 or 366 days back |
| Calendar.DayOfYearRange | src/app/page.tsx:128 | the day of the year is between 1 and 366 |
| Text.SplitJoin | src/app/profile/page.tsx:18 | `split(' ')` loses nothing: the pieces hold no space and join back to the name |
| Text.TrimEmptyIffBlank | src/components/code-editor.tsx:143 | `code.trim()` is empty exactly when the code is all white space |
| Text.SortSet | src/services/leetcode.ts:266 | `Array.from(keys).sort()` lists each key once, in strictly ascending order |
| CodeEditor.StatusForOutcome | src/components/code-editor.tsx:179-182 | an Accepted verdict leads to Solved; every other verdict leads to Attempted |
| CodeEditor.ReconciledEntry | src/components/code-editor.tsx:108-115 | the record written has the new status and the call's time as last attempt; a solve stamps the call's time; otherwise the old solve time survives only from a detail record marked Solved |
| CodeEditor.UpdatedProgress | src/components/code-editor.tsx:99-123 | only this problem's key can change; without a user, or when the write rule says no, nothing changes; a write stores the new status with the call's time |
| CodeEditor.RunUpdatedProgress | src/components/code-editor.tsx:242-250 | a run leaves a detail record marked Solved alone and otherwise records an attempt |
| CodeEditor.RepeatSolvedKeepsEntry | src/components/code-editor.tsx:118 | solving a solved problem again leaves the whole map unchanged, first solve time included |
| CodeEditor.FailedSubmitRegressesSolved | src/components/code-editor.tsx:108-118 | a failed submission on a solved record turns it into an attempt that keeps the solve time |
| CodeEditor.SecondFailureClearsSolvedAt | src/components/code-editor.tsx:108-118 | two failed submissions after a solve leave an attempt with no solve time |
| CodeEditor.RunKeepsSolvedDetail | src/components/code-editor.tsx:246-250 | a run on a detail record marked Solved changes nothing |
| CodeEditor.RunRewritesLegacySolved | src/components/code-editor.tsx:246-250 | a run on a bare "Solved" string replaces it by an attempt with no solve time |
| CodeEditor.UpdatePreservesStamps | src/components/code-editor.tsx:110-115 | submit and run never produce a solved detail record without a solve time, if none existed before |
| CodeEditor.SubmitLines | src/components/code-editor.tsx:195 | the submit panel starts with the status line |
| CodeEditor.SubmitLinesShow | src/components/code-editor.tsx:195-202 | the submit panel always has the status; it has Runtime, Memory and Test Cases lines exactly when their values are present, and Output and Error sections exactly when they are not empty; no other heading appears |
| CodeEditor.RunLines | src/components/code-editor.tsx:254 | the run panel starts with the run result line |
| CodeEditor.RunLinesShow | src/components/code-editor.tsx:254-259 | the run panel always has the run result and never a test-case count; it has Runtime, Memory, Console Output and Error under the same presence rules as the submit panel |
| CodeEditor.SubmitReport | src/components/code-editor.tsx:195-202 | the text built by successive appends is the rendering of the submit panel's lines |
| CodeEditor.RunReport | src/components/code-editor.tsx:254-259 | the text built by successive appends is the rendering of the run panel's lines |
| CodeEditor.LabelMarkers | src/components/code-editor.tsx:262 | exactly the Runtime Error and Compilation Error labels contain "Error", and only Wrong Answer contains "Wrong" |
| CodeEditor.RunOutputType | src/components/code-editor.tsx:262 | after a run the panel is green exactly for Accepted, red exactly for Wrong Answer, Runtime Error and Compilation Error, and neutral for the other four verdicts |
| CodeEditor.Editor.constructor | src/components/code-editor.tsx:93-96 | a fresh editor has empty code, JavaScript selected, the placeholder output and the neutral colour |
| CodeEditor.Editor.SetCode | src/components/code-editor.tsx:423 | a cleared editor value becomes the empty string |
| CodeEditor.Editor.SetLanguage | src/components/code-editor.tsx:317 | the selected language becomes the editor's language |
| CodeEditor.Editor.UpdateUserProgress | src/components/code-editor.tsx:99-125 | the progress map becomes the reconciled map for this user and problem |
| CodeEditor.Editor.Record | src/components/code-editor.tsx:157-171 | the submission document names this user, this problem, the verdict and the time |
| CodeEditor.Editor.HandleSubmit | src/components/code-editor.tsx:138-205 | without a user or with blank code nothing changes; otherwise one submission is logged, progress is reconciled with the verdict's status, the panel shows the submit report, green exactly when Accepted |
| CodeEditor.Editor.HandleRunCode | src/components/code-editor.tsx:222-262 | without a user or with blank code nothing changes; otherwise progress follows the run rule, nothing is logged, and the panel shows the run report in the run colour |
| HomePage.DifficultyClassIgnoresCase | src/app/page.tsx:38-45 | the difficulty colour does not depend on letter case |
| HomePage.DailyChallenge | src/app/page.tsx:128-129 | an empty catalog has no daily challenge; otherwise it is the problem at the day of the year modulo the catalog size |
| HomePage.DailyChallengeIndex | src/app/page.tsx:128-129 | the daily challenge index is always a valid index into a non-empty catalog |
| Calendar.DayOfYearNext | src/app/page.tsx:128 | overnight the day of the year grows by exactly one, except when the new day is 1 January |
| HomePage.DailyChallengeAdvances | src/app/page.tsx:128-129 | except when the next day is 1 January, the day of the year grows by one overnight, so the next day's challenge is the next problem in the catalog, wrapping round at its end |
| HomePage.SeedMonths | src/app/page.tsx:52-56 | exactly the six months ending with the current one are seeded, each with zero |
| HomePage.BumpMonth | src/app/page.tsx:59-65 | a timed solve adds one to its month when that month is seeded; any other entry and any other month change nothing |
| HomePage.CountSolves | src/app/page.tsx:58-66 | no month is added; each seeded month ends with the number of timed solves in it; solves outside the window are dropped |
| HomePage.ChartEndingAt | src/app/page.tsx:52-77 | for any month key: six points from five months back to that month, oldest first, each with that month's timed solves |
| HomePage.TransformProgressToChartData | src/app/page.tsx:48-80 | six points, oldest first, one per month from five months back to this month, each with that month's timed solves |
| HomePage.ChartTotalBounded | src/app/page.tsx:58-66 | the chart's counts add up to the solves inside the window, never more than the number of timed solves |
| HomePage.EmptyProgressChart | src/app/page.tsx:52-56 | without progress every month shows zero |
| HomePage.MonthKeyWraps | src/app/page.tsx:53 | the month before January is December of the year before |
| HomePage.WindowMonthsDistinct | src/app/page.tsx:68-77 | the six months have six different names, so sorting by the month found from a name orders them by time |
| ContributionGraph.Tally | src/components/contribution-graph.tsx:27-37 | a timed solve adds one to its day, creating the day at zero first, and one to the total; any other entry changes nothing |
| ContributionGraph.CountByDay | src/components/contribution-graph.tsx:23-38 | a day is in the map exactly when it has a timed solve, with the number of those solves; the total counts every timed solve |
| ContributionGraph.CurrentStreak | src/components/contribution-graph.tsx:40-46 | every day from today back over the streak has a solve and the day before it has none |
| ContributionGraph.DaysWithCounts | src/components/contribution-graph.tsx:48-54 | one square per day from the start through today, in order, with the map's count or zero |
| ContributionGraph.GraphBetween | src/components/contribution-graph.tsx:23-54 | for any start on or before today: one square per day with that day's solves, the total of all timed solves, and the run of solving days ending today |
| ContributionGraph.ComputeGraphData | src/components/contribution-graph.tsx:18-57 | squares for each day from a year ago through today with that day's solves; the total counts all timed solves, in or out of the window; the streak is the run of solving days ending today, with no cap at one year |
| ContributionGraph.WindowLength | src/components/contribution-graph.tsx:19-21 | the graph has 366 or 367 squares |
| ContributionGraph.StreakUnique | src/components/contribution-graph.tsx:41-46 | only one length fits the streak's description, so the streak is well defined |
| ContributionGraph.WindowWithinTotal | src/components/contribution-graph.tsx:26-54 | the squares add up to the solves inside the window, never more than the total |
| ContributionGraph.IntensityLevel | src/components/contribution-graph.tsx:59-65 | five bands, the lightest exactly for a count of zero |
| ContributionGraph.IntensityMonotone | src/components/contribution-graph.tsx:59-65 | more solves never give a lighter band |
| ContributionGraph.IntensityClassesDistinct | src/components/contribution-graph.tsx:59-65 | two counts get the same class exactly when they are in the same band |
| ProblemList.GetProblemStatusData | src/components/problem-list.tsx:33-44 | a missing entry reads as Todo; a detail record as its status; a bare string as the status it names, or Todo when it names none |
| ProblemList.NormalizeStoredForms | src/app/problems/page.tsx:73-82 | both stored forms of a status read back as that status |
| ProblemList.NormalizeSolvedIff | src/components/problem-list.tsx:33-44 | a problem reads as solved exactly when its entry is a solved detail record or the string "Solved" |
| ProblemList.DifficultyClassCases | src/components/problem-list.tsx:19-30 | the colour ignores letter case and is muted exactly for difficulties other than easy, medium and hard |
| ProblemList.TagsCell | src/components/problem-list.tsx:102-127 | a dash exactly when there are no tags; otherwise the first one or two tags, and the "..." badge exactly when tags are left over |
| ProblemsPage.FilteredProblemsSpec | src/app/problems/page.tsx:85-104 | the filtered list keeps catalog order and holds exactly the problems that pass all four tests |
| ProblemsPage.FilteredCounts | src/app/problems/page.tsx:85-104 | a problem that passes the filters occurs in the result as often as in the catalog; one that fails never occurs |
| ProblemsPage.DefaultFiltersKeepAll | src/app/problems/page.tsx:85-104 | no search term and every filter on "all" keep the whole list |
| ProblemsPage.StatusFilterValues | src/app/problems/page.tsx:96-97 | each status filter value selects exactly one status |
| ProblemsPage.AvailableTags | src/app/problems/page.tsx:46-48 | every tag of every problem, each once, in ascending order |
| AvatarInitials.FirstChar | src/app/profile/page.tsx:20 | indexing an empty string gives `undefined`; otherwise its first character |
| AvatarInitials.JsPlus | src/app/profile/page.tsx:20 | `+` concatenates when either side is a string and gives `NaN` otherwise |
| AvatarInitials.ToUpperCase | src/app/profile/page.tsx:20 | upper-casing succeeds exactly on strings |
| AvatarInitials.TrailingSpaceAsWritten | src/app/profile/page.tsx:16-21 | the code gives "AUNDEFINED" for the name "Ada " |
| AvatarInitials.OnlySpaceAsWritten | src/components/header.tsx:55-60 | the code throws for the name " " |
| AvatarInitials.Initials | src/app/profile/page.tsx:16-21 | the fallback without words; one letter for a one-word name and two for a longer one, the upper-cased first letters of the first and last words |
| AvatarInitials.AsWrittenAgrees | src/app/profile/page.tsx:16-21 | for a non-empty name that neither starts nor ends with a space, the code and the intended initials agree |
| AvatarInitials.LeadingSpaceIgnored | src/app/profile/page.tsx:16-21 | a leading space does not change the intended initials |
| AvatarInitials.TrailingSpaceIgnored | src/app/profile/page.tsx:16-21 | a trailing space does not change the intended initials |
| AvatarInitials.TrailingSpaceIntended | src/app/profile/page.tsx:16-21 | the intended initials of "Ada " are "A" |
| ProfilePage.GetInitials | src/app/profile/page.tsx:16-21 | "U" without a name; always one or two characters |
| ProfilePage.CollectSolved | src/app/profile/page.tsx:27-33 | the set holds exactly the slugs whose record status or bare string is "Solved" |
| ProfilePage.CountProblemsByDifficulty | src/app/profile/page.tsx:23-48 | easy, medium and hard count the solved catalog problems of exactly that difficulty; total counts every solved slug |
| ProfilePage.CatalogTotals | src/app/profile/page.tsx:80-84 | the three catalog totals add up to at most the catalog size |
| ProfilePage.DifficultyTotalsBounded | src/app/profile/page.tsx:80-84 | problems of the three difficulties are at most all problems |
| ProfilePage.SolvedWithinCatalog | src/app/profile/page.tsx:39-45 | a difficulty never shows more solved problems than the catalog has of it |
| ProfilePage.DifficultyCountsWithinTotal | src/app/profile/page.tsx:23-48 | with distinct catalog slugs, easy + medium + hard never exceeds the total |
| Header.GetInitials | src/components/header.tsx:55-60 | "?" without a name; always one or two characters |
| Header.NavClass | src/components/header.tsx:80 | a link is highlighted exactly on its own path, and dimmed otherwise |
| Header.OneLinkHighlighted | src/components/header.tsx:77-90 | Problems and Explore are never highlighted together, and a problem page highlights neither |
| Middleware.Decide | middleware.ts:8-47 | the only non-pass outcome is a redirect of a protected path without a session cookie, to "/" with `auth=true` and `redirectedFrom` the path |
| Middleware.OpenPathsPass | middleware.ts:12-31 | assets, the session API and public pages pass whatever the cookie |
| Middleware.CookiePasses | middleware.ts:33-46 | a non-empty session cookie lets every request through; its validity is not checked |
| Middleware.ProtectedNeedsCookie | middleware.ts:33-43 | a protected page that is not an asset file is redirected exactly when the cookie is missing or empty |
| Middleware.ProtectedAssetPasses | middleware.ts:12-19 | a protected path ending in an asset extension passes without a cookie |
| ExplorePage.FilterCategories | src/app/explore/page.tsx:44-49 | the copy holds the groups whose name is not excluded, in key order |
| ExplorePage.KeptCategoriesSpec | src/app/explore/page.tsx:27 | no excluded category survives; every other group is kept with the same problems; nothing is added |
| ExplorePage.KeptCategoriesKeepOrder | src/app/explore/page.tsx:44-49 | the kept names are the input names with the excluded ones taken out, in the same order |
| Catalog.GetProblemBySlug | src/services/leetcode.ts:235-241 | nothing exactly when no problem has the slug; otherwise the first problem with that slug |
| Catalog.Rank | src/services/leetcode.ts:272-273 | Easy, Medium and Hard rank 1 to 3 and every other difficulty ranks 4 |
| Catalog.ByRankSorted | src/services/leetcode.ts:271-274 | a sorted group is ordered by difficulty rank |
| Catalog.ByRankPermutation | src/services/leetcode.ts:271-274 | sorting a group neither adds nor drops a problem |
| Catalog.ByRankStable | src/services/leetcode.ts:271-274 | problems of equal rank keep their order |
| Catalog.CompanyBucketMembers | src/services/leetcode.ts:254-263 | a company's bucket holds exactly the problems listing it, and is empty when none does |
| Catalog.PushUnderCompanies | src/services/leetcode.ts:256-261 | each company gains the problem once per listing, and gains a bucket if it had none |
| Catalog.Assemble | src/services/leetcode.ts:266-275 | the groups follow the given names, each bucket sorted by difficulty |
| Catalog.GetProblemsByCompany | src/services/leetcode.ts:250-278 | company names ascend, and a name appears exactly when some problem lists it; each group is its problems in push order, sorted by difficulty |
| Catalog.CategoryOf | src/services/leetcode.ts:291 | a problem's category, "Uncategorized" when empty, never empty |
| Catalog.CategoryBucketMembers | src/services/leetcode.ts:290-296 | a category's bucket holds exactly the problems of that category |
| Catalog.CategoryPartition | src/services/leetcode.ts:290-296 | with each category listed once, the bucket sizes add up to the catalog size |
| Catalog.BucketByCategory | src/services/leetcode.ts:290-296 | a category has a bucket exactly when some problem has it, holding those problems in catalog order |
| Catalog.GetProblemsByCategory | src/services/leetcode.ts:286-312 | category names ascend and are exactly the problems' categories; groups are sorted by difficulty; every problem is in exactly one group, so sizes sum to the catalog size |

## Left out

- Firestore and Firebase I/O are not modelled: reading and writing the progress document and the submissions collection, the submission history query, and the server-side profile reads. The store is the editor's fields or a parameter. The error toasts and the catch branches of a failed write are not modelled.
- `mockExecuteCode` is not modelled. It draws its verdict from `Math.random` after a timer; the verdict is an input.
- Clock and time zone are not modelled. `Timestamp.now()`, `new Date()` and the local-time conversion are an integer `now` already in local time. Daylight-saving days of 23 or 25 hours are not modelled.
- Month names are not modelled. `format(.., 'MMM')` and the other locale formatting are dropped: a chart point carries its month key.
- `getProblems` is not modelled as a member: the static catalog it returns is the parameter `catalog`.
- JSX rendering, icons, tooltips, the loading flags and the intermediate "Submitting…" and "Running…" panel texts are not modelled.
- Keys that JavaScript objects treat specially are not modelled. A company or category named like an integer ("2024") would be ordered first. One named like an `Object.prototype` member ("toString") would make `!dict[key]` false and the push would throw. Keys are assumed to be ordinary names.
- Unicode case mapping is not modelled. `toLowerCase` and `toUpperCase` are ASCII only.
- Strings are sequences of Unicode scalar values, not UTF-16 code units. A character outside the Basic Multilingual Plane (an emoji such as U+1F600) is one character here but two code units in the source. For a name like "😀 Bob", the source's `names[0][0]` is a lone high surrogate, while `AvatarInitials.FirstChar` gives the whole character. The same difference applies to `AvatarInitials.InitialsAsWritten`, `AvatarInitials.Initials`, `ProfilePage.GetInitials` and `Header.GetInitials`. `Text.Less` and `Text.SortSet` also compare scalar values where `Array.prototype.sort()` compares UTF-16 code units. So a string starting with U+10000 (code units D800 DC00) sorts before one starting with U+E000 in the source, but after it here. This affects the order of `ProblemsPage.AvailableTags` and of the company and category keys.
- The route matcher in `config` is not modelled (middleware.ts:49-53). `Middleware.Decide` is the guard function alone, so it also decides paths the matcher never hands to the guard. Those paths are `/api/genkit…`, `/_next/static…`, `/_next/image…`, `favicon.ico`, and paths ending in a lower-case `.svg`, `.png`, `.jpg`, `.jpeg`, `.gif`, `.webp`, `.json`, `.webmanifest`, `.txt`, `.map`, `.woff2` or `.woff`. For example, the app serves "/profile/banner.gif" without a cookie, but `Decide` redirects it, because `gif` is not among the guard's own extensions.
- `CodeEditor.UpdatedProgress`: `None` for `solvedAt` stands for both a stored `null` and a missing field. A failed submit over a stored Solved record that has no `solvedAt` field copies `undefined` into `setDoc`. The Firestore client (src/lib/firebase/client.ts:56) rejects `undefined`, so the real write throws, the catch absorbs it, and nothing changes. The model writes `Detail(Attempted, None, now)` there. The app itself never stores such a record.
- The leading blank squares of the graph (`getDay` of the first square) are not modelled. They are layout only.
- URL encoding of the redirect's `redirectedFrom` parameter is not modelled: the redirect carries the raw path.
- The explore page hands the company dictionary from `getProblemsByCompany` to the view unchanged. There is nothing to model beyond `Catalog.GetProblemsByCompany`.
- `ProfilePage.GetInitials` and `Header.GetInitials` use the corrected initials (see Findings); `AvatarInitials.InitialsAsWritten` is the code as written.

## Findings

| source | as written | input that shows it | evidently intended | confidence | as-written member | corrected member |
|---|---|---|---|---|---|---|
| src/app/profile/page.tsx:16-21 (and src/components/header.tsx:55-60) | `names[0][0] + names[names.length - 1][0]` on `displayName.split(' ')`, where an empty piece's `[0]` is `undefined` | "Ada " gives "AUNDEFINED"; " " makes `toUpperCase` throw on `NaN` | the upper-cased first letters of the first and last non-empty words, or the fallback when there are none | not executed | AvatarInitials.TrailingSpaceAsWritten | AvatarInitials.TrailingSpaceIntended |
