# OmniDev AI bridge — a Dafny model

OmniDev is a web IDE whose server routes code-generation, refactoring and
auto-fix requests to a catalog of open-source models and keeps a small
self-learning knowledge store of pattern → solution entries. This project
models the decision logic of that core and proves properties about it:

- the model catalog and the choice of the strongest model a subscription
  allows for a task (`Catalog`, `Bridge`);
- the knowledge store: reinforcement on positive feedback, decay on
  negative feedback, lookups, and its statistics (`Knowledge`,
  `LearningStats`);
- the simulated trend search that feeds the store (`Trends`);
- keyword extraction and language detection (`TextAnalysis`);
- the rule-based auto-fix scanner, with its regular expressions written out
  as matchers and its rewrites as written, beside corrected versions of
  the two faulty ones (`Scanner`);
- the storage queries it depends on: models by subscription level, the
  admin payment statistics and manual payment approval (`Storage`);
- the client's display helpers: relative times, truncation and icon
  lookups (`ClientUtils`).

Confidence values are integers in hundredths: 70 for a new entry, capped
at 99, floored at 10, and "high" above 80. Clocks are passed in as an
opaque `now`. The learning database is the class
`Knowledge.KnowledgeStore`, whose methods update its `entries` in place and
keep the invariant `Valid()`: patterns are unique up to case and
confidences stay within [10, 99].

Where the prose description of the system and the code disagree, the model
follows the code:

- a user's level is `subscriptionPlanId || 1`, so a missing plan and plan
  0 both mean level 1, not a free level 0;
- decay does not refresh an entry's timestamp, only reinforcement does;
- the contained-pattern lookup needs confidence strictly above the
  threshold, not at least the threshold;
- the seed entry tagged "learned" falls in none of the four `bySource`
  buckets;
- a trend hit for a keyword that is already stored keeps the entry's old
  source tag and only replaces its solution.

## Model

| member | source | states |
|---|---|---|
| Catalog.SupportedModelsWellFormed | server/aiBridge.ts:35-162 | catalog ids are distinct and lower-case, and every model is active |
| Catalog.FindById | server/aiBridge.ts:444-445 | finding a model by id gives a catalog model with that id, and nothing exactly when no model has it |
| Catalog.FindInCatalog | server/aiBridge.ts:444-445 | looking an id up in the catalog finds a model exactly when the catalog lists that id |
| Catalog.EligibleModels | server/aiBridge.ts:367-370 | a model is eligible iff it is in the catalog, has the task type, is active and its id is allowed |
| Catalog.Strongest | server/aiBridge.ts:374-375 | the first element of a stable descending sort by parameters: the earliest model among those with the most parameters; none only for an empty list |
| Catalog.SelectModelNone | server/aiBridge.ts:363-372 | there is no choice exactly when no active catalog model of the type has an id equal to a lower-cased allowed name |
| Catalog.SelectModelMaximal | server/aiBridge.ts:363-375 | the chosen model is eligible, has at least as many parameters as every eligible model, and strictly more than every eligible model before it in the catalog, so the first wins a tie |
| Catalog.FirstStrongest | server/aiBridge.ts:367-375 | the strongest of the filtered models is at a catalog index before which every eligible model has strictly fewer parameters |
| Catalog.SelectModel | server/aiBridge.ts:363-375 | the choice, when there is one, is a catalog model that is eligible for the task |
| Storage.GetUser | server/storage.ts:69-72 | the user found has the id; there is none exactly when no user has it |
| Storage.ModelsBySubscriptionLevel | server/storage.ts:179-189 | a model row is returned iff it is active and its minimum level is at most the given level |
| Storage.LevelMonotone | server/storage.ts:179-189 | raising the level never removes a model |
| Storage.TotalRevenueAppend | server/storage.ts:326-328 | revenue is additive over concatenated payment lists |
| Storage.TotalRevenueBounds | server/storage.ts:326-328 | with non-negative amounts, revenue is between 0 and the sum of all amounts, and 0 when nothing is completed |
| Storage.TotalRevenue | server/storage.ts:326-328 | the sum of `amount` over the completed payments; it has no contract of its own, and its properties are stated by TotalRevenueAppend and TotalRevenueBounds |
| Storage.PendingApprovals | server/storage.ts:330-332 | the count is at most the number of payments, and 0 exactly when no manual payment is pending |
| Storage.CountProvider | server/storage.ts:334-337 | a provider's count is positive exactly when some payment uses it |
| Storage.Providers | server/storage.ts:334-337 | the provider keys are exactly the providers that occur |
| Storage.ProviderCountsSum | server/storage.ts:334-337 | the per-provider counts partition the payments: their sum over the distinct keys is the number of payments |
| Storage.PaymentsByProvider | server/storage.ts:334-337 | the reduce loop builds a map whose keys are the occurring providers and whose values are their counts |
| Storage.RecentPayments | server/storage.ts:343 | at most ten payments, a prefix of the list, all of them when there are at most ten |
| Storage.GetAdminPaymentStats | server/storage.ts:322-345 | each statistic equals its specification: revenue, pending approvals, per-provider counts, recent payments |
| Storage.ApprovedRows | server/storage.ts:308-320 | rows with the id become completed, manually approved by the admin at `now` with every other field kept; all other rows are unchanged |
| Storage.FirstWithId | server/storage.ts:317-319 | the first row with the id, or none exactly when no row has it |
| Storage.PaymentTable.ApproveManualPayment | server/storage.ts:308-320 | the table becomes the approved rows, and the returned payment is the first updated row, or none when no row matched |
| Knowledge.FindPattern | server/aiBridge.ts:267-268 | the first entry whose pattern equals the key up to case; none exactly when no pattern does |
| Knowledge.FindPatternUnique | server/aiBridge.ts:267-268 | with unique patterns, the lookup finds the only matching entry |
| Knowledge.Learned | server/aiBridge.ts:266-290 | learning grows the store by one exactly when the pattern is new |
| Knowledge.Decayed | server/aiBridge.ts:660-668 | decay keeps the store's size and every entry's pattern and source tag, and changes nothing for an unknown pattern |
| Knowledge.SeedConsistent | server/aiBridge.ts:175-200 | the three seed entries have unique patterns and confidences within [10, 99] |
| Knowledge.LearnExisting | server/aiBridge.ts:270-279 | reinforcing an existing entry adds one vote, raises confidence by one hundredth up to 99, stamps `now`, replaces the solution only for source "internet", and leaves every other entry alone |
| Knowledge.LearnNew | server/aiBridge.ts:280-290 | an unknown pattern is appended with confidence 70, one vote, `now` and the given source |
| Knowledge.LearnKeepsPlaces | server/aiBridge.ts:266-290 | learning grows the store by at most one, keeps every pattern and source in place, and never lowers votes or confidence |
| Knowledge.LearnPreservesConsistent | server/aiBridge.ts:266-290 | learning keeps patterns unique and confidences within [10, 99] |
| Knowledge.LearnThenFind | server/aiBridge.ts:266-290 | after learning, the pattern is found, and learning it again does not grow the store |
| Knowledge.DecayExisting | server/aiBridge.ts:662-668 | negative feedback on a known pattern lowers its confidence by ten hundredths down to 10 and its votes by one, changing nothing else |
| Knowledge.DecayAbsent | server/aiBridge.ts:662-665 | negative feedback on an unknown pattern changes nothing |
| Knowledge.DecayPreservesConsistent | server/aiBridge.ts:662-668 | decay keeps the store's size, unique patterns and confidences within [10, 99] |
| Knowledge.RepeatedDecayFloor | server/aiBridge.ts:666 | any number of decays keeps the size and confidences at or above the floor |
| Knowledge.FindContained | server/aiBridge.ts:458-459 | the first entry whose pattern occurs in the text, ignoring case, with confidence above the threshold; none exactly when there is no such entry |
| Knowledge.FindConfident | server/aiBridge.ts:541-542 | an entry with the key up to case and confidence above the threshold; none exactly when there is no such entry |
| Knowledge.FindConfidentIsFindPattern | server/aiBridge.ts:602-603 | with unique patterns, the confident lookup is the exact lookup followed by the confidence test |
| Knowledge.KnowledgeStore.constructor | server/aiBridge.ts:175-200 | the store starts with the seed entries and is valid |
| Knowledge.KnowledgeStore.Find | server/aiBridge.ts:267-268 | the search loop returns the index the lookup specification gives |
| Knowledge.KnowledgeStore.Learn | server/aiBridge.ts:266-290 | the entries become the learned entries and the store stays valid |
| Knowledge.KnowledgeStore.Decay | server/aiBridge.ts:662-668 | the entries become the decayed entries and the store stays valid |
| Trends.FirstMention | server/aiBridge.ts:337-338 | the first trend whose keyword occurs in the lower-cased query; none exactly when no keyword does |
| Trends.TrendKeywordsLowerCase | server/aiBridge.ts:300-334 | every trend keyword is lower-case, so it can match a lower-cased query |
| Trends.MentionedKeywordAnswers | server/aiBridge.ts:337-346 | a query that contains a keyword in any case gets a trend no later than that keyword's, never the sentinel |
| Trends.SearchLearnsAnswer | server/aiBridge.ts:340-346 | after a hit the store holds the keyword with the returned text as its solution and grew by at most one; a miss changes nothing and answers the sentinel |
| Trends.TrendAnswer | server/aiBridge.ts:337-346 | the info of the first trend the query mentions, or the sentinel; it has no contract of its own, and MentionedKeywordAnswers states when it is not the sentinel |
| Trends.SearchInternetTrends | server/aiBridge.ts:296-348 | the answer is the table's answer for the query and the store becomes the store after the search |
| LearningStats.SourcePartition | server/aiBridge.ts:729-734 | the four bucket counts plus the entries with any other tag make up the whole store |
| LearningStats.BySourceCoversStore | server/aiBridge.ts:729-734 | the buckets sum to the store's size exactly when every tag is one of the four |
| LearningStats.NoUnreported | server/aiBridge.ts:729-734 | no entry is left out of the buckets exactly when every tag is one of the four |
| LearningStats.CountHighMonotone | server/aiBridge.ts:736 | raising confidences entry by entry never lowers the count of high-confidence entries |
| LearningStats.CountHigh | server/aiBridge.ts:736 | the entries above 80 hundredths number at most the store's size |
| LearningStats.LearningKeepsHighConfidence | server/aiBridge.ts:736 | learning never lowers the high-confidence count |
| LearningStats.DecayKeepsHighConfidence | server/aiBridge.ts:736 | decay never raises the high-confidence count |
| LearningStats.Insert | server/aiBridge.ts:739-740 | inserting into the sorted copy adds exactly the element |
| LearningStats.SortByVotes | server/aiBridge.ts:739-740 | the sorted copy is a permutation of the store |
| LearningStats.InsertSorted | server/aiBridge.ts:739-740 | insertion keeps the copy sorted by descending votes |
| LearningStats.SortByVotesSorted | server/aiBridge.ts:739-740 | the copy is sorted by descending votes |
| LearningStats.SortByVotesStable | server/aiBridge.ts:739-740 | the sort is stable: entries with equal votes keep their store order |
| LearningStats.TopPatternsSpec | server/aiBridge.ts:739-746 | at most five summaries, in descending votes, each of a store entry, none with fewer votes than an entry left out |
| LearningStats.TopPatterns | server/aiBridge.ts:739-746 | at most five rows, and no more than the store has entries |
| LearningStats.LearningStatsAccess | server/aiBridge.ts:709-754 | a caller without a non-zero id is unauthorized, a signed-in caller with no user row is not found, and the report is given exactly to a signed-in admin; it counts every entry, and the buckets and high-confidence count never exceed the total |
| LearningStats.GetLearningStats | server/aiBridge.ts:709-746 | a report goes only to a caller with a non-zero id, and its total is the store's size |
| TextAnalysis.WordPrefix | server/aiBridge.ts:842 | the longest leading run of word characters |
| TextAnalysis.SplitWords | server/aiBridge.ts:842 | splitting on runs of non-word characters gives at least one piece, each made of word characters |
| TextAnalysis.SplitJoinRoundTrip | server/aiBridge.ts:842 | splitting non-empty words joined by single spaces gives the words back |
| TextAnalysis.Qualifying | server/aiBridge.ts:845 | a word is kept iff it is longer than two characters and not a stopword |
| TextAnalysis.ExtractKeywordsSpec | server/aiBridge.ts:840-847 | the first five qualifying words, in order (all of them when there are at most five), each lower-case, made of word characters, longer than two and not a stopword |
| TextAnalysis.ExtractKeywords | server/aiBridge.ts:840-847 | at most five words, each longer than two characters and not a stopword |
| TextAnalysis.DetectIsFirstSignal | server/aiBridge.ts:849-868 | the language is the first in table order whose test the code passes, and "unknown" exactly when it passes none |
| TextAnalysis.DetectCodeLanguage | server/aiBridge.ts:849-868 | the answer is one of the five languages or "unknown" |
| Scanner.SpaceRun | server/aiBridge.ts:222-223 | the greedy white-space run of a regular expression |
| Scanner.StripWithoutCalls | server/aiBridge.ts:220 | code with no console call is left unchanged by the console fix |
| Scanner.FixAssignmentsAsWritten | server/aiBridge.ts:221 | the assignment fix as written, which inserts a literal "$2" |
| Scanner.AssignmentFixLosesText | server/aiBridge.ts:221 | "a=b=c" becomes "a==$2=c" as written, losing "b", while the corrected fix gives "a==b=c" |
| Scanner.FixAssignmentsKeepsText | server/aiBridge.ts:221 | the corrected fix only inserts '=' characters: removing every '=' gives the same text before and after |
| Scanner.FixAssignmentsGrows | server/aiBridge.ts:221 | the corrected fix never shortens the code |
| Scanner.MatchEmptyCatch | server/aiBridge.ts:223 | a match of the empty-catch expression starts with "catch" and ends with the block's braces |
| Scanner.FillEmptyCatchesAsWritten | server/aiBridge.ts:223 | the empty-catch fix as written, which only replaces adjacent "{}" |
| Scanner.EmptyCatchWithSpaceUnchanged | server/aiBridge.ts:223 | "catch (e) { }" is reported as an empty catch, but the fix as written leaves it unchanged, while the corrected fix fills it |
| Scanner.FillOneCatch | server/aiBridge.ts:223 | the corrected fix replaces the whole block of a matched empty catch with the handled block |
| Scanner.SwapMapFilterLength | server/aiBridge.ts:229 | the map/filter rewrite keeps the code's length |
| Scanner.SwapOneChain | server/aiBridge.ts:229 | ".map(a).filter(b)" becomes ".filter(b).map(a)" |
| Scanner.ReportOnlyRulesKeepCode | server/aiBridge.ts:222-230 | the TODO, for-loop and date rules never change the code |
| Scanner.StripConsoleCalls | server/aiBridge.ts:220 | removing the console statements never lengthens the code |
| Scanner.SwapMapFilter | server/aiBridge.ts:229 | the map/filter rewrite; it has no contract of its own, and SwapMapFilterLength and SwapOneChain state its properties |
| Scanner.Detects | server/aiBridge.ts:219-247 | whether a rule's pattern tests true on the code; a predicate with no contract, used by MessagesExactly |
| Scanner.Rewrite | server/aiBridge.ts:219-231 | a rule's rewrite: as written, rules 2 and 4 use the source's own rewrites (the literal "$2", the first "{}" only); the corrected versions are used only when asked for; it has no contract of its own, and ReportOnlyRulesKeepCode and RewritesAgree state its properties |
| Scanner.RewritesAgree | server/aiBridge.ts:219-231 | every rule other than the assignment and empty-catch rules rewrites the same way as written and corrected |
| Scanner.AppliedAgree | server/aiBridge.ts:234-247 | when no assignment or empty-catch rule fires on the original code, a table gives the same fixed code as written and corrected |
| Scanner.FixedCodeAgrees | server/aiBridge.ts:219-247 | the scanner as written and the corrected scanner give the same fixed code unless the assignment or empty-catch rule fires |
| Scanner.Messages | server/aiBridge.ts:234-247 | at most one message per rule |
| Scanner.MessagesExactly | server/aiBridge.ts:234-247 | a message is reported iff some rule with that message detects the original code |
| Scanner.MessagesDistinct | server/aiBridge.ts:234-247 | no message is reported twice when the rules' messages differ |
| Scanner.TablesDistinct | server/aiBridge.ts:219-231 | the messages of each rule table are distinct |
| Scanner.NothingDetectedNothingChanged | server/aiBridge.ts:234-247 | code that no rule detects gets no message and is returned unchanged |
| Scanner.ReportOnlyRulesIrrelevant | server/aiBridge.ts:234-247 | dropping the rules that only report does not change the fixed code |
| Scanner.RunRules | server/aiBridge.ts:234-247 | the loop over a rule table collects the messages of the rules that detect the original code and applies their rewrites, as written or corrected, to the running code |
| Scanner.AutoDetectAndFix | server/aiBridge.ts:206-260 | the issues and improvements are the messages of the rules that detect the original code, at most four and three, without repeats; the fixed code applies the error fixes and then the performance fixes, the source's own ones when asked for as written |
| Bridge.SubscriptionLevel | server/aiBridge.ts:359 | a missing plan and plan 0 mean level 1; any other plan is its own level |
| Bridge.RecordNames | server/aiBridge.ts:363 | the names of the allowed model rows, in order |
| Bridge.AllowedIdsGrant | server/aiBridge.ts:362-363 | an id is allowed iff some active row at or below the level has that name up to case |
| Bridge.SelectAtLevel | server/aiBridge.ts:362-375 | at a level, no model is chosen exactly when no active model of the type is granted, and a chosen model is granted, strongest among the granted ones, and the first of them in catalog order on a tie |
| Bridge.SelectAppropriateModelSpec | server/aiBridge.ts:353-379 | an unknown user gets no model; otherwise the choice at the user's level is the strongest active granted model of the type, the first in catalog order on a tie |
| Bridge.SelectAppropriateModel | server/aiBridge.ts:353-379 | an unknown user gets no model, and a chosen model is an active catalog model of the task's type |
| Bridge.ExplicitModelIgnoresEntitlement | server/aiBridge.ts:444-448 | a request naming a model gets it whatever the user's subscription, and exactly when the catalog has that id |
| Bridge.ResolveModel | server/aiBridge.ts:444-448 | the model is a catalog model; with an explicit id it has that id (and nothing else is checked), without one it is active and of the task's type |
| Bridge.FeedbackSize | server/aiBridge.ts:652-668 | a rating below 4 keeps the size; the store grows by one exactly when the rating is at least 4 and the pattern is new; it stays consistent |
| Bridge.ProcessFeedback | server/aiBridge.ts:640-680 | anonymous callers get an authorization error and a request missing a field gets the "required" error, both changing nothing; otherwise the store becomes the store after the feedback and its size is returned |
| Bridge.LearnKeepsFound | server/aiBridge.ts:266-290 | learning never loses a pattern that was found |
| Bridge.LearnedKeywordsConsistent | server/aiBridge.ts:482-487 | learning the keywords keeps the store consistent and grows it by at most the number of keywords |
| Bridge.LearnedKeywordsPresent | server/aiBridge.ts:482-487 | every keyword longer than four characters is in the store afterwards |
| Bridge.LearnedKeywordsOnlyLong | server/aiBridge.ts:482-487 | a pattern that was absent and matches no long keyword is still absent |
| Bridge.LearnedKeywords | server/aiBridge.ts:482-487 | the store after learning each keyword longer than four characters in order; it has no contract of its own, and the three lemmas above state its properties |
| Bridge.LearnFromPrompt | server/aiBridge.ts:482-487 | the learning step leaves the store equal to the store after learning each long keyword of the prompt in order |
| Bridge.LearnKeywords | server/aiBridge.ts:483-487 | the keyword loop keeps the store valid and learns each keyword longer than four characters, in order |
| Bridge.TrendingPromptsAnswered | server/aiBridge.ts:469-476 | a prompt mentioning react, typescript, javascript or database is trending and gets a trend; "ai" is trending but gets the sentinel |
| Bridge.AiAloneHasNoTrend | server/aiBridge.ts:469-476 | the prompt "ai" is trending but matches no trend keyword |
| Bridge.TrendingTopics | server/aiBridge.ts:469-471 | the five topics that send a prompt to the trend search; a table with no contract, used by TrendingPromptsAnswered |
| Bridge.FixSummaryInjective | server/aiBridge.ts:798-800 | the summary names both counts: different counts give different summaries |
| Bridge.FixSummary | server/aiBridge.ts:798-800 | the reply's summary line; it has no contract of its own, and FixSummaryInjective states that it names both counts |
| Bridge.LearnIssues | server/aiBridge.ts:786-790 | the issue loop leaves the store equal to the store after learning each issue in order |
| Bridge.AutoFixCode | server/aiBridge.ts:764-806 | the reply is given exactly to a signed-in user with code and a debugging model, with the specific error otherwise and the store unchanged; on success it carries the model's name, the scanner's findings, the fixed code of the scanner as written and the summary, and the store has learned each issue |
| ClientUtils.AgoInjective | client/src/lib/utils.ts:26-49 | a relative-time phrase names its count: different counts of one unit read differently |
| ClientUtils.TimeAgoSpec | client/src/lib/utils.ts:19-52 | under a minute is "just now"; otherwise the largest unit that fits, with at most 59 minutes, 23 hours, 29 days or 12 months |
| ClientUtils.TimeAgo | client/src/lib/utils.ts:19-52 | an empty date, and only an empty date, gives ""; less than a minute gives "just now" |
| ClientUtils.FutureIsJustNow | client/src/lib/utils.ts:24-51 | a date in the future reads "just now" |
| ClientUtils.Truncate | client/src/lib/utils.ts:54-57 | the empty string stays empty; a string that fits is kept; a longer one becomes its first `length` characters and "..." |
| ClientUtils.TruncateFixedPoint | client/src/lib/utils.ts:54-57 | truncation keeps a string exactly when it fits or already ends in "..." right after its first `length` characters |
| ClientUtils.TruncateTwice | client/src/lib/utils.ts:54-57 | truncating twice is the same as truncating once |
| ClientUtils.IconNamesNonEmpty | client/src/lib/utils.ts:72-120 | no icon name is empty, so the falsy fallback never hides a listed key |
| ClientUtils.GetTechnologyIcon | client/src/lib/utils.ts:71-92 | the icon is a listed icon name or "code", and it is not "code" exactly when the lower-cased name is listed |
| ClientUtils.TechnologyIconIgnoresCase | client/src/lib/utils.ts:91 | the lookup ignores letter case, and a listed name gets its icon |
| ClientUtils.LastPiece | client/src/lib/utils.ts:97 | the extension is the longest dot-free suffix of the name |
| ClientUtils.LastPieceOfDotted | client/src/lib/utils.ts:97 | the extension of "stem.ext" is "ext" when "ext" has no dot |
| ClientUtils.GetFileExtensionIcon | client/src/lib/utils.ts:94-123 | an empty name gets "file"; otherwise the icon of the lower-cased extension when it is listed, and "file" when it is not |
| ClientUtils.ExtensionIconOf | client/src/lib/utils.ts:97-122 | a name ending in ".ext" gets the icon of "ext" in any case, or "file" |
| ClientUtils.PropertyRead | client/src/lib/utils.ts:91-122 | reading an object literal gives the stored string, an inherited member of `Object.prototype`, or undefined |
| ClientUtils.TechnologyIconInheritedKey | client/src/lib/utils.ts:91 | as written, the technology "Constructor" gets the inherited `Object` constructor instead of an icon name |
| ClientUtils.GetTechnologyIconAsWritten | client/src/lib/utils.ts:91 | the lookup as written, on a plain object; it has no contract of its own, and TechnologyIconInheritedKey and OwnKeyLookupsAgree state its properties |
| ClientUtils.FileIconInheritedKey | client/src/lib/utils.ts:122 | as written, the file "x.constructor" gets the inherited `Object` constructor instead of an icon name |
| ClientUtils.GetFileExtensionIconAsWritten | client/src/lib/utils.ts:97-122 | the lookup as written, on a plain object; it has no contract of its own, and FileIconInheritedKey and OwnKeyLookupsAgree state its properties |
| ClientUtils.OwnKeyLookupsAgree | client/src/lib/utils.ts:91-122 | away from inherited names, the lookups as written and the own-key lookups agree |

## Left out

- HTTP handling is reduced to the decisions the handlers make: request parsing, status codes, JSON replies and the `catch` branches that answer 500 are not modelled. The `searchInternet` handler adds only a "Query is required" check around `searchInternetTrends`.
- `generateCode`, `refactorCode` and `generateArchitecture` are modelled only through the parts that touch the store and the model choice: the model resolution, the knowledge lookups and the keyword-learning loop. Their canned responses (`generateSimulatedResponse`, `generateSimulatedRefactoring`, `generateSimulatedArchitecture`) are fixed templates and are not modelled.
- `getAvailableModels` is not modelled. It matches catalog ids against allowed names by substring, not by equality.
- Timers and simulated latency are not modelled. Every `setTimeout` and `await` runs to completion before the next request, so the store is changed by one request at a time; the lost updates of concurrent requests are not captured.
- The clock is a parameter `now`. `timeAgo` takes milliseconds, and invalid dates (NaN times) are not modelled. `formatDate`, `formatCurrency` and `cn` are locale or library formatting and are not modelled.
- `avgConfidence` is not modelled. It is a floating-point mean that divides by zero on an empty store.
- Confidence is an integer count of hundredths, with exact steps of 1 and 10, where the source adds and subtracts binary floating-point numbers. The source's sums drift: 0.92 after some mixes of reinforcement (+0.01) and decay (-0.1) is 0.8000000000000002, not 0.8, and 0.89 after one reinforcement and two decays is 0.7000000000000001. So the strict thresholds of Knowledge.FindContained, Knowledge.FindConfident and LearningStats.CountHigh (above 0.8, above 0.7) can accept in the source an entry the model, at exactly 80 or 70, rejects. The float drift is not modelled.
- A feedback rating is an integer; fractional and non-numeric ratings are not modelled.
- `toLowerCase` is modelled on ASCII letters only; other Unicode case mappings are not.
- ClientUtils.Truncate: counts characters as Unicode scalar values, where `length` and `substring` count UTF-16 code units. A character outside the Basic Multilingual Plane counts once here and twice in the source, so `truncate("😀😀", 2)` keeps both emoji here but gives the first emoji and "..." in the source. The same holds for every length and index in the model; UTF-16 encoding is not modelled.
- Storage.PaymentsByProvider: counts providers in a Dafny map. The source's plain-object accumulator would mis-count providers named "constructor" or "__proto__", and that is not modelled.
- The database behind the storage layer is a sequence of rows. SQL ordering, `returning()` of several rows and errors are not modelled.

## Findings

| source | as written | input that shows it | evidently intended | confidence | as-written member | corrected member |
|---|---|---|---|---|---|---|
| server/aiBridge.ts:221 | the fix replaces `([^=!])=[^=]` with "$1==$2", but the pattern has one capture group, so "$2" is inserted literally and the character after the `=` is lost | "a=b=c" becomes "a==$2=c" | turn `x=y` into `x==y`, keeping every other character | high (not executed) | Scanner.AssignmentFixLosesText | Scanner.FixAssignmentsKeepsText |
| server/aiBridge.ts:223 | the empty-catch fix replaces the literal "{}" inside each match, but the pattern allows white space between the braces | "catch (e) { }" is reported as an empty catch and left unchanged | fill every matched empty block | high (not executed) | Scanner.EmptyCatchWithSpaceUnchanged | Scanner.FillOneCatch |
| client/src/lib/utils.ts:91-122 | icon lookups read plain object literals, so the inherited names of `Object.prototype` are found too | the technology "Constructor" and the file "x.constructor" get the `Object` function instead of an icon name | look only at the table's own keys and fall back to "code" or "file" | medium (not executed) | ClientUtils.FileIconInheritedKey | ClientUtils.GetFileExtensionIcon |
