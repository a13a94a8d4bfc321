# quizblitz in Dafny

A model of the core of quizblitz, a trivia quiz web application that plays
questions from the Open Trivia Database (OpenTDB). The model covers:
- the quiz session of the Play page;
- the Fisher–Yates shuffle and the answer builder that turns a raw OpenTDB
  question into ids and labels;
- the per-question timer and its `formatMs` readout;
- the review of the Results page;
- the settings rules of the Home page;
- the `/play` access rule;
- the OpenTDB service: the cross-tab request cooldown, the questions query
  and the category fetch with its time-to-live cache.

The modules, in dependency order:

| file | module | what it holds |
|---|---|---|
| `common.dfy` | `Common` | `Option`, the fetch error (an abort or a failure with a message), decimal digits and `NatToString` |
| `jsnumber.dfy` | `JsNumber` | JavaScript numbers as exact decimals plus NaN and ±Infinity; `Number(string)`, `String(number)`, subtraction and comparison |
| `jsvalue.dfy` | `JsValue` | JavaScript values with truthiness, `??`, property access (a TypeError on null or undefined), `String(v)` and `Number(v)` |
| `quiz.dfy` | `Quiz` | items, answers, review entries, the result record and the scoring rule `chosenId && chosenId === correctId` |
| `shuffle.dfy` | `Shuffle` | `shuffle`, driven by an explicit sequence of random draws |
| `questions.dfy` | `QuestionBuilder` | the `results.map(...)` that builds an item from a raw question |
| `timer.dfy` | `Timer` | `PER_Q_MS`, `formatMs`, the remaining time and the drift-free tick delay |
| `review.dfy` | `Review` | the Results page: the redirect guard and each review row with its badge, style and labels |
| `engine.dfy` | `Engine` | the Play page as a class `Session`, one method per effect or handler; also the question-fetch arguments |
| `opentdb.dfy` | `OpenTdb` | the service: the browser state (clock and `localStorage`) as a class `Browser`, with pure specifications of each call |
| `home.dfy` | `Home` | the Home page as a class `HomePage`, the category fallback and the disabled rules |
| `playgate.dfy` | `PlayGate` | `canAccess` |

Effects outside the program are parameters:
- The clock is `now`, or the `clock` field of the browser state.
- A `setTimeout` that fires late is the parameter `lateness`.
- The network round trip of a fetch is `latency`, and its outcome is a `Response`.
- `Math.random` is the sequence of draws `picks`.
- The HTML entity decoder is a function `decode`.
- `JSON.parse` and `JSON.stringify` are the functions `parse` and `stringify`. Lemmas that need them to be inverse say so in their `requires`. That premise does not hold for a category list built from elements without an `id` or a `name`: `{id: c.id, name: c.name}` then holds `undefined` fields, which `JSON.stringify` drops, so the list read back from the cache equals the saved one only up to property reads (a missing field reads as `undefined` either way), not structurally.

Each state-changing handler is a method. It is proved against a pure
function of the old state: `AdvanceOnTimeout` for the engine, and
`AfterCooldown` and `FetchCategoriesCall` for the service. What the source
promises is proved about those functions as lemmas.

A few behaviours of the code are worth noting:
- A category list that holds `null` or `undefined` does not come out empty. Both `c.id` in `fetchCategories` and `categories.some(...)` on the Home page throw. In the model both give `None` (`NormalizeList`, `CategoryListed`), and `MissResult` turns the `None` of `NormalizeList` into the rejection `Rejected(NullishError(..))`, that TypeError.
- `isCorrect` is `chosen != null && selectedId === correctId`, so a correct pick whose label is empty counts as correct. The badge title then says "Correct", but the badge and the answer text get the style `none` of an unanswered question, and the printed answer is the empty label itself, since `chosen ?? 'No answer'` keeps "" (`StyleAgreesWithBadge`). A wrong pick whose label is empty is titled "No answer" and also prints "" (`EmptyChosenLabelIsNoAnswer`).
- The amount is read at two different points. The Play page sends `Number(settings.amount ?? 10)`, so the service's own default of 10 never applies to it (`Engine.FetchArgsQuery`). The `/play` gate reads the amount from the URL, which the Home page never sets. The gate therefore refuses the route Home navigates to (`PlayGate.RefusedAmounts` with a missing parameter).

## Model

| member | source | states |
|---|---|---|
| Common.MapSeq | src/pages/Play.jsx:104 | `map` keeps the length, and element k of the result is f of element k |
| Common.NatToString | src/services/opentdb.js:27 | `String(n)` of a whole number is a non-empty run of digits, a single digit exactly when n < 10 |
| Common.DigitsOfNatToString | src/services/opentdb.js:27 | the digits `String(n)` writes have the value n |
| Common.NatToStringInjective | src/pages/Play.jsx:113 | different numbers are written as different numerals, so the indices in `q<i>-i<k>` cannot collide |
| Quiz.Scores | src/pages/Play.jsx:186-190 | the scoring test `chosenId && chosenId === correctId`; `Review.IsCorrectMatchesScoring` shows the review agrees with it and `Engine.AdvanceCases` scores by it |
| JsNumber.Normalize | src/services/opentdb.js:20 | a decimal is brought to a canonical form of the same value |
| JsNumber.ReadDecimal | src/pages/gates/PlayGate.jsx:7 | an exact decimal m / 10^s reads as an infinity of its sign exactly when its magnitude reaches 2^1024 − 2^970, and otherwise as the finite number of that value |
| JsNumber.StringToNumber | src/pages/gates/PlayGate.jsx:7 | `Number(s)` always yields a canonical number |
| JsNumber.StringToNumberBounded | src/pages/gates/PlayGate.jsx:7 | a finite `Number(s)` lies strictly between ±(2^1024 − 2^970), the magnitudes at which a numeral reads as an infinity |
| JsNumber.StringToNumberOfNat | src/services/opentdb.js:20 | `Number(String(n))` is n for a whole number n below 2^1024 − 2^970, and Infinity from there on |
| JsNumber.StringToNumberOfDigits | src/pages/Home.jsx:75 | `Number` of a run of digits is the number those digits write, or Infinity once that number reaches 2^1024 − 2^970 |
| JsNumber.ParseUnsignedOfDigits | src/pages/Home.jsx:75 | an unsigned decimal made of digits only reads as its digit value |
| JsNumber.TrimOfDigits | src/pages/Home.jsx:75 | trimming leaves a run of digits unchanged |
| JsNumber.DigitPrefixOfDigits | src/pages/Home.jsx:75 | the digit prefix of a run of digits is all of it |
| JsNumber.NotNonDecimal | src/pages/Home.jsx:75 | a string whose second character is a digit is not a 0x/0o/0b literal |
| JsNumber.SkipAllBlanks | src/pages/gates/PlayGate.jsx:7 | skipping white space over blanks reaches the end |
| JsNumber.BlankIsZero | src/pages/gates/PlayGate.jsx:7 | `Number` of an empty or all-white-space string is 0 |
| JsNumber.OneAndAHalf | src/pages/gates/PlayGate.jsx:7 | `Number("1.5")` is 1.5 |
| JsNumber.NotNumbers | src/pages/gates/PlayGate.jsx:7 | `Number("abc")` and `Number(".")` are NaN |
| JsNumber.Infinities | src/pages/gates/PlayGate.jsx:7 | `Number("Infinity")` and `Number("-Infinity")` are the infinities |
| JsNumber.SubFinite | src/services/opentdb.js:21 | the difference of two finite numbers is finite |
| JsNumber.SubIsExact | src/services/opentdb.js:21-22 | `now - lastReqTime` of finite numbers is finite and has the exact difference as value |
| JsNumber.Sub | src/services/opentdb.js:21-22 | subtraction; `SubIsExact` and `SubFinite` state it on finite numbers |
| JsNumber.Less | src/services/opentdb.js:23 | `<`; `CompareFinite` states it |
| JsNumber.GreaterEq | src/pages/gates/PlayGate.jsx:8 | `>=`; `CompareFinite` and `GreaterEqTransitive` state it |
| JsNumber.NumberToString | src/services/opentdb.js:27 | `String(x)`; `OpenTdb.StampOfNat` shows it writes a whole number as its numeral |
| JsNumber.Trim | src/pages/gates/PlayGate.jsx:7 | the white space `Number` ignores; `TrimOfDigits` and `BlankIsZero` state it |
| JsNumber.ValueOfInt | src/services/opentdb.js:19 | an integer as a number has that integer as value |
| JsNumber.CompareFinite | src/pages/gates/PlayGate.jsx:8 | `<` and `>=` on finite numbers compare their values; NaN compares false both ways; +Infinity is at least anything but NaN; −Infinity is below every finite number |
| JsNumber.GreaterEqTransitive | src/pages/gates/PlayGate.jsx:8 | `>=` is transitive |
| JsValue.IsTruthy | src/services/opentdb.js:49-50 | JavaScript truthiness; `OpenTdb.Query` and `Engine.FetchArgsQuery` state what it lets through |
| JsValue.ToJsString | src/pages/Home.jsx:45 | `String(v)`; `CoercionExamples` states it |
| JsValue.ToNumber | src/pages/Play.jsx:49 | `Number(v)`; `CoercionExamples` states it |
| JsValue.Coalesce | src/pages/Play.jsx:49-51 | `v ?? d` is d exactly for null and undefined, otherwise v |
| JsValue.Get | src/services/opentdb.js:97 | reading a property throws a TypeError exactly on null and undefined |
| JsValue.OptGet | src/services/opentdb.js:96 | `v?.key` is undefined on null and undefined, and the field (undefined when missing) on an object |
| JsValue.CoercionExamples | src/pages/Home.jsx:45 | `String` of a number id and of a string id agree, `String(undefined)` is "undefined", `Number(null)` is 0, `Number(undefined)` is NaN, and an array prints its null elements as "" |
| Shuffle.FisherYates | src/pages/Play.jsx:8-15 | the shuffle as a function of the draws; the method `Shuffle.Shuffle` computes it, and `FisherYatesPermutes`, `FisherYatesKeepsDistinct` and `FisherYatesCommutesWithMap` state its properties |
| Shuffle.Swap | src/pages/Play.jsx:12 | the destructuring swap exchanges positions i and j and keeps every other element |
| Shuffle.Shuffle | src/pages/Play.jsx:8-15 | the loop on a copy computes the Fisher–Yates function of the draws, and its result is a permutation of the input |
| Shuffle.SwapPermutes | src/pages/Play.jsx:12 | a swap keeps the multiset of elements |
| Shuffle.ShuffleFromPermutes | src/pages/Play.jsx:10-13 | every suffix of the loop keeps the length and the multiset of elements |
| Shuffle.FisherYatesPermutes | src/pages/Play.jsx:8-15 | the shuffle keeps the length and the multiset of elements |
| Shuffle.ShuffleFromKeepsDistinct | src/pages/Play.jsx:10-13 | the loop keeps distinct elements distinct |
| Shuffle.FisherYatesKeepsDistinct | src/pages/Play.jsx:8-15 | the shuffle of distinct elements has distinct elements |
| Shuffle.ShuffleFromCommutesWithMap | src/pages/Play.jsx:10-13 | the loop commutes with mapping a function over the elements |
| Shuffle.FisherYatesCommutesWithMap | src/pages/Play.jsx:118-125 | shuffling then projecting the ids (or labels) is projecting then shuffling |
| Shuffle.IdentityDrawsKeepOrder | src/pages/Play.jsx:11 | the draws j = i leave the order unchanged |
| QuestionBuilder.CorrectAnswerId | src/pages/Play.jsx:108 | the id `q<i>-c`; `CorrectIdIsNotIncorrect` separates it from every incorrect id |
| QuestionBuilder.IncorrectAnswerId | src/pages/Play.jsx:113 | the id `q<i>-i<k>`; `IncorrectIdsDiffer` shows it is injective in k |
| QuestionBuilder.BuildItem | src/pages/Play.jsx:101-127 | one raw question to one item; `BuildItemSound` states what the item holds |
| QuestionBuilder.BuildItems | src/pages/Play.jsx:101-128 | `results.map(...)`; `BuildItemsSound` states what the items hold |
| QuestionBuilder.FindCorrect | src/pages/Play.jsx:119 | `find(o => o.isCorrect)` returns an element that is correct, and is absent only when no element is |
| QuestionBuilder.CorrectIdIsNotIncorrect | src/pages/Play.jsx:108-113 | the id `q<i>-c` differs from every `q<i>-i<k>` |
| QuestionBuilder.IncorrectIdsDiffer | src/pages/Play.jsx:113 | different k give different ids `q<i>-i<k>` |
| QuestionBuilder.ExpectedIdsDistinct | src/pages/Play.jsx:106-117 | the ids of one question's options are distinct |
| QuestionBuilder.BuiltIdsAreShuffledIds | src/pages/Play.jsx:106-125 | the built item's answer ids are the shuffle of the option ids |
| QuestionBuilder.BuiltLabelsAreShuffledLabels | src/pages/Play.jsx:102-125 | the built item's labels are the shuffle of the decoded correct and incorrect labels |
| QuestionBuilder.BuiltCorrectAnswer | src/pages/Play.jsx:118-126 | `correctId` is `q<i>-c`, and an answer with that id carries the decoded correct label |
| QuestionBuilder.BuildItemSound | src/pages/Play.jsx:101-127 | the item has the decoded question and one answer per option, with distinct ids that are a permutation of the option ids; exactly one answer has `correctId` and it carries the correct label; the labels are a permutation of the decoded labels |
| QuestionBuilder.RebuildAgrees | src/pages/Play.jsx:118-119 | whatever the random draws, `correctId` and the multiset of labels are the same |
| QuestionBuilder.BuildItemsSound | src/pages/Play.jsx:101-128 | one well-formed item per raw question, item i having correct id `q<i>-c` and one answer per option |
| Timer.FormatMs | src/pages/Play.jsx:18-22 | `formatMs`; `FormatMsReadsBack` and `FullTimeReadout` state its output |
| Timer.NextDelay | src/pages/Play.jsx:174 | `1000 - (now % 1000)` with the JavaScript remainder; `NextDelayAligns` states where the next tick lands |
| Timer.JsRem | src/pages/Play.jsx:174 | JavaScript `%` takes the sign of the dividend |
| Timer.FormatMsReadsBack | src/pages/Play.jsx:18-22 | `formatMs` is two digits and "s", and the digits read back as `max(0, floor(ms/1000)) % 60` |
| Timer.FullTimeReadout | src/pages/Play.jsx:54 | a full question's time reads "20s" |
| Timer.Remaining | src/pages/Play.jsx:167 | the remaining time is non-negative, zero exactly at or after the deadline, and otherwise exactly the time to the deadline |
| Timer.NextDelayAligns | src/pages/Play.jsx:174 | the next tick lands on a whole second, between 1 and 1000 ms ahead for a non-negative clock |
| Review.CorrectLabel | src/pages/Results.jsx:42-44 | the `correct` label; `CorrectLabelNamesCorrectAnswer` shows it names an answer with the correct id |
| Review.IsCorrect | src/pages/Results.jsx:50-52 | `chosen != null && selectedId === correctId`; `IsCorrectMatchesScoring` and `BadgeCases` state when it holds |
| Review.BadgeOf | src/pages/Results.jsx:58-78 | the badge of a row; `BadgeCases` gives its three cases and `StyleAgreesWithBadge` relates it to the style |
| Review.BadgeTitle | src/pages/Results.jsx:58-71 | the label and title of a badge; `BadgeTitleNamesBadge` shows the titles are distinct |
| Review.BadgeTitleNamesBadge | src/pages/Results.jsx:58-71 | two badges have the same title exactly when they are the same badge |
| Review.StyleOf | src/pages/Results.jsx:72 | `chosen ? (isCorrect ? 'ok' : 'bad') : 'none'`; `StyleAgreesWithBadge` relates it to the badge |
| Review.RowOf | src/pages/Results.jsx:41-104 | one printed row; `BadgeCases` and `EmptyChosenLabelIsNoAnswer` state its badge and answer text |
| Review.ResultsPage | src/pages/Results.jsx:9-15 | the redirect or the review; `ResultsPageShape` states its shape |
| Review.FindLabel | src/pages/Results.jsx:42-48 | the label lookup finds nothing exactly when no answer has the id |
| Review.FindLabelFirstMatch | src/pages/Results.jsx:42-48 | a found label is that of the first answer with the id |
| Review.Chosen | src/pages/Results.jsx:45-49 | the chosen label is absent exactly when nothing truthy was selected or no answer has that id; otherwise it is the label of an answer with that id |
| Review.StyleAgreesWithBadge | src/pages/Results.jsx:72 | the style is "bad" exactly for an Incorrect badge and "ok" only for a Correct one; a Correct badge is styled otherwise exactly when the correct answer's label is empty |
| Review.ResultsPageShape | src/pages/Results.jsx:13-15 | no result redirects to "/"; a result shows its score and total and one row per review entry with its badge |
| Review.BadgeCases | src/pages/Results.jsx:50-78 | Correct exactly for a truthy selection equal to an existing correct id; Incorrect for a wrong non-empty chosen label; No answer otherwise, and that row prints `chosen ?? 'No answer'` |
| Review.CorrectLabelNamesCorrectAnswer | src/pages/Results.jsx:42-44 | the "Correct" label is that of an answer with the correct id |
| Review.IsCorrectMatchesScoring | src/pages/Results.jsx:50-52 | the review's `isCorrect` agrees with the scoring rule of the Play page |
| Review.CountCorrect | src/pages/Results.jsx:50-52 | the number of correct rows is at most the number of rows |
| Review.EmptyChosenLabelIsNoAnswer | src/pages/Results.jsx:45-78 | a wrong pick whose label is "" is shown as No answer with an empty answer text |
| Engine.FetchArgs | src/pages/Play.jsx:49-51 | the arguments of the questions fetch; `FetchArgsQuery` states the query they produce |
| Engine.FetchArgsQuery | src/pages/Play.jsx:49-51 | the amount is always sent, as `String(Number(settings.amount ?? 10))`; category and difficulty are sent exactly when truthy |
| Engine.DefaultSettingsQuery | src/context/QuizContext.jsx:8-12 | the default settings ask for `amount=5` and nothing else |
| Engine.Gain | src/pages/Play.jsx:189-193 | the point one question earns; `CountScored` sums it, and `Engine.AdvanceCases` raises the score by one exactly when it is earned |
| Engine.Consistent | src/pages/Play.jsx:38-56 | the session invariant; `AdvanceKeepsInvariant` and the `Session` methods preserve it |
| Engine.TallyHolds | src/pages/Play.jsx:186-207 | the score equals the scored count; `AdvanceKeepsInvariant` and `TimeoutsFinishRun` keep it |
| Engine.Zip | src/pages/Play.jsx:200-205 | the review has one entry per item, carrying its question, answers, correct id and selection |
| Engine.CountScored | src/pages/Play.jsx:186-193 | at most one point per scored question |
| Engine.CountScoredPrefix | src/pages/Play.jsx:186-193 | the score of the first k questions depends only on their selections |
| Engine.ReviewCountsScore | src/pages/Play.jsx:186-207 | the correct rows of the review's first k entries number the points scored on the first k questions |
| Engine.AdvanceOnTimeout | src/pages/Play.jsx:183-213 | advancing keeps the current question in range |
| Engine.AdvanceCases | src/pages/Play.jsx:183-213 | nothing changes once finished or without items; the score rises by one exactly when the selection scores; before the last question only `current` moves on; at the last the run finishes, the deadline clears, playing stops and the result is the score, the total and the full review |
| Engine.AdvanceKeepsInvariant | src/pages/Play.jsx:183-213 | advancing keeps the session invariant and the score tally |
| Engine.Timeouts | src/pages/Play.jsx:158-213 | repeated timeouts keep the current question in range |
| Engine.TimeoutsFinishRun | src/pages/Play.jsx:183-213 | n timeouts from question c finish the run exactly when c + n reaches the total; the score is then the scored count; a finished run publishes the full result and stops playing |
| Engine.Session.constructor | src/pages/Play.jsx:38-56 | the initial state: idle, no items, score 0, 20 s on the clock, no deadline and no result |
| Engine.Session.Start | src/pages/Play.jsx:69-88 | the reset: loading, no error, no result, playing, no items, question 0, score 0, a full timer and no deadline |
| Engine.Session.LoadSucceeded | src/pages/Play.jsx:89-133 | no results give ready with no items and stop playing; otherwise the items are the built questions, selections start empty, and the status is ready |
| Engine.Session.LoadFailed | src/pages/Play.jsx:135-140 | an abort changes nothing; another error shows its message (or "Failed to load"), sets the error status and stops playing, changing nothing else |
| Engine.Session.Abandon | src/pages/Play.jsx:142-145 | the cleanup aborts the fetch and stops playing |
| Engine.Session.ArmTimer | src/pages/Play.jsx:150-155 | with items and not finished, the deadline is now + 20 s, the readout is full and the tick loop may start; otherwise nothing changes |
| Engine.Session.AutoAdvance | src/pages/Play.jsx:183-213 | the handler computes `AdvanceOnTimeout` and keeps the invariant and the tally |
| Engine.Session.Tick | src/pages/Play.jsx:162-176 | without a deadline nothing happens; otherwise the readout becomes the remaining time, with time left the next tick is aligned to the second, and at zero the session advances |
| Engine.Session.OnSelect | src/pages/Play.jsx:215-222 | once finished nothing changes; otherwise only entry q of the selections becomes the answer id; the tally holds for a question not yet scored |
| Engine.FinishedResultAgreesWithReview | src/pages/Play.jsx:196-209 | a finished run's result has score ≤ total = review length, and the review's correct rows number exactly the score |
| Engine.ScoreBounded | src/pages/Play.jsx:189-207 | the score never exceeds the number of items; a finished run's total is the number of items and equals the review length |
| OpenTdb.LastRequestAt | src/services/opentdb.js:20 | `Number(getItem(...) || 0)`; `OwnStampReadsBack`, `CooldownMissingStamp` and `CooldownOddStamps` state what it reads |
| OpenTdb.WaitMs | src/services/opentdb.js:21-22 | `minMs - (now - lastReqTime)`; `CooldownFromInt` states the sleep it leads to for a whole stamp, and `CooldownOddStamps` its sign for a stamp of "Infinity" |
| OpenTdb.GetItem | src/services/opentdb.js:20 | `getItem` is null exactly for a missing key |
| OpenTdb.TimerDelay | src/services/opentdb.js:7 | the delay `setTimeout` uses is at most 2^31 − 1, is the wait itself for a whole wait in range, and is 0 for NaN and ±Infinity |
| OpenTdb.CooldownFrom | src/services/opentdb.js:17-31 | the cooldown from a stored stamp never moves the clock back and keeps storage availability |
| OpenTdb.AfterCooldown | src/services/opentdb.js:17-31 | `ensureCooldown` never moves the clock back and keeps storage availability |
| OpenTdb.SubInts | src/services/opentdb.js:21 | subtracting two integer numbers gives their integer difference |
| OpenTdb.StampOfNat | src/services/opentdb.js:27 | `String(Date.now())` of a whole clock is its decimal numeral |
| OpenTdb.TimeValuesAreFinite | src/services/opentdb.js:19 | the largest clock value a `Date` holds, 8.64 × 10^15 ms, is far below the magnitude at which a numeral reads as Infinity |
| OpenTdb.OwnStampReadsBack | src/services/opentdb.js:20-27 | a stamp the cooldown wrote, of a time a `Date` can hold, reads back as its clock value |
| OpenTdb.CooldownFromInt | src/services/opentdb.js:20-27 | with a past whole stamp, the clock stays if minMs has elapsed and otherwise becomes stamp + minMs + lateness; the store gets the new stamp when writable |
| OpenTdb.CooldownSpacing | src/services/opentdb.js:17-31 | after the cooldown at least minMs has passed since the stored request, the clock is exactly as above, and the new stamp is written when storage is writable |
| OpenTdb.Later | src/services/opentdb.js:52 | time passing moves only the clock |
| OpenTdb.ConsecutiveStampsSpaced | src/services/opentdb.js:17-31 | two cooldowns in a row, with any time between them, each leave a stamp of their own time, and while the first stamp is a time a `Date` can hold the second is at least minMs after it |
| OpenTdb.CooldownMissingStamp | src/services/opentdb.js:20 | a missing or empty stamp reads as 0, so the cooldown waits only while the clock is below minMs |
| OpenTdb.CooldownOddStamps | src/services/opentdb.js:20-25 | a stamp that is not a number means no wait; a stamp of "Infinity" gives a positive wait that the timer treats as 0 |
| OpenTdb.CooldownStorageFailures | src/services/opentdb.js:18-30 | unreadable storage skips the cooldown entirely; unwritable storage keeps the store; otherwise the stamp is `String(Date.now())` |
| OpenTdb.Lookup | src/services/opentdb.js:45-50 | a parameter found in the query is one of its pairs |
| OpenTdb.LookupAppend | src/services/opentdb.js:46-50 | appending a parameter changes a lookup only when the name was absent and matches |
| OpenTdb.Query | src/services/opentdb.js:38-50 | the query always has `amount` (10 when undefined); `category` and `difficulty` appear exactly when truthy, as `String` of the value; names are distinct and the length counts them |
| OpenTdb.QueryExample | src/services/opentdb.js:38-50 | `{amount:5, '', ''}` sends only `amount=5`; a missing amount with category 9 and "easy" sends all three, amount 10 first |
| OpenTdb.QuestionsOutcome | src/services/opentdb.js:52-57 | a transport error rejects with it; a non-ok status rejects with "OpenTDB request failed: " and the status; otherwise the body is returned |
| OpenTdb.NormalizeList | src/services/opentdb.js:97 | mapping `{id, name}` throws exactly when an element is null or undefined; otherwise entry k is `{id, name}` of element k |
| OpenTdb.NullishError | src/services/opentdb.js:97 | the error of the throwing map is the TypeError for reading `id` of null or of undefined |
| OpenTdb.MissResult | src/services/opentdb.js:91-98 | a transport error rejects with it; a non-ok status rejects with "OpenTDB categories failed: " and the status; an ok body is returned normalized, or rejects with the TypeError when the map throws |
| OpenTdb.AfterRequest | src/services/opentdb.js:89-91 | the cooldown and the request keep storage availability |
| OpenTdb.SaveCache | src/services/opentdb.js:101-108 | saving the cache moves no time and keeps storage availability |
| OpenTdb.CacheHitCondition | src/services/opentdb.js:70-86 | no request is made exactly when a readable, non-empty, parsable cache record is truthy, has a number `fetchedAt` and an array `data`, and is younger than the TTL; then the cached data is returned and nothing changes |
| OpenTdb.Fresh | src/services/opentdb.js:74-78 | the freshness test of a parsed record; `FreshByAge` states it for a well-shaped record |
| OpenTdb.CachedCategories | src/services/opentdb.js:70-86 | the cache read; `CacheHitCondition` and `SavedListIsServed` state when it serves |
| OpenTdb.Normalized | src/services/opentdb.js:96-98 | the normalized list; `NormalizedShape` states its cases |
| OpenTdb.CacheRecord | src/services/opentdb.js:104 | the saved record `{ fetchedAt, data }`; `SavedListIsServed` reads it back |
| OpenTdb.FetchCategoriesCall | src/services/opentdb.js:65-111 | `fetchCategories` on values; `CacheHitCondition`, `MissFetchesAndSaves` and `CacheRoundTrip` state its outcomes |
| OpenTdb.FreshByAge | src/services/opentdb.js:74-78 | a well-shaped record is fresh exactly when `now - fetchedAt < ttlMs` |
| OpenTdb.MissFetchesAndSaves | src/services/opentdb.js:88-110 | on a miss, the cooldown runs, the request takes its latency, and the result is saved with `fetchedAt` = now when it resolved and storage is writable; otherwise the store is left as the cooldown left it |
| OpenTdb.UnreadableStoreAlwaysFetches | src/services/opentdb.js:70-89 | unreadable storage always goes to the network, without cooldown |
| OpenTdb.SavedListIsServed | src/services/opentdb.js:70-108 | a list just saved is served from the cache for any later call within the TTL |
| OpenTdb.CacheRoundTrip | src/services/opentdb.js:65-111 | after a fetched list is saved, a second call within the TTL makes no request and returns the same list |
| OpenTdb.NormalizedShape | src/services/opentdb.js:96-98 | a body without a `trivia_categories` array gives []; an array without null elements gives one `{id, name}` per element; a throwing map rejects the call |
| OpenTdb.Browser.constructor | src/services/opentdb.js:17-31 | the browser starts in the given state |
| OpenTdb.Browser.Elapse | src/services/opentdb.js:7 | waiting advances only the clock |
| OpenTdb.Browser.EnsureCooldown | src/services/opentdb.js:17-31 | the method leaves the browser in `AfterCooldown` of its old state |
| OpenTdb.Browser.BuildQuery | src/services/opentdb.js:45-50 | the imperative query builder produces `Query(args)` |
| OpenTdb.Browser.FetchOpenTdbRaw | src/services/opentdb.js:37-58 | the cooldown runs, then the request takes its latency; the query sent is `Query(args)` and the outcome is `QuestionsOutcome` |
| OpenTdb.Browser.ReadCache | src/services/opentdb.js:70-86 | the cache read yields `CachedCategories` of the current state |
| OpenTdb.Browser.FetchCategories | src/services/opentdb.js:65-111 | the method's new state, result and network use are those of `FetchCategoriesCall` on the old state |
| Home.CategoryListed | src/pages/Home.jsx:44-46 | `categories.some(...)`; `CategoryListedTrue`, `CategoryListedFalse` and `NoNullNeverThrows` state its three answers |
| Home.Fallback | src/pages/Home.jsx:42-50 | the fallback effect on values; `FallbackRule` and `FallbackIdempotent` state it |
| Home.StartDisabled | src/pages/Home.jsx:140-143 | the Start rule; `DisabledRules` and `StartableDrafts` state it |
| Home.SelectDisabled | src/pages/Home.jsx:110-112 | the select rule; `DisabledRules` relates it to Start |
| Home.CategoryListedTrue | src/pages/Home.jsx:44-46 | `some` answers true exactly when some element's id reads as the category and no earlier element is null or matches |
| Home.CategoryListedFalse | src/pages/Home.jsx:44-46 | `some` answers false exactly when no element is null and none matches |
| Home.NoNullNeverThrows | src/pages/Home.jsx:44-46 | without null elements the search never throws |
| Home.FallbackRule | src/pages/Home.jsx:42-50 | the fallback acts only when ready, touches only the category, and clears it exactly when the list does not offer it |
| Home.FallbackIdempotent | src/pages/Home.jsx:42-50 | running the fallback again changes nothing |
| Home.DisabledRules | src/pages/Home.jsx:110-112 | Start is disabled only while loading with a drafted category; then the select is disabled too; after a failure the select is disabled and Start is not |
| Home.StartableDrafts | src/pages/Home.jsx:42-50 | while loading Start can submit only "Any"; once ready and the fallback has settled, only "Any" or a listed category; after a failed load any drafted category, although the hint says "Any category" is used |
| Home.HomePage.ErrorHint | src/pages/Home.jsx:128-132 | the hint under the select is shown exactly after a failed load and starts with the non-empty error text |
| Home.LoadErrorText | src/pages/Home.jsx:34 | the shown error is never empty, and is the error's own message when that is non-empty |
| Home.FieldValue | src/pages/Home.jsx:67-76 | what `e.target.value` of the `type="number"` field reports: the typed text when it is an HTML valid floating-point number (optional `-`, digits and/or `.` with digits, optional exponent), otherwise ""; `AmountFieldReadings` states it for numerals, ".5", "-.5", "5." and non-numeric text |
| Home.AmountFieldReadings | src/pages/Home.jsx:67-76 | the field reports the numeral of n unchanged and it is stored as n (Infinity from 2^1024 − 2^970 on); ".5" and "-.5" are reported unchanged while "5." is not; an empty field and non-numeric text such as "abc" both reach `Number` as "" and are stored as 0, never NaN |
| Home.HomePage.constructor | src/pages/Home.jsx:8-13 | the draft starts as the persisted settings, with no categories, idle status and no error |
| Home.HomePage.BeginLoad | src/pages/Home.jsx:24-25 | loading starts with no error; the select is disabled, and Start is disabled exactly when a category is drafted |
| Home.HomePage.LoadResolved | src/pages/Home.jsx:28-31 | the list is stored and the status is ready; neither the select nor Start is disabled |
| Home.HomePage.LoadRejected | src/pages/Home.jsx:32-36 | an abort changes nothing; any other error is kept as its non-empty text and the status becomes the error status, with the select disabled and Start enabled |
| Home.HomePage.ApplyFallback | src/pages/Home.jsx:42-50 | the effect applies `Fallback`; when the search throws, `threw` reports the error that escapes the effect and the draft is unchanged |
| Home.HomePage.SetAmount | src/pages/Home.jsx:72-76 | only the draft's amount changes, to `Number(value)` of the value the field reports |
| Home.HomePage.SetDifficulty | src/pages/Home.jsx:85-90 | only the draft's difficulty changes |
| Home.HomePage.SetCategory | src/pages/Home.jsx:104-108 | only the draft's category changes |
| Home.HomePage.OnStart | src/pages/Home.jsx:52-56 | the draft is persisted as the settings unchanged, and the page goes to `/play` |
| PlayGate.GateAmount | src/pages/gates/PlayGate.jsx:7 | `Number(params.get('amount') ?? 0)`; `RefusedAmounts`, `WholeAmounts` and `FractionAdmitted` state what it reads |
| PlayGate.Admits | src/pages/gates/PlayGate.jsx:8 | `Number.isFinite(amount) && amount >= 1`; `AdmitsExactly` and `AdmitsMonotone` state it |
| PlayGate.CanAccess | src/pages/gates/PlayGate.jsx:7-8 | `canAccess`; `RefusedAmounts`, `WholeAmounts` and `FractionAdmitted` state it |
| PlayGate.AdmitsExactly | src/pages/gates/PlayGate.jsx:8 | access is granted exactly for a finite amount of at least 1; NaN and ±Infinity are refused |
| PlayGate.RefusedAmounts | src/pages/gates/PlayGate.jsx:7-8 | a missing, empty or non-numeric amount, or "Infinity", is refused |
| PlayGate.AdmitsMonotone | src/pages/gates/PlayGate.jsx:8 | an admitted amount stays admitted when increased to any finite amount |
| PlayGate.WholeAmounts | src/pages/gates/PlayGate.jsx:7-8 | a whole amount n is admitted exactly when 1 ≤ n < 2^1024 − 2^970; a larger numeral reads as Infinity and is refused |
| PlayGate.OneAndAHalfAdmitted | src/pages/gates/PlayGate.jsx:8 | the amount 1.5 is finite and at least 1, so it passes the rule |
| PlayGate.FractionAdmitted | src/pages/gates/PlayGate.jsx:8 | integrality is not checked: "1.5" is admitted |

## Left out

- Rendering, `document.title`, `navigate('/results')`, the Results page's links and the `ProtectedRoute` redirect effect are not modelled. The model keeps the route Home navigates to and the redirect that Results decides on.
- React's batching and effect scheduling are not modelled: each handler and effect runs atomically, in the order a caller chooses. `Engine.Session.AutoAdvance` reads the score and selection of the current render, as the closure does.
- The engine receives the raw questions already decoded: `null` for a body without a `results` array, or the list. The JSON shape checks of each raw question are not modelled, and neither is `q.incorrect_answers.map` throwing on a malformed question.
- `decodeHtml` uses the DOM, so it is an injected function `decode`. A non-string passing through unchanged is not modelled.
- `Math.random` is the sequence of draws `picks`, with each draw required to be in range. Its distribution is not modelled.
- `Date.now`, `setTimeout` and `fetch` are parameters: the clock, `lateness` and `latency`, and the `Response`. `res.json()` rejecting is not modelled.
- OpenTdb.Browser.EnsureCooldown: two callers whose cooldowns overlap in time, for example two tabs, are not modelled; each call runs to completion before the next starts.
- JsNumber.StringToNumber and PlayGate.WholeAmounts: a numeral is read exactly and not rounded to the nearest double. Only the overflow to ±Infinity is modelled. So "0.99999999999999999" reads below 1 and the gate refuses it, while JavaScript rounds it to 1 and admits it.
- Home.HomePage.SetAmount: the method accepts any string, while the browser only ever passes "" or a valid floating-point number (`FieldValue`); the method does not itself sanitise its argument, so it states `Number(value)` also for texts the field never reports.
- OpenTdb.SavedListIsServed and OpenTdb.CacheRoundTrip: they assume `JSON.parse` reads back exactly what `JSON.stringify` wrote. For a list with entries lacking `id` or `name` that fails (the `undefined` fields are dropped), and the lemmas say nothing about it, although the program still serves that list from the cache, equal up to property reads.
- Home.HomePage.ApplyFallback: when the search throws, the TypeError escapes the effect. React then reports it and, with no error boundary, unmounts the page. The model only returns `threw`.
- `localStorage` is a map, with the availability flags `canRead` and `canWrite`; a quota failure is `!canWrite`.
- `JSON.parse` and `JSON.stringify` are injected functions.
- The OpenTDB URLs are constants; URL percent-encoding and `qs.toString()` are not modelled. `URLSearchParams.set` is modelled as an append, which is the same because every name set is new.
- The wording of a TypeError message is an engine's own. The model uses V8's ("Cannot read properties of null (reading 'id')").
- `JsNumber.NumberToString`: exponent notation for very large or very small numbers and the sign of −0 are not modelled. Arithmetic is exact: the model has no rounding to double precision, so a stamp beyond 2^53 would read back differently in JavaScript.
- The useLocalStorage hook and the context plumbing are not modelled, apart from the default settings (`Home.DefaultSettings`).
- The signal that aborts the categories fetch from the Home page cleanup is not modelled; it is an `AbortError`, which the page ignores (`Home.HomePage.LoadRejected`).
- The mismatch between the Home page and the `/play` gate is not resolved: the gate is modelled as written.
