# fb-autopost, modelled in Dafny

fb-autopost is a bot that posts quote images to a Facebook page on a schedule. Each run
does the following:

- picks a category by weighted chance;
- asks a language model for a quote in three calls: draft, quality check and virality
  score;
- drops quotes that are already stored, too similar to one of the 100 newest posts,
  open with a banned word, or open like one of the 10 newest posts;
- renders the quote onto a 1080×1080 card, publishes it with a caption, and stores the
  post in MongoDB.

It makes up to five attempts. A scheduler fires the job a few times a day. Configuration
comes from environment variables.

This project models that core as pure Dafny functions over immutable data, one module per
source file:

- **Stores.** The collections are sequences in insertion order, with their unique indexes
  as invariants (`PostRepository`, `CategoryRepository`).
- **Filters and generation.** The uniqueness filter (`UniquenessService`) and the
  three-step generation protocol with its retry loop (`OpenRouterService`).
- **Pipeline.** The posting pipeline with its five attempts (`QuoteService`).
- **Rendering.** The greedy word wrap (`TextWrapper`) and the card layout arithmetic
  (`ImageService`).
- **Scheduling.** The slot arithmetic and task list of the scheduler (`PostScheduler`).
- **Connection.** The database-name parser and the connection holder (`Database`).
- **Configuration and logging.** Environment loading with JavaScript's `parseInt` (`Env`)
  and the logger's level filter and line format (`Logger`).
- **Static tables.** The category and figure tables (`Categories`).

`Models` holds the stored records. `Wrappers` holds `Option` and `Result`. `Strings`
holds the JavaScript string built-ins the code relies on: `trim`, `split` and `join`, and
the decimal digit text of an integer.

Everything outside the program is a parameter:

- text measurement is `measure`;
- the hash and similarity helpers are `hash` and `similarity`;
- `JSON.parse` is an abstract parser per step;
- the model's replies are a script consumed one reply per call;
- each `Math.random()` draw is a roll in [0, 1);
- the clock is a timestamp;
- the card renderer, the Facebook upload and the insert are the results they produce.

An attempt is recorded as a trace of its effects: `Rendered`, `Published` and `Stored`.

Where the design description and the code disagree, the model follows the code:

- The uniqueness check runs before the opening-word checks.
- Approval is the model's own `approved` field. No score cut-off is applied in code.
- The insert happens after the publish. If the insert fails, the next attempt publishes a
  second time.
- At width 29, with 5 units per character, "AAAA BBBB CCCC" wraps to three lines, not two:
  "AAAA BBBB" measures 45.
- The retry loop waits `1000 × attempt` ms after every failed attempt, including the last
  one.

## Model

| member | source | states |
|---|---|---|
| TextWrapper.WrapText | src/utils/textWrapper.ts:15-45 | every line is non-empty and either fits `maxWidth` or is a single word; there are never more lines than space-separated words; `totalHeight` is the line count times `lineHeight` |
| TextWrapper.WrapReproducesText | src/utils/textWrapper.ts:20-39 | when no word is empty, joining the lines with single spaces gives back the input text: no word is lost, split or reordered |
| TextWrapper.WrapIsGreedy | src/utils/textWrapper.ts:24-35 | a line is ended only when the next line's first word would make it wider than `maxWidth` |
| TextWrapper.WrapEmptyIffBlank | src/utils/textWrapper.ts:20-39 | no lines come out exactly when the text is empty or all spaces |
| TextWrapper.ExampleThreeLines | src/utils/textWrapper.ts:25-31 | at width 29 with 5 units per character, "AAAA BBBB CCCC" gives three lines and height 30 |
| TextWrapper.ExampleTwoLines | src/utils/textWrapper.ts:25-31 | at width 45 the first two words share a line |
| TextWrapper.ExampleOversizedWord | src/utils/textWrapper.ts:29-31 | a word wider than the limit sits alone on its line, unsplit |
| TextWrapper.ExampleEmptyWords | src/utils/textWrapper.ts:20-39 | a leading space's empty word is dropped; a doubled space inside a line is kept |
| PostRepository.Create | src/repositories/PostRepository.ts:12-15 | the insert succeeds exactly when no stored post has the hash; it then appends the post and keeps hashes distinct, and otherwise fails with the duplicate-key error |
| PostRepository.FindByHash | src/repositories/PostRepository.ts:17-19 | a post is found exactly when one with that hash is stored, and the one returned is stored and carries the hash |
| PostRepository.SortNewestFirst | src/repositories/PostRepository.ts:21-27 | the result is a permutation of the input, ordered newest first by `postedAt` |
| PostRepository.FindRecent | src/repositories/PostRepository.ts:21-27 | returns `min(limit, count)` stored posts (all of them when the limit is 0), newest first, drawn from the store, and no post left out is newer than a post returned |
| CategoryRepository.FindByName | src/repositories/CategoryRepository.ts:17-19 | a category is found exactly when one with that name is stored, and the one returned is stored and carries the name |
| CategoryRepository.InsertMany | src/repositories/CategoryRepository.ts:36-41 | ordered insert: a prefix of the items goes in, the first item whose name is already stored stops the batch with the duplicate-key error, and names stay distinct |
| CategoryRepository.SeedCategories | src/repositories/CategoryRepository.ts:36-41 | a non-empty store is left alone; an empty store receives all distinctly named items |
| CategoryRepository.SeedCount | src/repositories/CategoryRepository.ts:32-41 | after seeding an empty store, `count()` is the number of items |
| CategoryRepository.SeedIdempotent | src/repositories/CategoryRepository.ts:36-41 | seeding twice leaves the store as seeding once does |
| CategoryRepository.GetRandom | src/repositories/CategoryRepository.ts:25-30 | null exactly when the store is empty, otherwise a stored category |
| CategoryRepository.GetRandomReachesAll | src/repositories/CategoryRepository.ts:25-30 | every stored category can be the one returned |
| UniquenessService.FirstTooSimilar | src/services/UniquenessService.ts:26-32 | finds the first recent post at or above the 0.85 similarity threshold, or reports that none is |
| UniquenessService.Check | src/services/UniquenessService.ts:13-35 | an exact hash match is reported first; otherwise the first too-similar post among the 100 newest; otherwise the quote is unique |
| UniquenessService.IsQuoteUnique | src/services/UniquenessService.ts:13-35 | true exactly when no stored post has the quote's hash and each of the 100 newest posts is less than 0.85 similar |
| UniquenessService.GenerateQuoteHash | src/services/UniquenessService.ts:37-39 | a post stored under this hash makes the same quote not unique, whatever the store and similarity |
| UniquenessService.ThresholdIsInclusive | src/services/UniquenessService.ts:28 | a similarity of exactly 0.85 already rejects the quote |
| UniquenessService.OldPostsAreNotScanned | src/services/UniquenessService.ts:24-32 | with more than 100 stored posts, exactly 100 are compared and some stored post is not |
| Categories.CategoryNamesInOrder | src/config/categories.ts:14-90 | the names of the table, in table order, are the fifteen category names |
| Categories.CategoryTableWellFormed | src/config/categories.ts:14-90 | the table holds 15 categories with distinct names |
| Categories.FigureTableWellFormed | src/config/categories.ts:92-143 | the table holds 10 figures with distinct names |
| OpenRouterService.CleanText | src/services/OpenRouterService.ts:245-247 | the result is the trimmed text less at most two characters |
| OpenRouterService.CleanTextKeeps | src/services/OpenRouterService.ts:245-247 | the trimmed text loses one leading quote mark exactly when it starts with one, and one trailing mark exactly when one is left at its end; the rest is kept as is |
| OpenRouterService.CleanTextUnquotes | src/services/OpenRouterService.ts:245-247 | a text wrapped in double quotes and whitespace is given back exactly, even when it holds quote marks itself |
| OpenRouterService.ExtractJson | src/services/OpenRouterService.ts:160-161 | with a '{' followed later by a '}', the candidate is the contiguous span from the first '{' to the last '}'; otherwise it is the whole reply |
| OpenRouterService.ExtractJsonIsGreedy | src/services/OpenRouterService.ts:160-161 | surrounding prose is cut away, and everything between the outer braces is kept |
| OpenRouterService.CallLlm | src/services/OpenRouterService.ts:199-243 | a missing or empty reply fails with "LLM Call failed"; any other reply comes back cleaned |
| OpenRouterService.QualityCheck | src/services/OpenRouterService.ts:134-166 | fails only when the call fails; a reply whose JSON candidate parses gives the parsed verdict itself, and an unparseable one gives the approving score-7 fallback |
| OpenRouterService.ViralityScore | src/services/OpenRouterService.ts:169-196 | fails only when the call fails; a reply whose JSON candidate parses gives the parsed score itself, and an unparseable one gives the 5 / neutral / average fallback |
| OpenRouterService.ScoresComeFromTheReply | src/services/OpenRouterService.ts:157-196 | a parsed reply is scored by exactly what the parser read, in both scoring steps, and the fallback appears only when parsing fails |
| OpenRouterService.Combine | src/services/OpenRouterService.ts:34-59 | the three step results give 1 call on a draft error, 3 calls exactly when the draft is approved, and success exactly when virality also succeeds; each failure carries its step's error, and a rejection carries the reason |
| OpenRouterService.GenerateQuote | src/services/OpenRouterService.ts:34-59 | calls draft, quality and virality in order, stopping at the first failure or at a rejection; the rejection error carries the reason; on success the fields come from the three replies |
| OpenRouterService.QualityFailsOpen | src/services/OpenRouterService.ts:157-166 | an unparseable quality reply never blocks the draft, which goes on to virality with score 7 |
| OpenRouterService.ChainedAt | src/services/OpenRouterService.ts:255-265 | attempt k reads the reply script from just after the calls of the earlier attempts |
| OpenRouterService.RetryFrom | src/services/OpenRouterService.ts:255-265 | attempts run until the first success; every earlier attempt failed; a failure uses all remaining attempts; attempt k's back-off is 1000·k ms |
| OpenRouterService.GenerateQuoteWithRetry | src/services/OpenRouterService.ts:249-268 | at most `maxRetries` chained attempts; returns the first success or the last error; with no attempt allowed, fails with the generic error; back-off after failure k is 1000·k ms |
| QuoteService.PickIndex | src/services/QuoteService.ts:176 | `floor(roll·n)` is a valid index, the one whose unit interval holds `roll·n` |
| QuoteService.PickReachesAll | src/services/QuoteService.ts:176 | every index can be drawn |
| QuoteService.WeightsSumToHundred | src/services/QuoteService.ts:157-164 | the group weights 40, 25, 15, 10 and 10 sum to 100 |
| QuoteService.GroupOfIsWeighted | src/services/QuoteService.ts:157-164 | the k-th group is chosen exactly when `roll·100` lies in its cumulative-weight interval |
| QuoteService.GroupNamesAreCategories | src/services/QuoteService.ts:167-173 | every group's category name is in the category table |
| QuoteService.GroupsCoverCategories | src/services/QuoteService.ts:167-173 | the group lists together have as many entries as the category table and name every category in it |
| QuoteService.SelectedName | src/services/QuoteService.ts:176 | the drawn name belongs to the drawn group |
| QuoteService.SelectWeightedCategory | src/services/QuoteService.ts:149-195 | the stored category of the drawn name if there is one, else the table entry of that name, else a random table entry |
| QuoteService.SelectionNeverFallsBack | src/services/QuoteService.ts:179-194 | with the real table the random fallback is never reached, and the chosen category has the drawn name |
| QuoteService.Attribution | src/services/QuoteService.ts:54 | the attribution is one of the five brand attributions |
| QuoteService.Letters | src/services/QuoteService.ts:80 | `replace(/[^a-zA-Z]/g, '')` leaves only ASCII letters and never lengthens the text |
| QuoteService.LettersKeepsCounts | src/services/QuoteService.ts:80 | every ASCII letter is kept as often as it occurs, and every other character is dropped |
| QuoteService.LettersAppend | src/services/QuoteService.ts:80 | stripping to letters distributes over concatenation |
| QuoteService.OpeningWord | src/services/QuoteService.ts:80 | the opening word holds letters only |
| QuoteService.OpeningWordOfSentence | src/services/QuoteService.ts:80 | a quote that starts with a word of letters and a space opens with that word |
| QuoteService.OpeningWordIgnoresPunctuation | src/services/QuoteService.ts:80 | punctuation around the first word is removed |
| QuoteService.CreateCaption | src/services/QuoteService.ts:197-203 | the caption starts with the quote and ends with the hashtag line, with a length fixed by its parts |
| QuoteService.CaptionLines | src/services/QuoteService.ts:197-203 | the caption's lines are the quote's lines, a blank, the credit, a blank and the tag line |
| QuoteService.PostOf | src/services/QuoteService.ts:112-127 | the stored record carries the quote, category, attribution, quote hash, post id, image path, opening word, quality and virality scores, emotion and reason, with no tone, and with `postedAt` and `createdAt` each taken from its own clock read |
| QuoteService.RunAttempt | src/services/QuoteService.ts:53-137 | for an already chosen category: a generation error is thrown with no effect; otherwise not-unique, banned and repeated openings are soft rejections in that order, with no effect; otherwise render, publish and store happen in that order, stopping at the first failure |
| QuoteService.Deliver | src/services/QuoteService.ts:97-127 | the post is stored exactly when render, publish and insert all succeed; otherwise the store is unchanged |
| QuoteService.UniqueQuoteIsInsertable | src/services/QuoteService.ts:73-77 | a quote the filter accepts has a hash the unique index accepts |
| QuoteService.PostedQuoteIsNoLongerUnique | src/services/QuoteService.ts:112-127 | once a quote is posted, the same quote fails the uniqueness filter |
| QuoteService.Attempt | src/services/QuoteService.ts:48-137 | one attempt on the store as it stands: it stores only when it posts, publishes at most once, has no effect when it ends softly, and changes the store only when it posts |
| QuoteService.Loop | src/services/QuoteService.ts:47-146 | attempts run in order until one posts; five failures end with the last exception or the "maximum attempts" error; effects are the concatenation of the attempts' effects |
| QuoteService.TraceCounts | src/services/QuoteService.ts:47-146 | across attempts before a success, at most one post is stored, and at most one publish happens per attempt |
| QuoteService.RunLoop | src/services/QuoteService.ts:43-146 | the loop from attempt 1: the result, the outcomes seen, and exactly one store on success and none on failure |
| QuoteService.CreateAndPublishPost | src/services/QuoteService.ts:43-146 | `createAndPublishPost()` over a given category table: attempt k runs on script k; it succeeds exactly when some attempt posts, returning that attempt's result; it stores exactly once on success and never on failure |
| QuoteService.RunsAt | src/services/QuoteService.ts:47-53 | attempt k is script k run on the store as it was when the run began |
| QuoteService.PublishedButNotStored | src/services/QuoteService.ts:109-127 | a failed insert after a successful publish leaves a published post that is not stored |
| QuoteService.RetryAfterPublishPublishesTwice | src/services/QuoteService.ts:109-143 | after such an attempt, a successful retry publishes twice and stores once |
| QuoteService.PostsOnTheLastAttempt | src/services/QuoteService.ts:73-95 | four soft rejections followed by a post succeed on the fifth attempt with that attempt's effects only |
| QuoteService.FiveSoftRejections | src/services/QuoteService.ts:146 | five soft rejections end with "Failed to create post after maximum attempts" and no effect |
| QuoteService.LastExceptionIsRethrown | src/services/QuoteService.ts:138-143 | when the fifth attempt throws, its error is the one thrown |
| ImageService.CardWrapOptions | src/services/ImageService.ts:74-77 | the quote wraps at 880 pixels with line height 89.6 |
| ImageService.NameText | src/services/ImageService.ts:107 | the signature is an em dash and a space before the brand name |
| ImageService.LayoutLines | src/services/ImageService.ts:79-108 | the block is centred vertically; every draw is centred horizontally; the lines are drawn in order, 89.6 apart, then the name below a 60-pixel gap |
| ImageService.GenerateQuoteCard | src/services/ImageService.ts:55-108 | the card draws the wrapped lines in order, 89.6 apart, and then the signature with the brand name below a 60-pixel gap; every draw is centred horizontally and the block is centred vertically |
| ImageService.SignatureBelowQuote | src/services/ImageService.ts:95-108 | on a generated card the signature with the brand name is the last draw and lies below every line of the quote |
| ImageService.BaselinesIncrease | src/services/ImageService.ts:95-108 | baselines rise strictly down the card, and the name is below every line |
| ImageService.StartOnCardIffAtMostTenLines | src/services/ImageService.ts:81-86 | the block starts on the card exactly when there are at most ten lines; nothing clamps it |
| ImageService.OneLineCard | src/services/ImageService.ts:81-108 | a one-line quote starts at 431.6, with baselines at 495.6 and 629.2 |
| PostScheduler.JsRemainder | src/scheduler/PostScheduler.ts:22-25 | JavaScript `%`: the remainder of a non-negative dividend lies in [0, b); that of a negative one lies in (-b, 0] |
| PostScheduler.RandomDelay | src/scheduler/PostScheduler.ts:52-54 | for min ≤ max the delay lies in [min, max] and is the floor of `roll·(max-min+1)` plus min |
| PostScheduler.RandomDelayReachesAll | src/scheduler/PostScheduler.ts:52-54 | every delay in range can be drawn |
| PostScheduler.SlotHour | src/scheduler/PostScheduler.ts:22 | the slot hour lies in [0, 24) |
| PostScheduler.SlotHourInDay | src/scheduler/PostScheduler.ts:22 | for the day's slots the hour is `24·i div postsPerDay` |
| PostScheduler.SlotHoursNonDecreasing | src/scheduler/PostScheduler.ts:21-22 | later slots are never at an earlier hour |
| PostScheduler.SlotHourExamples | src/scheduler/PostScheduler.ts:22 | three posts a day go out at hours 0, 8 and 16; five go out at 0, 4, 9, 14 and 19 |
| PostScheduler.SlotTask | src/scheduler/PostScheduler.ts:21-27 | the hour is in [0, 24); the minute is in (-60, 60), and in [0, 60) when 0 ≤ min ≤ max |
| PostScheduler.RollNeverMovesTheHour | src/scheduler/PostScheduler.ts:22-25 | the random draw changes only the minute |
| PostScheduler.Start | src/scheduler/PostScheduler.ts:9-43 | appends one task per post of the day, with earlier tasks kept; slot i draws roll i; hours are in range and non-decreasing; nothing is added when `postsPerDay` ≤ 0 |
| PostScheduler.Stop | src/scheduler/PostScheduler.ts:45-50 | every task is stopped, in order, and the list is emptied |
| PostScheduler.RunNow | src/scheduler/PostScheduler.ts:57-60 | a job failure reaches the caller unchanged, and `runNow` logs no error of its own |
| PostScheduler.ScheduledRun | src/scheduler/PostScheduler.ts:31-37 | the scheduled callback never fails and logs the job's error exactly when the job fails |
| PostScheduler.TriggersAgreeOnFailure | src/scheduler/PostScheduler.ts:31-60 | both triggers see the same failures with the same error |
| PostScheduler.RestartedSchedule | src/scheduler/PostScheduler.ts:9-50 | stop then start leaves exactly one day's tasks, all at valid hours |
| Database.MatchFrom | src/config/database.ts:47-50 | finds the leftmost position from p where `/\/([^/?]+)(\?|$)/` matches, or reports that none does |
| Database.ExtractDbName | src/config/database.ts:47-50 | a name is found exactly when the regex matches somewhere; it is the capture of the leftmost match, and is non-empty and free of '/' and '?' |
| Database.ExtractDbNameWithPath | src/config/database.ts:47-50 | `mongodb://host/db?options` names `db` |
| Database.ExtractDbNameWithoutPath | src/config/database.ts:47-50 | a URI without a path takes its host for the name |
| Database.ExtractDbNameEmptyPath | src/config/database.ts:47-50 | `mongodb://host/` names nothing |
| Database.Connect | src/config/database.ts:9-29 | a held database is returned unchanged; otherwise a client for the URI is kept, and on success the database named in the URI, or `fb-autopost`, is opened; a failure passes on the driver's error. The client is always kept, because the `MongoClient` constructor is assumed not to throw |
| Database.Disconnect | src/config/database.ts:31-38 | client and database are both forgotten |
| Database.GetDb | src/config/database.ts:40-45 | returns the held database, or fails with "Database not connected" exactly when there is none |
| Database.GetDbAfterConnect | src/config/database.ts:9-45 | after a successful connect, `getDb` returns the connected database |
| Database.ConnectIsMemoised | src/config/database.ts:10-12 | a second connect returns the same database, whatever its URI and outcome |
| Database.FailedConnectRetries | src/config/database.ts:9-29 | a failed connect leaves no database, and the next connect makes a new client |
| Database.DisconnectForgetsDb | src/config/database.ts:31-45 | after a disconnect, `getDb` fails |
| Env.DigitPrefix | src/config/env.ts:39-42 | the longest prefix of decimal digits |
| Env.ParseInt | src/config/env.ts:39-42 | `parseInt(s, 10)`: NaN exactly when no digit follows the leading whitespace and optional sign; otherwise the signed value of the longest digit run |
| Env.ParseIntOfDigits | src/config/env.ts:39-42 | a digit run followed by a non-digit reads as that run's value |
| Env.ParseIntRoundTrip | src/config/env.ts:39-42 | the decimal digit text of any integer parses back to that integer |
| Env.GetEnvVar | src/config/env.ts:31-37 | the variable unless it is missing or empty, then the default unless that is missing or empty, else the "Missing required environment variable" error naming the key |
| Env.GetEnvNumber | src/config/env.ts:39-42 | the default for a missing or empty variable, `parseInt` of it otherwise |
| Env.GetEnvNumberRoundTrip | src/config/env.ts:39-42 | a number written to a variable as decimal digit text reads back |
| Env.Defaulted | src/config/env.ts:31-37 | a variable with a non-empty default never fails and yields the variable or the default |
| Env.LoadEnv | src/config/env.ts:44-57 | loading succeeds exactly when the four required variables are set; otherwise the error names the first one that is unset; each of the twelve fields is its variable, or its default when the variable is unset or empty, numbers read with `parseInt` |
| Env.LoadEnvDefaults | src/config/env.ts:44-57 | with only the four secrets set, every other field takes its default: 3 posts a day, delays of 60 to 180 minutes, and so on |
| Logger.IndexOf | src/utils/logger.ts:10-13 | `indexOf` in the level list is -1 exactly for strings outside it |
| Logger.ConfiguredLevel | src/utils/logger.ts:48 | `LOG_LEVEL` unless unset or empty, else "info" |
| Logger.ShouldLog | src/utils/logger.ts:10-13 | for a known configured level, a message logs exactly when its level is at least as severe; for an unknown one, everything logs |
| Logger.ShouldLogMonotone | src/utils/logger.ts:10-13 | if a level logs, every more severe level logs too |
| Logger.ErrorAlwaysLogs | src/utils/logger.ts:10-13 | errors are always written |
| Logger.DefaultSuppressesOnlyDebug | src/utils/logger.ts:6-13 | with no level configured, only debug lines are dropped |
| Logger.FormatMessage | src/utils/logger.ts:15-21 | the line is the bracketed timestamp and level, then the message, then the arguments after one space, joined by spaces |
| Logger.LineIsRecoverable | src/utils/logger.ts:15-21 | the line opens with the bracketed timestamp, and when no argument holds a space its argument part splits back into the arguments |

## Left out

- The Facebook upload (`src/services/FacebookService.ts`): a publish is the post id or error it returns.
- Prompt texts, the HTTP request body and the model settings: a completion call is the next reply of a script.
- `JSON.parse`: an abstract partial parser per scoring step; its result fields are trusted as they come.
- `generateHash` and `calculateSimilarity` (`src/utils/hash.ts` is not part of this model): parameters, with no property assumed.
- `Math.random`, `Date` and `setTimeout`: rolls, timestamps and the list of back-off delays.
- Fonts, the bitmap, background images, the PNG encoder and the file system of `ImageService`: the model stops at where each text is drawn. The `handle` and `showVerified` options are not drawn by the code shown.
- `FigureRepository`, `src/index.ts`, `src/jobs/createPost.ts`, `src/scripts/seedDatabase.ts`, `src/templates/quoteCard.ts` and the debug/verify scripts at the top level: not part of the core.
- The cron library: a task is the (hour, minute) pair its expression is built from, and time never passes.
- Log output, ANSI colours and the `console` calls: only the level filter and the line text are modelled.
- `dotenv` loading: `process.env` is a map given in.
- `parseInt` yields `NaN` for a non-numeric variable. `Env.LoadEnv` carries that value, but the scheduler's settings are integers, so its effect on the scheduler is not followed. A `NaN` `postsPerDay` runs no iteration, since `i < NaN` is false. A `NaN` `MIN_DELAY_MINUTES` or `MAX_DELAY_MINUTES` still runs the loop and writes a `NaN` minute into every cron expression.
- Concurrency: each operation runs to completion on its own.
- Binary floating point: reals are exact, so `24 / postsPerDay` and the 1.4 factors have no rounding.
- Order among posts with equal `postedAt`: the database leaves it open, and the model fixes it by insertion.
- Read errors from the database in `findRecent`, `findByHash` and `findByName`: reads always succeed.
- The "Failed to select category" branch: `selectWeightedCategory` always returns a category, as `QuoteService.SelectionNeverFallsBack` shows.
- Errors from `client.close()` in `disconnect`: not modelled.
- Database.Connect: a `MongoClient` constructor that throws on a malformed URI is not modelled. The client is always kept, and only `client.connect()` can fail.
- Env.ParseInt: digit runs are read exactly. JavaScript's `parseInt` rounds values above 2^53 to a double, and `String(n)` switches to exponent form from 1e21, so `Env.ParseIntRoundTrip` holds in JavaScript only for safe integers.
- The in-memory category list: `QuoteService.CreateAndPublishPost` takes it as the parameter `table`; the source always uses `CATEGORIES`, for which `QuoteService.SelectionNeverFallsBack` holds.
- OpenRouterService.CleanText: its own contract only bounds the length; the exact characters kept are stated by `OpenRouterService.CleanTextKeeps`.
- PostScheduler.JsRemainder: states the range of the remainder but not that the dividend minus the remainder is a multiple of the divisor.
