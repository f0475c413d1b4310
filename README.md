# YARN keyword crawler: application master and crawler task

This project models the two pieces of sequential logic in a small Hadoop/YARN application.

- **The application master** (`ApplicationMasterAsync`) registers with the resource manager. When the input file exists, it requests one container per expected worker, placed on the hosts of the input's first block. It launches the crawler in every container it is given, waits until its counter of outstanding containers reaches zero, and then unregisters.
- **The crawler task** (`Crawler`), run in each container, rewrites a tab-separated file:
  - The header line is copied unchanged.
  - Each data line with six columns and a non-blank URL in column 5 has its page fetched.
  - The words of the page are ranked by frequency.
  - The line is written again with the ten most frequent words, comma-joined, in column 1.

Files:

- `wrappers.dfy`: `Option`.
- `text.dfy` (module `Text`): Java's `String.split` on a one-character pattern, including the dropping of trailing empty strings (`JavaSplit`), and on `\s+` (`SplitOnSpaceRuns`). Also `StringUtils.join` (`Join`) and the round trips between splitting and joining.
- `crawler.dfy` (module `Crawler`): the token clean-up of `getKeywordsFromPage`, `sortKeywordsByFequency` with the in-place sort of its entry list, the top-ten selection, the per-line rewrite, and the `readLine` loop of `run`.
- `appmaster.dfy` (module `AppMaster`):
  - The class `ApplicationMaster` with the two `AtomicInteger` counters as 32-bit fields and a ghost log of the calls the master makes to YARN: register, container request, container start, unregister.
  - The constructor states the initial fields outright and `DoneWithContainers` states its result outright. Every other method is proved equal to a specification function over `MasterState`, a value holding the two counters and the call log.
  - The properties of the protocol are lemmas about those functions.

How the environment is modelled:

- **Callbacks.** The YARN callbacks run on client threads. Here each batch of callbacks is an `Event` delivered by a sequential method call.
- **Interleaving with `runMainLoop`.** It is a pair of schedules:
  - `issueSchedule[i]` is delivered just before the request loop reads the counter for the `i`-th time.
  - `waitSchedule[j]` is delivered after the `j`-th poll of `doneWithContainers` that found it false.
  - When the wait schedule runs out before the counter reaches zero, the outcome is `StillPolling`, because the source would keep sleeping.
- **File system and launch results.** Whether the input exists, its block locations, the jar's file status and whether `startContainer` throws are all parameters.
- **The HTTP fetch in the crawler.** It is an oracle `fetch: string -> Option<string>` that gives the text of the page body, or `None` when the request fails.

One might expect a floor at zero on the counter and an incremented `launchedContainers`. The model follows the code:

- `containersNumToWait` has no floor at zero. Every completed status decrements it, and it wraps from the 32-bit minimum to the maximum.
- `launchedContainers` is set to 0 and never changed afterwards.
- The request loop re-reads the counter on every iteration, so completions during issuance reduce the number of requests.
- An empty block-location array makes `blockLocations[0]` throw. The model returns the outcome `NoBlockLocations` instead of requiring a non-empty array.

## Model

| member | source | states |
|---|---|---|
| AppMaster.ApplicationMaster.constructor | src/main/java/com/epam/hadoop/yarn/ApplicationMasterAsync.java:40-50 | the paths are stored; `containersNumToWait` is `containersNum`, `launchedContainers` is 0, no call made yet |
| AppMaster.ApplicationMaster.OnContainersCompleted | src/main/java/com/epam/hadoop/yarn/ApplicationMasterAsync.java:52-57 | the counter is decremented (32-bit, wrapping) once per status whatever the status says; calls and `launchedContainers` unchanged |
| AppMaster.DecrementTimesExact | src/main/java/com/epam/hadoop/yarn/ApplicationMasterAsync.java:52-57 | k completions lower the counter by exactly k while no wrap-around occurs; there is no floor at zero |
| AppMaster.CounterWrapsBelowMinimum | src/main/java/com/epam/hadoop/yarn/ApplicationMasterAsync.java:55 | one completion more than the 32-bit range allows leaves the counter at the 32-bit maximum |
| AppMaster.DecrementTimesAdd | src/main/java/com/epam/hadoop/yarn/ApplicationMasterAsync.java:52-57 | two batches of completions have the effect of one batch of their combined size |
| AppMaster.DoneIffAllCompleted | src/main/java/com/epam/hadoop/yarn/ApplicationMasterAsync.java:143-145 | after `completed` completions from `containersNum`, the master is done exactly when `completed == containersNum` |
| AppMaster.Decrement | src/main/java/com/epam/hadoop/yarn/ApplicationMasterAsync.java:55 | one `decrementAndGet`: one less, except that the 32-bit minimum wraps to the maximum; `DecrementTimesExact` and `CounterWrapsBelowMinimum` state both cases |
| AppMaster.DecrementTimes | src/main/java/com/epam/hadoop/yarn/ApplicationMasterAsync.java:53-56 | the counter after k calls of `decrementAndGet`; `DecrementTimesExact`, `DecrementTimesAdd` and `DoneIffAllCompleted` state its meaning |
| AppMaster.LaunchCommand | src/main/java/com/epam/hadoop/yarn/ApplicationMasterAsync.java:65-71 | the command string concatenated from the java binary, heap option, crawler class, the two paths and the two redirections; `CommandIsJoin` and `CommandRunsCrawler` state its words |
| AppMaster.ContainerRequestFor | src/main/java/com/epam/hadoop/yarn/ApplicationMasterAsync.java:158-163 | the one request of the run: priority 0, 128 MB, 1 virtual core, the given hosts, no racks; `QuietRunIssuesContainersNumRequests` states what the run issues |
| AppMaster.IssueLoop | src/main/java/com/epam/hadoop/yarn/ApplicationMasterAsync.java:177-181 | the request loop, re-reading the counter before every request; `IssueLoopEffect` and `QuietIssueLoop` state what it issues |
| AppMaster.AwaitDone | src/main/java/com/epam/hadoop/yarn/ApplicationMasterAsync.java:183-185 | the polling of `doneWithContainers` with the callbacks that arrive between polls; `AwaitDoneEffect` states that it ends done exactly at counter 0 |
| AppMaster.RunMainLoopSpec | src/main/java/com/epam/hadoop/yarn/ApplicationMasterAsync.java:147-197 | register, the input check, the first block, requests, wait and unregister; `MissingInputIssuesNothing`, `QuietRunIssuesContainersNumRequests`, `UnregisterOnlyWhenDone` and `LaunchedNeverIncremented` state its properties |
| AppMaster.Register | src/main/java/com/epam/hadoop/yarn/ApplicationMasterAsync.java:154 | `registerApplicationMaster("", 0, "")`, the first call of a run; `RunRegistersFirst` states that every later call comes after it, and `MissingInputIssuesNothing` that it is no request and no unregistration |
| AppMaster.RequestContainers | src/main/java/com/epam/hadoop/yarn/ApplicationMasterAsync.java:176-181 | the request phase with its callbacks; `RequestContainersEffect` and `QuietRequestContainers` state what it issues |
| AppMaster.WaitThenUnregister | src/main/java/com/epam/hadoop/yarn/ApplicationMasterAsync.java:183-190 | the wait and the unregistration; `WaitThenUnregisterEffect` states when it unregisters |
| AppMaster.ApplicationMaster.DoneWithContainers | src/main/java/com/epam/hadoop/yarn/ApplicationMasterAsync.java:143-145 | true exactly when `containersNumToWait` is 0 |
| AppMaster.ApplicationMaster.OnContainersAllocated | src/main/java/com/epam/hadoop/yarn/ApplicationMasterAsync.java:59-90 | counters unchanged; the log grows by `LaunchCalls` of the batch: one start attempt per container whose jar status could be read, in batch order |
| AppMaster.AttemptCalls | src/main/java/com/epam/hadoop/yarn/ApplicationMasterAsync.java:62-88 | a container yields at most one `startContainer` call, and one exactly when the jar's file status is available (otherwise the exception is caught before the start) |
| AppMaster.LaunchCalls | src/main/java/com/epam/hadoop/yarn/ApplicationMasterAsync.java:61-89 | a batch never yields more start calls than containers |
| AppMaster.LaunchCallsStep | src/main/java/com/epam/hadoop/yarn/ApplicationMasterAsync.java:61-89 | the calls of a batch prefix extended by one container are those of the prefix followed by that container's attempt |
| AppMaster.BatchAttemptsEveryContainer | src/main/java/com/epam/hadoop/yarn/ApplicationMasterAsync.java:61-89 | when every jar status is readable, the k-th call starts the k-th container with its launch context, whether or not the start throws |
| AppMaster.MissingJarSkipsOnlyThatContainer | src/main/java/com/epam/hadoop/yarn/ApplicationMasterAsync.java:86-88 | an exception for one container drops only that container's start; the containers before and after it are still attempted |
| AppMaster.LaunchCallsAppend | src/main/java/com/epam/hadoop/yarn/ApplicationMasterAsync.java:61-89 | launching two batches one after the other makes the same calls as launching their concatenation |
| AppMaster.LaunchesAreNotProtocolCalls | src/main/java/com/epam/hadoop/yarn/ApplicationMasterAsync.java:59-90 | launching containers issues no container request and no unregister |
| AppMaster.AddJarAsLocalResource | src/main/java/com/epam/hadoop/yarn/ApplicationMasterAsync.java:92-101 | fails exactly when the jar's file status cannot be read; otherwise keeps the commands and sets exactly one local resource, keyed "simple2.jar": the jar, FILE, PUBLIC, with the file's modification time and length |
| AppMaster.LaunchContextFor | src/main/java/com/epam/hadoop/yarn/ApplicationMasterAsync.java:63-72 | the context of a launch has the single crawler command for the master's input and output paths and exactly the local resource "simple2.jar" |
| AppMaster.CommandRunsCrawler | src/main/java/com/epam/hadoop/yarn/ApplicationMasterAsync.java:65-71 | for space-free paths, the command's words are the java binary, `-Xmx128M`, `com.epam.hadoop.yarn.Crawler`, the input path, the output path and the two log redirections, in that order |
| AppMaster.CommandIsJoin | src/main/java/com/epam/hadoop/yarn/ApplicationMasterAsync.java:65-71 | the command string is those seven words joined by single spaces |
| AppMaster.ContextFromTemplate | src/main/java/com/epam/hadoop/yarn/ApplicationMasterAsync.java:63-72 | a context is built exactly when the jar status is available |
| AppMaster.TemplateBuildsLaunchContext | src/main/java/com/epam/hadoop/yarn/ApplicationMasterAsync.java:63-72 | the context built from the master's template is the launch context of its paths |
| AppMaster.ApplicationMaster.Deliver | src/main/java/com/epam/hadoop/yarn/ApplicationMasterAsync.java:52-90 | one callback changes the state as its specification function says |
| AppMaster.ApplicationMaster.DeliverAll | src/main/java/com/epam/hadoop/yarn/ApplicationMasterAsync.java:52-90 | a sequence of callbacks changes the state as the specification applied in order |
| AppMaster.AfterCompleted | src/main/java/com/epam/hadoop/yarn/ApplicationMasterAsync.java:52-57 | the state after one `onContainersCompleted` batch; `AfterEventsEffect` and `CountersAfterEvents` state that each status lowers the counter once, with wrap-around, and nothing else changes |
| AppMaster.AfterAllocated | src/main/java/com/epam/hadoop/yarn/ApplicationMasterAsync.java:59-90 | the state after one `onContainersAllocated` batch; `AfterEventsEffect`, `CallsAfterEvents` and `LaunchesAreNotProtocolCalls` state that it appends only the batch's launch attempts |
| AppMaster.AfterEvent | src/main/java/com/epam/hadoop/yarn/ApplicationMasterAsync.java:52-90 | one callback of either kind; `ApplicationMaster.Deliver` is proved to follow it |
| AppMaster.AfterEvents | src/main/java/com/epam/hadoop/yarn/ApplicationMasterAsync.java:52-90 | callbacks delivered one after the other; `AfterEventsEffect` states their combined effect in closed form |
| AppMaster.AfterEventsEffect | src/main/java/com/epam/hadoop/yarn/ApplicationMasterAsync.java:52-90 | any callbacks decrement the counter once per completed status, leave `launchedContainers` alone and append the launch calls of all allocated containers |
| AppMaster.CountersAfterEvents | src/main/java/com/epam/hadoop/yarn/ApplicationMasterAsync.java:52-57 | the counter part of the effect of a callback sequence |
| AppMaster.CallsAfterEvents | src/main/java/com/epam/hadoop/yarn/ApplicationMasterAsync.java:59-90 | the log part of the effect of a callback sequence |
| AppMaster.LaunchCallsExtend | src/main/java/com/epam/hadoop/yarn/ApplicationMasterAsync.java:61-89 | the launch attempts of a new batch go after those already in the log, as for the concatenated batches |
| AppMaster.CallbacksAddNoProtocolCalls | src/main/java/com/epam/hadoop/yarn/ApplicationMasterAsync.java:52-90 | callbacks never request containers, never unregister and never change `launchedContainers` |
| AppMaster.ApplicationMaster.RunMainLoop | src/main/java/com/epam/hadoop/yarn/ApplicationMasterAsync.java:147-197 | register, then on a missing input stop; otherwise request containers on the first block's hosts while the index is below the re-read counter, poll until done, and unregister with SUCCEEDED, exactly as the specification of the run |
| AppMaster.IssueLoopEffect | src/main/java/com/epam/hadoop/yarn/ApplicationMasterAsync.java:177-181 | the request loop only appends copies of the one request, never unregisters and never changes `launchedContainers` |
| AppMaster.QuietIssueLoop | src/main/java/com/epam/hadoop/yarn/ApplicationMasterAsync.java:177-181 | with no completion during issuance, the loop from index i issues `counter - i` requests (none if negative) |
| AppMaster.AwaitDoneEffect | src/main/java/com/epam/hadoop/yarn/ApplicationMasterAsync.java:183-185 | the wait ends done exactly when the counter is 0, and makes no request or unregister |
| AppMaster.RequestContainersEffect | src/main/java/com/epam/hadoop/yarn/ApplicationMasterAsync.java:158-181 | issuing requests never unregisters and never changes `launchedContainers` |
| AppMaster.QuietRequestContainers | src/main/java/com/epam/hadoop/yarn/ApplicationMasterAsync.java:158-181 | with no completion during issuance, exactly `max(counter, 0)` copies of the priority-0, 128 MB, 1-core request on the given hosts are issued |
| AppMaster.WaitThenUnregisterEffect | src/main/java/com/epam/hadoop/yarn/ApplicationMasterAsync.java:183-190 | unregister is called once, with SUCCEEDED, as the last call and only when the counter is 0; otherwise the master is still polling with a non-zero counter |
| AppMaster.CallbacksExtendLog | src/main/java/com/epam/hadoop/yarn/ApplicationMasterAsync.java:52-90 | callbacks only append to the call log |
| AppMaster.IssueLoopExtendsLog | src/main/java/com/epam/hadoop/yarn/ApplicationMasterAsync.java:177-181 | the request loop only appends to the call log |
| AppMaster.AwaitDoneExtendsLog | src/main/java/com/epam/hadoop/yarn/ApplicationMasterAsync.java:183-185 | the polling loop only appends to the call log |
| AppMaster.RunRegistersFirst | src/main/java/com/epam/hadoop/yarn/ApplicationMasterAsync.java:154 | every run's log is the earlier log, then the registration, then the rest of the run: nothing is requested, launched or unregistered before registering |
| AppMaster.LaunchedNeverIncremented | src/main/java/com/epam/hadoop/yarn/ApplicationMasterAsync.java:38 | no run of the main loop, with any callbacks, changes `launchedContainers` |
| AppMaster.MissingInputIssuesNothing | src/main/java/com/epam/hadoop/yarn/ApplicationMasterAsync.java:167 | without the input file, no request and no unregister are made and the counters are unchanged |
| AppMaster.QuietRunIssuesContainersNumRequests | src/main/java/com/epam/hadoop/yarn/ApplicationMasterAsync.java:158-181 | a new master with existing input and no completion during issuance issues exactly `containersNum` requests (none if negative), each priority 0, memory 128, 1 core, the first block's hosts and no racks |
| AppMaster.UnregisterOnlyWhenDone | src/main/java/com/epam/hadoop/yarn/ApplicationMasterAsync.java:183-189 | a whole run unregisters at most once, with SUCCEEDED as the last call, and only once `doneWithContainers` holds |
| AppMaster.RequestsAppend | src/main/java/com/epam/hadoop/yarn/ApplicationMasterAsync.java:177-189 | requests and unregisters of a log are counted part by part |
| AppMaster.ProtocolCallAppended | src/main/java/com/epam/hadoop/yarn/ApplicationMasterAsync.java:177-189 | appending one call adds its request or its unregister to the counts |
| Crawler.Run | src/main/java/com/epam/hadoop/yarn/Crawler.java:36-96 | no output for no input; the first output line is the first input line unchanged; the other output lines are the rewrites of the accepted data lines, in input order |
| Crawler.RewrittenLinesExtend | src/main/java/com/epam/hadoop/yarn/Crawler.java:45-87 | a data line appends its rewrite when accepted and nothing when skipped |
| Crawler.RewrittenLinesCount | src/main/java/com/epam/hadoop/yarn/Crawler.java:45-87 | the number of data lines written is the number of accepted lines, never more than the lines read |
| Crawler.RewriteLine | src/main/java/com/epam/hadoop/yarn/Crawler.java:56-85 | a line is written exactly when it has 6 columns, a non-blank URL and a page with at least one keyword; the written line is its columns joined by tabs with column 1 replaced by a top keyword list of the page joined by commas |
| Crawler.RewriteKeepsOtherColumns | src/main/java/com/epam/hadoop/yarn/Crawler.java:75-79 | the written line splits on tab into 6 fields, every field except column 1 equal to the input's, column 1 splitting on comma into a top keyword list |
| Crawler.SplitLineIntoColumnValues | src/main/java/com/epam/hadoop/yarn/Crawler.java:98-100 | Java's `split` of the line on tab; `SixColumnsSplitBack`, `EmptyLastColumnIsSkipped` and `ColumnsRejoinToLine` state its meaning |
| Crawler.ColumnsRejoinToLine | src/main/java/com/epam/hadoop/yarn/Crawler.java:98-100 | no column contains a tab, and the columns joined by tabs give back the line less only tabs at its end |
| Crawler.Accepted | src/main/java/com/epam/hadoop/yarn/Crawler.java:56-65 | a data line is written exactly when it has 6 columns, a URL column that is not blank and a page with at least one keyword; `RewriteLine` is proved to follow it |
| Crawler.IsBlank | src/main/java/com/epam/hadoop/yarn/Crawler.java:62 | `StringUtils.isBlank`: the URL is empty or all whitespace; used by `Accepted` |
| Crawler.IsJavaWhitespace | src/main/java/com/epam/hadoop/yarn/Crawler.java:62 | `Character.isWhitespace` of Java 7 and 8, the whitespace test of `StringUtils.isBlank`; used by `Accepted` |
| Crawler.ReplaceNonLetters | src/main/java/com/epam/hadoop/yarn/Crawler.java:132 | every character other than an ASCII letter becomes a space; `CleanText` states the combined result |
| Crawler.LowerCase | src/main/java/com/epam/hadoop/yarn/Crawler.java:132 | upper-case ASCII letters become lower-case, everything else is kept; `CleanText` states the combined result |
| Crawler.LeadingNonSpaceSurvives | src/main/java/com/epam/hadoop/yarn/Crawler.java:132 | a first character that is not `\s` is never removed by the single-letter pass |
| Crawler.TrailingNonSpaceSurvives | src/main/java/com/epam/hadoop/yarn/Crawler.java:132 | a last character that is not `\s` is never removed by the single-letter pass, because every match ends in `\s` |
| Crawler.SixColumnsSplitBack | src/main/java/com/epam/hadoop/yarn/Crawler.java:98-99 | six tab-free columns with a non-empty last one, joined by tabs, split back into those six columns |
| Crawler.EmptyLastColumnIsSkipped | src/main/java/com/epam/hadoop/yarn/Crawler.java:56-58 | an empty last column is dropped by Java's split, so the line has fewer than 6 columns and is skipped |
| Crawler.SortKeywordsByFrequency | src/main/java/com/epam/hadoop/yarn/Crawler.java:102-114 | every distinct keyword exactly once with its number of occurrences, ordered by non-increasing count |
| Crawler.SortByCountDescending | src/main/java/com/epam/hadoop/yarn/Crawler.java:111-112 | the entries end ordered by non-increasing count and are a permutation of the original ones |
| Crawler.SwapWithPrevious | src/main/java/com/epam/hadoop/yarn/Crawler.java:111-112 | exchanges two neighbouring entries, leaves the others alone and keeps the multiset |
| Crawler.RankingOfPermutation | src/main/java/com/epam/hadoop/yarn/Crawler.java:110-113 | sorting the distinct keyword counts by count gives a frequency ranking of the keywords |
| Crawler.DistinctEntriesOccurOnce | src/main/java/com/epam/hadoop/yarn/Crawler.java:110 | entries taken from a map occur at most once in the list |
| Crawler.SelectTopKeywords | src/main/java/com/epam/hadoop/yarn/Crawler.java:69-73 | at most 10 distinct keys, exactly those among the first min(10, n) entries, and exactly those keys in order when the keys are distinct |
| Crawler.TopOfRanking | src/main/java/com/epam/hadoop/yarn/Crawler.java:21 | the first min(10, n) keys of a ranking are page keywords, distinct and most frequent first; no keyword left out is more frequent than one taken, and all are taken when fewer than 10 |
| Crawler.OutsideTopRanksLower | src/main/java/com/epam/hadoop/yarn/Crawler.java:69-73 | a keyword outside the first n keys of a ranking occurs no more often than any of them |
| Crawler.KeywordsFromPage | src/main/java/com/epam/hadoop/yarn/Crawler.java:116-138 | a failed fetch gives no keywords; every keyword consists of letters a-z only (possibly empty) |
| Crawler.KeywordsAreWordsOfCleanText | src/main/java/com/epam/hadoop/yarn/Crawler.java:132 | the keywords, joined by single spaces, are the cleaned text with its whitespace runs collapsed, less at most a final space |
| Crawler.CleanText | src/main/java/com/epam/hadoop/yarn/Crawler.java:132 | after the clean-up only spaces and lower-case letters a-z remain |
| Crawler.RemoveSingleLetters | src/main/java/com/epam/hadoop/yarn/Crawler.java:132 | the single-letter pass only writes spaces and characters of its input |
| Crawler.PagesWithoutLetters | src/main/java/com/epam/hadoop/yarn/Crawler.java:132 | a non-empty page text without letters gives no keywords (so the line is skipped); an empty page text gives the single empty keyword |
| Crawler.SpacesOnlyStaySpaces | src/main/java/com/epam/hadoop/yarn/Crawler.java:132 | the single-letter pass keeps a string of spaces as spaces of the same length |
| Crawler.EdgeSingleLettersSurvive | src/main/java/com/epam/hadoop/yarn/Crawler.java:132 | single letters at the very start and end of the text are not removed: "a b c" gives the keywords "a" and "c" |
| Crawler.KeepsEdgeLetters | src/main/java/com/epam/hadoop/yarn/Crawler.java:132 | the single-letter pass turns "a b c" into "a c" |
| Crawler.SplitsAroundSpace | src/main/java/com/epam/hadoop/yarn/Crawler.java:132 | "a c" splits on `\s+` into "a" and "c" |
| Crawler.SingleLetterAfterRemovedOneSurvives | src/main/java/com/epam/hadoop/yarn/Crawler.java:132 | matches do not overlap, so of " x y z " the letter y survives, and a leading space gives an empty first keyword |
| Crawler.SkipsSecondLetter | src/main/java/com/epam/hadoop/yarn/Crawler.java:132 | the single-letter pass turns " x y z " into " y " |
| Crawler.SplitsAroundY | src/main/java/com/epam/hadoop/yarn/Crawler.java:132 | " y " splits on `\s+` into the empty string and "y" |
| Text.Fields | src/main/java/com/epam/hadoop/yarn/Crawler.java:99 | splitting on a character gives one more piece than there are separators, none containing the separator |
| Text.Join | src/main/java/com/epam/hadoop/yarn/Crawler.java:75 | `StringUtils.join`: the parts with one separator between neighbours; `FieldsOfJoin`, `JoinOfFields` and `JavaSplitOfJoin` state its round trips |
| Text.JoinCons | src/main/java/com/epam/hadoop/yarn/Crawler.java:75 | joining a first part in front of at least one more part puts one separator after it |
| Text.JoinAfterEmpty | src/main/java/com/epam/hadoop/yarn/Crawler.java:75 | an empty first part makes the join start with the separator |
| Text.JoinGlue | src/main/java/com/epam/hadoop/yarn/Crawler.java:75 | a character put in front of the first part ends up in front of the join |
| Text.JoinSnoc | src/main/java/com/epam/hadoop/yarn/Crawler.java:75 | joining with one more last part appends the separator and that part |
| Text.JoinDropTrailingEmpty | src/main/java/com/epam/hadoop/yarn/Crawler.java:98-99 | dropping trailing empty parts shortens a join only by separators at its end |
| Text.JavaSplitLosesOnlyTrailingSeparators | src/main/java/com/epam/hadoop/yarn/Crawler.java:98-99 | the pieces of Java's split, joined again, are a prefix of the string followed only by separators |
| Text.FieldsOfJoin | src/main/java/com/epam/hadoop/yarn/Crawler.java:79 | separator-free parts joined by the separator split back into the same parts |
| Text.JoinOfFields | src/main/java/com/epam/hadoop/yarn/Crawler.java:79 | joining the pieces of a split gives back the string |
| Text.JoinAvoids | src/main/java/com/epam/hadoop/yarn/Crawler.java:75 | a character in none of the parts, and not the separator, is not in the join |
| Text.DropTrailingEmpty | src/main/java/com/epam/hadoop/yarn/Crawler.java:99 | the longest prefix not ending in an empty string; everything removed is empty |
| Text.JavaSplit | src/main/java/com/epam/hadoop/yarn/Crawler.java:98-99 | no piece of Java's split contains the separator |
| Text.JavaSplitOfJoin | src/main/java/com/epam/hadoop/yarn/Crawler.java:98-99 | Java's split of a join of two or more separator-free parts is the parts less their trailing empty ones |
| Text.TrimLeadingSpace | src/main/java/com/epam/hadoop/yarn/Crawler.java:132 | removes exactly the leading run of `\s` characters |
| Text.IsRegexSpace | src/main/java/com/epam/hadoop/yarn/Crawler.java:132 | the `\s` class of `java.util.regex`: space, tab, newline, vertical tab, form feed and carriage return; used by `SpaceRuns`, `CollapseSpaces` and the single-letter pass |
| Text.SpaceRuns | src/main/java/com/epam/hadoop/yarn/Crawler.java:132 | the pieces between `\s` runs; `SpaceRunsOfJoin` and `JoinOfSpaceRuns` state the round trips: space-free words joined by one `\s` come back unchanged, and the pieces joined by one space are the text with each run collapsed |
| Text.SpaceFree | src/main/java/com/epam/hadoop/yarn/Crawler.java:132 | a piece holds no `\s` character |
| Text.SpaceRunsOfPrefix | src/main/java/com/epam/hadoop/yarn/Crawler.java:132 | a space-free prefix is glued to the first piece of what follows it |
| Text.SpaceRunsAfterSeparator | src/main/java/com/epam/hadoop/yarn/Crawler.java:132 | a `\s` before a text that does not start with `\s` opens one empty piece |
| Text.JoinStartsWithFirstPart | src/main/java/com/epam/hadoop/yarn/Crawler.java:75 | a join whose first part is non-empty starts with that part's first character |
| Text.SpaceRunsOfJoin | src/main/java/com/epam/hadoop/yarn/Crawler.java:132 | space-free words, none empty except possibly the first and last, joined by one `\s` character, split back on `\s` runs into exactly those words |
| Text.SpaceRunsOfJoinStep | src/main/java/com/epam/hadoop/yarn/Crawler.java:132 | one more word in front keeps that round trip |
| Text.SplitOnSpaceRunsOfJoin | src/main/java/com/epam/hadoop/yarn/Crawler.java:132 | `split("\\s+")` of such a join of two or more words gives the words less their trailing empty ones |
| Text.CollapseSpaces | src/main/java/com/epam/hadoop/yarn/Crawler.java:132 | reference definition: the text with each `\s` run replaced by one space; only spaces and non-`\s` characters of the text, never two spaces in a row, a first non-space character kept |
| Text.JoinOfSpaceRuns | src/main/java/com/epam/hadoop/yarn/Crawler.java:132 | the pieces between `\s` runs, joined by single spaces, are exactly `CollapseSpaces` of the text |
| Text.SplitOnSpaceRunsKeepsWords | src/main/java/com/epam/hadoop/yarn/Crawler.java:132 | the pieces of `split("\\s+")` joined by single spaces are the collapsed text less at most its final space: no word is lost, reordered or merged |
| Text.SplitOnSpaceRuns | src/main/java/com/epam/hadoop/yarn/Crawler.java:132 | `split("\\s+")`; `SplitOnSpaceRunsOfJoin` and `SplitOnSpaceRunsKeepsWords` state its round trips with `Join` |
| Text.AllSpaceSplitsToNothing | src/main/java/com/epam/hadoop/yarn/Crawler.java:132 | a non-empty all-whitespace string splits on `\s+` into no pieces |

## Left out

- HDFS and YARN client calls are not executed. This covers `FileSystem` exists/getFileStatus/getFileBlockLocations/open/create, `NMClient`, `AMRMClientAsync` and `ConverterUtils`. They appear only as parameters (input existence, block locations, jar status, whether a start throws) and as records in the ghost call log.
- The jar's resource URL is kept as the jar path string, because `ConverterUtils.getYarnUrlFromPath` is a foreign conversion.
- The classpath environment of the launch context (ApplicationMasterAsync.java:74-81) is not modelled. It only reads the YARN configuration.
- Concurrency is not modelled. The callbacks run on client threads; here they are sequential method calls interleaved with `runMainLoop` through the event schedules. Atomicity of `AtomicInteger` is therefore not modelled either.
- The one-second `Thread.sleep` of the wait loop is not modelled. The wait is a poll of `doneWithContainers` after each batch of the wait schedule.
- `getProgress`, `onShutdownRequest`, `onNodesUpdated`, `onError`, the getters and all logging have no effect on the modelled state and are left out.
- The `main` methods of both classes are left out, because they only read the command line. The master's `main` uses `containersNum = 1`.
- `Client.java` (job submission) is not part of this model.
- The Jsoup request, XML parsing and script-tag removal of `getKeywordsFromPage` (Crawler.java:119-130) are the `fetch` oracle: a function from URL to the body text, or `None` on an `IOException`. The clean-up expression after it is modelled for the ASCII case only; see `Crawler.LowerCase` and `Crawler.KeywordsFromPage` below.
- Crawler.LowerCase: maps only `A`-`Z` to `a`-`z`. By that point `replaceAll("[^a-zA-Z]", " ")` has left only ASCII letters. The model therefore assumes a default locale whose lower-casing of `A`-`Z` is the ASCII one. That holds for every locale except Turkish and Azeri, where `toLowerCase()` turns `I` into the dotless `ı` (U+0131).
- Crawler.KeywordsFromPage: its promise that every keyword is made of `a`-`z` holds only under that locale assumption. Under a Turkish or Azeri default locale a keyword can contain `ı`.
- Crawler.Run: the `linesRead` counter is unbounded. In the source it is a 32-bit `int`, so after 2^32 lines it would come back to 1 and that line would be copied as a header; the model copies only the first line. File reading and writing are a sequence of input lines and a sequence of output lines.
- Crawler.Run: unchecked exceptions that end the loop are not modelled. `getKeywordsFromPage` catches only `IOException` (Crawler.java:133). A non-blank but malformed URL makes `Jsoup.connect` throw `IllegalArgumentException`. A page the XML parser leaves without a `body` element makes `doc.body()` null at Crawler.java:130. Either exception leaves `run` through the `finally` blocks at Crawler.java:89-93, so the output ends after the lines already written. The model's `fetch` has no such outcome, and its contract writes every accepted data line.
- Crawler.IsJavaWhitespace: follows `Character.isWhitespace` of Java 7 and 8 (Unicode 6), where U+180E MONGOLIAN VOWEL SEPARATOR is whitespace. From Java 9 on it is not, so under a newer runtime a URL column made only of U+180E would count as non-blank.
- Crawler.SortKeywordsByFrequency: the order of equal-count entries is not fixed. It comes from `HashMap` iteration, which the source leaves unspecified, so the model picks it with `:|`. The contract states only what holds for every order.
- Crawler.RewriteLine: states that column 1 holds some top keyword list, not the particular list, because that list depends on the unspecified order among equal counts.
- AppMaster.ApplicationMaster.RunMainLoop: exceptions from the YARN client are not modelled. An empty block-location array, which throws at ApplicationMasterAsync.java:172, ends the run with the outcome `NoBlockLocations` after registering and before any request.
