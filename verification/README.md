# Tariff-update crawler, modelled in Dafny

This project models `main.py` of a crawler that looks for tariff updates on
customs and trade web sites. For each source it drives a headless Chrome
browser and lets a vision-language model decide what to do. Each iteration
reads the page and a screenshot. The model answers with a JSON action (click
or type at an XPath) or with a JSON list of updates. A list of updates is
saved to `results/<market>_updates.json`.

The model covers:

- **the tolerant JSON-span search** (`JsonSpan`): the greedy `re.search` over
  the model's free text.
- **the three analysers** (`Decision`): they turn a model reply into a value
  and fall back to `{}` or `[]` on any failure.
- **the file-name sanitiser** (`SafeName`).
- **`go_to_url`** (`Navigation`): bounded retries with exponential back-off
  and the invalid-page check.
- **`Browser()` and `get_thread_browser`** (`Session`): the two start-up
  strategies, the bounded construction retries, and the per-thread cache.
- **`process_tariff_source`** (`Agent`, with properties in `LoopFacts` and
  whole runs in `Scenarios`): navigate, then at most five
  observe–decide–act iterations, and `quit` on every way out.
- **the `__main__` batch** (`Orchestrator`, with properties in `BatchFacts`):
  filter the active sources, take the first two, check each link, and process
  each source with one shared browser cache.

Everything outside the program becomes a parameter:

- A `World` scripts what each navigation attempt lands on, and what each
  iteration's page read, screenshot, two model replies and click or type do.
- A `Decoder` stands for `json.loads`.
- An `Env` scripts each browser construction and gives each selected source
  its own `World`.

A run yields an `Outcome`: why it ended, the ordered trace of external calls
(`driver.get`, sleeps, page reads, screenshots, model calls, clicks, typing,
saves, `quit`), and the updates saved, if any. Sleeps are recorded as calls
with their duration.

The model follows the code as written, including:

- An invalid page (a `data:` URL, or "404" in the title) makes `go_to_url`
  return `False` at once. It is not retried (main.py:135-137).
- The JSON span is the greedy regex match, not the first balanced span. It
  runs from the earliest opener that has a matching closer anywhere after it
  to the last such closer (main.py:233, 284, 325).
- An empty list of updates is falsy, so it is never saved. An empty visual
  answer triggers the HTML-only fallback. The loop stops only when the
  fallback's answer is falsy too; a truthy fallback answer is acted on like a
  visual one (main.py:365-379).
- The iteration bound is the constant 5, not a setting (main.py:354).
- An action other than `click` or `type` stops the loop with its own reason
  (main.py:405-407).

## Model

| member | source | states |
|---|---|---|
| Json.Truthy | main.py:365-371 | Python truthiness: `None`, `False`, `""`, `[]` and `{}` are falsy, and an object with at least one key is truthy |
| Json.Lookup | main.py:381-384 | `dict.get`: the stored value when the key is present, the default otherwise |
| Strings.Lower | main.py:135 | lower-casing keeps the length and maps every character through the ASCII case map |
| Strings.LowerPreservesDigitSearch | main.py:135 | searching the lower-cased title for a string of digits finds it exactly when searching the title itself does |
| JsonSpan.Locate | main.py:284-286 | the span found is the one `re.search` selects: it starts at the earliest opener with a closer of its kind somewhere after it, and ends at the last such closer; there is no span exactly when no position can start a match |
| JsonSpan.Search | main.py:284-286 | `group(1)` is absent exactly when no match can start; otherwise it is the selected span's text, which begins with an opener and ends with that opener's closer |
| JsonSpan.FirstStart | main.py:284 | the earliest position from the given one that can start a match; no earlier position can |
| JsonSpan.LastIndexOf | main.py:284 | the last position of a character, or -1 when it does not occur; no later position holds it |
| JsonSpan.SearchResultUnique | main.py:284 | at most one span meets the description of the regex match |
| JsonSpan.LocateIsReSearch | main.py:284 | the computed span and the regex match coincide, in both directions |
| JsonSpan.EmbeddedArrayIsFound | main.py:233-235 | an array surrounded by prose with no opener before it and no `]` after it is returned exactly |
| JsonSpan.GreedyAcrossArrays | main.py:284 | two arrays in one reply come back as a single span from the first `[` to the last `]` |
| JsonSpan.UnclosedOpenerIsSkipped | main.py:284 | an opener with no closer of its kind after it cannot start the match, and the search moves on to a later opener |
| JsonSpan.ArrayOnlyIgnoresObjects | main.py:233 | the bracket-only pattern finds nothing in text without a `[`, whatever objects the text holds |
| Decision.ParseReply | main.py:280-298 | the parse shared by the analysers; its contracts are `Decision.ParseResult` and `FailuresGiveEmptyValues` |
| Decision.Excerpt | main.py:271 | the HTML sent to the model is a prefix of the page: the first 4000 characters of a longer page, the whole page otherwise |
| Decision.AnalyseForAction | main.py:280-298 | the action analyser returns `{}`, or the decoded value of the span the regex selects in the reply |
| Decision.ExtractTariffUpdates | main.py:229-246 | the update extractor returns `[]`, or the decoded value of the bracketed span the regex selects in the reply |
| Decision.ParseResult | main.py:282-291 | any parse result other than the fallback was decoded from the selected span |
| Decision.FailuresGiveEmptyValues | main.py:282-298 | a failed call, a reply with no span, or a span the decoder rejects gives `{}` or `[]`; a span that decodes gives exactly its decoded value |
| Decision.EmbeddedUpdatesAreExtracted | main.py:231-237 | a reply holding one array in prose yields exactly what the decoder makes of that array |
| SafeName.Sanitise | main.py:427 | the safe name has the same length; it keeps every ASCII letter, digit, `_` and `-`, and replaces every other character by `_` |
| SafeName.OutputFile | main.py:427-428 | the output file is `results/`, then a safe stem exactly as long as the market, then `_updates.json`; stem character i is market character i when that is an ASCII letter, digit, `_` or `-`, and `_` otherwise |
| SafeName.SafeMarketsGetTheirOwnFiles | main.py:427-428 | two different markets that are already safe are written to different files |
| SafeName.SanitiseFixesExactlySafe | main.py:427 | a market name is left unchanged exactly when it is already safe |
| SafeName.SanitiseIdempotent | main.py:427 | sanitising twice is sanitising once |
| SafeName.DistinctMarketsCanShareAFile | main.py:427-428 | two different markets ("EU / FR" and "EU___FR") are written to the same output file |
| Navigation.AttemptFrom | main.py:127-142 | every remaining attempt starts with a `get`; a success ends on that `get`, with no sleep after the attempt that loaded |
| Navigation.GoToUrl | main.py:126-142 | with any retries the first call is a `get`; success needs at least one attempt and ends on the `get` that loaded |
| Navigation.Backoff | main.py:141 | the k-th back-off sleep after attempt `from + k` lasts 2^(from + k) seconds |
| Navigation.AttemptFromBehaviour | main.py:127-142 | from any attempt on: one `get` per attempt up to and including the first that loads; one back-off sleep per raised attempt, with delays 2^attempt; success exactly when the first attempt that loads finds a valid page |
| Navigation.GoToUrlBehaviour | main.py:126-142 | at most `retries` gets; delays 1, 2, 4, … once per raised attempt; `True` exactly when the first attempt that does not raise lands on a page that is neither `data:` nor a 404 |
| Navigation.AttemptsInOrderFrom | main.py:127-142 | from any attempt on, with k the first attempt that does not raise: exactly 2(k - attempt) calls, plus one if some attempt loaded; raised attempt m is its `get` immediately followed by its sleep of 2^(attempt + m); the attempt that loaded is the last call, a `get` |
| Navigation.GoToUrlInOrder | main.py:126-142 | `go_to_url`'s calls in order: `get`, sleep 1, `get`, sleep 2, … one pair per raised attempt, then a final `get` when an attempt loaded; nothing else |
| Navigation.FailureMeansAllThrewOrInvalid | main.py:135-142 | `False` means every attempt raised, or the first attempt that loaded found an invalid page and no attempt followed it |
| Navigation.BackoffIncreasing | main.py:141 | the back-off delays start at one second and strictly increase |
| Navigation.InvalidTitleIgnoresCase | main.py:135 | a page is invalid exactly when its URL starts with `data:` or its title contains "404" in any letter case |
| Navigation.FailTwiceThenSucceed | main.py:127-141 | two raised attempts followed by a valid page give success after three gets and sleeps of 1 s and then 2 s |
| Session.Construct | main.py:78-124 | Selenium is used whenever it starts; undetected_chromedriver only when Selenium failed; construction raises exactly when both fail |
| Session.TryFrom | main.py:183-192 | constructions run from the current attempt up to at most `max_retries`, at least one when any is left; a browser is cached only when the last construction attempted started one, and it is live |
| Session.GetThreadBrowser | main.py:171-193 | a cached browser is returned as it is, with no construction or sleep; a browser built by the call is live; with an empty cache and any retries, at least one construction is attempted, never more than `max_retries` |
| Session.FirstBuilt | main.py:183-187 | the first construction that starts a browser; all earlier ones failed |
| Session.TryFromBehaviour | main.py:183-192 | from any attempt on: constructions until one starts, at most `max_retries`; a 2 s sleep between failures but none after the last |
| Session.GetThreadBrowserBehaviour | main.py:171-193 | a cached browser is returned with no construction; otherwise the call raises exactly when all `max_retries` constructions fail, and a browser it builds is live |
| Agent.Decide | main.py:359-367 | the decision of one iteration; its contract is `LoopFacts.FallbackDiscipline` |
| Agent.Act | main.py:365-407 | acting on a decision; its contracts are `LoopFacts.ActFacts`, `ExtractFacts`, `ActOnObjectFacts`, `ClickFacts` and `TypeFacts` |
| Agent.RunRound | main.py:356-407 | one iteration; its contracts are `LoopFacts.RoundFacts`, `CaptureFailuresRaise`, `DecisionDispatch`, `ObjectDispatch` and `RoundExtractsIff` |
| Agent.Iterations | main.py:354-409 | the loop with its `for … else`; its contracts are `LoopFacts.IterationsFacts`, `ExhaustedIffAllContinue` and `LoopEndsAtFirstStop` |
| Agent.RunSource | main.py:343-412 | one source once a browser is held; its contracts are `LoopFacts.RunSourceFacts`, `QuitOnEveryExit`, `RunExtractsIff` and `ExhaustionMeansFiveActions` |
| LoopFacts.FallbackDiscipline | main.py:362-367 | the visual analyser is asked exactly once per iteration, and the HTML-only analyser once exactly when the visual answer is falsy (`[]` and `{}` included); the decision is the first truthy answer |
| LoopFacts.NamedActionIsTruthy | main.py:365-371 | a decision object that has an `action` key is truthy, so it neither triggers the fallback nor stops the loop |
| LoopFacts.ActOnObjectFacts | main.py:381-407 | acting on a non-empty object: `click` first clicks its `xpath`, `type` first types its `text` (empty when absent) into its `xpath`, and each goes round again exactly when the element was found; any other action stops the loop as unknown with nothing done; at most one click or type and no save |
| LoopFacts.ClickFacts | main.py:388-392 | a `click` action, whatever else the object holds: `Click(xpath)` then the 3 s pause and another iteration when it worked; only `Click(xpath)` and a failed-click stop when the element is missing; only `Click(xpath)` and an escaping exception otherwise |
| LoopFacts.TypeFacts | main.py:393-404 | a `type` action, whatever else the object holds: typing `text` (empty when absent) into `xpath`, then the 2 s pause and another iteration when it worked; a failed-typing stop when the element is missing; an escaping exception otherwise |
| LoopFacts.ExtractFacts | main.py:373-379 | a non-empty list with a string market is saved once into `results/<safe market>_updates.json`, and the run ends as an extraction with exactly that list saved; any other market makes the save raise |
| LoopFacts.ActFacts | main.py:369-407 | acting adds no page read, model call, navigation or `quit`; it saves exactly when it extracts; it continues only after a performed click or type; a falsy decision stops the loop with nothing done |
| LoopFacts.Compose | main.py:359-407 | observation and decision followed by an action give an iteration with one page read and one visual call |
| LoopFacts.RoundFacts | main.py:355-407 | every iteration reads the page exactly once and makes at most one fallback call; it continues only after a performed click or type; it saves only when it extracts |
| LoopFacts.ObservedRoundFacts | main.py:359-407 | the same, for an iteration whose page read and screenshot both worked |
| LoopFacts.ObserveThenDecide | main.py:359-367 | the observation and decision make one page read, one visual call and at most one fallback call |
| LoopFacts.CaptureFailuresRaise | main.py:144-150 | a page read that raises ends the iteration after the 5 s pause and the read; a screenshot that raises ends it after the whole observation; the exception escapes the loop and nothing is asked |
| LoopFacts.DecisionDispatch | main.py:359-379 | with both captures working and `d` the decision (the visual answer, or the HTML-only answer when that is falsy): a falsy `d` stops the loop after the observation and the model calls; a non-empty list is saved under the market's file and ends the run as an extraction; a list with a non-string market, or a truthy scalar, raises |
| LoopFacts.ObjectDispatch | main.py:381-407 | with both captures working and a non-empty object as the decision: a `click` or `type` is carried out on its `xpath` after the observation and the model calls, and goes round again after its pause exactly when it worked; any other action stops the loop as unknown |
| LoopFacts.RoundExtractsIff | main.py:356-379 | an iteration ends the run as an extraction exactly when both captures worked, the decision is a non-empty list and the market is a string; it then saves that decision |
| LoopFacts.FirstStop | main.py:355-409 | the first iteration that ends the loop: every earlier one went round again |
| LoopFacts.LoopEndsAtFirstStop | main.py:355-409 | the loop ends with the reason and saved updates of its first stopping iteration, or at the bound with nothing saved when none stops; its calls are those of every iteration before that one, in order, followed by that iteration's own |
| LoopFacts.LoopTrace | main.py:355-409 | the loop's calls are the calls of each iteration that went round again, one after another, then those of the iteration that stopped it (none when the bound was reached) |
| LoopFacts.ExtractingIterationStopsFirst | main.py:355-379 | an iteration that saves after every earlier one went round again is the loop's first stop |
| LoopFacts.RunExtractsIff | main.py:343-412 | a run ends as an extraction exactly when navigation worked and some iteration within the bound saves after every earlier one went round again; the updates saved are that iteration's decision |
| LoopFacts.StopEnds | main.py:369-407 | an iteration that stops ends the loop with its own reason, trace and saved updates |
| LoopFacts.ContinueThen | main.py:355-407 | an iteration that goes round again adds one page read and one click or type to the rest of the loop |
| LoopFacts.IterationsFacts | main.py:355-409 | the remaining loop reads the page at most once per remaining iteration; it saves exactly once and as its last call when it extracts; it reaches the bound only after a click or type in every remaining iteration |
| LoopFacts.ExhaustedIffAllContinue | main.py:355-409 | the `for … else` branch is reached exactly when every remaining iteration goes round again |
| LoopFacts.AllRoundsShaped | main.py:355-407 | every iteration of any world has the shape above |
| LoopFacts.NavigationCounts | main.py:126-142 | navigation contributes only gets and sleeps, and at most three gets |
| LoopFacts.ComposeFailedRun | main.py:349-351 | a failed navigation followed by `quit` is a complete run |
| LoopFacts.ComposeRun | main.py:349-412 | a successful navigation, the loop and `quit` make a complete run |
| LoopFacts.LoopFromStart | main.py:354-409 | the loop from the first iteration reads the page at most five times |
| LoopFacts.RunSourceFacts | main.py:343-412 | a run starts with its navigation, makes no other `get`, ends with exactly one `quit`, reads the page at most five times, and saves exactly when it extracts |
| LoopFacts.QuitOnEveryExit | main.py:411-412 | `quit` is called exactly once, as the last call, on every way out |
| LoopFacts.NavigationFailureSkipsLoop | main.py:349-351 | a run fails to navigate exactly when `go_to_url` returns `False`; it then makes only the navigation calls and `quit`, and reads, asks and saves nothing |
| LoopFacts.NavigatesOnlyAtStart | main.py:347-355 | every `get` of a run belongs to the first navigation, so there are at most three |
| LoopFacts.AtMostFiveIterations | main.py:354-355 | at most five page reads; at most one visual call per read; at most one HTML-only call per visual call |
| LoopFacts.SaveOnlyOnExtraction | main.py:373-379 | at most one save, exactly when the run extracts: a non-empty list, into the sanitised market's file, just before `quit` |
| LoopFacts.RoundsNeverExhaust | main.py:369-407 | no single iteration ends the loop by the bound |
| LoopFacts.ExhaustionMeansFiveActions | main.py:408-409 | the bound is reached exactly when navigation worked and all five iterations went round again; five reads and five clicks or types were then made |
| Scenarios.LoadsAtOnce | main.py:127-138 | a valid first landing means one `get` and success |
| Scenarios.ClickRound | main.py:359-392 | an iteration whose visual answer is any object asking for a click that works observes, asks once, clicks that object's `xpath` and pauses 3 s |
| Scenarios.TypeRound | main.py:359-404 | an iteration whose visual answer is any object asking for typing that works observes, asks once, types that object's `text` (empty when absent) into its `xpath` and pauses 2 s |
| Scenarios.FallbackClickRound | main.py:359-392 | a falsy visual answer followed by an HTML-only answer asking for a working click: both analysers are asked, and the loop goes round again after the click |
| Scenarios.ExtractRound | main.py:359-379 | an iteration answered with a non-empty list observes, asks once and saves it |
| Scenarios.ThreeIterations | main.py:355-407 | two iterations that go round again and one that stops make the loop's trace, in order |
| Scenarios.RunAfterNavigation | main.py:349-412 | a run that loads at once is the `get`, then the loop, then `quit` |
| Scenarios.ClickTypeExtract | main.py:343-412 | any click object, then any type object, then a list of updates: the run clicks, types, saves once and quits once, in that order |
| Scenarios.EmptyAnswersStop | main.py:362-371 | `[]` from the visual analyser and `{}` from the fallback: the fallback is asked once, and the run stops without saving and quits |
| Scenarios.WorkingClicksContinue | main.py:355-392 | iterations that each ask for a click that works all go round again |
| Scenarios.EndlessClicksHitTheBound | main.py:355-409 | a model that always asks for a working click runs to the bound: five reads, five clicks, nothing saved |
| Orchestrator.ProcessSource | main.py:343-412 | one source as the batch sees it; its contracts are `BatchFacts.ProcessFromEmpty`, `ProcessFromQuit`, `AsWrittenVisit` and `CorrectedVisit` |
| Orchestrator.BatchFrom | main.py:498-516 | the batch loop; its contracts are `BatchFacts.BatchShape`, `VisitorNeverSkips` and `BatchReports` |
| Orchestrator.RunBatch | main.py:486-520 | the batch as written; its contracts are `BatchFacts.BatchReports` and `RunBatchReusesQuitBrowser` |
| Orchestrator.RunBatchFresh | main.py:486-520 | the batch with the cache emptied after each `quit`; its contract is `BatchFacts.FreshBatchRunsEachSourceAlone` |
| Orchestrator.Active | main.py:493 | the active sources are exactly the sources whose `status` is the string "1" |
| Orchestrator.Objects | main.py:493 | the entries are taken as objects exactly when every entry is one; otherwise `.get` raises |
| Orchestrator.Selected | main.py:497-498 | the processed sources are the first min(active, 2) active sources |
| Orchestrator.CheckLink | main.py:502-504 | a link is accepted exactly when it is a string starting with "http"; a truthy non-string makes the check raise; anything else is skipped |
| BatchFacts.ActiveAppend | main.py:493 | the filter distributes over concatenation, so the active sources keep their order |
| BatchFacts.ActiveIdempotent | main.py:493 | filtering twice is filtering once |
| BatchFacts.AllActiveKept | main.py:493 | a list of active sources is kept whole |
| BatchFacts.BatchShape | main.py:498-516 | the reports follow the selected sources in order and stop exactly at the first link check that raises; a source is skipped exactly when its link is rejected |
| BatchFacts.VisitorNeverSkips | main.py:508-516 | processing a source never reports it skipped |
| BatchFacts.BatchReports | main.py:486-520 | at most two sources are reported on; a non-object entry aborts before any source; when no link check raises, every selected source gets a report, since a failure inside one source does not stop the next; an aborted batch stops exactly at a selected source whose link check raises |
| BatchFacts.DeadBrowserNeverLoads | main.py:126-142 | on a quit browser, navigation raises three times with back-off 1, 2 and 4 s; the run fails to navigate and saves nothing |
| BatchFacts.ProcessFromEmpty | main.py:347 | with no cached browser, a source either fails to build one (exactly when the next three constructions fail) or runs against its own site; the cache then holds the quit browser unless it is emptied |
| BatchFacts.ProcessFromQuit | main.py:181-193 | with a quit browser cached, a source gets that browser and the dead-browser run |
| BatchFacts.DeadAfterShift | main.py:498 | the dead-browser property of a batch carries from its tail to the whole |
| BatchFacts.QuitBrowserIsReused | main.py:181-193 | once a quit browser is cached, every later source with an accepted link gets the dead-browser run |
| BatchFacts.FreshBrowserPerSource | main.py:498-516 | with the cache emptied after each `quit`, every source either fails to build a browser or runs against its own site |
| BatchFacts.OneBrowserPerBatch | main.py:498-516 | with the cache never emptied, every source with an accepted link after the first one that ran gets the dead-browser run |
| BatchFacts.AsWrittenVisit | main.py:343-412 | processing a source as written leaves the quit browser cached after any run, and reuses it |
| BatchFacts.CorrectedVisit | main.py:343-412 | processing with the cache emptied after `quit` always builds a fresh browser for the source's own site |
| BatchFacts.RunBatchReusesQuitBrowser | main.py:498-514 | the batch as written, on every input: after the first source that runs, every later source with an accepted link fails to navigate |
| BatchFacts.FreshBatchRunsEachSourceAlone | main.py:498-514 | the corrected batch, on every input: every source with an accepted link fails to build a browser or runs against its own site |
| BatchFacts.SecondSourceNeverLoads | main.py:411-412 | two sources with http links and a first browser that builds: the second source is handed the quit browser and fails to navigate |
| BatchFacts.SecondSourceGetsItsOwnBrowser | main.py:181-193 | the same batch with the cache emptied after `quit`: both sources run against their own sites |

## Left out

- The prompts, the OpenAI client, the base64 encoding of the screenshot and the 60 s timeout are left out. Each model call is reduced to its reply (`Decision.Reply`), text or a failure. A `None` message content makes `re.search` raise, which the analysers catch; that is the failure case.
- `json.loads` is an abstract `Decoder`. Its grammar is not modelled.
- Selenium, `WebDriverWait` and the 10 s wait are scripted by the `World`. A timeout is one of the ways an attempt raises. The screenshot bytes and the page HTML beyond the 4000-character excerpt play no part.
- `time.sleep` only appears in the trace, with its duration. No clock is modelled.
- Logging, `print(json.dumps(...))` and the `description` field (read only for logging) are left out.
- The file write in `save_results` is left out. The save is a trace call carrying the path and the updates. `os.makedirs` and the JSON formatting of the file are left out.
- Loading `test_sources.json` is left out. The batch starts from the decoded list of entries. A file that fails to load, or a top level that is not a list, is not modelled.
- The locks and threads are left out. `browser_init_lock` only serialises constructions, and the batch runs on one thread, so `thread_local` is one cache.
- The `--mock` and `--test` branches and `mock_process_source` are left out. They are test scaffolding.
- An exception raised by `quit` is left out. The source catches and logs it.
- Strings.Lower: only ASCII letters are lower-cased. `str.lower` on other scripts is not modelled, and it cannot change whether a title contains "404".
- Orchestrator.DeadWorld: after `quit()` every driver call (`get`, page read, screenshot, click, typing) is taken to raise. That is Selenium's behaviour, which main.py relies on but does not show; the finding below rests on it.
- Agent.Act: a click or type that raises something other than `NoSuchElementException` or `TimeoutException` is the `Raised` outcome. Which exception it was is not modelled.

## Findings

| source | as written | input that shows it | evidently intended | confidence | as-written member | corrected member |
|---|---|---|---|---|---|---|
| main.py:181-193 | `get_thread_browser` caches the browser in `thread_local` and `process_tariff_source` quits it in `finally` (main.py:411-412), but the cache is never emptied, so the next source on the same thread is handed a quit driver | two active sources with http links, the first browser starts: the second source's `driver.get` raises three times (sleeps 1, 2, 4 s) and it is reported as a navigation failure whatever its site does | each source gets a live browser, a new one after the previous was quit | not executed | BatchFacts.SecondSourceNeverLoads | BatchFacts.SecondSourceGetsItsOwnBrowser |
