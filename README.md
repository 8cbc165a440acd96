# WebCursor Agent — a verified model of the agent core

WebCursor Agent is a browser extension that lets a language model drive a web page.
Each iteration, the content script takes a snapshot of the page's visible interactive
elements and gives each one an id `el_0, el_1, …`. It sends the snapshot to the
background worker, which answers with a batch of actions (from the demo planner or
from the model). The content script then executes the batch one action at a time.
Risky actions (payment, publishing, deletion, passwords, form submission) need the
user's confirmation when the safety policy asks for it. A run is refused on
denylisted hosts and on hosts outside a non-empty allowlist. It ends on a stop
request, at the step budget, on a model error or when the model says it is done.
The options page saves the settings that the worker merges over its defaults.

This project models that core in Dafny and proves what it promises. The code states
are modelled as follows:

- **Pure parts.** Text normalisation, visibility, the candidate query, risk
  classification, the domain guard, `executeAction`'s effects, the settings merge,
  response validation, the demo planner, request routing and the options form. Each
  is a function with lemmas.
- **Imperative parts.** `collectSnapshot`, `generateSelector`'s walk up the tree,
  `runLoop` with its batch loop, and the `RUN_TASK` / `STOP_TASK` handler. They are
  methods with loops, mostly of the class `Agent.Agent`, which holds the fields of
  `WCA_STATE`. Each method is proved equal to a specification function (`Snapshot`,
  `Controller`). The properties are proved as lemmas about those functions.

Modules, in dependency order:

| module | file | models |
|---|---|---|
| `Wrappers` | wrappers.dfy | `Option`, `Result` |
| `Text` | text.dfy | the JavaScript string built-ins used: `trim`, `toLowerCase` (for the ASCII and Latin-1 capitals, KELVIN SIGN and the dotted capital I), `includes`, `endsWith`, `split`, `join`, decimal rendering, `parseInt(…, 10)` |
| `Dom` | dom.dfy | the page: element records in document order, each with its parent's index |
| `Protocol` | protocol.dfy | actions, decisions, replies, snapshot descriptors, JSON values |
| `Snapshot` | snapshot.dfy | `normalizeText`, `isVisible`, the candidate query, `generateSelector`, what `collectSnapshot` returns |
| `Risk` | risk.dfy | `isRiskyElement`, `isRiskyAction` |
| `Executor` | executor.dfy | `executeAction` as the effects it has, in order, or the error it throws |
| `DomainGuard` | domain_guard.dfy | `matchesDomainList`, `checkDomainAccess` |
| `Controller` | controller.dfy | `runLoop` as a function of its inputs |
| `Agent` | agent.dfy | `WCA_STATE` and the methods that update it |
| `Background` | background.dfy | `DEFAULT_SETTINGS`, `getSettings`, `validateModelResponse`, `demoActions`, `MODEL_NEXT_ACTION` routing |
| `Options` | options.dfy | `parseList`, the object the Save button stores, `loadSettings` |

### Inputs of the model

- **The page.** Each iteration sees a document: element records in document order,
  each with its parent. It also sees the body text, the URL and the title.
  `CSS.escape` is a function parameter that is not interpreted.
- **Everything the run loop learns from outside** is held in `Controller.Env`:
  - the reply to each `MODEL_NEXT_ACTION` request (`None` for no response);
  - the answer at each confirmation modal;
  - whether the browser throws while acting on an element;
  - whether a `STOP_TASK` message arrived before each point where the loop reads
    its flags;
  - the URL after each batch.
- **Storage.** `chrome.storage` is the optional stored `settings` value.
- **The OpenAI call.** It is a function `fetch` from the request to the parsed JSON
  or to the message it throws with.

## Model

| member | source | states |
|---|---|---|
| `Text.Trim` | contentScript.js:80 | `trim()`: the result starts and ends with a non-space character (or is empty) and is the part of the input after its leading white space |
| `Text.TrimCuts` | contentScript.js:80 | what `trim()` removes at both ends is white space only |
| `Text.TrimOfTrimmed` | options.js:22 | a string with no white space at either end is its own trim |
| `Text.LowerAt` | contentScript.js:223 | on a text without the dotted capital I, `toLowerCase()` lowers each character in place and keeps the length |
| `Text.LowerConcat` | contentScript.js:217-223 | lowering a concatenation lowers each part, so the joined fields and the keyword search can be reasoned about field by field |
| `Text.DottedCapitalIGrows` | contentScript.js:223 | `toLowerCase()` can lengthen a text: the dotted capital I becomes 'i' followed by a combining dot |
| `Text.KelvinSignLowers` | contentScript.js:223 | KELVIN SIGN lowers to the ASCII letter 'k', so "BAN" followed by it lowers to "bank" |
| `Text.Split` | options.js:21 | `split("\n")` gives one more piece than there are separators, and no piece contains one |
| `Text.SplitAround` | options.js:21 | splitting at a separator splits the two sides independently |
| `Text.SplitWithoutSeparator` | options.js:21 | a string with no separator splits into itself alone |
| `Text.SplitJoin` | options.js:13-14 | splitting a `join` of separator-free pieces gives the pieces back |
| `Text.NatToStringInjective` | contentScript.js:120 | distinct numbers are rendered as distinct decimal strings |
| `Text.DigitsValueOfNatToString` | options.js:36 | the rendered digits of a number read back as that number |
| `Text.ParseIntOfIntToString` | options.js:16-36 | `Number.parseInt(String(n), 10)` is `n` for every integer, negative ones included |
| `Text.ParseIntOfNegative` | options.js:36 | a minus sign followed by the digits of `m` parses as `-m` |
| `Text.DigitPrefix` | options.js:36 | the digits `parseInt` reads are the longest run of digits at the start |
| `Snapshot.NormalizeText` | contentScript.js:79-81 | `normalizeText` leaves no white space at either end and none but single spaces, and keeps every other character in order |
| `Snapshot.Collapse` | contentScript.js:80 | `replace(/\s+/g, " ")` leaves only single spaces, starts with a space exactly when the input does, and keeps every other character |
| `Snapshot.NormalizeFixedPoint` | contentScript.js:79-81 | a text is left unchanged by `normalizeText` exactly when it is already normalized |
| `Snapshot.NormalizeIdempotent` | contentScript.js:79-81 | applying `normalizeText` twice equals applying it once |
| `Snapshot.CollapseOfSingleSpaced` | contentScript.js:80 | collapsing a single-spaced text changes nothing |
| `Snapshot.CollapseWord` | contentScript.js:80 | `replace(/\s+/g, " ")` copies a run of characters other than white space unchanged |
| `Snapshot.NormalizeWords` | contentScript.js:79-81 | `normalizeText` is the words of the input (its maximal runs of characters other than white space, in order) joined with single spaces |
| `Snapshot.SingleSpacedTrim` | contentScript.js:80 | trimming a single-spaced text keeps it single-spaced and keeps its other characters |
| `Snapshot.CandidatesBelowMembers` | contentScript.js:113-115 | the candidate query finds exactly the `a`, `button`, `input`, `textarea` and `select` elements (in any case), the `role=button` ones and the `contenteditable=true` ones |
| `Snapshot.CandidatesBelowIncreasing` | contentScript.js:113-115 | and finds them in document order |
| `Snapshot.CandidatesMembers` | contentScript.js:113-115 | the candidates of the whole document are exactly the matching elements, each once, in document order |
| `Snapshot.VisibleAmongMembers` | contentScript.js:117-118 | the elements kept are exactly the candidates that `isVisible` accepts |
| `Snapshot.VisibleAmongIncreasing` | contentScript.js:117-118 | and they are kept in candidate order |
| `Snapshot.VisibleAmongStep` | contentScript.js:117-118 | one more candidate is kept when it is visible and skipped otherwise |
| `Snapshot.Included` | contentScript.js:68-118 | the included elements are exactly the visible candidates (width and height above 0, `visibility` not `hidden`, `display` not `none`), in document order |
| `Snapshot.PartOf` | contentScript.js:88-103 | a selector part has the lower-case tag and the first two classes (escaped); it has `:nth-of-type(k)` exactly when the element has a parent with more than one child of its tag, where `k` is its 1-based position among them |
| `Snapshot.EscapeAll` | contentScript.js:90-92 | each class name is escaped on its own, in order |
| `Snapshot.Ancestors` | contentScript.js:86-105 | the walk visits at most four elements, all in the document |
| `Snapshot.AncestorsShape` | contentScript.js:86-106 | the walk starts at the element, steps from each element to its parent, and stops before the fourth part only at the root |
| `Snapshot.SelectorShape` | contentScript.js:83-108 | `generateSelector` gives `#` and the escaped id for an element with an id; otherwise 1 to 4 parts joined by " > ", outermost first, the last being the element itself |
| `Snapshot.RenderedAppend` | contentScript.js:104 | `parts.unshift` puts the part of the next ancestor in front of the ones already built |
| `Snapshot.WalkParts` | contentScript.js:85-106 | the `while` loop builds exactly the rendered parts of the ancestor walk, outermost first |
| `Snapshot.GenerateSelector` | contentScript.js:83-108 | the method returns the selector the specification describes |
| `Snapshot.ElementIdInjective` | contentScript.js:120 | distinct counters give distinct ids `el_${k}` |
| `Snapshot.ElementIdFresh` | contentScript.js:120 | the id given at counter `n` differs from every id given before it |
| `Snapshot.NumberedAt` | contentScript.js:117-140 | the `k`-th descriptor pushed is the one built for the `k`-th included element with counter `k` |
| `Snapshot.NumberedAppend` | contentScript.js:140 | pushing one more descriptor appends it at the end |
| `Snapshot.DescribeAllAt` | contentScript.js:121-139 | descriptor `k` describes included element `k` under the id `el_k` |
| `Snapshot.DescribeAllAppend` | contentScript.js:140 | describing one more element appends its descriptor, numbered by the count so far |
| `Snapshot.IdMapAppend` | contentScript.js:141 | each `elementMap.set` binds the next id to the element just described |
| `Snapshot.IdMapKeys` | contentScript.js:112-141 | after the clear and the refill the map holds only the ids `el_0 … el_{n-1}` |
| `Snapshot.IdMapValues` | contentScript.js:141 | each id `el_k` is bound to the `k`-th included element |
| `Snapshot.Take` | contentScript.js:145 | `slice(0, n)` is the prefix of length `min(n, length)` |
| `Snapshot.SnapshotIdsUnique` | contentScript.js:120 | the snapshot's ids are `el_0, el_1, …` in order, and no two are equal |
| `Snapshot.SnapshotDescribesVisibleCandidates` | contentScript.js:117-139 | the snapshot has one descriptor per visible candidate, in order, and no other; each is marked visible, enabled exactly when the element is not disabled, and carries the lower-case tag |
| `Snapshot.DescribedIds` | contentScript.js:120-122 | every descriptor carries the id of its position |
| `Snapshot.IdMapCoversIds` | contentScript.js:112-141 | the element map binds each descriptor's id to its element and holds no other id |
| `Snapshot.SnapshotMatchesMap` | contentScript.js:112-142 | after `collectSnapshot` the map holds exactly the snapshot's ids, each bound to the element it describes, and no stale entries |
| `Snapshot.SnapshotVisibleText` | contentScript.js:144-145 | `visibleText` is a prefix of the normalized body text, at most 4000 characters long; it is the whole text when that is shorter and exactly 4000 characters otherwise |
| `Dom.ParentOf` | contentScript.js:95 | a parent comes before its child in document order |
| `Dom.SameTagSiblings` | contentScript.js:97-99 | the children of the parent with the element's tag name, in document order, the element among them |
| `Dom.IndexOf` | contentScript.js:101 | `indexOf` finds the first position holding the element |
| `Risk.ContainsAny` | contentScript.js:227-230 | a keyword regex matches exactly when one of its keywords occurs in the text |
| `Risk.ContainsAnyConcat` | contentScript.js:227-230 | testing the four keyword tables one after another is testing their union |
| `Risk.IsRiskyElement` | contentScript.js:216-232 | an element is risky exactly when its `type` is "submit" in any case, or its tag is `form`, or its normalized, lower-cased text and labels contain a payment, publishing, deletion or password keyword |
| `Risk.IsRiskyAction` | contentScript.js:234-244 | an action is risky exactly when it is a click, type, keypress or select on an element that exists and that element is risky; navigate, scroll, wait and a missing element never are |
| `Risk.KeywordInsideWord` | contentScript.js:227-230 | a keyword inside a longer word ("prepay", "repost") still makes the element risky |
| `Risk.NoKeywordNotRisky` | contentScript.js:226-231 | without a submit type, a form tag or a keyword, the element is not risky |
| `Risk.KelvinSignText` | contentScript.js:217-223 | the searched text of a button reading "BAN" and a Kelvin sign, with no labels, is "bank" |
| `Risk.KelvinSignRisky` | contentScript.js:217-231 | that button is risky, as the lowering before the search makes it hold the payment keyword "bank" |
| `Executor.ExecuteAction` | contentScript.js:277-339 | `executeAction` throws exactly for an element action whose target id is missing from the map (`Element … not found`), and for an element action or a navigate whose browser call faults; wait and scroll never throw; wait, scroll and a navigate that does not throw have one page effect each and no target; every effect of an element action is on the mapped element |
| `Executor.TypeEffectOrder` | contentScript.js:311-323 | typing focuses first; a content-editable element gets its text replaced; any other field gets its value set, then `input`, then `change` |
| `Executor.KeypressEffectOrder` | contentScript.js:331-338 | a keypress dispatches `keydown` then `keyup` with the action's key, and nothing else |
| `DomainGuard.MatchesDomainList` | contentScript.js:435-437 | a host matches a list exactly when it equals an entry or ends with "." and the entry |
| `DomainGuard.CheckDomainAccess` | contentScript.js:439-450 | access is granted exactly when no denylist entry matches and the allowlist is empty or has a matching entry |
| `DomainGuard.DenylistWins` | contentScript.js:441-444 | a host on both lists is refused |
| `DomainGuard.EmptyListsAllowAll` | contentScript.js:439-450 | with both lists empty every host is allowed |
| `DomainGuard.NoPartialLabelMatch` | contentScript.js:436 | a host that only ends with the entry's letters, such as "notexample.com" for "example.com", does not match |
| `DomainGuard.SubdomainExamples` | contentScript.js:436 | "app.example.com" matches "example.com" and "notexample.com" does not |
| `Controller.Deliver` | contentScript.js:472-475 | `STOP_TASK` sets the stop request and clears `running`, changing nothing else |
| `Controller.MapFor` | contentScript.js:112-141 | the element map `collectSnapshot` leaves points only at elements of the document |
| `Controller.StepCountsSuccessOnly` | contentScript.js:389-415 | an action counts as a step exactly when it is not a wait, was not declined at the modal, and `executeAction` returned normally; a wait is always skipped |
| `Controller.MissingTargetFails` | contentScript.js:297-300 | an element action whose id is not in the map fails with "not found" and is not counted |
| `Controller.BatchFrame` | contentScript.js:387-422 | the batch changes neither `urlAtStart` nor the element map |
| `Controller.BatchSteps` | contentScript.js:409-415 | the batch adds to `stepCount` exactly the number of actions performed |
| `Controller.BatchEvents` | contentScript.js:387-422 | the batch handles its actions in order, each as `ActionEventOf` says, and at most as many as there are |
| `Controller.BatchStopFlags` | contentScript.js:387-388 | a batch ends early only for a stop request; a stop request that arrives in the batch clears `running`; without one the flags are unchanged |
| `Controller.BatchHonoursStop` | contentScript.js:388 | once a stop is requested, no further action of the batch is handled |
| `Controller.BatchWithoutStop` | contentScript.js:387-422 | without a stop request the batch leaves `running` and `stopRequested` as they were |
| `Controller.PerformedCountBound` | contentScript.js:412 | no more steps are counted than actions handled |
| `Controller.WaitsPerformNothing` | contentScript.js:389-392 | a batch of waits counts no step |
| `Controller.BatchIgnoresBudget` | contentScript.js:364-422 | the budget is not consulted inside a batch, so a batch can take `stepCount` past `maxSteps` |
| `Controller.IterationSummary` | contentScript.js:364-428 | an iteration sends the task, the snapshot, the step count, the budget and the demo flag. No response, an error or `done` ends the run before any action and leaves the state as it was, except for the new element map. Otherwise `stepCount` grows by the actions performed (at most the batch length) and `urlAtStart` becomes the current URL. An iteration never ends the run for the budget |
| `Controller.IterationEvents` | contentScript.js:387-422 | the actions of an iteration are handled in the order of the reply, each on the iteration's element map |
| `Controller.IterationFlags` | contentScript.js:364-428 | `stepCount` never decreases, and without a stop request the flags are kept |
| `Controller.RunEndsIdle` | contentScript.js:364-431 | every run that ends leaves `running` false |
| `Controller.RunBudget` | contentScript.js:364-412 | `stepCount` never decreases, and a run that ends for the budget has reached it |
| `Controller.RunLoopEnds` | contentScript.js:356-431 | `runLoop`, starting at 0 steps with no stop request, always ends with `running` false, and ends for the budget only at the budget |
| `Controller.WaitIterationNoStep` | contentScript.js:389-392 | an iteration whose actions are all waits counts no step and does not end the run |
| `Controller.RunOfWaits` | contentScript.js:364-429 | a model that only proposes waits, with no stop request, keeps the loop going without a step for as many iterations as it is followed |
| `Controller.WaitsNeverEndRun` | contentScript.js:356-431 | so such a run never reaches its budget: after any number of iterations it is still running with 0 steps |
| `Agent.Agent.constructor` | contentScript.js:1-17 | the initial `WCA_STATE`: idle, no steps, budget 25, empty lists and map, confirmation of risky actions required |
| `Agent.Agent.Stop` | contentScript.js:472-475 | the `STOP_TASK` handler leaves the state `Controller.Deliver` gives |
| `Agent.Agent.DescribeNext` | contentScript.js:119-139 | the descriptor object built in the `forEach` is the one the specification appends |
| `Agent.Agent.DescribePass` | contentScript.js:117-142 | one pass of the `forEach` keeps the descriptors and the map equal to those of the candidates seen so far |
| `Agent.Agent.DescribeVisible` | contentScript.js:111-142 | the clear and the `forEach` leave the descriptors of the included elements and exactly their identity map |
| `Agent.Agent.CollectSnapshot` | contentScript.js:110-153 | `collectSnapshot` returns `Snapshot.SnapshotOf` of the page and replaces the element map wholesale by the included elements' ids |
| `Agent.Agent.HandleAction` | contentScript.js:388-415 | one action of the batch yields `Controller.ActionEventOf` and adds 1 to `stepCount` only when performed |
| `Agent.Agent.BatchPass` | contentScript.js:387-422 | one pass of the `for` loop either stops the batch or handles one action, as `Controller.Batch` says |
| `Agent.Agent.RunBatch` | contentScript.js:387-422 | the `for` loop leaves the state and events `Controller.Batch` gives |
| `Agent.Agent.Respond` | contentScript.js:368-428 | asking the model, then exiting or running the batch and re-observing the URL, is `Controller.Iterate` |
| `Agent.Agent.RunIteration` | contentScript.js:367-428 | the body of the `while` loop leaves the state `Controller.Iterate` gives for the snapshot it collected |
| `Agent.Agent.RunPass` | contentScript.js:364-428 | one pass of the `while` loop either ends the run as `Controller.Run` says or leaves the rest of the run to the next pass |
| `Agent.Agent.Cycle` | contentScript.js:364-429 | the `while` loop leaves the state, outcome and trace `Controller.Run` gives |
| `Agent.Agent.RunLoop` | contentScript.js:356-433 | `runLoop` resets the counters and flags and then behaves as `Controller.RunLoopOf`; together with `Controller.RunLoopEnds` it always ends idle |
| `Agent.Agent.Configure` | contentScript.js:454-460 | `RUN_TASK` takes the task, mode, demo flag, budget (25 for a missing or 0 one), safety policy and lists from the message, keeping the previous policy when none is sent |
| `Agent.Agent.RunTask` | contentScript.js:453-470 | `RUN_TASK` answers `ok` exactly when the domain guard allows the host. It then runs the loop to the state `Controller.RunLoopOf` gives; otherwise it leaves the run state untouched |
| `Background.Indexed` | background.js:15 | spreading an array or a string copies its items under the keys "0", "1", … and nothing else |
| `Background.GetSettings` | background.js:13-16 | `getSettings` always has every default key |
| `Background.GetSettingsFields` | background.js:1-16 | the merge is shallow: a stored field is taken as it is (a stored `safety` replaces the default object wholesale), and every other default stays |
| `Background.GetSettingsDefaults` | background.js:13-16 | with nothing stored, or a falsy value, `getSettings` gives the defaults |
| `Background.GetSettingsStable` | background.js:22-25 | writing back what `getSettings` returned, as the install handler does, and reading again gives the same settings |
| `Background.ValidateModelResponse` | background.js:27-31 | a value is accepted exactly when it is an object whose `actions` is an array |
| `Background.ItemsNotValidated` | background.js:27-31 | `validateModelResponse` accepts an object whose `actions` is any array; its items, `null` included, are not checked |
| `Background.FirstWithTag` | background.js:43-55 | `find` returns the first element whose tag is among those sought, or nothing when there is none |
| `Background.DemoActions` | background.js:33-71 | the demo proposes at most one action. At step 0 it scrolls down 400 pixels. At step 1 it types "Hello from WebCursor Agent" into the first input or text area. At step 2 it clicks the first link. Otherwise it proposes nothing. It is done exactly from step 2 on, with "Demo complete" then and "" before |
| `Background.DemoEnds` | background.js:54-70 | from step 2 on the demo is done, and only step 2 can still propose an action, a click |
| `Background.CallOpenAI` | background.js:111-115 | the model's output is passed on exactly when it was fetched and has an `actions` array; otherwise the fetch's error, or "Model response did not match expected format." |
| `Background.RouteOrder` | background.js:118-147 | demo mode answers with `demoActions` whatever the settings. Otherwise a missing key is reported first, then a provider other than OpenAI. Only then is the model asked, with the stored key and model, and its reply always has an `actions` array |
| `Background.NoKeyNoModel` | background.js:127-130 | with the default settings every request outside demo mode gets the missing-key error |
| `Options.NonBlank` | options.js:22-23 | the lines kept are trimmed and non-empty, and there are no more of them than lines |
| `Options.NonBlankAppend` | options.js:22-23 | trimming and filtering lines in two groups gives the two results in order |
| `Options.NonBlankMembers` | options.js:20-23 | each entry kept is the trim of some line, and the trim of every line that is not blank is kept |
| `Options.NonBlankOfTrimmed` | options.js:22-23 | lines that are already trimmed and non-empty are kept as they are |
| `Options.NoBreakInTrim` | options.js:21-22 | trimming a line with no line break yields none |
| `Options.ParseListEntries` | options.js:19-24 | `parseList` never returns an empty entry; every entry equals its own trim and contains no line break; there are at most as many entries as lines |
| `Options.ParseListJoin` | options.js:13-24 | parsing a list of non-empty, trimmed, break-free entries joined by line breaks gives the list back |
| `Options.ParseListStable` | options.js:13-24 | parsing the joined result of a parse gives the same list |
| `Options.ModelOf` | options.js:30 | the saved model is never empty and already trimmed; it is the trimmed input, or "gpt-4o-mini" when that is empty |
| `Options.MaxStepsOf` | options.js:36 | the saved budget is never 0: it is 25 when the input does not parse or parses as 0, and the parsed number otherwise |
| `Options.Strings` | options.js:31-32 | a list is stored as the array of its strings, in order |
| `Options.SettingsObject` | options.js:27-37 | the saved object has exactly the default keys, and its provider is "openai" |
| `Options.ObjectFields` | options.js:27-37 | each field of the saved object holds the value computed for it |
| `Options.SavedFields` | options.js:26-37 | Save stores the trimmed key; the provider "openai"; the trimmed model, or "gpt-4o-mini" when that is empty; the parsed lists; the checkbox as `safety.requireConfirmRisky`; and the parsed budget, or 25 for NaN and 0 |
| `Options.LoadDefaults` | options.js:9-17 | on the defaults the form shows no key, the default model, empty lists, the box ticked and 25 |
| `Options.ListTextOfStrings` | options.js:13-14 | a saved list is shown with one entry per line |
| `Options.TextOrString` | options.js:11-12 | a stored string is shown as it is, and an empty one gives way to the fallback |
| `Options.TextOrNumber` | options.js:16 | a stored number other than 0 is shown in decimal, and 0 gives way to the fallback (25) |
| `Options.ConfirmBoxOf` | options.js:15 | a stored `safety` flag sets the checkbox as it says |
| `Options.LoadObject` | options.js:9-17 | `loadSettings` on a saved object shows its key, model, lists one entry per line, checkbox and budget |
| `Options.GetSettingsOfObject` | options.js:27-37 | a saved object comes back from `getSettings` unchanged |
| `Options.SaveThenLoad` | options.js:9-37 | after a save, `getSettings` returns exactly the saved object, and `loadSettings` shows the trimmed key and model, the parsed lists one per line, the checkbox and the saved budget |
| `Options.CleanedStable` | options.js:9-37 | saving the form that `loadSettings` showed after a save reads the same values out of it: trimming, the default model, `parseList` and the budget parse are idempotent |
| `Options.SaveSame` | options.js:27-37 | forms from which the same values are read are saved alike |
| `Options.SaveLoadSave` | options.js:9-37 | Save, then load, then Save again stores the same settings as the first Save |
| `Options.MaxStepsOfRendered` | options.js:16-36 | a budget shown by `loadSettings` is read back by Save as that budget |
| `Options.ModelOfIdempotent` | options.js:12-30 | a model shown by `loadSettings` is saved unchanged |
| `Options.TrimIdempotent` | options.js:11-28 | a key shown by `loadSettings` is saved unchanged |

## Where the code and its description differ

The model follows the code in each of these cases.

- **A step counts only when it succeeds.** The project's description has a run of
  `wait`-only batches halt at the step budget. In the code a `wait` is executed and
  then skipped with `continue`, before `stepCount += 1`
  (contentScript.js:389-392). Such a run never reaches its budget and only a stop
  request ends it. `Controller.WaitsNeverEndRun` proves this.
- **The budget is checked only at the top of an iteration.** The description says
  iterations are bounded by `maxSteps`. The code checks it only before each
  iteration (contentScript.js:364), so one batch can take `stepCount` past
  `maxSteps`. See `Controller.BatchIgnoresBudget`.
- **An empty error string is not an error.** A reply `{ error: "" }` passes the test
  `!response || response.error` (contentScript.js:377). The loop then runs its
  (absent) actions as an empty batch. `Controller.ExitOf` models the test.
- **Any other exception counts as a failure too.** The description names only a
  missing element as an action failure. The code catches every exception of
  `executeAction` (contentScript.js:409-415). The model's `fault` input stands for
  an exception the browser raises while acting on the target element, or while the
  `location.href` setter rejects a URL it cannot parse (contentScript.js:292-293).
  Such an action is not counted either. Wait and scroll actions never throw.

## Left out

- The overlay: `ensureOverlay`, `moveCursorTo`, `highlightElement`, `showClickRipple`, `showTypingIndicator` and `animateCursorToElement` only draw on the page, with floating-point pixel coordinates.
- Timing: `sleep`, the 600 ms pacing, the 800 ms pause after navigation and the 400 ms and 500 ms pauses only delay; a wait action's duration is kept as its `Pause` effect.
- Step mode: `waitForStep` suspends until a `STEP_CONTINUE` message arrives; the model treats the wait as returning, and `stepMode` is only stored.
- The confirmation modal (`showConfirmationModal`): its answer is the `approve` input; the prompt text is not modelled.
- `logStatus` and all `chrome.runtime`, `chrome.tabs` and `chrome.storage` messaging are I/O; requests and replies are plain values, and stored settings are a parameter.
- `GET_SETTINGS` and `SAVE_SETTINGS` only read and write storage; `setSettings` is the identity on the stored value.
- `callOpenAI`'s request, prompt, HTTP status check and JSON parsing are the `fetch` parameter of `Background.CallOpenAI`; only the validation after them is modelled.
- popup.js is user-interface wiring and time formatting.
- `innerText`, `getComputedStyle` and `getBoundingClientRect` are read as given fields of each element record; layout and rendering are not computed.
- `CSS.escape` is an uninterpreted function parameter.
- `window.scrollBy`, the assignment to `location.href` and event dispatch are effects in a list; what the page does with them is not modelled.
- Changes to the page between the snapshot and the actions of the same iteration are not modelled; each action sees the document the snapshot was taken from.
- Two runs overlapping in one page (a second `RUN_TASK` during a run) are not modelled, because the code does not guard against it.
- `Controller.Run`: the loop need not terminate (a model that only proposes waits keeps it going), so the model follows it for a bounded number of iterations given as `fuel`; a run that reaches the bound ends with `OutOfFuel` and `running` still true, which is not an exit of the real loop.
- `Options.LoadForm`: when a stored list is truthy but not an array, `loadSettings` throws part-way through after filling some inputs; the model gives `None` and does not model the inputs already filled.
- `Options.ToText`: `String(v)` is modelled for the JSON values settings can hold; a number is an integer (floating-point rendering is not modelled).
- `Text.Lower`: `toLowerCase` is modelled for the ASCII and Latin-1 capitals, KELVIN SIGN (to 'k') and the dotted capital I (to 'i' and a combining dot); every other capital letter (Greek, Cyrillic, Latin Extended and the rest, including the context-dependent final sigma) is kept as it is. No other character lowers to text containing an ASCII letter, so tests of lowered text against the ASCII keywords, "submit", "form" and the candidate tags are unaffected; only descriptor `tag` strings and selectors of elements with such letters in their tag names differ.
- `Snapshot.Take`: lengths are counted in Unicode characters, whereas `slice` counts UTF-16 code units; a text with characters outside the Basic Multilingual Plane keeps more characters in the model (4001 emoji keep 4000 here and 2000 in the code), and a cut between the two halves of a surrogate pair is not modelled.
- `Snapshot.SnapshotVisibleText`: inherits the character counting of `Snapshot.Take`; the 4000 bound is on characters, not UTF-16 code units.
- `Controller.RunLoopEnds`: the actions of a reply are modelled as action records. An item that is not an object (`null`, a number) passes `validateModelResponse` (background.js:27-31; `Background.ItemsNotValidated`), yet reading `action.type` (contentScript.js:389) then throws outside every `try`. A rejected `chrome.runtime.sendMessage` (contentScript.js:368) throws in the same way. The unawaited `runLoop` (contentScript.js:467) then rejects with `running` still true. Such runs are not represented, and the lemma does not speak of them.
- `Agent.Agent.RunLoop`: for the same reason it does not cover a run that throws outside the `try` around `executeAction`; such a run leaves `running` true.
- `Text.ParseInt`: the numbers are unbounded, so the loss of precision of JavaScript numbers beyond 2^53 is not modelled.
