# Verified model of fastbrowse

fastbrowse drives a browser for a task: it lists a page's controls, asks a choice model which to use, keeps what it
reads as notes with quotes, and reaches the browser over DevTools, directly or through an extension. This project
models the parts of it where a mistake would be hardest to see, and proves what they promise.

| module | models |
|---|---|
| `Pyre`, `Engine`, `Backtracking` | the regular expressions that stand in for Python's, as run, and the backtracking they refine |
| `Notes`, `NotesObject` | the evidence notes: facts, the answer, retirement, and the links a fact rests on |
| `Render`, `Shown`, `Scattered` | the notes as a prompt shows them, what they tell, and how they are cut to a budget |
| `Controls`, `Choices` | what a step offers the model, and what its answers come to |
| `Trim`, `Cutting`, `Ladder` | making a request smaller until it fits and the provider takes it |
| `Relevance` | the shortlist of a dense page and the scores kept between passes |
| `Batches` | packing questions into requests |
| `Rpc` | the Go client's JSON-RPC connection, as steps between its locks |
| `Cdp`, `CdpCalls` | a DevTools command under its deadlines, and the calls that wait for replies |
| `Extension` | which run owns which tab in the extension's service worker |
| `Helper` | the framed reply of the helper process |
| `Common`, `Text` | options, filtering, searching, and string sizes |

`dafny verify dfyconfig.toml` checks all of it.

Objects that update their fields are classes (`NotesObject`, `RelevanceCache`, `Conn`, `Connection`, `Inner`,
`Background`, `Stream`), and loops are methods with invariants; each is tied by its contract to functions about which
the lemmas speak. Concurrent code is a state machine over what happens between two locks or two awaits, and its
theorems hold for every sequence of steps. `Goroutines`, `Callers` and `ServiceWorker` take those steps through the
objects' own critical sections, one method call at a time, so a run of the machine is a run of the objects. The
model's answers, the provider's refusals, when a reply lands, how a page answers a probe and how large a request is
are parameters, so the theorems hold whatever they are.

## What the code does not keep

Seven promises made in comments, names or error messages of the source do not hold for every input. Each is proved false
by an example and given its exact condition.

- `render` (crates/fastbrowse-agent/src/memory.rs:661-664) takes for granted that no cut as long as all the facts can
  fit, because the text in read order did not. A cut lists the answer's facts first, and in that order facts of one
  page can come together under one address line, so all of them can fit when read order does not. `render` then drops
  a fact it had room for, or reports that the budget is too small. `RenderKeepsItsPromiseIff` is the condition,
  `ScatteredBreaksThePromise` the family of examples.
- A page with more controls than can be offered at once is cut to `group_size * options`
  (crates/fastbrowse-agent/src/policy.rs:408-409). Controls offered unasked are never cut. More are left than that
  exactly when more are offered unasked (`LimitHeldIff`), and an operation then gets more groups than there are
  options exactly when the unasked controls that list it are too many by themselves (`GroupsExceedIff`);
  `TickedBoxesExceed` is an example.
- A tab belongs to one run (crates/fastbrowse-browser/extension/background.js:123-126). `adopt` checks that before it
  awaits and takes the tab after, so two runs can both take it. `TabsAreKeptIff` is the condition on a step,
  `TabsAreKeptThroughoutIff` on a run, `TwoRunsCanAdoptOneTab` an example.
- "The tab stays owned until its teardown ends, so no other run can adopt it meanwhile"
  (crates/fastbrowse-browser/extension/background.js:202). A tab can be torn down twice: by the release of its run,
  and by an adoption that was still attaching it (lines 87-90). The first teardown lets go of the tab, another run
  adopts it, and the second detaches it there, and ungroups or closes it. `StepDisturbsIff` is the condition on a
  step, `TeardownsAreApartIff` on a run, `LateTeardownMeetsTheNextOwner` an example.
- "Every request still waiting gets reason" (go/rpc.go:203-204) and the request carried by a failed write "is answered
  by end". When a message that cannot be written ends the connection, the reader may be holding a reply it has not
  queued. The deliverer goes on past the end until it finds the queue empty; what is queued by then is delivered, and
  a reply still in the reader's hands at that moment never is. `LostAtTheLastLook` is the condition,
  `FailureCanLoseAReply` an example, and `AllButOneAreAnswered` bounds the loss. When the reader ends the connection
  there is none (`EveryCallIsAnswered`).
- A session "may meet" two command deadlines before its commands fail at once
  (crates/fastbrowse-browser/src/cdp.rs:47-51). The count is read before the wait, and
  crates/fastbrowse-browser/src/session.rs:1029-1037 sends several commands together, so with `k` in flight it meets
  up to `k + 1` (`AHungPageCostsAtMost`, `AHungPageCanCostThatMany`). It is held to two if and only if commands go one
  at a time (`TwoDeadlinesIff`).
- A lost connection "carries why, the same for every call it failed" (crates/fastbrowse-browser/src/cdp.rs:90). A call
  that finds the writer gone before anybody closed the connection carries a reason of its own. The promise breaks at
  the next step that gives another: the connection closes on calls that wait, or, once closed, refuses one.
  `OneReasonIff` is the condition, over every run, and `ReasonsCanDiffer` an example.

Two more are worth knowing. The framed reply's round trip needs output in which the marker does not begin early, because
the marker's first and last bytes are the same; output without a NUL is one such case (`FoundIffUnmarked`,
`NulFreeIsUnmarked`, `SharedEndLosesTheReply`). And the id expansion keeps cited ids no fact has, but not such ids met
among a fact's basis links (`Expanded`).

## Model

| member | source | states |
|---|---|---|
| `Pyre.EndsExact` | crates/fastbrowse-agent/src/pyre.rs:115-159 | an end is listed exactly when the pattern, read as a relation between positions, relates the start to it; every end lies between the start and the end of the text |
| `Pyre.BoundaryIsBehindOrAhead` | crates/fastbrowse-agent/src/pyre.rs:152-158 | a word boundary is where a look-behind for a word character and a word character at the position differ |
| `Pyre.BehindSeesOneBack` | crates/fastbrowse-agent/src/pyre.rs:145-151 | a look-behind holds exactly where the class it is of would match from one character back, or exactly where not |
| `Pyre.LitIsItsLetters` | crates/fastbrowse-agent/src/pyre.rs:122-126 | literal characters match as their letters do one after the other |
| `Pyre.ILitAccepts` | crates/fastbrowse-agent/src/pyre.rs:37-40 | under `re.IGNORECASE` a lower-case ASCII letter accepts both its cases and no other ASCII character, `i`, `s` and `k` accept their four non-ASCII relatives and nothing else, an upper-case one accepts nothing, and any other character itself |
| `Pyre.ILitIsItsLetters` | crates/fastbrowse-agent/src/pyre.rs:127-136 | a run of such characters matches as they do one after the other |
| `Pyre.RepExact` | crates/fastbrowse-agent/src/pyre.rs:211-237 | an end of a repeat is listed exactly when some chain of `n` body matches with `min <= n <= max` reaches it, although empty iterations past `min` are skipped |
| `Pyre.RepComplete` | crates/fastbrowse-agent/src/pyre.rs:223-236 | a chain of any allowed length has a listed end: dropping its empty steps past `min` loses no end |
| `Backtracking.BacktrackIsFirst` | crates/fastbrowse-agent/src/pyre.rs:115-159 | a continuation-passing backtracker returns the first success of its continuation along the listed ends, for every pattern, position and continuation |
| `Backtracking.RepIsFirst` | crates/fastbrowse-agent/src/pyre.rs:211-237 | the same of a repeat, greedy or lazy, with iterations still owed to `min` |
| `Engine.PushEnds` | crates/fastbrowse-agent/src/pyre.rs:115-159 | appending to an `out` vector, branch by branch, appends exactly the ends in their order |
| `Engine.PushRepFrom` | crates/fastbrowse-agent/src/pyre.rs:223-236 | the loop over body ends appends the ends of going on from each, in order, and skips an empty one past `min` |
| `Backtracking.MatchAtIsBacktracking` | crates/fastbrowse-agent/src/pyre.rs:163-167 | `match_at` is what the backtracker finds when any end is accepted |
| `Backtracking.FullMatchIsBacktracking` | crates/fastbrowse-agent/src/pyre.rs:190-195 | `full_match` holds exactly when the backtracker reaches the end of the text, and exactly when the relation does |
| `Pyre.GreedOnlyOrders` | crates/fastbrowse-agent/src/pyre.rs:211-237 | making a repeat lazy changes the order of its ends and not which ends there are |
| `Pyre.GreedyTakesTheRun` | crates/fastbrowse-agent/src/pyre.rs:211-237 | a greedy repeat of a class takes as many characters as it accepts, up to its maximum, a lazy one its minimum, and neither fewer than that |
| `Pyre.FirstAlternativeDecides` | crates/fastbrowse-agent/src/pyre.rs:137-137 | of alternatives the first that matches at all decides where the match ends |
| `Pyre.FindIter` | crates/fastbrowse-agent/src/pyre.rs:175-187 | the scan terminates, for patterns that match the empty text too, and finds the scan defined by `IsScan` |
| `Pyre.ScanIsOrdered` | crates/fastbrowse-agent/src/pyre.rs:175-187 | spans found are ordered and do not overlap |
| `Pyre.ScanIsUnique` | crates/fastbrowse-agent/src/pyre.rs:175-187 | the spans are the only ones that each are the first match at their start, with no start of a match skipped between where a search resumes and the next span |
| `Pyre.NoMatchIsSkipped` | crates/fastbrowse-agent/src/pyre.rs:175-187 | no match is skipped: none starts before the first span, after the last or between two, unless it is empty and the span ending there is empty too |
| `Notes.FactId` | crates/fastbrowse-agent/src/memory.rs:242-250 | every id is at least 21 characters, which is what makes a listed item longer than what its group can save |
| `Notes.IdTellsTheSpan` | crates/fastbrowse-agent/src/memory.rs:216-250 | two facts read from captures have one id only if the capture, the span and the digests of address and control are the same; a derived fact never has a read one's id |
| `Notes.DerivedIdIgnoresOrder` | crates/fastbrowse-agent/src/memory.rs:242-250 | the order of its basis does not change a derived fact's id |
| `Notes.AddIs` | crates/fastbrowse-agent/src/memory.rs:358-387 | a fact just added is the only one changed: merged with the one its id had, or last in read order; it is not retired, joins the answer exactly when it answers, and every other fact is current exactly when it was |
| `Notes.MergedIs` | crates/fastbrowse-agent/src/memory.rs:364-383 | the merged fact answers when either did, its basis holds both bases, each id once and the earlier ones first, and its quote is the answering fact's when only that one answers |
| `Notes.MergedSays` | crates/fastbrowse-agent/src/memory.rs:366-382 | no claim is lost to a merge: an answering claim stays in the text, and an earlier one too unless it was only its quote; a context claim adds nothing |
| `Notes.ScanFor` | crates/fastbrowse-agent/src/memory.rs:96-109 | trying every start finds the quote exactly when it stands somewhere as whole words |
| `Notes.ShowsIsSearch` | crates/fastbrowse-agent/src/memory.rs:90-109 | that is the same as searching for the quote with a negative look-behind and look-ahead for a word character |
| `Notes.RetiredIff` | crates/fastbrowse-agent/src/memory.rs:454-494 | a read retires a fact if and only if it found a fresh current quote, the fact is of another capture, and it rests, over some chain of links, on a quote of another capture, read from the page's address or a fresh quote's, that the text no longer shows |
| `Notes.SupersedeChangesOnly` | crates/fastbrowse-agent/src/memory.rs:486-507 | besides, a read changes nothing but this: outdated facts leave the answer, and the capture's own facts lose their links to what was retired |
| `Notes.NothingFreshNothingChanges` | crates/fastbrowse-agent/src/memory.rs:458-467 | a read without a fresh current quote changes nothing |
| `Notes.NoPathToVanished` | crates/fastbrowse-agent/src/memory.rs:474-507 | after the read, no chain of basis links, cyclic or not, leads from a fact left standing to a quote the page no longer shows; it needs both the retirements and the links dropped from the capture's own facts |
| `Notes.StandingFactsRestOnShownQuotes` | crates/fastbrowse-agent/src/memory.rs:454-508 | once a read found a fresh current quote, no fact left standing leads, over any chain of links, to a quote of another capture, of an address the read covers, that the text no longer shows |
| `Notes.AnswerRestsOnShownQuotes` | crates/fastbrowse-agent/src/memory.rs:454-516 | no quote that backs the answer is such a quote |
| `Notes.SupersedeTwice` | crates/fastbrowse-agent/src/memory.rs:454-508 | reading the same capture again changes nothing |
| `Notes.RunIsSound` | crates/fastbrowse-agent/src/memory.rs:346-387 | over every run of adds and reads: the answer is made of known facts marked as answers and not retired, only known facts are retired, and no fact is lost or reordered |
| `Notes.EveryClaimSurvives` | crates/fastbrowse-agent/src/memory.rs:358-387 | every claim ever added as answering is still part of the text stored under its id when the run ends |
| `Notes.Expanded` | crates/fastbrowse-agent/src/memory.rs:525-540 | the expanded ids are exactly the known facts the cited ones rest on, in read order, and the cited ids no fact has |
| `Notes.SupportIff` | crates/fastbrowse-agent/src/memory.rs:511-540 | the answer is backed by exactly the facts that some fact of the answer rests on, over any chain of links, itself included |
| `NotesObject.NotesObject.Add` | crates/fastbrowse-agent/src/memory.rs:358-387 | the fields after `add` are the specified store, and the result says whether the span is new |
| `NotesObject.NotesObject.Supersede` | crates/fastbrowse-agent/src/memory.rs:454-508 | the fields after `supersede` are the specified store: addresses, retirements, dropped answers and dropped links |
| `NotesObject.NotesObject.SupportingEvidence` | crates/fastbrowse-agent/src/memory.rs:511-523 | the quotes behind the answer, in read order |
| `NotesObject.EvidenceIs` | crates/fastbrowse-agent/src/memory.rs:519-523 | the quotes are those of the facts named that have one, in the same order |
| `NotesObject.NotesObject.FreshAddresses` | crates/fastbrowse-agent/src/memory.rs:458-472 | whether the capture has a current quote, and the addresses such quotes and the page are at |
| `NotesObject.NotesObject.StaleKeys` | crates/fastbrowse-agent/src/memory.rs:474-494 | the facts of other captures that rest on a vanished quote |
| `NotesObject.NotesObject.Detach` | crates/fastbrowse-agent/src/memory.rs:498-507 | the capture's own facts lose exactly their links to what was retired |
| `NotesObject.NotesObject.RestsOn` | crates/fastbrowse-agent/src/memory.rs:476-494 | a fact is stale exactly when some chain of links leads from it to a vanished quote |
| `NotesObject.Explore` | crates/fastbrowse-agent/src/memory.rs:525-536 | the worklist ends, on cyclic links too, with exactly the ids reached from those cited |
| `NotesObject.Expand` | crates/fastbrowse-agent/src/memory.rs:525-540 | the worklist and the two filters compute the expanded ids |
| `Render.LayOut` | crates/fastbrowse-agent/src/memory.rs:617-646 | the two nested scans write the layout: consecutive facts of one address together, under a shared address line when that is shorter |
| `Render.BlockIsTheShorter` | crates/fastbrowse-agent/src/memory.rs:617-646 | a group of one address is written in whichever of the two forms is shorter, inline when they are equal; facts without an address inline |
| `Render.BlockGrows` | crates/fastbrowse-agent/src/memory.rs:624-644 | one more fact of an address makes its block larger even when the block turns from inline to shared form and gives up its `# Other evidence` line |
| `Render.LongerCutIsLarger` | crates/fastbrowse-agent/src/memory.rs:657-668 | keeping more facts always makes the cut strictly larger, marker included, in plain and in JSON characters |
| `Render.SearchAndScan` | crates/fastbrowse-agent/src/memory.rs:665-690 | the binary search and the scan down return exactly what scanning down from all the facts but one returns |
| `Render.ScanKeepsMost` | crates/fastbrowse-agent/src/memory.rs:669-690 | what is returned is the longest prefix that fits and keeps no fact without its basis, and holds the whole answer when that is asked for |
| `Render.RefusedOnlyWithoutACount` | crates/fastbrowse-agent/src/memory.rs:669-690 | it refuses only when no number of facts can be returned, for the reason of the branch that ends the scan |
| `Render.RefusedAsNegativeIff` | crates/fastbrowse-agent/src/memory.rs:587-589 | a budget is refused as negative exactly when it is |
| `Render.OutcomesAgreeIff` | crates/fastbrowse-agent/src/memory.rs:661-690 | starting the scan one short changes the result exactly when the whole text does not fit and all the facts could be returned |
| `Render.RenderKeepsItsPromiseIff` | crates/fastbrowse-agent/src/memory.rs:586-690 | the same of the notes themselves: `render` returns what a scan from all the facts would, if and only if the cut that keeps every fact is not returnable while the text in read order is over the budget |
| `Render.ReadOrderKeepsThePromise` | crates/fastbrowse-agent/src/memory.rs:647-668 | when read order already lists the answer's facts first the promise is kept, for any text smaller than the whole cut |
| `Render.WholeCutIsLarger` | crates/fastbrowse-agent/src/memory.rs:647-660 | the text in read order is such a text |
| `NotesObject.NotesObject.Render` | crates/fastbrowse-agent/src/memory.rs:586-690 | `render` on the object's fields returns the specified outcome |
| `Shown.RenderTells` | crates/fastbrowse-agent/src/memory.rs:586-660 | whatever `render` returns shows, of each fact kept, its id, its claim unless that is its quote, `answers=true` exactly when it stands as the answer, its quote or that it is derived, its basis, and its address in its own line or the heading over it; they follow each other in read order, or the answer's facts and their basis first, and the number left out is at the end |
| `Shown.RowIsItsParts` | crates/fastbrowse-agent/src/memory.rs:594-615 | the two lines of a fact, with its address and, for under a heading that has it, without |
| `Shown.OrderedIs` | crates/fastbrowse-agent/src/memory.rs:651-655 | when some are dropped the facts the answer rests on come first, each group in read order |
| `Scattered.ScatteredBreaksThePromise` | crates/fastbrowse-agent/src/memory.rs:661-690 | for every notes whose answer has two quotes of one page with another page's read between them, and an address over 44 characters, some budget makes `render` drop a fact that had room |
| `Scattered.ReadsAreScattered` | crates/fastbrowse-agent/src/memory.rs:358-387 | three concrete reads leave such notes |
| `Helper.WriteReply` | crates/fastbrowse-browser/src/helper.rs:96-106 | four writes and a flush put out the host's buffered output, the marker, kind, length and body in order, whole unless the stream fails, and then only what it had room for; the exit code is the kind exactly when everything is out, however the stream buffers |
| `Helper.FrameIs` | crates/fastbrowse-browser/src/helper.rs:25-106 | the frame byte by byte: the name between two NULs, the kind 0, 1 or 2, the length in eight bytes from the lowest on, and the body |
| `Helper.EightDigits` | crates/fastbrowse-browser/src/helper.rs:128-128 | eight bytes are read as a number from the lowest on |
| `Helper.RoundTrip` | crates/fastbrowse-browser/src/helper.rs:96-131 | for any body, one with the marker in it too, and any output before it in which the marker is not found early, `parse_reply` recovers the kind and the body |
| `Helper.CutIsNoReply` | crates/fastbrowse-browser/src/helper.rs:124-131 | a proper prefix is no reply |
| `Helper.FoundIffUnmarked` | crates/fastbrowse-browser/src/helper.rs:125-126 | the first marker found is the one written if and only if no window over the output before it and the marker's own start is the marker |
| `Helper.NulFreeIsUnmarked` | crates/fastbrowse-browser/src/helper.rs:96-106 | output without a NUL is such output |
| `Helper.ReadsWholeOrNothing` | crates/fastbrowse-browser/src/helper.rs:96-131 | wherever a stream failed, in the host's output or in the frame, the reader gets the whole reply or none |
| `Helper.SharedEndLosesTheReply` | crates/fastbrowse-browser/src/helper.rs:25-25 | a concrete output, ending in the marker without its last byte, for which the reply is lost: the marker's first and last bytes are the same |
| `Cutting.CutWith` | crates/fastbrowse-core/src/page.rs:27-51 | the binary search returns the text when it fits, else its longest start that fits with its marker, else nothing |
| `Cutting.CutToIsLongest` | crates/fastbrowse-core/src/page.rs:27-51 | so it is: the text, its longest non-empty start with a marker of how much is gone, or nothing when no such start fits |
| `Cutting.CutGrows` | crates/fastbrowse-core/src/page.rs:37-42 | a cut that keeps one character more is never smaller, though its marker may lose a digit |
| `Text.SizeIsLength` | crates/fastbrowse-core/src/py/json.rs:158-192 | the size texts are cut and rendered by is the length of what `json.dumps` writes, escapes and surrogate pairs spelled out |
| `Text.UnitIsHex` | crates/fastbrowse-core/src/py/json.rs:171-176 | a unit is written as its four hexadecimal digits |
| `Text.PairIsWritten` | crates/fastbrowse-core/src/py/json.rs:171-176 | a character beyond sixteen bits is written as its high and low surrogate |
| `Batches.Plan` | crates/fastbrowse-agent/src/batches.rs:71-139 | the reservation counts exactly the requests packed and prices each one's state and every question sent; nothing is reserved when nothing is sent |
| `Batches.Pack` | crates/fastbrowse-agent/src/batches.rs:98-122 | the packing loop makes the specified requests, and counts the characters of the questions in them |
| `Batches.RequestsAreSound` | crates/fastbrowse-agent/src/batches.rs:84-122 | the requests hold, in order, exactly the questions that fit alone; each can be sent, none could take the first question of the next, and no other way to send them in order takes fewer requests |
| `Batches.PackedIsFewest` | crates/fastbrowse-agent/src/batches.rs:98-122 | taking as many questions as can be sent together is the fewest requests, for any rule that allows every part of what it allows |
| `Batches.SliceIsSendable` | crates/fastbrowse-core/src/config.rs:91-106 | the limits are such a rule: what can be sent together can be sent in any of its parts |
| `Batches.TogetherIff` | crates/fastbrowse-core/src/config.rs:91-106 | questions fit beside a state exactly when the largest of them, and all of them, leave it room under the two limits, in characters or at 1.5 a token; an empty state always fits |
| `Batches.SendableIff` | crates/fastbrowse-agent/src/batches.rs:84-117 | what may be sent at once, limit by limit, and that one question alone is held to the model's limits only |
| `Choices.IndexControls` | crates/fastbrowse-agent/src/policy.rs:804-820 | an operation's targets are exactly the controls that list it, in order, and for leaving a field the focused editable ones not withheld |
| `Choices.BuildRequest` | crates/fastbrowse-agent/src/policy.rs:866-950 | what is offered, and each operation's targets in one question or in groups |
| `Choices.OfferedIff` | crates/fastbrowse-agent/src/policy.rs:822-860 | an operation is offered if and only if it is not withheld and what it needs is there: a candidate, an attachment, an address, another tab, a page to go back to; beside an open dialog, only answering it |
| `Choices.CandidatesIff` | crates/fastbrowse-agent/src/policy.rs:804-820 | a control is a candidate if and only if it lists the operation; for leaving a field, if it can be filled in, is focused and is not withheld |
| `Choices.ChunkCount` | crates/fastbrowse-agent/src/policy.rs:862-864 | there are at most `limit` groups exactly when there are at most `limit` times `size` items |
| `Choices.ChunkHolds` | crates/fastbrowse-agent/src/policy.rs:862-864 | group `g` is the items from `g` group sizes on, a full group unless they run out |
| `Choices.GroupsAreFull` | crates/fastbrowse-agent/src/policy.rs:897-904 | every group but the last has as many members as the configuration and the options to choose by allow |
| `Choices.SplitWhenTooMany` | crates/fastbrowse-agent/src/policy.rs:893-950 | what is offered is in one question when it is as few as the options, and else in groups that hold all of it in order; drop places are the named controls |
| `Choices.EachInOneGroup` | crates/fastbrowse-agent/src/policy.rs:862-864 | every candidate is found in one group and in no other |
| `Choices.DestinationPick` | crates/fastbrowse-agent/src/policy.rs:1375-1387 | links to one address share their votes, and the choice is replaced exactly when another address holds more than its own, by the last candidate that holds the most |
| `Choices.VotesAre` | crates/fastbrowse-agent/src/policy.rs:1375-1383 | an address holds the probabilities of the candidates that lead to it, added up, and a candidate the model left out adds nothing |
| `Choices.UnofferedGivesWay` | crates/fastbrowse-agent/src/policy.rs:1384-1387 | a choice that was not offered gives way to a candidate as soon as one holds anything |
| `Choices.PickIsUnique` | crates/fastbrowse-agent/src/policy.rs:1375-1387 | an answer comes to one pick |
| `Choices.GroupIndex` | crates/fastbrowse-agent/src/policy.rs:1158-1166 | a group is picked by its number, one below zero from the end, and any other number is refused |
| `Choices.FindControlIs` | crates/fastbrowse-agent/src/policy.rs:1389-1395 | the control found has the id asked for and is a candidate, and none is found exactly when none has it |
| `Choices.PickTarget` | crates/fastbrowse-agent/src/policy.rs:1056-1074 | the target is the pick among an operation's targets, or the member its group's own request names; it fails only when there is no such control |
| `Choices.PickAddress` | crates/fastbrowse-agent/src/policy.rs:1079-1112 | the address is the one offered under the number answered, in its group when there are groups, and only a number not offered fails |
| `Choices.AddressIff` | crates/fastbrowse-agent/src/policy.rs:1079-1112 | of few addresses, one is opened exactly when the answer is the number it stands at, written in decimal |
| `Choices.GroupedAddressIff` | crates/fastbrowse-agent/src/policy.rs:1079-1112 | of more, exactly when the answers name a group, from either end, and the number the address has in it |
| `Choices.PickDestination` | crates/fastbrowse-agent/src/policy.rs:1113-1131 | the drop place is the control answered, in its group when there are groups |
| `Choices.Evaluate` | crates/fastbrowse-agent/src/policy.rs:1025-1155 | there is a decision exactly when one follows from the replies: it has the parts its operation needs, each what the answers come to, with the confidences they give; else the failure is the refusal of the last reply read, or that it names nothing offered. A group is asked about in a request of its own only once it was named, so the next reply's number is exact |
| `Choices.AimIsAsSureAsItsAnswers` | crates/fastbrowse-agent/src/policy.rs:1056-1074 | a target's confidence is its answer's, or the product of the group's and the member's |
| `Choices.GroupedIsAsSureAsBoth` | crates/fastbrowse-agent/src/policy.rs:1060-1072 | of a choice in two requests the confidence is the product of the two answers' |
| `Choices.DragIsAsSureAsItsWeakerEnd` | crates/fastbrowse-agent/src/policy.rs:1113-1131 | a drag is as sure as the less sure of its two ends |
| `Choices.TabIsAsSureAsItsAnswer` | crates/fastbrowse-agent/src/policy.rs:1073-1076 | the tab and its confidence are those answered, and an operation aimed at nothing has none |
| `Choices.AddressIsAsSureAsItsAnswers` | crates/fastbrowse-agent/src/policy.rs:1077-1111 | the address is the one the answers come to, with their confidence, or the product of the two |
| `Choices.RepliesTaken` | crates/fastbrowse-agent/src/policy.rs:1025-1155 | a request takes one reply, one more where a group was named to choose from, and another for a drop place in a group |
| `Choices.PickAim` | crates/fastbrowse-agent/src/policy.rs:1056-1112 | what the operation is aimed at is what the answers come to, a control, a tab or an address, and it fails exactly when they come to nothing |
| `Choices.ComesToOnce` | crates/fastbrowse-agent/src/policy.rs:1025-1155 | the replies to a request come to one result, whichever order the operations were offered in |
| `Choices.OffersOnce` | crates/fastbrowse-agent/src/policy.rs:866-950 | two requests for the same controls differ in nothing an answer is read against |
| `Choices.PicksOnlyWhatIsOffered` | crates/fastbrowse-agent/src/policy.rs:1025-1155 | whatever the model answers, the target is a control offered that lists the operation, a drop place is a named control offered, and an address is one supplied |
| `Trim.Trim` | crates/fastbrowse-agent/src/policy.rs:529-600 | the loops and searches of the trim compute the specified result: texts cut in turn unless dropping actions is enough, then the fewest actions, and nothing unless something was cut and the request then fits |
| `Trim.TrimmedKeepsThePage` | crates/fastbrowse-agent/src/policy.rs:529-600 | what a trim leaves is the same page and task, every action kept in order or counted, and fits |
| `Trim.DroppingComesFirst` | crates/fastbrowse-agent/src/policy.rs:563-566 | when dropping actions alone makes room no text is cut, and there is a result unless nothing need be dropped |
| `Trim.Fewest` | crates/fastbrowse-agent/src/policy.rs:553-562 | the search ends where the request fits, or with everything dropped, and where one action fewer does not fit |
| `Trim.FewestIsFewest` | crates/fastbrowse-agent/src/policy.rs:552-562 | when dropping more never makes a request larger, no smaller number of actions would have done |
| `Trim.DroppingKeepsCount` | crates/fastbrowse-agent/src/policy.rs:544-551 | kept and omitted actions always add up, and kept ones stay in order |
| `Trim.DroppingGoesByAge` | crates/fastbrowse-agent/src/policy.rs:542-551 | no typed or set value is dropped while an action without one is kept, and of two of a kind the older goes first |
| `Trim.DroppedGoFirst` | crates/fastbrowse-agent/src/policy.rs:542-551 | the same said of the actions dropped, by what an action set rather than by its rank |
| `Trim.CutTexts` | crates/fastbrowse-agent/src/policy.rs:567-590 | page facts from the last, off-screen text, page text and notes are each cut by what the request still runs over |
| `Trim.ShortenedIs` | crates/fastbrowse-agent/src/policy.rs:569-590 | a text is cut by at least what the request runs over, not at all when it does not, and to nothing when it runs over by more |
| `Trim.FactsAreCutFromTheLast` | crates/fastbrowse-agent/src/policy.rs:567-577 | page facts are cut from the last backwards, each by what the request runs over when it is reached, and the first ones not at all once it fits |
| `Trim.TextsAreCutInTurn` | crates/fastbrowse-agent/src/policy.rs:578-590 | then the off-screen text, the page text and the notes, each by the excess with those before it already cut |
| `Trim.TrimFailsOnlyWhen` | crates/fastbrowse-agent/src/policy.rs:567-600 | a trim gives up only where every text cut and every action dropped still leaves the request too large |
| `Trim.NothingCutOnceItFits` | crates/fastbrowse-agent/src/policy.rs:567-590 | nothing is cut after the point where the request fits |
| `Ladder.Cap` | crates/fastbrowse-agent/src/policy.rs:645-667 | the search keeps the controls specified, those offered unasked first |
| `Ladder.CapKeepsWhatFits` | crates/fastbrowse-agent/src/policy.rs:645-667 | they fit, are fewer than before, and one control more would not fit |
| `Ladder.CappedProtectsFirst` | crates/fastbrowse-agent/src/policy.rs:651-653 | no control that is asked about is kept while one offered unasked is not |
| `Ladder.ProtectedFirstSize` | crates/fastbrowse-agent/src/policy.rs:603-609 | what is kept is of the page, in order, and within the limit unless more than that is offered unasked |
| `Ladder.ProtectedFirstIs` | crates/fastbrowse-agent/src/policy.rs:603-609 | all that are offered unasked and the earliest of the others, exactly as many as there is room for |
| `Ladder.LimitHeldIff` | crates/fastbrowse-agent/src/policy.rs:408-423 | of a page with more controls than may be offered, shortlisted or not, no more are left if and only if no more than that are offered unasked |
| `Ladder.GroupsExceedIff` | crates/fastbrowse-agent/src/policy.rs:408-423 | the request a step starts with makes more groups of an operation than there are options if and only if the controls offered unasked that list the operation are more than may be offered |
| `Ladder.TickedBoxesExceed` | crates/fastbrowse-agent/src/policy.rs:408-423 | five ticked boxes make three groups where two groups of two are all that may be offered, whatever the relevance pass scores |
| `Ladder.OnscreenRung` | crates/fastbrowse-agent/src/policy.rs:634-637 | dropping the off-screen controls always drops some |
| `Ladder.OnscreenRungIs` | crates/fastbrowse-agent/src/policy.rs:634-643 | exactly the controls on screen are left, if some are not and they were neither dropped nor capped before |
| `Ladder.FirstRung` | crates/fastbrowse-agent/src/policy.rs:411-423 | a step starts with every control, or, when those are more than may be offered, with the shortlist or the first ones |
| `Ladder.FirstIsShortlistedIff` | crates/fastbrowse-agent/src/policy.rs:408-423 | a step starts with a shortlist if and only if the page has more controls than may be offered and some control that is asked about has a score; otherwise with the page as it is, or its first controls |
| `Ladder.StartsUntried` | crates/fastbrowse-agent/src/policy.rs:404-421 | a decision starts from that with no reply taken and nothing tried but the shortlist of a page with too many controls |
| `Ladder.NextStep` | crates/fastbrowse-agent/src/policy.rs:454-488 | what is tried next, in order: the trim once, the shortlist once, dropping off-screen controls, the cap, and cutting texts until an empty list fits |
| `Ladder.NextChanges` | crates/fastbrowse-agent/src/policy.rs:454-488 | texts change only to make room, for the controls there are or for any at all; controls change only where texts cannot, and by relevance first if anything is scored |
| `Ladder.FewerInTurn` | crates/fastbrowse-agent/src/policy.rs:466-488 | of fewer controls those on screen come first, then as many as fit, and texts are cut for an empty list only after both |
| `Ladder.NextIsLower` | crates/fastbrowse-agent/src/policy.rs:425-488 | each of these is further down a well-founded ladder and keeps to the page: its controls in order, its history kept or counted, its label true |
| `Ladder.AskRung` | crates/fastbrowse-agent/src/policy.rs:427-453 | a request that was asked ends the step, is shed, or counts as too large, as the replies say; the number of the next reply is exact |
| `Ladder.ReactionFollows` | crates/fastbrowse-agent/src/policy.rs:427-453 | a shed follows only the provider giving up on a large request, and leaves its on-screen controls; something smaller is tried only after a refusal for size; a decision is what the replies say |
| `Ladder.AskedIff` | crates/fastbrowse-agent/src/policy.rs:427-429 | the provider is asked exactly what does not run over its limits, a request that fills them included |
| `Ladder.ShedKeepsTheRest` | crates/fastbrowse-agent/src/policy.rs:611-632 | a shed changes nothing but the controls |
| `Ladder.ShedsOnce` | crates/fastbrowse-agent/src/policy.rs:611-632 | of the turns of a decision at most one sheds controls, however often the provider gives up |
| `Ladder.Decide` | crates/fastbrowse-agent/src/policy.rs:390-490 | the loop ends whatever the provider answers, and is one way down that ladder from the first reply on: every turn is the one specified and starts with the reply after those of the turn before, and the verdict is what the last request came to, or that nothing is left; scores kept that were the model's stay so |
| `Ladder.RepliesAreTakenInTurn` | crates/fastbrowse-agent/src/policy.rs:427-453 | the requests of a decision, the last one included, are exactly the steps that fit; each takes one to three replies, and the next starts where it left off |
| `Ladder.OneVerdict` | crates/fastbrowse-agent/src/policy.rs:390-490 | the page, the replies and the scores known settle the whole way down, and the verdict |
| `Ladder.CacheDecidesNothing` | crates/fastbrowse-agent/src/policy.rs:374-386 | with a model that answers by state and question, scores kept of earlier decisions change neither the way down nor the verdict |
| `Ladder.EveryStepIsOnThePage` | crates/fastbrowse-agent/src/policy.rs:390-490 | at every step the controls are some of those observed, in order, within what may be offered, and every earlier action is kept or counted |
| `Ladder.DecisionIsOfThePage` | crates/fastbrowse-agent/src/policy.rs:429-437 | a decision was made of a request that fits, is what the replies to that request come to, and names only what the page and the caller offered |
| `Ladder.GivesUpOnlyWithNothingLeft` | crates/fastbrowse-agent/src/policy.rs:479-486 | a step gives up on a page only where not even an empty list fits or an empty one was refused |
| `Ladder.FailsOnlyFor` | crates/fastbrowse-agent/src/policy.rs:427-453 | a decision fails only for its last reply, never because that was refused as too large, and for the provider giving up only when the request is not large, shows nothing off screen, or was shed or capped before |
| `Ladder.OnscreenLabelIsTrue` | crates/fastbrowse-agent/src/policy.rs:611-643 | a request labelled as of on-screen controls has no other, throughout a decision |
| `Ladder.PicksFromThePage` | crates/fastbrowse-agent/src/policy.rs:804-820 | however the page was reduced, what is chosen is on the page that was read |
| `Relevance.RelevanceCache.Prepare` | crates/fastbrowse-agent/src/policy.rs:374-382 | scores are kept only for the same document and context |
| `Relevance.RelevanceCache.Remember` | crates/fastbrowse-agent/src/policy.rs:384-386 | a score is stored under its question |
| `Relevance.PassesStayHonest` | crates/fastbrowse-agent/src/policy.rs:374-386 | after any passes, finished or cancelled, every score kept is the model's for the context it is kept under |
| `Relevance.CacheIsTransparent` | crates/fastbrowse-agent/src/policy.rs:706-790 | with a model that answers by state and question, a shortlist is the same from any such cache as from an empty one |
| `Relevance.PendingAsksEach` | crates/fastbrowse-agent/src/policy.rs:724-741 | exactly the questions without a score are asked |
| `Relevance.CollectPending` | crates/fastbrowse-agent/src/policy.rs:724-736 | each distinct question is asked once, and twins share it |
| `Relevance.AnsweredIsNotAskedAgain` | crates/fastbrowse-agent/src/policy.rs:737-751 | a question answered in a pass is not asked in the next one of the same context |
| `Relevance.AskedAgainIff` | crates/fastbrowse-agent/src/policy.rs:374-386 | a question answered in one pass is asked again in the next if and only if that one is of another document or state |
| `Controls.AskedAboutIff` | crates/fastbrowse-agent/src/policy.rs:672-678 | there is a question about a control exactly when it is empty, not ticked, selected or open, and no link to a next page |
| `Relevance.Shortlist` | crates/fastbrowse-agent/src/policy.rs:684-802 | the pass keeps the specified shortlist, of the page's controls and within the limit unless more are offered unasked, and stores each score |
| `Relevance.NoListIff` | crates/fastbrowse-agent/src/policy.rs:743-753 | no list is made if and only if no control that is asked about has a score |
| `Relevance.ListIsOfTheRank` | crates/fastbrowse-agent/src/policy.rs:773-802 | otherwise the list is what is offered unasked and the first of the ranking, so many that it fits and, unless that is all that may be offered, one more would not |
| `Relevance.RankedInRank` | crates/fastbrowse-agent/src/policy.rs:767-777 | candidates are ranked by likelihood, unscored ones as certain and first among equals, then by place |
| `Relevance.HigherScoresGoFirst` | crates/fastbrowse-agent/src/policy.rs:767-777 | of two scored candidates the one with the higher score comes first, and of equal ones the earlier on the page |
| `Relevance.UnscoredGoFirst` | crates/fastbrowse-agent/src/policy.rs:767-777 | one without a score comes before every scored one not above certainty, and unscored ones keep their order |
| `Relevance.ShortlistFollowsRank` | crates/fastbrowse-agent/src/policy.rs:778-795 | what was asked about and left out ranks behind everything asked about and kept |
| `Rpc.Conn.Register` | go/rpc.go:169-180 | a call gets the next id and waits under it; none once the connection has ended |
| `Rpc.Conn.TakeWaiting` | go/rpc.go:131-134 | a reply takes the channel it is for, which nobody can take again |
| `Rpc.Conn.Wake` | go/rpc.go:68-71 | there is a token afterwards, and never a wait for room |
| `Rpc.Conn.Pop` | go/rpc.go:75-90 | the deliverer takes the first delivery, or learns whether the end was delivered |
| `Rpc.Conn.Close` | go/rpc.go:205-215 | the first end takes every channel that still waits, and a later one takes nothing |
| `Rpc.Goroutines.Take` | go/rpc.go:64-223 | any step of the reader, the deliverer, a caller or a failing sender, taken through the connection's critical sections, is the step of the machine |
| `Rpc.Goroutines.Drive` | go/rpc.go:64-223 | a connection driven through any interleaving ends as the machine's run does, and keeps the invariant |
| `Rpc.Serve` | go/rpc.go:57-62 | a new connection driven through a whole run ends where the machine does, and every call was answered exactly once when its reader ended it and its deliverer has returned |
| `Rpc.RunIsSafe` | go/rpc.go:64-93 | whatever the order the reader, the deliverer, callers and failing senders run in, the invariant holds: one place to a channel, one end, the queue in order, no wake-up lost |
| `Rpc.OneReplyAtMost` | go/rpc.go:131-149 | a call's channel is in exactly one place: pending, with the reader, with whoever ends the connection, or in one queued delivery; it is sent at most one value, so its buffer never blocks the deliverer |
| `Rpc.NoWakeUpIsLost` | go/rpc.go:64-93 | the deliverer never sleeps on a delivery unless a producer still owes its token, and once the connection has ended it does not sleep at all |
| `Rpc.EveryCallIsAnswered` | go/rpc.go:205-223 | when the reader ended the connection every call accepted has exactly one reply by the time the deliverer returns, and it does return |
| `Rpc.LostAtTheLastLook` | go/rpc.go:74-90 | when the deliverer finds the queue empty after the end, whatever happens later a call stays without a reply if and only if the reader holds its reply at that moment |
| `Rpc.UnansweredWhenReturned` | go/rpc.go:74-90 | every run in which the deliverer returned had such a moment, and it settles which calls have no reply |
| `Rpc.AllButOneAreAnswered` | go/rpc.go:189-223 | that is at most one call, whoever ended the connection |
| `Rpc.FailureCanLoseAReply` | go/rpc.go:189-195 | a run in which a message that cannot be written ends the connection and one call is never answered |
| `Rpc.RepliesFollowWhatWasRead` | go/rpc.go:128-149 | a reply is delivered after everything the reader took before it, in the order it was read |
| `Rpc.TakenIsQueued` | go/rpc.go:63-149 | a message a free reader takes is queued behind what is there, with a token for the deliverer, and leaves the reader free for the next |
| `Rpc.FailureIsQueued` | go/rpc.go:205-223 | a message that cannot be written queues one end, with every call that waits, and a second failure changes nothing |
| `Rpc.NothingIsTakenPastTheEnd` | go/rpc.go:95-108 | a reader that came to the end takes nothing any more, whoever ended the connection first |
| `Rpc.CallIsAcceptedIff` | go/rpc.go:169-180 | a call is accepted, under the next number, exactly while the connection has not ended |
| `Rpc.WhatArrivesIsDelivered` | go/rpc.go:64-149 | over every run, once a connection still in use has nothing left to do, everything that arrived and was awaited was delivered, in the order it came |
| `Rpc.CanSettle` | go/rpc.go:64-93 | from any state the connection can come, by itself, to where nothing is left to do: no interleaving leaves it stuck |
| `Cdp.RoundsAreFair` | crates/fastbrowse-browser/src/cdp.rs:396-481 | a command ends within its deadline and one more probe; a reply that landed is never thrown away; only a browser that answered a probe sent after the command makes it the page's failure, and only one that left such a probe unanswered its own |
| `Cdp.ReplyIsNoticed` | crates/fastbrowse-browser/src/cdp.rs:408-446 | a reply is noticed within the two probes it may land behind |
| `Cdp.LivePageKeepsItsDeadline` | crates/fastbrowse-browser/src/cdp.rs:408-446 | a page and a browser that answer every probe never cost a command its deadline early |
| `Cdp.SlowReplyIsTaken` | crates/fastbrowse-browser/src/cdp.rs:396-481 | of a page that answers every probe a reply within 120 seconds, 15 for input, is taken, and within 20 of its landing |
| `Cdp.CommandEnds` | crates/fastbrowse-browser/src/cdp.rs:396-481 | a command is over 130 seconds after it was sent, 25 for input; a live page without a reply has its 120, or 15 |
| `Cdp.HungPageIsKnown` | crates/fastbrowse-browser/src/cdp.rs:42-46 | a page that answers nothing behind a browser that answers at once is known in 20 seconds, or at the input deadline |
| `Cdp.DeadBrowserIsKnown` | crates/fastbrowse-browser/src/cdp.rs:406-446 | a browser that answers nothing is known in 20 seconds, in 70 when it had answered before and no session is at stake, and 10 after the deadline of an input command |
| `Cdp.KnownBySigns` | crates/fastbrowse-browser/src/cdp.rs:462-481 | the browser comes to be known to answer by a probe, another command or a reply that is not its end, and by nothing else |
| `Cdp.Connection.Send` | crates/fastbrowse-browser/src/cdp.rs:396-481 | the wait and probe loop ends as specified; one deadline is counted on the command's own session exactly when the page is found unresponsive, and after two the session's commands are refused unsent |
| `Cdp.Connection.AskOnceMore` | crates/fastbrowse-browser/src/cdp.rs:67-78 | past the deadline a landed reply counts, else the browser is asked and a reply that lands meanwhile counts |
| `Cdp.AHungPageCostsAtMost` | crates/fastbrowse-browser/src/cdp.rs:396-481 | over every order in which commands begin, end and are given up, a session with at most `k` in flight wastes at most `k + 1` deadlines on an unresponsive page, two when commands go one at a time; those and the ones callers counted are its count |
| `Cdp.AHungPageCanCostThatMany` | crates/fastbrowse-browser/src/cdp.rs:396-404 | for every `k` a hung page does cost `k + 1`: the count is read before the wait, so commands sent together all pass it |
| `Cdp.TwoDeadlinesIff` | crates/fastbrowse-browser/src/cdp.rs:47-51 | two deadlines are the most a hung page can cost, over every order of events, if and only if its commands go one at a time |
| `Cdp.NothingBeginsPastTheStop` | crates/fastbrowse-browser/src/cdp.rs:398-403 | once a session's count is two nothing more is sent on it |
| `Cdp.BeginsIs` | crates/fastbrowse-browser/src/cdp.rs:396-404 | a command is sent exactly while its session's count is below two, and begins with what is known of the browser |
| `Cdp.KnownOnceShown` | crates/fastbrowse-browser/src/cdp.rs:462-481 | over a run the browser is known to answer exactly once some command showed it |
| `Cdp.OtherSessionsKeepTheirCount` | crates/fastbrowse-browser/src/cdp.rs:456-460 | what commands of other sessions come to leaves a session's count alone |
| `CdpCalls.EveryCallIsAccountedFor` | crates/fastbrowse-browser/src/cdp.rs:370-394 | over every order of calls, failed writes, replies, closings and dropped callers, a call made is waiting, replied to or given up, exactly one of these, and after closing none waits; an id never given out is none of them |
| `CdpCalls.TheFirstWordStands` | crates/fastbrowse-browser/src/cdp.rs:370-394 | the first thing that happens to a call that waits is what comes of it, whatever follows: its reply, the reason the connection closed for, a write that failed, or its caller going away |
| `CdpCalls.CallIsAcceptedIff` | crates/fastbrowse-browser/src/cdp.rs:370-381 | a call is accepted, under a number no call had, exactly while the connection is open |
| `CdpCalls.RunKeepsAccount` | crates/fastbrowse-browser/src/cdp.rs:564-607 | a reply once given stays, and a closed connection accepts nothing and waits for nothing |
| `CdpCalls.OneReasonIff` | crates/fastbrowse-browser/src/cdp.rs:583-595 | over every run, all calls the connection failed or refused carry one reason if and only if, once a call has found its writer gone, the connection never closes on waiting calls, and never refuses one, for another reason |
| `CdpCalls.ReasonsCanDiffer` | crates/fastbrowse-browser/src/cdp.rs:593-595 | a run in which a call finds the writer gone before the connection closes, and a later one is refused for another reason |
| `CdpCalls.Inner.Register` | crates/fastbrowse-browser/src/cdp.rs:370-381 | a call gets a new id, or the reason the connection closed |
| `CdpCalls.Inner.Dispatch` | crates/fastbrowse-browser/src/cdp.rs:564-573 | a reply goes to the call that waits for it, once, and is discarded when none does |
| `CdpCalls.Inner.Close` | crates/fastbrowse-browser/src/cdp.rs:583-591 | everybody that waits is told why, and the first reason stands |
| `CdpCalls.Callers.Take` | crates/fastbrowse-browser/src/cdp.rs:370-394 | any event, taken through the connection's critical sections, is the event of the machine, and each caller sees the reply it records |
| `CdpCalls.Callers.Drive` | crates/fastbrowse-browser/src/cdp.rs:370-607 | a connection driven through any events ends as the machine's run does, with every call accounted for |
| `CdpCalls.Connect` | crates/fastbrowse-browser/src/cdp.rs:370-607 | a new connection driven through a whole run ends where the machine does, and once closed has nobody waiting |
| `Extension.ReleasedRunOwnsNothing` | crates/fastbrowse-browser/extension/background.js:81-92 | once a run is released and none of its handlers waits, it owns no tab, over all interleavings of new tabs, adoptions, popups, removals and releases |
| `Extension.RunDrains` | crates/fastbrowse-browser/extension/background.js:172-214 | at every await, a tab a released run owns is one some handler is about to let go of |
| `Extension.ReleaseClosesOnlyWhatItOpened` | crates/fastbrowse-browser/extension/background.js:203-213 | a release closes only tabs its run opened, never one it only adopted |
| `Extension.ReleaseClosesWhatItOpened` | crates/fastbrowse-browser/extension/background.js:172-213 | once a run was released and none of its handlers waits, every tab it opened, that the user did not close and it was not asked to adopt, has been closed, over all interleavings |
| `Extension.AllCanEnd` | crates/fastbrowse-browser/extension/background.js:81-214 | no handler waits for another: after any run all can come to their ends, releases among them |
| `Extension.AskedForIsTaken` | crates/fastbrowse-browser/extension/background.js:116-130 | a live run that asks for a tab, new or free to adopt, owns it once its handler has gone on, and nothing else changes |
| `Extension.RefusedLeavesNoTrace` | crates/fastbrowse-browser/extension/background.js:116-130 | a tab that cannot be made or read leaves no trace |
| `Extension.OpenedIsTaken` | crates/fastbrowse-browser/extension/background.js:255-276 | a tab opened from a live run's tab is that run's at once |
| `Extension.OnlyLiveRunsTake` | crates/fastbrowse-browser/extension/background.js:116-176 | a run that is not there, or was released, is given nothing, and no run adopts a tab another owns |
| `Extension.GoneIsForgotten` | crates/fastbrowse-browser/extension/background.js:284-291 | a tab that is gone is nobody's, and nothing else changes hands |
| `Extension.TabsAreKeptIff` | crates/fastbrowse-browser/extension/background.js:116-130 | a step leaves every live run the owner of its tabs if and only if it does not take, after its await, a tab another live run owns by then |
| `Extension.TabsAreKeptThroughoutIff` | crates/fastbrowse-browser/extension/background.js:116-130 | from the start on, every live run owns each of its tabs at every moment if and only if no handler ever takes a tab another live run has |
| `Extension.TwoRunsCanAdoptOneTab` | crates/fastbrowse-browser/extension/background.js:123-130 | two runs that both find a tab free before either reads it both take it, and the second owns it |
| `Extension.StepDisturbsIff` | crates/fastbrowse-browser/extension/background.js:81-92 | a step puts a teardown and another live run on one tab if and only if a live run takes a tab in the middle of another's teardown, or a released run's handler turns to a tab that is another live run's by then |
| `Extension.TeardownsAreApartIff` | crates/fastbrowse-browser/extension/background.js:202-214 | from the start on, no tab is ever torn down while another live run owns it, if and only if no step does that |
| `Extension.LateTeardownMeetsTheNextOwner` | crates/fastbrowse-browser/extension/background.js:81-92 | a run in which nothing is stolen, and the late handler of a released run is about to tear down the tab its next owner works in |
| `Extension.ServiceWorker.Take` | crates/fastbrowse-browser/extension/background.js:116-295 | any message, browser event or handler going on after its await, taken through the worker's own maps, is the step of the machine |
| `Extension.ServiceWorker.Drive` | crates/fastbrowse-browser/extension/background.js:116-295 | a worker driven through any interleaving ends as the machine's run does: every tab a released run owns is about to be let go, and only tabs a run opened are closed |
| `Extension.Work` | crates/fastbrowse-browser/extension/background.js:15-18 | a new worker driven through a whole run ends where the machine does; its releases closed only tabs its runs opened, and every live run has its tabs to itself when no handler took another's |
| `Extension.Background.StartRelease` | crates/fastbrowse-browser/extension/background.js:172-178 | a run is released once; a second release finds nothing |

## Left out

- Choices.Evaluate: does not say whether the operation answered was among those offered, or whether a tab id is one of the open tabs, because the code checks neither.
- Ladder.Decide: does not say that a group's follow-up request fits, because the code does not measure it; an error of the relevance pass itself, such as a spent budget, ends the step and is not modelled.
- Ladder.CapKeepsWhatFits: does not claim the largest number of controls that fits, because crossing the limit on options swaps a full question for a shorter one of groups, so fitting is not monotone.
- Trim.Fewest: the fewest actions are proved fewest only for requests that shrink as actions go (`FewestIsFewest`), because questions asked ahead can fill the room that is made.
- Relevance.Shortlist: answers to questions that were not asked are ignored, as the clients' parsing does; the sizes that leave a question unsent are `Batches`' subject.
- Cdp.Connection.Send: is one command on a connection to itself; of commands that run together only the flag that others were answered is open to it, and their shared count is `Cdp.AHungPageCostsAtMost`'s subject.
- Extension.ReleasedRunOwnsNothing: assumes connection numbers are not used twice, as the host assigns them.
- Notes.FactId: JSON writing, the hash and the reading of addresses are parameters of `Host`, so equal ids of different facts are merged as the code would merge them.
- Render.LongerCutIsLarger: a quoted string and a control's dump are whatever `Host` gives; only their lengths matter.
- `remember_capture`, table blocks, image reads, `repeats_page_text` and `render_for_navigation` of the notes.
- The patterns built from the regular expressions, and reading them; only their meaning is modelled.
- The wording of questions and rules, the JSON of a request's state, questions asked ahead, and confidence thresholds.
- Sending the batches, cost lines and the ledger's limits; `Plan` stops at what is reserved.
- The Go client's runs, callbacks and cancellation, and writing to the stream; the reader's parsing of a line is reduced to what it does to the connection.
- DevTools events, the websocket, pings, and connecting.
- The extension's relayed commands, interception settings, tab groups, badges and popup; the debugger's attach and a tab's grouping are one wait.
- The helper's PDF reading and how it is started.
- Floating point: sizes, scores and seconds are reals.
