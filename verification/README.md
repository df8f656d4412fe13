# Models of the repository's algorithms

The repository is the root of a small server. Beside its interface code it carries several libraries whose algorithms
are worth a proof. This project models six of them and proves what each is for.

1. **Text diff and unified patches** (`var/www/diff/js/diff.js`). `EditScript` says what a script of kept, added and
   removed tokens means; `Lcs` and `ScriptLcs` tie it to the longest common subsequence. `DiffSearch` is the greedy
   search over diagonals, with path objects that are updated in place or cloned, `ScriptValues` the pass that fills in
   and reorders the components, and `StringDiff` the diff of two strings. `Text`, `UnifiedFormat`, `PatchLayout`,
   `PatchSections`, `PatchContext`, `PatchPrint`, `PatchHeader`, `PatchCreate` and `PatchApply` print a diff as a patch,
   parse it and apply it.
2. **JSON diff and the text diff below it** (`var/www/diff/js/jsondiff.js`). `JsonPlan` pairs the items of two arrays,
   `JsonDiff` computes, applies and reverses deltas, `JsonArrays` has the loops and splices for arrays; `JsonMoves` and
   `JsonShape` say which items stay or move, and what deltas consist of. `TextEdits`, `TextCleanup`, `TextRuns`,
   `TextSemantic`, `TextLines` and `TextDiff` are the recursive diff of two strings and its clean-up passes.
3. **Schedulers** (`usr/lib/js/async/dev.js`). `AsyncQueue` and `AsyncAuto` are step machines: the environment decides
   which deferred call, callback or return comes next, and user code may call back in at any point. `QueueHooks` and
   `AutoReports` say when hooks and the final callback are called; `QueueObject` and `AutoObject` are the objects whose
   methods perform the steps.
4. **Cloning, lazy chains and timers** (`lib/js/lodash.js`). `DeepClone` copies graphs of objects on the heap;
   `LazyChain`, `LazyLimits` and `LazyLoops` compare fused chains with operations done one by one, whose meaning is in
   `LazyMeaning`; `Debounce`, `DebounceEdges` and `DebounceObject` are the machine of calls and timers behind debounced
   and throttled functions.
5. **Markdown blocks** (`usr/lib/js/marked/dev.js`). `MarkdownBlocks` relates token lists to block trees,
   `MarkdownLexer` emits the tokens, and `MarkdownParser` renders them. `MarkdownSource` and `MarkdownOutput` say what
   comes of the tokens without those trees.
6. **Shifting cells** (`var/www/stack/js/app.js`). `GridShift` rotates a rectangle of a grid in place.

Code that changes state is modelled by methods and classes. Their contracts equate the new state with a function of the
old one, and the lemmas prove what was promised about that function. `Splices` and `Wrappers` are shared helpers.

Some promises turned out to hold only under a condition. Each of these has an if-and-only-if, and most an input that
fails: inherited names as object keys (`JsonDiff.RoundTrip`), arrays that mix scalars with objects (`JsonDiff.NoDeltaIff`),
errors raised inside the final callback (`AsyncAuto.FinalCallbackOnce`), items finished inside the hook of an empty
queue (`QueueHooks.DryIsDoneIff`), a task whose name hides a method
(`AsyncAuto.ThrowsIffHidden`), file names that look like a hunk (`PatchCreate.RoundTripIff`), lazy chains that drop and
then reverse, or filter and then count (`LazyLimits`), debounced functions that call back with a longer maximum wait
(`Debounce.NewestIff`), and line tables with too many lines (`TextLines.FaithfulIffFew`).

## Model

| member | source | states |
|---|---|---|
| ScriptLcs.ShortestKeepsLcs | var/www/diff/js/diff.js:188-258 | A complete script that no other beats has exactly as many additions and removals as there are tokens outside the longest common subsequence, for any match relation |
| ScriptLcs.LcsIsKept | var/www/diff/js/diff.js:188-258 | For every pair of positions there is a walk to them that keeps a whole longest common subsequence, so the bound is reached |
| EditScript.CheapestIsMinimal | var/www/diff/js/diff.js:188-258 | A complete script whose additions and removals equal the edit distance is beaten by no complete script, in edits or in kept tokens |
| DiffSearch.ExtractCommon | var/www/diff/js/diff.js:271-290 | Slides the path as far as the tokens match, stops at a mismatch or an end, and records one kept block only if it moved |
| DiffSearch.Search.TakeBranch | var/www/diff/js/diff.js:191-218 | Chooses the branch from the old paths alone: a pruned diagonal is cleared, an extended one is updated in place only after it was taken out, a removal works on a clone, and no other path object changes |
| DiffSearch.Search.ExecEditLength | var/www/diff/js/diff.js:189-232 | One round either returns a complete, canonical script that no other beats, or moves on to the next edit length with every diagonal's furthest path kept |
| DiffSearch.Accepted | var/www/diff/js/diff.js:222-224 | The path that first reaches both ends has spent exactly the edit distance, and in it no removal is directly followed by an addition |
| DiffSearch.SearchIsBounded | var/www/diff/js/diff.js:252-257 | As long as the search has not finished, its edit length is below the number of tokens in both texts, so it never runs out of rounds |
| DiffSearch.Diff | var/www/diff/js/diff.js:173-258 | For all token lists and any match relation: the changes spell both texts, and unless all tokens match they are a canonical script, beaten by no other, whose edits are all the tokens outside the longest common subsequence |
| StringDiff.Diff | var/www/diff/js/diff.js:150-259 | For any tokenizer and match relation: equal strings and empty ones get the single change that the code returns early; if tokens concatenate to their string, kept and added values concatenate to the new string, and where only equal tokens match, kept and removed values concatenate to the old one |
| ScriptValues.BuildValues | var/www/diff/js/diff.js:102-144 | One left-to-right pass in place gives each component its own stretch of the right text, and moves each removal in front of the addition before it |
| ScriptValues.ReorderedCanonical | var/www/diff/js/diff.js:132-139 | If the search never left a removal directly before an addition, then after the swaps there is at most one removal and then at most one addition between kept blocks |
| ScriptValues.SpellsNew | var/www/diff/js/diff.js:102-144 | Kept and added values are the new text token by token; with the longest-token option a kept one may be the old token that matches |
| ScriptValues.SpellsOld | var/www/diff/js/diff.js:102-144 | Kept and removed values are the old text, token by token, up to the match relation |
| Text.Tokenize | var/www/diff/js/diff.js:345-366 | Merging each piece with the line break after it gives the lines of the text with their terminators |
| Text.ConcatTokens | var/www/diff/js/diff.js:345-366 | Tokenizing a text into lines loses nothing: the tokens concatenate to it |
| UnifiedFormat.HeaderRoundTrip | var/www/diff/js/diff.js:475-523 | A hunk header that was printed for any four numbers is read back as those numbers |
| PatchPrint.PrintHunks | var/www/diff/js/diff.js:432-495 | The printed hunks are in order and disjoint, each lists exactly the lines of the two ranges in its header, everything outside them is unchanged, the note about a missing newline appears for each text exactly if a change lacks it, and without changes there is no hunk; each hunk has a change, shows four lines of context on both sides, or all there are at the ends of the text, joins changes at most eight lines apart, and hides a line between it and the next |
| PatchSections.ParseRendered | var/www/diff/js/diff.js:514-539 | Parsing the printed hunks gives back every hunk, with its ranges and with its old and new lines |
| PatchSections.ApplyChain | var/www/diff/js/diff.js:541-552 | Applying an ordered chain of fitting hunks from the first to the last, at positions in the new text, never mismatches, and turns the old lines into the new ones up to the end of the last hunk |
| PatchApply.ApplyPatch | var/www/diff/js/diff.js:502-563 | For any text and any patch text the loops and splices compute the specified outcome: the patched text, a mismatch, or no end when nothing but empty lines would be left |
| PatchCreate.CreateTwoFilesPatch | var/www/diff/js/diff.js:402-496 | The printed patch starts with the lines for the old file and then the new one, with their headers, and an index line exactly if the names are equal; it is a chain of hunks for the two texts, with the right context, and with a note exactly where a text lacks its final newline; applying it to the old text gives the new text, for all texts, also empty ones, if and only if what the parser takes out of the file names and headers leaves enough of the old text, and always if it removes and adds nothing |
| PatchCreate.RoundTrip | var/www/diff/js/diff.js:402-563 | Applying any ordered chain of hunks that accounts for the change between two texts, printed with its notes behind a harmless header, to the first text gives the second |
| PatchCreate.RoundTripIff | var/www/diff/js/diff.js:402-563 | For every header: the patch leads from the first text to the second if and only if the hunks that the parser takes out of the header can be applied to the first text and, given the notes, leave its lines as they were, up to empty lines at the end that the notes make the code drop |
| PatchCreate.PlainIsHarmless | var/www/diff/js/diff.js:509-512 | If no line of the file names and headers starts with `@@`, the parser takes nothing out of them |
| PatchHeader.ApplyInjective | var/www/diff/js/diff.js:541-552 | From the result of applying a chain of hunks, the lines that it was applied to can be told |
| PatchHeader.ParseBehind | var/www/diff/js/diff.js:509-539 | Whatever the lines in front, the parser finds the hunks of the patch, and before them those that it takes out of the lines in front, and the notes of both |
| PatchCreate.HeaderTakenForHunk | var/www/diff/js/diff.js:510-526 | Input that fails: an old header with a line `@@` of its own, for two empty texts, makes the next header line end up in the patched text |
| Lcs.Get | var/www/diff/js/jsondiff.js:24 | For any match relation the table and the walk back through it return two strictly increasing index lists whose pairs all match, and no common subsequence is longer |
| Lcs.LenIsMaximal | var/www/diff/js/jsondiff.js:24 | No common subsequence of two prefixes is longer than their entry in the table |
| JsonPlan.MakePlanValid | var/www/diff/js/jsondiff.js:20 | For any two arrays: no old item is used twice, items that stay are in order, and every item that is taken over matches the one it comes from |
| JsonMoves.StayingIsLcs | var/www/diff/js/jsondiff.js:20 | For any two arrays, the items that stay where they are, head and tail included, number exactly the longest common subsequence of the whole arrays |
| JsonMoves.MovesAreGreedy | var/www/diff/js/jsondiff.js:20 | Each right item that does not stay is made from the first matching left item that neither stays nor was taken by an earlier right item, and has no source only if there is none |
| JsonMoves.NoMoveMissed | var/www/diff/js/jsondiff.js:20 | No right item without a source matches a left item that is used for none |
| JsonMoves.NoNeedlessAddition | var/www/diff/js/jsondiff.js:20 | No delta of two arrays deletes an item and adds an identical one, so an item that only changed its place is moved |
| JsonPlan.WholeIffUnmixed | var/www/diff/js/jsondiff.js:20 | An array compared with itself is recognised as unchanged exactly if it does not mix scalars with arrays or objects |
| Splices.InsertUndoesKeep | var/www/diff/js/jsondiff.js:20 | Items removed from the highest position down and inserted again from the lowest up, at their final positions, restore the list |
| JsonArrays.PlanArrays | var/www/diff/js/jsondiff.js:20 | The loops that trim head and tail, pair the rest and look for moved items compute the plan, and whether nothing changed |
| JsonArrays.Rearrange | var/www/diff/js/jsondiff.js:20 | The splices that take out removed and moved items and put in added and moved ones compute the rearranged array |
| JsonDiff.RoundTrip | var/www/diff/js/jsondiff.js:20-30 | For all JSON values, patching the first with the diff gives the second if and only if, wherever two objects are compared, they share their inherited names, and unless the two are equal and hold no array that mixes scalars with objects or arrays, the old one has no key `hasOwnProperty`, and a key `_t` is in both of them and likewise unchanged |
| JsonDiff.FaithfulIff | var/www/diff/js/jsondiff.js:20-30 | This condition, on the values alone, holds exactly if the delta can be computed and every part of it can be applied |
| JsonDiff.PatchRestores | var/www/diff/js/jsondiff.js:16-30 | Without such keys the round trip always succeeds, array moves and nested changes included, and there is no delta exactly for equal values without mixed arrays |
| JsonShape.DiffIsStructural | var/www/diff/js/jsondiff.js:16-30 | At no depth does a delta replace an object by an object, an array by an array or a value by itself, or hold an empty object delta |
| JsonShape.KeysOfDelta | var/www/diff/js/jsondiff.js:26 | The delta of two objects removes exactly the keys that only the old one has, adds those that only the new one has unless they are inherited, has no entry for unchanged values, and a nested one for those that changed |
| JsonDiff.NoDeltaIff | var/www/diff/js/jsondiff.js:20-30 | For all values the diff is undefined, with nothing overlooked, exactly if they are equal and no array in them mixes scalars with objects or arrays |
| JsonDiff.ReverseRoundTrip | var/www/diff/js/jsondiff.js:20-30 | For values whose arrays hold only scalars, patching the new value with the reversed delta gives the old one under the same if-and-only-if condition |
| JsonDiff.AddedNameIsOverlooked | var/www/diff/js/jsondiff.js:26 | Input that fails: an added key `constructor` is overlooked, and two different objects have no delta |
| JsonDiff.RemovedNameThrows | var/www/diff/js/jsondiff.js:26-30 | Input that fails: removing a key `toString` makes the diff throw |
| JsonDiff.ReservedKeysFail | var/www/diff/js/jsondiff.js:26 | Input that fails: a change beside a key `hasOwnProperty`, or under the key `_t`, has a delta that cannot be patched |
| JsonDiff.EqualValuesFail | var/www/diff/js/jsondiff.js:20-26 | Input that fails: a value with a key `hasOwnProperty` beside a mixed array cannot be patched to itself |
| JsonDiff.MixedArrayDiffersFromItself | var/www/diff/js/jsondiff.js:20 | Input that fails: an array of null and an empty object has a delta against itself |
| TextEdits.CommonPrefix | var/www/diff/js/jsondiff.js:4 | The bisection returns the length of the longest common prefix |
| TextEdits.CommonSuffix | var/www/diff/js/jsondiff.js:4 | The bisection returns the length of the longest common suffix |
| TextEdits.CommonOverlap | var/www/diff/js/jsondiff.js:4 | The search by `indexOf` jumps ends, and returns the length of the longest suffix of the first text that is a prefix of the second |
| TextCleanup.CleanupMerge | var/www/diff/js/jsondiff.js:4 | Keeps both texts, terminates, leaves no two edits that could be merged and no single edit that could be moved to swallow an equality, and never edits more characters, or as many in more edits |
| TextSemantic.CleanupEfficiency | var/www/diff/js/jsondiff.js:4 | Keeps both texts and introduces no empty equality. It changes the list exactly if some short equality lies between edits that make it costly; then such equalities are turned into edits one by one until none is left, and the outcome is merged without editing more characters |
| TextSemantic.Slide | var/www/diff/js/jsondiff.js:4 | Sliding an edit between two equalities keeps both texts and its length, and ends at the last of the best-scored places that are reached from as far left as possible |
| TextSemantic.CleanupSemanticLossless | var/www/diff/js/jsondiff.js:4 | Keeps both texts. From the start on, each edit between two equalities is put at its best place, the last of the best-scored ones, and the pass goes on behind it, to the end of the list; it runs on forever only if an empty entry is followed by an empty equality, and always if the first entry between two equalities is of this kind |
| TextSemantic.EmptyEditHangs | var/www/diff/js/jsondiff.js:4 | Input that fails: on an equality, an empty insertion and an empty equality the code never returns |
| TextSemantic.ExtractOverlaps | var/www/diff/js/jsondiff.js:4 | Keeps both texts, and leaves no deletion and insertion that overlap by half of either: each such pair is taken apart around its longest overlap, and every other entry is as before |
| TextSemantic.CleanupSemantic | var/www/diff/js/jsondiff.js:4 | Keeps both texts, and returns whenever no equality is empty. Exactly if some equality is no longer than the larger of the inserted and deleted characters on each side of it, such equalities are turned into edits until none is left, and the list is merged; then the edits are slid to their best places and overlaps taken out, so that only small ones are left |
| TextLines.LinesToChars | var/www/diff/js/jsondiff.js:4 | Codes every line of both texts by its place in a table, in which only a last line `__proto__` can appear twice, and throws exactly if the first text has the line `hasOwnProperty` as its last and there is a second text to code |
| TextLines.FaithfulIffFew | var/www/diff/js/jsondiff.js:4 | The 16-bit codes tell all lines apart if and only if the lines of the two texts take fewer than 65536 of them |
| TextDiff.HalfMatch | var/www/diff/js/jsondiff.js:4 | There is a half match exactly if there is a deadline, the texts are long enough and near enough in length, and they share, around the second or third quarter of the longer one, a part of at least half of it; then it splits both texts around the longest such part |
| TextDiff.LineMode | var/www/diff/js/jsondiff.js:4 | If there is a code for every line, the line diff fails exactly where the table of lines does, and else leads from the first text to the second, with its changed blocks compared again |
| TextDiff.DiffMain | var/www/diff/js/jsondiff.js:4 | For all strings, wherever the deadline falls and wherever the search splits: the edits lead from the first text to the second, fully merged, unless the code fails, which it does only in line mode; with line mode, if the texts have few enough distinct lines, and then it fails only if the first one contains `hasOwnProperty`. They never edit a common prefix or suffix, and if one text is part of the other, only what is around it |
| AsyncQueue.RunKeeps | usr/lib/js/async/dev.js:731-898 | After any sequence of pushes, callbacks, returns, pauses and deferred calls: each pushed item is in exactly one place, no worker too many runs, enough calls of `process` are to come for all that can be started, and a priority queue is sorted with equal priorities in push order |
| AsyncQueue.NeverTooManyWorkers | usr/lib/js/async/dev.js:788-808 | In every run the worker count is the number of running items and at most the concurrency |
| AsyncQueue.NoLostWakeup | usr/lib/js/async/dev.js:788-831 | In every run: when no call is under way or deferred and the queue is not paused, all workers are busy or nothing is queued |
| AsyncQueue.AllDone | usr/lib/js/async/dev.js:788-831 | And when the workers are done as well, every pushed item is finished or was killed, and none is both |
| AsyncQueue.FinishedForGood | usr/lib/js/async/dev.js:27-34 | Once an item's callback has taken effect, nothing that follows queues or runs the item again, and calling back again changes nothing |
| AsyncQueue.FirstInFirstOut | usr/lib/js/async/dev.js:735-790 | In every run without `unshift`, items are taken off in the order of their pushes |
| AsyncQueue.MostUrgentFirst | usr/lib/js/async/dev.js:835-898 | In every run of a priority queue, the task taken off next precedes all others, by priority and then by push order |
| QueueHooks.DrainCalls | usr/lib/js/async/dev.js:742-805 | While the `drain` hook is set, it is called once when an item's callback returns and nothing is queued or running, and once for each empty push when its deferred call comes, and at no other time |
| QueueHooks.NeverDrainedEarly | usr/lib/js/async/dev.js:796-804 | In every run, each call of the hook for a finished item comes at a moment with nothing queued and nothing running |
| QueueHooks.DrainedAtTheEnd | usr/lib/js/async/dev.js:796-804 | In every run: if the hook stays set, and in the end nothing is queued, running or under way, then since the last item was finished the hook has been called |
| QueueHooks.DryIsDoneIff | usr/lib/js/async/dev.js:788-804 | When the queue runs dry, all pushed items are finished or killed if and only if no call of the `empty` hook is under way |
| QueueHooks.DrainedBeforeTheLast | usr/lib/js/async/dev.js:788-804 | Run that fails: of two items, the first is finished inside the `empty` hook before the second one, and the queue is drained twice |
| QueueHooks.KilledForGood | usr/lib/js/async/dev.js:781-784 | Whatever follows a kill, no item that was queued is run, and the hook is not called until it is set again |
| QueueHooks.SaturatedIff | usr/lib/js/async/dev.js:750-766 | Inserting items puts in all of them, in push order or in front in reverse, or by priority; the `saturated` hook interrupts exactly when the queue becomes as long as the concurrency, and one call of `process` is deferred for each other item |
| QueueHooks.EmptyIff | usr/lib/js/async/dev.js:788-806 | Whatever step takes an item off takes the first one, with a worker to spare and not paused; exactly if it was the last one the `empty` hook is called before the worker |
| QueueHooks.PausedUntilResumed | usr/lib/js/async/dev.js:818-830 | After a pause nothing is taken off until the queue is resumed, which ends the pause |
| QueueObject.Queue.BinarySearch | usr/lib/js/async/dev.js:841-853 | In a list sorted by priority the bisection returns the last position whose priority is at most the item's, or minus one |
| QueueObject.Queue.InsertItems | usr/lib/js/async/dev.js:750-766 | The insertion loop reaches the state of the machine's insertion, up to the first due `saturated` hook |
| QueueObject.Queue.ProcessOne | usr/lib/js/async/dev.js:788-793 | `process` takes off a task, or does nothing, as the machine's step does |
| QueueObject.Queue.FireDeferredDrain | usr/lib/js/async/dev.js:742-749 | What an empty push has deferred calls `drain` if the hook is then set, as the machine's step does |
| QueueObject.Queue.OnlyOnce | usr/lib/js/async/dev.js:27-34 | A wrapped callback throws exactly if it was called before; otherwise it makes the machine's callback step, and the invariant holds again |
| QueueObject.Queue.UserReturns | usr/lib/js/async/dev.js:791-807 | What happens when a hook, a worker or a callback returns, the call of `drain` included, is the machine's step, and the invariant holds again |
| QueueObject.Queue.ResumeQueue | usr/lib/js/async/dev.js:822-830 | Resuming defers one call of `process` for each worker, and the invariant holds again |
| AsyncAuto.StartsOnceWhenReady | usr/lib/js/async/dev.js:455-495 | In every run a task starts at most once, and only when all tasks that it requires have results |
| AsyncAuto.FinalCallbackOnce | usr/lib/js/async/dev.js:445-476 | In every run the final callback is called at most once if and only if no task reports an error from inside it, while it runs because of an earlier error |
| AsyncAuto.FinalCallbackTwice | usr/lib/js/async/dev.js:462-471 | Run that fails: the final callback, called for a first error, has a second task fail, and is called again |
| AutoReports.FirstReport | usr/lib/js/async/dev.js:445-476 | In every run, the first call of the final callback is for a task that failed, with the results so far and the value that came with the error; or it comes when no tasks remain, without an error and with the results; or there are no tasks |
| AutoReports.FailureIsReported | usr/lib/js/async/dev.js:462-471 | An error of a started task before any call of the final callback makes the first one, as an error with its value |
| AutoReports.HasResultIff | usr/lib/js/async/dev.js:472-475 | In every run a key has a result exactly if its task, once started, has called back with one |
| AutoReports.ResultIsNewest | usr/lib/js/async/dev.js:472-475 | And the result is the value of its newest such call |
| AsyncAuto.CompletesIffAcyclic | usr/lib/js/async/dev.js:416-496 | If no task fails or calls back twice: when all is quiet the final callback has come, once, with a result for every key, if and only if the requirements are acyclic and no result under the name `hasOwnProperty` arrived before all tasks were started; otherwise it has not come |
| AsyncAuto.ThrowsIffHidden | usr/lib/js/async/dev.js:438-495 | In every run, with failures or without: when all is quiet the code has thrown if and only if the first result under the name `hasOwnProperty` arrived before all tasks were started |
| AsyncAuto.ThrowsForOneName | usr/lib/js/async/dev.js:478-482 | In no run does the code throw, unless some task is named `hasOwnProperty` and is not the only one |
| AsyncAuto.HiddenMethodThrows | usr/lib/js/async/dev.js:478-482 | Run that fails: a task waits for one named `hasOwnProperty`, whose result hides the method; nothing fails, but the final callback never comes |
| AutoObject.Auto.TaskCallback | usr/lib/js/async/dev.js:457-476 | A task's callback records its result or reports its error as the machine's step does, and keeps the invariant |
| AutoObject.Auto.NotifyListeners | usr/lib/js/async/dev.js:438-453 | Calling the listeners of a snapshot one by one, each of which may leave the list, is the machine's notification |
| DeepClone.BaseClone | lib/js/lodash.js:1663-1714 | Terminates on every finite graph with sharing and cycles; the stacks only grow, by fresh clones that mirror their originals, and the result is the clone that is paired with the value |
| DeepClone.CloneDeep | lib/js/lodash.js:1663-1714 | For every finite graph the clone of an object or array has the same shape and consists of fresh nodes, and the input is unchanged |
| DeepClone.CloneIsIsomorphic | lib/js/lodash.js:1663-1714 | If all traversed nodes have finished clones, every path from the original has its counterpart, ends alike, and two paths meet in the one exactly if they meet in the other |
| DeepClone.CloneShallow | lib/js/lodash.js:1663-1714 | A shallow clone is a fresh object with the same members |
| LazyChain.FusedIsEager | lib/js/lodash.js:1056-1083 | For every array and every chain of cuts, reversals and maps and then stages and takes, with no filter after a take: the fused loop gives what the operations give one by one |
| LazyChain.LoopIsEager | lib/js/lodash.js:1037-1084 | So does the wrapper's value, whenever the code uses the loop |
| LazyChain.LazyIsEager | lib/js/lodash.js:1037-1084 | For every array, small or large, every safe chain, also over several nested wrappers, has the value of its operations done one by one |
| LazyLimits.DropThenReverseRight | lib/js/lodash.js:1053-1055 | Dropping and then reversing is right exactly for large arrays and for those that repeat themselves that far |
| LazyLimits.FilterDropTakeRight | lib/js/lodash.js:12061-12075 | Filtering, dropping and taking is right exactly if few items pass the filter, or the wrong items that are taken equal the right ones |
| LazyLimits.FilterTakeFilterRight | lib/js/lodash.js:12068-12092 | On large arrays, filtering again after a take is right exactly if no taken item is filtered out, or no later one would take its place |
| LazyMeaning.ApplyPicks | lib/js/lodash.js:1037-1084 | What the operations mean that fused chains are compared with: each keeps the items at just the right positions, in order or reversed, and only `map` changes them |
| LazyLoops.ComputeView | lib/js/lodash.js:3923-3939 | The loop over drops and takes from both sides computes the bounds that the views leave |
| LazyLoops.FusedLoop | lib/js/lodash.js:1056-1083 | The loop over the items, with its early exits, computes the fused value, in both directions |
| LazyLoops.LazyValue | lib/js/lodash.js:1037-1084 | The value of nested wrappers is computed by the loop or by the recorded actions, as the sizes decide |
| Debounce.ThrottleSpaces | lib/js/lodash.js:7643-7717 | In every run with a monotone clock and timers that are never early, a throttled function's invocations are at least `wait` apart |
| Debounce.ThrottleAnswers | lib/js/lodash.js:7643-7720 | With trailing invocations, timers on time and no cancelling, every call is followed within `wait` by an invocation with its own or newer arguments |
| Debounce.InvokedWithNewest | lib/js/lodash.js:7643-7717 | However often the function calls back, and with or without cancelling, a throttled function, or a debounced one without a maximum wait, is invoked with the newest arguments only |
| Debounce.NewestIff | lib/js/lodash.js:7643-7717 | For any options, all invocations have the newest arguments if and only if no timer fires after, since the newest call, some call of the function has returned with no timer pending |
| Debounce.NewestWithoutCallback | lib/js/lodash.js:7643-7717 | If the function never calls back, all its invocations have the newest arguments, whatever the options |
| Debounce.InvokedWithoutArgs | lib/js/lodash.js:7643-7717 | Run that fails: with a longer maximum wait, a function that calls back twice is invoked a third time without arguments |
| Debounce.DebounceWaitsForSilence | lib/js/lodash.js:7643-7717 | In every run without a maximum wait, each invocation comes after `wait` without calls, or is a leading one |
| Debounce.DebounceAnswers | lib/js/lodash.js:7643-7717 | With trailing invocations only and timers on time, the newest call gets its invocation exactly `wait` later, or the timer for it is pending |
| DebounceEdges.CallInvokesIff | lib/js/lodash.js:7677-7717 | In every run a call is invoked at once, with its own arguments, exactly if: without a maximum wait, there is a leading edge and no timer is pending; with one, its timer is due, or there is none and the last invocation is that long ago, or it is zero. If not, the timers for it are pending |
| DebounceEdges.TimerInvokesIff | lib/js/lodash.js:7643-7675 | In every run a timer invokes the function exactly if the newest call is `wait` old and owed a trailing invocation, the maximum timer if there is a trailing edge or a longer maximum wait; cancelling and returning never do |
| DebounceEdges.BurstStarts | lib/js/lodash.js:7643-7717 | With a leading edge, no maximum wait and timers on time, a call more than `wait` after the one before is invoked at once, and one less than `wait` after it is not |
| DebounceEdges.CancelSilences | lib/js/lodash.js:7633-7641 | After cancelling, nothing is invoked until the next call |
| DebounceEdges.OnlyInCalls | lib/js/lodash.js:7643-7717 | Without a trailing edge and without a longer maximum wait, every invocation happens inside a call |
| DebounceObject.Debounced.Call | lib/js/lodash.js:7677-7717 | A call of the debounced function changes its variables as the machine's step does, for any options, and the object stays where the machine is after all that has happened |
| DebounceObject.Debounced.TimeoutFires | lib/js/lodash.js:7643-7661 | The timer's function makes the machine's step: it invokes, gives up or sets the timer again; the object stays where the machine is |
| DebounceObject.Debounced.MaxTimeoutFires | lib/js/lodash.js:7663-7675 | The maximum timer's function makes the machine's step, and the object stays where the machine is |
| DebounceObject.ObjectSpaces | lib/js/lodash.js:7643-7717 | Whatever has happened to a throttled object, with a monotone clock and timers that are never early, its invocations are at least `wait` apart |
| DebounceObject.ObjectAnswers | lib/js/lodash.js:7643-7717 | With trailing invocations, timers on time and no cancelling, every call to a throttled object is followed within `wait` by an invocation with its own or newer arguments |
| DebounceObject.ObjectNewest | lib/js/lodash.js:7643-7717 | All invocations by a debounced object, whatever its options, have the newest arguments if and only if no timer fires after they were let go |
| MarkdownBlocks.LinIsInjective | usr/lib/js/marked/dev.js:150-444 | A token list stands for at most one block tree |
| MarkdownLexer.Lexer.Lex | usr/lib/js/marked/dev.js:150-444 | For any rules that consume some of the source, lexing ends; it throws exactly if some part matches no rule, and else pushes the well-bracketed tokens of the source's blocks behind those already there |
| MarkdownSource.TokensAreAsked | usr/lib/js/marked/dev.js:150-444 | Every token comes from a rule that was asked at the top level exactly if no list item is open around the token, and in a quote exactly if a quote is open around it |
| MarkdownSource.PushedInOrder | usr/lib/js/marked/dev.js:150-444 | A source's tokens are those of the first rule that matches and then those of the rest; a quote's are between its own start and end, and a list's items each between theirs, in order, with their own flags |
| MarkdownOutput.OutputOfTree | usr/lib/js/marked/dev.js:929-1081 | Reading the tokens from left to right, with a stack of open start tokens, gives the same output as the recursion over the tree |
| MarkdownOutput.TextsAreOneBlock | usr/lib/js/marked/dev.js:961-969 | For any renderer and token list: a maximal run of text tokens, joined by line breaks, goes through the inline lexer once, and becomes a paragraph exactly if the innermost open token is not the start of a tight item |
| MarkdownOutput.ContentsAreOneBlock | usr/lib/js/marked/dev.js:1029-1068 | A quote, list or item goes through the renderer's own method once, with the outputs of its contents in order, and a list with the flag of its own start token |
| MarkdownOutput.LeavesInOrder | usr/lib/js/marked/dev.js:929-940 | Other blocks are put out in order, each once |
| MarkdownOutput.SingleItem | usr/lib/js/marked/dev.js:1037-1068 | A list of one item with one text is that text, as a paragraph exactly if the item is loose, in an item, in a list with its flag |
| MarkdownParser.Parser.ParseText | usr/lib/js/marked/dev.js:961-969 | Merges the text of exactly the text tokens that follow, and consumes no other |
| MarkdownParser.Parser.Tok | usr/lib/js/marked/dev.js:975-1081 | Consumes the tokens of exactly one block, or one run of text, and returns its rendering, which for a block is what its tokens give from left to right |
| MarkdownParser.Parser.Parse | usr/lib/js/marked/dev.js:929-940 | On the tokens of any block tree the parser consumes every token, and its output is what the tokens give from left to right and the recursive rendering of the tree |
| MarkdownParser.RenderSource | usr/lib/js/marked/dev.js:1218 | For every source that lexes, the output is what the lexer's tokens give from left to right, and the rendering of the source's blocks; it throws exactly if lexing does |
| GridShift.Shift | var/www/stack/js/app.js:762-821 | Although cells are overwritten while they are read, each cell of the rectangle gets the original of the cell `ro` rows below and `co` columns to the right, counted around the edges, and all others stay |
| GridShift.ShiftBy | var/www/stack/js/app.js:762-821 | For the numbers x and y that the user enters, each cell gets the original of the cell x columns to its left and y rows above it, so cells move to the right and down |
| GridShift.OneToTheRight | var/www/stack/js/app.js:762-821 | One step to the right turns a row of three into its last cell and then the first two |
| GridShift.ShiftsAdd | var/www/stack/js/app.js:762-821 | Two shifts come to one by the sum of their offsets |
| GridShift.ShiftBack | var/www/stack/js/app.js:762-821 | Shifting by the opposite offsets restores the grid, so no cell is lost or doubled |

## Left out

- Numbers are unbounded, strings are sequences of characters, and `<`, `%` and array indices are those of integers.
- DiffSearch.Diff: models the direct mode; with a callback the code runs the same rounds from timers, and the answer is that of the direct mode.
- StringDiff.Diff: the tokenizers other than the one for patches are any functions of the strings; their regular expressions are not modelled.
- PatchCreate.RoundTrip: is about harmless headers; `RoundTripIff` covers all others exactly.
- The XML, HTML and word-based output of diffs, and `canonicalize`, are not part of this model.
- JsonDiff.RoundTrip: strings of 60 characters or more are replaced as a whole, where the code may store a text patch; fuzzy text patches are not modelled. The key `__proto__`, dates, functions, and options such as `objectHash` are not modelled, and arrays and objects are values, so none is shared.
- JsonDiff.ReverseRoundTrip: covers arrays of scalars; for nested deltas the code compares a moving index with final ones, and nothing is promised.
- JsonDiff.PatchRestores: excludes the key names that fail, which `RoundTrip` covers exactly.
- TextDiff.DiffMain: the middle of the search is any split of the two texts or the deadline, so nothing is said about how short the edits are. `fuel` bounds how many splits deep the search gets before the deadline. With line mode the conditions are sufficient only, because the lines that are cut on the way are counted with a margin, and only some parts of the first text are coded.
- TextSemantic.CleanupSemanticLossless: the score of a boundary is any function of the text on both sides; its regular expressions are not modelled.
- AsyncQueue.RunKeeps: changes of `concurrency` while items are queued, and exceptions from user code are not modelled; `cargo` and the collection functions are left out.
- AsyncAuto.CompletesIffAcyclic: says nothing about runs in which a task fails or calls back twice; `FinalCallbackOnce` and `AutoReports.FirstReport` cover those. Results are no functions, and no task is named `__proto__`.
- DeepClone.CloneDeep: dates, regular expressions, typed arrays, customizers, prototypes and constructors, the name `__proto__`, and extra properties of arrays are not modelled.
- LazyChain.LazyIsEager: iteratees are functions of the item alone; `first`, `last`, `initial`, `rest` and the methods built on `filter` and `map` are left out, and so is the effect of a reversal on the caller's own array.
- LazyLimits.FilterTakeFilterRight: is about arrays of at least 200 items of which fewer are taken than there are; otherwise the operations are done one by one.
- Debounce.ThrottleAnswers: needs timers that fire on time, which the platform does not promise.
- MarkdownLexer.Lexer.Lex: each rule is any function that consumes some of the source; regular expressions, the contents of tables, links and inline text are not modelled.
- GridShift.Shift: offsets are integers and cells are objects; offsets that are no numbers, selections from bottom to top and rows of different lengths are not modelled.
- The page and terminal code, file locks, path handling, announcements, the C program and the server's own scripts are left out: they are input and output, or add only easy members.
