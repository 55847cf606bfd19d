# FlowForge, verified

FlowForge runs YAML workflows. This project models the parts of it whose correctness is an argument rather than a lookup,
and proves the argument.

- **Durable run executor** (`Workflow`, `Executor`, `RunContext`, `WellFormed`, `Soundness`, `Parking`, `Replay`, `Resume`,
  `Resumability`, `Progress`, `Reference`, `Durability`, `Reentry`, `SelfReader`, `PendingSlot`, `LoopShape`, `StepRules`,
  `RunVerdict`, `EmailOnce`, `StepPaths`, `DuplicateIds`). A run is a tree walk that parks at delays and approvals, persists
  its state maps and walks the tree again later. `RunContext` updates the maps in place as the original does and is proved
  against the functions of `Executor`; those are proved against a plain walk that has never heard of parking. The main
  theorems say that cutting a run into jobs, crashed ones included, cannot be seen in its result, and that a run whose parks
  are answered ends; `Reentry`, `SelfReader` and `PendingSlot` show what happens where their conditions fail. `StepRules`
  says what each rule of the walk does in terms of the values and records themselves.
- **Expression language** (`Syntax`, `Lexer`, `Parser`, `ParserObject`, `Printer`, `Precedence`, `ParserImage`,
  `ExpressionText`, `Evaluator`, `Budget`, `EvaluationCost`, `EvaluationLaws`, `OperatorLaws`, `OperationCounter`, `Equality`,
  `Interpolation`). Scanner, recursive-descent parser with its counters, evaluator with its operation budget, and
  interpolation. `filter` and `map` parse strings while the evaluator runs, so the budget is what makes evaluation end.
  `Precedence` and `EvaluationLaws` say how operators group and what every kind of node means without naming the functions
  that parser, printer and evaluator share.
- **Cron** (`Calendar`, `CronFields`, `CronValidator`, `Cron`, `CronReach`, `CronTexts`). The next-fire search over the
  calendar of section 21.4.1 of ECMA-262, the two copies of the grammar, what texts mean, and which schedules always find a
  next instant.
- **Audit chain** (`Utf16`, `SortedEntries`, `CanonicalJson`, `JsonDecoder`, `JsonAgreement`, `JsonScan`, `AuditChain`,
  `AuditEvidence`, `KeyOrder`). Canonical JSON with a decoder that undoes it, append, verify and purge, and what a verifying
  chain is evidence of. The hash is a parameter; theorems that need it require it to be injective.
- **Tables** (`Billing`, `BillingLedger`, `Admission`, `AdmissionDesk`, `LateMetering`, `Triggers`, `Dispatcher`). Metering and
  period closes, admission of runs, schedule triggers and the outbox as state machines whose atomic steps are the
  transactions and statements of the original, with invariants over every history.

A class is proved against a function of its old state, and the theorems are about the functions. Expressions and leaf steps of
the executor are functions of the step outputs they read; the world answers delays and approvals.

## Findings

Each is stated and proved next to the theorem it bounds.

- A step that fails under `on_error: continue` is not marked done, so every job that re-enters its list runs it again. It fails
  again and changes nothing (`StepReplay`), with three exceptions. A for_each starts its `results` afresh at the iteration that
  failed, so a delay behind it costs the run the entries before that one (`LateLoopLosesResults`, `FlakyResultIsLost`). A
  condition in a loop whose own step reads its status is seen to have failed, and can succeed the second time
  (`SelfReaderRecovers`). And a refused approval is asked for again.
- There is one place for a pending approval. A refused approval that is asked for again takes it from any approval behind it,
  refused or not, so such a run can never be finished; behind a delay it only costs further jobs. A list of delays and
  approvals can be finished exactly when no approval stands behind a refused one that the run goes on from
  (`FinishesIffUnblocked`). What it waits for is a task that is already decided (`RejectedApprovalParksAgain`).
- The branches that record a failed iteration of a completed for_each cannot be reached (`VerdictSound`), although the comment
  above them says that they serve iterations whose children all failed.
- Children of a condition bypass the schema of step ids, and an id with dots can take the idempotency key of another step
  (`DottedIdsCollide`).
- `isEqual` looks keys up along the prototype chain, so every value with an own `__proto__` key that holds an empty object equals
  some value that does not equal it (`ProtoKeyBreaksSymmetry`, `SymmetricIffPlain`).
- `null <= 0` and `null >= 0` hold and `null == 0` does not; `EqualityIsOrderEquality` lists all such pairs.
- A block right after a loose backslash or brace is not replaced (`BlockIsReplacedIff`).
- A day-of-week field that contains 7 is not looked at, so `* * * * 5-7` fires every day (`SevenLiftsWeekDays`,
  `WeekDayMattersIff`, `FiveToSevenFiresDaily`).
- A schedule for 29 February alone fails around 2100, when the next leap day is out of the search window (`NoLeapDayInGap`).
- Audit sequence numbers restart at 1 after a purge that empties the log, contrary to the comment (`CompletePurgeResets`).
- A run that gets two kinds of terminal event is metered twice (`CountedOnceIffOneKind`), and a run that ends between the
  end of a period and its rollover is in no invoice (`UnitsAreConserved`).
- A run that has started, is put back into the queue after its wait and is timed out there is never metered
  (`CountedIffNotQueueTimeout`, `StartedRunEndsUncounted`).
- Promotion of blocked runs ignores the run cap (`PromotionExceedsCap`), and so does an admission between the terminal status
  of a run and its metering (`AdmissionBetweenExceedsCap`).
- A late tick drops every instant of the schedule after the due one, up to the present (`HeldOrSkipped`, `LateTickSkips`), and a
  stalled ticker moves a trigger past an instant nobody has read (`StaleAdvanceLosesInstant`, `StalledTickerLosesInstant`).
- A send that fails after the reclaim window reopens a notification already sent (`SettledTouchedIff`, `LateFailureReopensSentRow`).

## Model

| member | source | states |
|---|---|---|
| Durability.ParkingIsInvisible | apps/server/src/services/run-executor.ts:378-445 | For every step tree with unique ids whose expressions read earlier steps, every world, and every sequence of jobs that park, crash or finish: a finished run has the statuses, done set, reply, failure mark, verdict and outputs of one plain walk that knows nothing of parking. Excepted are the outputs of the loops it parked in and of the loops in failed steps that a resumed list runs again; no expression may read those, and no step of such a failed condition may read the condition |
| Durability.ParkingIsInvisibleAlways | apps/server/src/services/run-executor.ts:378-445 | The same for any jobs, with conditions on the manifest alone: all loops are among the hidden steps, no expression reads a hidden output, and no step reads a condition it lies in |
| Durability.RunEnds | apps/server/src/services/run-executor.ts:165-184 | A run whose parks are answered ends: however often it crashes, it parks at most twice for each step instance its manifest allows, so one more job that does not crash finishes it, as long as no job parks at an approval with a refused one among the failed steps before it |
| Durability.ParksAdvance | apps/server/src/services/run-executor.ts:378-445 | A job without a crash that answers the park of the job before it ends the run, parks further on in the document, or asks once more for the approval that was refused in the job before, which leaves all else as it was |
| Progress.StepsAdvance | apps/server/src/services/run-executor.ts:378-445 | The same for any list of steps, from the parked state or what a crash made of it: later iterations and later steps have a higher place |
| Replay.StepReplay | apps/server/src/services/run-executor.ts:434-439 | A step that failed under `on_error: continue`, run again from any later state that still shows its failure, fails with the same error and leaves statuses, done marks, cursors, reply and the outputs outside its loops as they were; or the job parks in it, exactly at the approval that was pending and refused before and no longer is |
| Replay.ItemsReplay | apps/server/src/services/run-executor.ts:1172-1194 | A failed for_each is entered again at the iteration that failed; unless it waits there for a refused approval it fails there again, and its results are then that one failed entry |
| Reentry.LoopForgets | apps/server/src/services/run-executor.ts:1172-1194 | The output of a failed for_each that is run again is unchanged exactly when it had failed in the first iteration it ran, unless it waits for a refused approval |
| Reentry.LateLoopLosesResults | apps/server/src/services/run-executor.ts:434-439 | For every loop under `on_error: continue` that fails before a delay: the run completes with the failed entry alone in the loop's output, which is the plain walk's output exactly when the first iteration failed |
| Reentry.FlakyResultIsLost | apps/server/src/services/run-executor.ts:1172-1194 | One such loop of two items, whose first result is gone after the delay |
| SelfReader.SelfReaderRecovers | apps/server/src/services/run-executor.ts:434-439 | A run of three jobs ends with a condition succeeded and done in its second iteration, where the plain walk leaves it failed: its own step reads its status |
| PendingSlot.RejectedApprovalParksAgain | apps/server/src/services/run-executor.ts:434-439 | For every rejected approval under `on_error: continue` and every delay behind it: the job that should pass the delay parks on the decided approval again |
| PendingSlot.RefusalBlocks | apps/server/src/services/run-executor.ts:1324-1351 | With any approval behind a refused one under `on_error: continue`, no list of jobs whatsoever finishes the run |
| PendingSlot.FinishesIffUnblocked | apps/server/src/services/run-executor.ts:1324-1351 | For every list of delays and approvals: some list of jobs finishes it exactly when no approval stands behind a refused one that the run goes on from |
| PendingSlot.BehindRefusedOnlyDelay | apps/server/src/services/run-executor.ts:1324-1351 | Of two such steps, the first refused under `on_error: continue`, the run can be finished exactly when the second is a delay |
| Durability.HistoryAlike | apps/server/src/services/run-executor.ts:165-184 | From any state that meets the invariant, the whole history of jobs ends like one uninterrupted walk from there |
| Resume.StepsResume | apps/server/src/services/run-executor.ts:378-445 | Walking on from the state a parked list left behind ends like walking from the state before it, for any flags, and the park point lies inside that list |
| Resume.ItemsResume | apps/server/src/services/run-executor.ts:1172-1222 | A parked for_each continued from its saved cursor ends like the loop run through, and what it records is the rest of the full loop's entries from that cursor, when no direct child is hidden |
| Resume.ResumedResults | apps/server/src/services/run-executor.ts:1158-1236 | The `results` of a loop resumed after a park are those of the loop run through, without the entries before the cursor |
| Resume.ConditionResume | apps/server/src/services/run-executor.ts:1094-1129 | A condition whose branch parked evaluates its guard again to the same value and re-enters the same branch |
| Parking.StepsFinish | apps/server/src/services/run-executor.ts:378-445 | A job that never parks computes exactly what the uninterrupted walk computes |
| Parking.StepsAlike | apps/server/src/services/run-executor.ts:378-445 | States that agree outside the hidden outputs are taken by the uninterrupted walk to states that agree again, with the same verdict |
| Reference.StepsPlain | apps/server/src/services/run-executor.ts:378-445 | The interpreter without parks refines a plain walk that has no done set lookups, cursors or pending parks |
| Reference.ItemsPlain | apps/server/src/services/run-executor.ts:1172-1222 | The loop verdict read back from statuses and done marks equals the plain loop's own bookkeeping |
| Soundness.StepsSound | apps/server/src/services/run-executor.ts:378-445 | Invariant of the persisted state over any walk that does not crash: done steps have a status other than failed, cursors and later iterations are untouched |
| Soundness.VerdictSound | apps/server/src/services/run-executor.ts:1212-1220 | An iteration that was attempted has succeeded, so the `failed` entry of a completed iteration (1214-1216) cannot be reached |
| WellFormed.StepsFramed | apps/server/src/services/run-executor.ts:378-445 | A walk of a list of steps changes outputs and statuses of its own ids only, and done marks and cursors below its own paths only |
| LoopShape.VerdictMeaning | apps/server/src/services/run-executor.ts:1196-1211 | The verdict on an iteration says succeeded exactly when a direct child of it is done with status succeeded, and its output is that of the last such child |
| LoopShape.LoopStops | apps/server/src/services/run-executor.ts:1172-1236 | Every recorded entry fits its own iteration, in order; an abort adds one failed entry for the iteration it happened in; a park saves the cursor of its iteration |
| LoopShape.ForEachRecords | apps/server/src/services/run-executor.ts:1158-1236 | One execution over the first n = min(length, max(1, min(limit or 100, 1000))) items of the list, iteration i on item i, from the saved cursor, records the remaining entries: each is succeeded, with the output of the last direct child that succeeded in its iteration, if there is one, and skipped otherwise, none is failed; an abort leaves a prefix plus one failed entry and keeps its cursor; a park leaves the cursor after the finished ones |
| LoopShape.FirstItems | apps/server/src/services/run-executor.ts:1158-1160 | The items of a loop are the first of the list, as many as the limit, clamped to 1 and 1,000 and 100 by default, allows |
| StepRules.ResultsAreWritten | apps/server/src/services/run-executor.ts:1182-1227 | The output of a loop has one object for each entry, with the members of its kind, the number of dropped items, and whether there are any |
| StepRules.FalsyGateSkips | apps/server/src/services/run-executor.ts:402-422 | A step whose `if` has one of the values undefined, null, false, 0, "" and [] is not run; the first time it gets a skipped row, status and done mark |
| StepRules.FalseGateSkips | apps/server/src/services/run-executor.ts:402-422 | In particular `false` skips the step, in every job and on the plain walk |
| StepRules.OpenStepRuns | apps/server/src/services/run-executor.ts:425-441 | With no `if` or any other value the step is run: done when it completes, the end of the list when it fails, and under `on_error: continue` the end of nothing but the run if the list is the top one |
| StepRules.StepIsRecorded | apps/server/src/services/run-executor.ts:447-596 | The row and the status of each end of a step: succeeded, skipped, failed, paused, waiting |
| StepRules.GuardPicksBranch | apps/server/src/services/run-executor.ts:1109-1128 | A guard with one of those six kinds of falsy values walks `else` and any other guard `then`; the output names the branch and gives the output of its last step, or null |
| StepRules.BoolPicksBranch | apps/server/src/services/run-executor.ts:1109-1128 | `false` walks the `else` steps and records "else", `true` walks the `then` steps and records "then" |
| StepRules.PlainGuardPicksBranch | apps/server/src/services/run-executor.ts:1109-1128 | The same on the plain walk |
| StepRules.LeafLeavesOutput | apps/server/src/services/run-executor.ts:500-545 | A leaf step leaves the output of its work, also of work that fails if it gives one, and a reply step that completes sets the reply, in every job and on the plain walk |
| StepRules.EmailIsQueued | apps/server/src/services/run-executor.ts:1042-1059 | An email is put into the outbox under the place of its step unless one is there, and the output says that it is enqueued |
| StepRules.DelayWaits | apps/server/src/services/run-executor.ts:1259-1297 | A delay parks the first time it is met and until it has elapsed, and then completes and frees its place |
| StepRules.ApprovalDecides | apps/server/src/services/run-executor.ts:1299-1404 | So does an approval; approved completes, rejected fails, and a timeout fails or skips as the step says, the decision being the output each time |
| StepRules.CrashLosesState | apps/server/src/services/run-executor.ts:165-184 | A crash loses all of the run state but the outbox and the step rows, and any other end of a job nothing |
| RunVerdict.FailsIffTopStepFailed | apps/server/src/services/run-executor.ts:297-305 | A finished run, cut into any jobs, has failed exactly when a step of its top list ended as failed or an `if` of that list does not evaluate |
| EmailOnce.HistoryKeepsOutbox | apps/server/src/services/run-executor.ts:1042-1059 | Over any jobs, crashes included, the outbox holds only paths of email steps and every done email step was skipped or has its row |
| EmailOnce.EmailsExactlyOnce | apps/server/src/services/run-executor.ts:1028-1059 | Every email step instance in the done set was skipped by its `if` or has its outbox row, and no other row carries its idempotency key |
| EmailOnce.StepsSend | apps/server/src/services/run-executor.ts:425-427 | A walk keeps the outbox and the rows of done steps, and adds sent emails only |
| StepPaths.RenderInjective | apps/server/src/services/run-executor.ts:391 | Distinct step instances have distinct step paths when no id holds a dot |
| StepPaths.OutboxKeyInjective | apps/server/src/services/run-executor.ts:1051 | Distinct step instances have distinct idempotency keys under the same condition |
| StepPaths.DottedIdsCollide | apps/server/src/services/run-executor.ts:1117 | Without it, next to every step there is an id with dots whose step has the path and key of any given step inside the first |
| StepPaths.PathsAreSpelled | apps/server/src/services/run-executor.ts:391 | How a path is spelled below a branch and in an iteration, and the key made of it |
| DuplicateIds.DuplicateCheck.CheckDuplicateIds | packages/engine/src/manifest-validator.ts:131-149 | The walk reports nothing exactly when every step, in document order, has an id not seen before it |
| DuplicateIds.SilentMeansUnique | packages/engine/src/manifest-validator.ts:131-149 | A silent check means that the ids of the whole tree, in document order, hold no repeat |
| DuplicateIds.WellFormedManifest | packages/engine/src/manifest-validator.ts:131-149 | Silence, and expressions that read earlier steps, give the precondition of the executor theorems |
| RunContexts.RunContext.RunJob | apps/server/src/services/run-executor.ts:187-305 | The job that updates the state maps in place ends in the state and outcome of the functional interpreter |
| RunContexts.RunContext.ExecuteSteps | apps/server/src/services/run-executor.ts:378-445 | The loop over steps, with its `_done`, status and failure updates, refines the functional interpreter |
| RunContexts.RunContext.ExecuteStepRecord | apps/server/src/services/run-executor.ts:447-596 | Running row, step body and recorded outcome, cut off where the worker dies |
| RunContexts.RunContext.ExecuteCondition | apps/server/src/services/run-executor.ts:1094-1129 | Guard, branch and the output of the branch's last step |
| RunContexts.RunContext.ExecuteForEach | apps/server/src/services/run-executor.ts:1131-1237 | Items, clamp, cursor, loop and the three ways the loop ends |
| RunContexts.RunContext.ExecuteItems | apps/server/src/services/run-executor.ts:1172-1222 | The loop over items with its `results` list and cursor updates |
| RunContexts.RunContext.IterationVerdict | apps/server/src/services/run-executor.ts:1196-1211 | The scan of the direct children of one iteration |
| RunContexts.RunContext.ExecuteDelay | apps/server/src/services/run-executor.ts:1259-1297 | Parks once, waits while not ready, completes when the delay has elapsed, in place |
| RunContexts.RunContext.ExecuteApproval | apps/server/src/services/run-executor.ts:1299-1404 | Parks once, waits while undecided, then applies the decision |
| RunContexts.RunContext.ExecuteNotify | apps/server/src/services/run-executor.ts:994-1059 | The outbox insert that does nothing on a conflict of keys |
| ExpressionParser.Parse | packages/engine/src/expression-evaluator.ts:253-328 | Every routine that returns restores the depth, consumes at least one token and counts no more operations than tokens; with at most 10,000 tokens it never fails with the operation limit |
| ExpressionParser.ParsePrimary | packages/engine/src/expression-evaluator.ts:330-422 | The same for literals, parentheses, calls and property paths |
| ExpressionParser.ParseTokens | packages/engine/src/expression-evaluator.ts:244-251 | A whole parse of at most 10,000 tokens never reports the operation limit |
| ParserObject.Parser.Parse | packages/engine/src/expression-evaluator.ts:244-251 | The object with its mutable position and counters parses exactly what the functional grammar parses |
| ParserObject.Parser.ParseLevel | packages/engine/src/expression-evaluator.ts:253-328 | Each level's method leaves position, operations and depth as the grammar function says |
| ParserObject.Parser.ParsePrimary | packages/engine/src/expression-evaluator.ts:330-422 | The same for primaries |
| ExpressionPrinter.PrintThenParse | packages/engine/src/expression-evaluator.ts:201-423 | Printing any tree the grammar can build, with the fewest parentheses, and parsing the tokens gives the tree back within the nesting limit |
| ExpressionPrinter.Reads | packages/engine/src/expression-evaluator.ts:253-328 | The print of a node at any level, followed by anything that does not continue that level, is read back from there |
| Precedence.FlatParses | packages/engine/src/expression-evaluator.ts:253-328 | Any number of operators between literals and paths, without parentheses, is read as the one tree that groups them by an independent table of strengths: what stands to the left binds at least as tightly, what stands to the right more tightly |
| Precedence.OneGrouping | packages/engine/src/expression-evaluator.ts:253-328 | There is only one such tree for a list of tokens |
| Precedence.ProductsBeforeSums | packages/engine/src/expression-evaluator.ts:298-318 | `a + b * c` and `a * b + c`, for any sum, any product and any operands, group the product first |
| Precedence.ArithmeticFromTheLeft | packages/engine/src/expression-evaluator.ts:298-318 | Sums, and products, group from the left |
| Precedence.ArithmeticBeforeComparison | packages/engine/src/expression-evaluator.ts:285-307 | Any arithmetic operator groups before any comparison, on either side of it |
| Precedence.PrefixesBind | packages/engine/src/expression-evaluator.ts:275-328 | `not` takes the whole comparison behind it, a minus sign only the operand |
| Precedence.ConnectivesBind | packages/engine/src/expression-evaluator.ts:253-283 | `not` groups before `and`, `and` before `or`, and each of these from the left |
| Precedence.ParenthesesGroup | packages/engine/src/expression-evaluator.ts:362-368 | What stands in parentheses is one operand |
| Precedence.ComparisonsDoNotChain | packages/engine/src/expression-evaluator.ts:285-296 | A second comparison is not accepted, whatever follows it |
| Precedence.CallTakesArguments | packages/engine/src/expression-evaluator.ts:375-390 | The arguments of a call are read in order |
| Precedence.ForbiddenNameIsRejected | packages/engine/src/expression-evaluator.ts:392-403 | A forbidden name behind a dot is rejected as such, whatever follows it |
| Precedence.NestingLimit | packages/engine/src/expression-evaluator.ts:330-334 | Forty-nine pairs of parentheses around a literal are accepted and no more |
| ParserImage.AcceptedIsPrintable | packages/engine/src/expression-evaluator.ts:881-891 | Every tree the parser accepts is one the printer handles, and printing it and parsing again gives it back |
| Lexer.Lex | packages/engine/src/expression-evaluator.ts:71-198 | Tokens never outnumber characters |
| Lexer.ParseExpression | packages/engine/src/expression-evaluator.ts:881-891 | On at most 500 characters the parser's 10,000-operation error cannot fire |
| Lexer.Tokenize | packages/engine/src/expression-evaluator.ts:71-198 | The index-driven scan computes the token list of the functional lexer |
| Lexer.ScanString | packages/engine/src/expression-evaluator.ts:87-123 | The string loop, escapes included |
| Lexer.ParseText | packages/engine/src/expression-evaluator.ts:881-891 | Length check, scan, empty check and parser object together |
| ExpressionText.QuotedIsOneToken | packages/engine/src/expression-evaluator.ts:87-123 | Any string quoted with backslash escapes tokenizes to one string token with that value |
| ExpressionText.WrittenLexes | packages/engine/src/expression-evaluator.ts:71-198 | Any writable token list, written out, tokenizes to itself |
| ExpressionText.TextThenParse | packages/engine/src/expression-evaluator.ts:881-891 | The text of any printable tree of at most 500 characters parses to that tree |
| ExpressionText.FlatTextParses | packages/engine/src/expression-evaluator.ts:881-891 | The text of a tree that needs no parentheses, written without any, parses to it |
| ExpressionText.TextIsTokens | packages/engine/src/expression-evaluator.ts:881-891 | A text of more than 500 characters is rejected unread; any other is what its tokens parse to |
| ExpressionText.OperatorsAreSpelled | packages/engine/src/expression-evaluator.ts:167-192 | The spelling of each operator |
| ExpressionText.WordsAreRead | packages/engine/src/expression-evaluator.ts:137-164 | A word of letters, digits and underscores is a keyword in any case or a name as it stands |
| ExpressionText.NumeralsAreRead | packages/engine/src/expression-evaluator.ts:126-134 | A digit with any digits and points behind it is one numeral |
| ExpressionText.EscapesAreRead | packages/engine/src/expression-evaluator.ts:92-115 | In a string literal backslash n, t and r stand for line feed, tab and carriage return, and every other character but u for itself |
| ExpressionText.HexEscapesAreRead | packages/engine/src/expression-evaluator.ts:104-109 | A backslash, u and four hexadecimal digits in either case stand for the character of that number |
| ExpressionText.UnclosedIsRejected | packages/engine/src/expression-evaluator.ts:117-118 | A string literal that is not closed is rejected |
| ExpressionText.StrayCharacterIsRejected | packages/engine/src/expression-evaluator.ts:190-195 | A character that starts no token is rejected, braces and a lone equals sign or exclamation mark included |
| Equality.EqualIsSymmetric | packages/engine/src/expression-evaluator.ts:451-496 | `isEqual` is symmetric on nested values whose objects have no own `__proto__` key holding an empty object |
| Equality.EqualIsReflexiveOn | packages/engine/src/expression-evaluator.ts:451-496 | A value equals itself exactly when neither NaN nor undefined occurs in it |
| Equality.ProtoKeyBreaksSymmetry | packages/engine/src/expression-evaluator.ts:465-472 | For every value without NaN and undefined that has such a key there is a plain value it equals and that does not equal it |
| Equality.SymmetricIffPlain | packages/engine/src/expression-evaluator.ts:451-496 | A value without NaN and undefined is compared symmetrically with every plain value exactly when it has no such key |
| Equality.EqualIffSame | packages/engine/src/expression-evaluator.ts:451-479 | Where no number meets a text or a boolean, a value without NaN, undefined and such a key equals exactly itself, item by item and key by key |
| Equality.CoercedPairs | packages/engine/src/expression-evaluator.ts:481-496 | A number equals the texts that read as it and the boolean that counts as it; texts and booleans are never equal |
| Evaluator.EvaluateExpression | packages/engine/src/expression-evaluator.ts:956-960 | Every text and context ends after at most limit + 1 entries to `evaluate`, and the operation-limit outcome is the one with limit + 1 operations |
| Evaluator.Eval | packages/engine/src/expression-evaluator.ts:894-953 | The shared counter only grows, entries are operations, and no answer is given past the limit; `filter` and `map` on strings parsed at run time included |
| Budget.BudgetNeverChangesAnswers | packages/engine/src/expression-evaluator.ts:894-960 | A larger budget never changes an answer, an error code or the count of operations; a smaller one cuts an evaluation off exactly when it counts more operations |
| Budget.EvalMonotone | packages/engine/src/expression-evaluator.ts:894-953 | The same for every node, context and counter reading |
| Budget.SelfReferenceExhausts | packages/engine/src/expression-evaluator.ts:831-878 | An expression that filters or maps a non-empty list with its own text uses up every budget |
| EvaluationCost.CostIsItsOwn | packages/engine/src/expression-evaluator.ts:894-953 | The answer of an expression and the operations it costs do not depend on how much of the budget is already used |
| EvaluationCost.ListIsElementwise | packages/engine/src/expression-evaluator.ts:831-878 | `filter` keeps exactly the items whose expression is truthy and `map` gives exactly their values, in order, when the budget covers the sum of the costs |
| EvaluationLaws.EndsOnce | packages/engine/src/expression-evaluator.ts:894-960 | An expression that ends has one answer and one cost |
| EvaluationLaws.ConnectivesYield | packages/engine/src/expression-evaluator.ts:910-919 | When both operands yield values, `or` yields true exactly when one of them is not falsy and `and` exactly when both are not, with the cost of what is evaluated |
| EvaluationLaws.LeftDecides | packages/engine/src/expression-evaluator.ts:910-919 | When the left operand decides, the right one is not evaluated, whatever it is: the cost is that of the left one and one more |
| EvaluationLaws.NotYields | packages/engine/src/expression-evaluator.ts:907-908 | `not` yields true exactly for the falsy values |
| EvaluationLaws.NegateEnds | packages/engine/src/expression-evaluator.ts:936-943 | A minus sign negates the number its operand stands for and fails where there is none |
| EvaluationLaws.BinaryEnds | packages/engine/src/expression-evaluator.ts:921-934 | A binary operator is applied to the left value and the right value, at the cost of both and one more |
| EvaluationLaws.FaultIsPassedOn | packages/engine/src/expression-evaluator.ts:894-953 | The error of a first operand is that of the node, and nothing after it is evaluated |
| EvaluationLaws.RightFaultIsPassedOn | packages/engine/src/expression-evaluator.ts:894-953 | So is the error of a right operand that is evaluated |
| EvaluationLaws.RootYields | packages/engine/src/expression-evaluator.ts:617-660 | Each root that is walked from stands for its part of the context |
| EvaluationLaws.OtherRootsEnd | packages/engine/src/expression-evaluator.ts:617-660 | `loop` outside a loop and `now` are null with any keys, and an unknown root is an error |
| EvaluationLaws.LookupsEnd | packages/engine/src/expression-evaluator.ts:662-683 | Secrets and environment variables are looked up by their first key alone, and there is one variable |
| EvaluationLaws.KeyEnds | packages/engine/src/expression-evaluator.ts:685-703 | One more key takes the member of what the path before it yields, at one more operation and the cost of the key |
| EvaluationLaws.MemberOf | packages/engine/src/expression-evaluator.ts:596-614 | The member of an object under a key, of a list at a whole number or a text that begins with one, null for what is missing, and an error for a forbidden name on anything but null |
| EvaluationLaws.CallEnds | packages/engine/src/expression-evaluator.ts:945-948 | A function gets the values of all its arguments in order, at the sum of their costs and one more |
| EvaluationLaws.ListYields | packages/engine/src/expression-evaluator.ts:831-877 | `filter` yields, in their order, exactly the items for which its text is not falsy, and `map` the values of its text; each is evaluated with its item and position and without `loop` |
| EvaluationLaws.NoListEnds | packages/engine/src/expression-evaluator.ts:831-868 | Over null both yield no items; over anything else but a list with a text they fail |
| EvaluationLaws.ArgFaultIsPassedOn | packages/engine/src/expression-evaluator.ts:945-948 | The first argument that fails is the last one evaluated, and its error that of the call |
| EvaluationLaws.ItemFaultIsPassedOn | packages/engine/src/expression-evaluator.ts:831-877 | The first item for which the text fails ends the call with that error, and a text that does not parse ends it at once |
| OperatorLaws.OrderIsTotal | packages/engine/src/expression-evaluator.ts:499-541 | Of two numbers without NaN, or two strings, exactly one is less, equal or greater, and the inclusive comparisons are the negations of the strict ones |
| OperatorLaws.ComparisonFlips | packages/engine/src/expression-evaluator.ts:499-541 | Swapping the operands mirrors every comparison, errors included |
| OperatorLaws.EqualityIsOrderEquality | packages/engine/src/expression-evaluator.ts:451-553 | For comparable values without NaN, `==` agrees with `<=` and `>=` together exactly unless one side is null alone or a boolean meets a string |
| OperatorLaws.NullIsNotZero | packages/engine/src/expression-evaluator.ts:451-553 | A concrete pair on which they disagree |
| OperatorLaws.NaNComparesFalse | packages/engine/src/expression-evaluator.ts:499-541 | Every order comparison with NaN is false, coerced operands included |
| OperatorLaws.NumbersAreCompared | packages/engine/src/expression-evaluator.ts:499-529 | Values that are not both texts compare as the real numbers they stand for, null being 0 and a boolean 0 or 1; the infinities lie outside all others |
| OperatorLaws.TextsAreCompared | packages/engine/src/expression-evaluator.ts:531-541 | One text is less than another exactly when it is a proper prefix of it or has the smaller code unit where they first differ |
| OperatorLaws.NothingToCompare | packages/engine/src/expression-evaluator.ts:499-517 | A comparison fails exactly when the operands are not both texts and one of them stands for no number |
| OperatorLaws.ArithmeticCombines | packages/engine/src/expression-evaluator.ts:555-593 | Texts are joined by a plus, a text and a number are not, zero divides nothing, and otherwise the numbers that the operands stand for are combined |
| OperatorLaws.ArithmeticOnOthers | packages/engine/src/expression-evaluator.ts:555-593 | An operand that stands for no number is an error except in joining two texts |
| OperationCounter.Operations.Evaluate | packages/engine/src/expression-evaluator.ts:894-953 | The recursion that bumps one counter in place gives the answer and the reading of the functional evaluator |
| OperationCounter.Operations.ResolveProperty | packages/engine/src/expression-evaluator.ts:617-698 | The loop over a property path, one operation a key |
| OperationCounter.Operations.FilterOrMap | packages/engine/src/expression-evaluator.ts:831-878 | The loop over the list elements with the shared counter |
| OperationCounter.EvaluateText | packages/engine/src/expression-evaluator.ts:956-960 | Parse, fresh counter and evaluation together |
| Interpolation.EscapeIsUndone | packages/engine/src/expression-evaluator.ts:963-998 | A backslash before each left-to-right `{{` of any string is undone by interpolation |
| Interpolation.BlockIsReplaced | packages/engine/src/expression-evaluator.ts:963-998 | A block between escaped texts is replaced by the value of its expression without the spaces on either side of it, the expression being what stands before the first `}}` |
| Interpolation.BlockIsReplacedIff | packages/engine/src/expression-evaluator.ts:963-998 | For every text before a block, with any spaces inside it, the block is replaced by its value exactly when that text does not end in a loose backslash or brace |
| Interpolation.CloseIsFirst | packages/engine/src/expression-evaluator.ts:980-984 | The block ends at the first `}}` |
| Interpolation.ResolveInterpolation | packages/engine/src/expression-evaluator.ts:963-998 | The index-driven loop computes the functional interpolation |
| Calendar.YearLength | apps/server/src/lib/cron.ts:84-93 | The day numbers of the first days of two neighbouring years differ by the length of the year (section 21.4.1 of ECMA-262) |
| Calendar.CivilRoundTrip | apps/server/src/lib/cron.ts:97-99 | The civil date of a day number leads back to it, and its next date to the next day, over ends of months and years |
| Calendar.DayRoundTrip | apps/server/src/lib/cron.ts:68-71 | Every civil date is the date of its day number |
| Calendar.DaysInMonth | apps/server/src/lib/cron.ts:68-71 | Day 0 of a month is the last day of the month before it |
| Calendar.CalendarAnchors | apps/server/src/lib/cron.ts:68-71 | Leap years, month lengths and the weekday of 1 January 1970 |
| Calendar.CalendarRepeats | apps/server/src/lib/cron.ts:68-71 | 400 years are 146,097 days |
| Calendar.PartsInstant | apps/server/src/lib/cron.ts:113 | An instant on a minute is determined by its day, hour and minute |
| CronFields.ParseCronField | apps/server/src/lib/cron.ts:35-66 | A field parses exactly when every piece is in order, to the union of what the pieces denote |
| CronFields.AddSteps | apps/server/src/lib/cron.ts:43-47 | The stepping loop adds exactly the values on the step |
| CronTexts.NumeralField | apps/server/src/lib/cron.ts:56-62 | A numeral denotes its number, and is rejected outside the limits |
| CronTexts.RangeField | apps/server/src/lib/cron.ts:49-55 | A range denotes the numbers between its ends, and is rejected when they are out of order or outside the limits |
| CronTexts.StepField | apps/server/src/lib/cron.ts:42-48 | `*/n` denotes min, min + n, min + 2n and so on up to the maximum, and is rejected when n is 0 or above the maximum |
| CronTexts.ListField | apps/server/src/lib/cron.ts:36-66 | A list joined by a comma is accepted when both parts are, and denotes the union of what they denote |
| CronFields.ParseCronFieldList | apps/server/src/lib/cron.ts:27-33 | Five fields, each within its own limits |
| CronTexts.TextParses | apps/server/src/lib/cron.ts:27-33 | Any text of five stars and numerals within the limits is the schedule of these in the order minute, hour, day of the month, month, day of the week |
| CronFields.FieldNeverEmpty | apps/server/src/lib/cron.ts:35-66 | A field that parses denotes at least one value |
| CronValidator.IsValidCronField | packages/engine/src/manifest-validator.ts:38-63 | The validator accepts a field exactly when the scheduler's parser does |
| CronValidator.IsValidCronExpression | packages/engine/src/manifest-validator.ts:32-36 | The same for whole expressions |
| CronValidator.GrammarsAgree | packages/engine/src/manifest-validator.ts:17-36 | Run on one text, both copies of the grammar give the same verdict |
| Cron.ComputeNextFire | apps/server/src/lib/cron.ts:78-124 | Returns the least instant after `from` that is on the minute and satisfies the five field sets under the code's day rule; fails exactly when the text does not parse or none lies in the 2,196-day window |
| Cron.SearchDay | apps/server/src/lib/cron.ts:108-117 | The hour and minute loops find the first slot of a day after `from`, or none |
| Cron.StartClear | apps/server/src/lib/cron.ts:84-93 | Nothing after `from` fires before the first day searched, also when `from` lies in the last minute of a day |
| CronReach.AlwaysFiresIffYearly | apps/server/src/lib/cron.ts:96 | A schedule fires from every instant exactly when its weekday field is restricted or some allowed month has an allowed day that exists every year |
| CronReach.RestrictedWeekDayFires | apps/server/src/lib/cron.ts:81-82 | A restricted weekday field is met in the year after the search begins |
| CronReach.NoLeapDayInGap | apps/server/src/lib/cron.ts:96 | Any other schedule means 29 February only, and has no firing instant in the window from 1 March 2096 |
| CronReach.OnlyLeapDay | apps/server/src/lib/cron.ts:80-106 | A schedule that is not yearly is satisfied by 29 February at most |
| CronReach.SevenLiftsWeekDays | apps/server/src/lib/cron.ts:81-106 | With a 7 in the weekday field a day is chosen by month and, if restricted, day of the month alone |
| CronReach.WeekDayMattersIff | apps/server/src/lib/cron.ts:81-106 | The weekday field makes a difference exactly when it holds neither a 7 nor all of 0 to 6 |
| CronReach.FiveToSevenFiresDaily | apps/server/src/lib/cron.ts:81-82 | The text `* * * * 5-7` parses and allows every day |
| CronTexts.OneDayField | apps/server/src/lib/cron.ts:81-106 | With one day field restricted or none, a day is allowed by its month and that field |
| CronTexts.DayFieldsUnite | apps/server/src/lib/cron.ts:103-106 | With both day fields restricted, a day is allowed exactly when it is with one of the two lifted: its month is allowed, and its date or its weekday |
| CronTexts.ThirteenthOrFriday | apps/server/src/lib/cron.ts:78-118 | `0 0 13 * 5` fires at midnight of every 13th and every Friday and at no other instant |
| CronTexts.TuesdayTheThirteenth | apps/server/src/lib/cron.ts:78-118 | Asked on 12 January 2026 it fires next on Tuesday the 13th |
| JsonDecoder.DecodeCanonical | packages/shared/src/audit-events.ts:71-89 | A decoder gives back every value with integer numbers up to key order, dropped undefined members, and undefined read as null |
| JsonAgreement.EncodesEquallyIffAgree | packages/shared/src/audit-events.ts:71-89 | Two values encode equally exactly when they agree, agreement being stated member by member without encoding or sorting |
| JsonDecoder.EncodesEquallyIffNormsEqual | packages/shared/src/audit-events.ts:71-89 | Two values encode equally exactly when their normal forms are equal |
| CanonicalJson.CanonicalIsWrittenNorm | packages/shared/src/audit-events.ts:71-89 | Encoding is normalising and then writing plainly |
| JsonAgreement.CanonicalPaired | packages/shared/src/audit-events.ts:77-86 | Canonical JSON holds no lone surrogate, so encoding it in UTF-8 loses nothing |
| Utf16.QuotedReads | packages/shared/src/audit-events.ts:77 | A quoted string, short escapes, control characters and lone surrogates included, is read back |
| Utf16.EscapesAreWritten | packages/shared/src/audit-events.ts:77 | How each code unit is written inside quotes |
| Utf16.LessIsFirstDifference | packages/shared/src/audit-events.ts:82-84 | A text is less than another exactly when it is a proper prefix of it or has the smaller code unit where they first differ |
| KeyOrder.MembersAscend | packages/shared/src/audit-events.ts:81-86 | Canonical JSON of an object writes exactly the members that are not undefined, each key a proper prefix of the next or with the smaller code unit where they first differ |
| KeyOrder.AscendingMembersAreWritten | packages/shared/src/audit-events.ts:81-86 | Any list of those members in that order is the one written |
| KeyOrder.ListsAreWritten | packages/shared/src/audit-events.ts:78-80 | A list is written item by item in its own order |
| KeyOrder.HashCovers | packages/shared/src/audit-events.ts:94-105 | The hash of an audit row covers the hash before it and its eight members in the order of their names |
| SortedEntries.SortAscends | packages/shared/src/audit-events.ts:82-84 | Entries with distinct keys sort to strictly ascending keys by code unit |
| SortedEntries.AscendingUnique | packages/shared/src/audit-events.ts:82-84 | The sorted order depends on which entries there are and on nothing else |
| AuditChain.VerifyChainRows | apps/server/src/audit/emit.ts:74-120 | Valid exactly when every row hashes to its content and links to the row before it; otherwise the first row out of order is named; truncation and anchor are those of the oldest row |
| AuditChain.AuditLog.Emit | apps/server/src/audit/emit.ts:8-48 | Appends one row with the next number, the newest hash as its link and its own hash, and keeps the log in order |
| AuditChain.AuditLog.Purge | apps/server/src/services/system-jobs.ts:188-204 | Deletes exactly the rows created before the cutoff, a prefix, and keeps the rest in order |
| AuditChain.AuditLog.Verify | apps/server/src/audit/emit.ts:133-139 | Every log that appends and purges produce verifies, truncated exactly when its oldest row is not number 1 |
| AuditChain.AppendKeepsLog | apps/server/src/audit/emit.ts:8-48 | An append keeps a verifying, gapless log, although the stored metadata may have its keys reordered |
| AuditChain.AppendLinks | apps/server/src/audit/emit.ts:18-30 | The first row is number 1 and links to the hash of the empty text, every other to the row before it |
| AuditChain.SuffixKeepsLog | apps/server/src/audit/emit.ts:82-94 | Any suffix of a log in order is a log in order |
| AuditEvidence.EveryHistoryIsALog | apps/server/src/audit/emit.ts:8-48 | Every history of appends and purges leaves a log in order |
| AuditEvidence.NewestHashBindsHistory | apps/server/src/audit/emit.ts:111-116 | Two verifying lists with the same newest hash agree row by row backwards over the shorter one, in number, link, hash and content |
| AuditEvidence.VerifyingPartIsContiguous | apps/server/src/audit/emit.ts:96-98 | Rows taken from a log in order verify only if no row is missing between them |
| AuditEvidence.HashBindsContent | packages/shared/src/audit-events.ts:94-105 | Under an injective hash, rows that hash alike record the same event at the same place, whatever their links look like |
| JsonScan.SplitsOneWay | packages/shared/src/audit-events.ts:94-105 | A text followed by a written object can be read as such in one way only: no proper suffix of a written object is one |
| AuditEvidence.NumbersCountSinceEmpty | apps/server/src/audit/emit.ts:23 | The newest number counts the events since the log was last empty |
| AuditEvidence.CompletePurgeResets | apps/server/src/audit/emit.ts:125-127 | A purge that empties the log restarts the numbers at 1, contrary to the comment |
| Billing.EveryHistoryInOrder | apps/server/src/services/system-jobs.ts:119-171 | Over any history of ticks, metering calls and closes cut off anywhere: every closed period has one invoice, computed from exactly the units metered in it, and the open counter is the units of the open period |
| Billing.UnitsAreConserved | apps/server/src/services/billing.ts:39-67 | Every usage event is in the invoice of its closed period, in the open counter, or missed; missed exactly when written at or after the end of the period its subscription was still in |
| Billing.MeterKeeps | apps/server/src/services/billing.ts:61-66 | A unit is added only to a period without an invoice: the metering and closing guards exclude each other |
| Billing.RollKeeps | apps/server/src/services/system-jobs.ts:159-167 | The roll closes one period and opens the next at zero |
| Billing.UnitPrice | apps/server/src/services/system-jobs.ts:52-62 | One more unit costs the overage rate past the included runs of a soft plan, and nothing otherwise |
| Billing.InvoiceParts | apps/server/src/services/system-jobs.ts:52-62 | The base is the price of the plan, the overage runs are the units past the included ones of a soft plan and none otherwise, each at the overage rate, and the total is the sum |
| Billing.OncePerEvent | apps/server/src/services/billing.ts:40-46 | No history records one kind of terminal event of a run twice |
| Billing.BilledIffMetered | apps/server/src/services/billing.ts:39-67 | After any history a kind of event of a run has its usage row exactly when a metering call found the run started with that event |
| Billing.CountedOnceIffOneKind | apps/server/src/services/billing.ts:11-15 | A run has one usage row exactly when its started metering calls carry one kind of event, and at least two when they carry two kinds, contrary to the comment |
| BillingLedger.Ledger.RecordBillingForTerminalRun | apps/server/src/services/billing.ts:20-74 | The metering call on the rows is the metering step |
| BillingLedger.Ledger.RunBillingPeriodClose | apps/server/src/services/system-jobs.ts:119-171 | The close job on the rows is its steps up to where it is cut off; what it reports closed and rolled is what changed |
| BillingLedger.RedispatchFinishes | apps/server/src/services/system-jobs.ts:117-118 | A close job dispatched again after a cut leaves what one undisturbed job leaves; a repeated undisturbed job changes nothing exactly when no further period has ended |
| Admission.ConcurrencyIsKept | apps/server/src/routes/runs.ts:471-479 | In every reachable state the active unblocked runs, admitted, scheduled or promoted, are within the concurrency limit |
| Admission.CapIsKeptWithoutSchedules | apps/server/src/routes/runs.ts:487-500 | Without schedule triggers counted plus active runs stay within a hard cap in every reachable state |
| Admission.OnlyPromotionBreaksCap | apps/server/src/services/scheduler.ts:340-365 | A step leaves the cap kept exactly when it is not a promotion at the cap |
| Admission.PromotionExceedsCap | apps/server/src/services/scheduler.ts:340-365 | For every cap of at least two there is a history of admissions, one scheduled run and a promotion that exceeds it |
| LateMetering.OnlyEntryAtCapOverdraws | apps/server/src/services/run-executor.ts:301-332 | With the terminal status and the metering as two steps, counted plus active plus uncounted runs leave the cap exactly when a run is let in that meets it |
| LateMetering.CountingSettles | apps/server/src/services/run-executor.ts:301-332 | Once everything pending is counted, in any order, the cap holds exactly if it held for what was owed |
| LateMetering.AdmissionBetweenExceedsCap | apps/server/src/services/run-executor.ts:301-332 | An admission between the two steps exceeds the cap exactly when the cap was taken up before the run ended |
| Admission.StepCounts | apps/server/src/routes/runs.ts:463-500 | How every step moves the active count and the counter: a run stops being active when it is counted, and only three steps let one in |
| Admission.DecisionOf | apps/server/src/routes/runs.ts:463-500 | A run is turned away exactly when the runs that are neither ended nor blocked are at the concurrency limit, or else, with those counted, at the cap, or else its id is taken |
| Admission.EndsOfRuns | apps/server/src/services/scheduler.ts:280-340 | A cancelled run ends canceled, one that is given up or timed out in the queue failed, and a job of the executor leaves the status it came to |
| Admission.TerminalIsFinal | apps/server/src/routes/runs.ts:199-207 | With executor segments atomic, a terminal run never changes again |
| Admission.CountedAtTermination | apps/server/src/services/billing.ts:58-66 | The counter moves by one, at the transition of a started run into a terminal status |
| Admission.CountedIffNotQueueTimeout | apps/server/src/services/scheduler.ts:323-340 | While the period is open, a started run that becomes terminal is counted exactly when it was not timed out in the queue |
| Admission.StartedRunEndsUncounted | apps/server/src/services/scheduler.ts:323-340 | A history of an admitted run that waited, was put back into the queue and timed out there: failed, started and not counted |
| AdmissionDesk.Workspace.AdmitRun | apps/server/src/routes/runs.ts:463-537 | The admission transaction on the tables, and its answer |
| AdmissionDesk.Workspace.FireSchedule | apps/server/src/services/scheduler.ts:120-176 | Cap check, concurrency block and conflict-free insert of a scheduled run |
| AdmissionDesk.Workspace.RetryBlocked | apps/server/src/services/scheduler.ts:340-365 | The loop over the blocked runs is one promotion step each |
| AdmissionDesk.RetryUnblocksPrefix | apps/server/src/services/scheduler.ts:340-365 | The retry unblocks the oldest blocked runs, exactly as many as there is room for, and touches nothing else |
| Triggers.OneRunPerInstant | apps/server/src/services/scheduler.ts:73-191 | Over any history of ticks, overlapping tickers and crashes no fire instant has two runs, none is created early, and every one is an instant of the schedule |
| Triggers.InsertRecords | apps/server/src/services/scheduler.ts:94-189 | A ticker that has read a due instant gives it its run if admitted and notes the refusal if not |
| Triggers.AdvanceMovesForward | apps/server/src/services/scheduler.ts:193-196 | `next_fire_at` never goes back: an advance moves a due trigger past the present and leaves one that is not due where it is, overlapping tickers included |
| Triggers.HeldInstantsHandled | apps/server/src/services/scheduler.ts:94-189 | Without overlap every instant that `next_fire_at` held and was moved on from has a run or was declined, crashes between insert and advance included |
| Triggers.HeldOrSkipped | apps/server/src/services/scheduler.ts:193-196 | Over any history every instant of the schedule behind the trigger was either held by `next_fire_at`, or came after a held one and had passed when that was moved on from; the latter have no run and were not declined |
| Triggers.LateTickSkips | apps/server/src/services/scheduler.ts:193-196 | One late tick drops every instant after the due one up to its own time |
| Triggers.StaleAdvanceLosesInstant | apps/server/src/services/scheduler.ts:189-196 | A step moves on from an instant with neither run nor refusal exactly when a ticker that has handled another instant advances past a due one |
| Triggers.StalledTickerLosesInstant | apps/server/src/services/scheduler.ts:189-196 | With overlap one can be lost: a stalled ticker advances past an instant nobody has read |
| Triggers.ScheduleTrigger.Tick | apps/server/src/services/scheduler.ts:73-196 | One tick gives a due trigger the run of its instant and moves it to the schedule's first instant after now |
| Dispatcher.FailedMeansSixFailures | apps/server/src/services/notification-processor.ts:53-103 | For any number of dispatchers and crashes, if every send ends within the reclaim window: attempts count the failed sends, and `failed` holds exactly when six have failed |
| Dispatcher.GivingUpTakesLong | apps/server/src/services/notification-processor.ts:17-25 | Giving up takes at least 25,950 seconds from the first failure |
| Dispatcher.RetryWaits | apps/server/src/services/notification-processor.ts:17-25 | The k-th failure makes the row due again exactly 30 seconds, 2 minutes, 10 minutes, 1 hour and 6 hours later, and the sixth gives it up |
| Dispatcher.SettledStays | apps/server/src/services/notification-processor.ts:60-73 | A sent or failed row is never touched again |
| Dispatcher.SettledTouchedIff | apps/server/src/services/notification-processor.ts:93-98 | A settled row is touched exactly when a dispatcher that still holds a claim ends its send, which is then past the window |
| Dispatcher.LateFailureReopens | apps/server/src/services/notification-processor.ts:93-103 | A late failure makes a settled row pending again, or failed if its sender had counted five failures before |
| Dispatcher.LateFailureReopensSentRow | apps/server/src/services/notification-processor.ts:93-98 | A trace in which that happens: a late failure reopens a row already sent |
| Dispatcher.OutboxRow.Process | apps/server/src/services/notification-processor.ts:53-103 | One sweep by one dispatcher is reclaim, claim and settle |

## Left out

- Run timeout, heartbeats, attempt numbers, `run_events` rows and elapsed seconds: not part of the state that the theorems compare.
- Plan features, secrets, credentials, egress checks, HTTP retries and the contents of leaf steps: a leaf is a function of the
  outputs it reads, which may record an output also when it fails.
- The `approval_tasks` table and the approval email: the world gives the decision at a path; approval notifications share the
  outbox but not the paths of email steps.
- `with.steps` as another spelling of for_each children, which the validator's walkers do not visit either.
- Durability.ParkingIsInvisible: the outputs of loops that were entered again, after a park or a failure, and of steps that repeat them are excluded, since such a loop starts a new `results` list; `Resume.ResumedResults` and `Reentry.LoopForgets` say what it holds.
- Durability.RunEnds: a job without a crash is one whose crash point is not set. Where a job parks at an approval behind a refused one the run does not end on lists of delays and approvals (`PendingSlot.FinishesIffUnblocked`); nested steps with such a park are not decided either way.
- StepPaths.RenderInjective: for ids without dots; the schema of step ids ensures that outside conditions, and with dots it is false (`DottedIdsCollide`).
- The effect of two equal step paths: the executor model keys done marks, cursors and outbox rows by structured paths, so that a second step taken for done because its path is spelled like another's does not occur in it.
- Unicode surrogate escapes inside string literals: `Lexer` rejects them, the original keeps the lone code unit.
- Built-in functions other than `filter` and `map`, number parsing and rounded arithmetic: parameters of the evaluator; dates and
  `now()` are among them.
- Members that objects inherit from their prototype, when reached through a property path: `GetProperty` looks at own members.
- `resolvePureInterpolation` and `stringifyValue`: the second is a parameter of `Interpolation`.
- Calendar instants outside the range of JavaScript dates.
- Cron.ComputeNextFire: for instants from year 100 on, because `Date.UTC` moves the years 0 to 99 by 1900.
- Trigger time zones: the code computes in UTC and never reads the stored zone.
- Canonical JSON of numbers that are not safe integers, and sequence numbers past them.
- Billing.EveryHistoryInOrder: for one subscription and one close worker, with each transaction atomic and the clock monotone.
- `usage_daily`: the retention purge recomputes `total_steps` as a count of events, so the two writers of that column do not
  agree; no theorem is about it.
- Admission.ConcurrencyIsKept: with a fixed plan and atomic steps; the scheduled path counts and inserts in separate statements.
- Delay leases, approval timeouts, queue timeouts and the stale sweep as scheduler loops: only their transitions of a run appear, as steps of `Admission`.
- Webhook signatures, input mapping and the replay log.
- Edits of a trigger while it is due, and the plan check before a scheduled run other than admitted or declined.
- Dispatcher.FailedMeansSixFailures: if every send that ends does so within a minute of its claim; otherwise it is false (`Dispatcher.LateFailureReopensSentRow`).
- The choice of the five oldest due rows in a sweep: rows are independent, and the model follows one.
- Nesting depth, reply counting and the other checks of the manifest validator; user interface, command line, OpenAPI, migrations, sessions and roles.
- SQL, Redis and BullMQ themselves, and the workflow lock, which has no owner check.
