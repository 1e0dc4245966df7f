# A verified model of the skill engine, the shared chat state and the session runtime

This project models four parts of the host in Dafny and proves how they behave on every
input, every run and every interleaving.

1. **The skill engine.** A skill is a markdown document whose `nc:` code blocks are a small
   language. `SkillDirectives` parses it, `SkillLint` lints it, `SkillPolicy` computes the
   static barrier behind each operator block, and `SkillBarrier` says when the engine skips
   that barrier. `SkillApply` says what the interpreter and the removal compute, and
   `SkillEngine` is the engine itself: one object that changes files, variables, journal and
   verdicts in place. What these compute is then said without them: `SkillBodies` (fences,
   kinds and bodies in the characters of the document), `SkillRendering` (what a text with
   references says), `SkillLintRules` (the linter rule by rule) and `SkillEffects` (each
   directive's files, commands, journal and verdict).
   `SkillUndo` and `SkillUndoRuns` relate removal to application,
   `SkillReapply` a second run to the first, `SkillSecrets` the journal and the result to the
   answers, `SkillHealth` the event stream to failures, and `SkillLintExact` the linter to
   the run.
2. **The shared state store.** `StateTables` has the tables, the SQL statements as functions
   and the operations as the statements they issue; `StateSqlite` is the adapter class;
   `StateKv`, `StateQueue`, `StateLocks` and `StateIsolation` hold the claims over time and over interleavings.
3. **The session runtime.** `Delivery` and `DeliveryLoop` (outbound delivery under racing
   pollers), `ContainerRegistry`, `ContainerStops` and `ContainerRunner` (the runtime
   registry), `HostSweep` (stuck detection and bounded retry), `Router`, `RouterRows` and
   `RouterHistory` (fan-out, the rows it leaves, and sticky engagement).
4. **Two text transformers.** `SqlMask` and `SqlTokens` (blanking what is not SQL code) and `EnvUpsert`
   (writing keys into a `.env` file).

`Text`, `Json` and `Templates` hold what these share: string operations, JSON values and
`{{name}}` references.

## How it is modelled

Files are a map from path to text; an absent file reads as the empty text, as the engine's
own reader has it. Command execution, the streaming step runner, the resolvers, the prompt
handler and the event consumer are functions of the number of calls made so far and of the
request, each of which may throw, so a claim about a run holds for every such behaviour.
Regular expressions written in a document, JSON parsing and printing, and dotted paths into
JSON are functions of the configuration, with a round-trip law (`Json.Lawful`) where one is
needed. SQL statements, and the append transaction, are single atomic steps. In the
protocols a step is the code between two awaits; a run is any sequence of steps, and a step
that is not possible in a state changes nothing. Clocks, tokens and identifiers are
parameters. Code that changes objects is a class here; each method is proved equal to a
function on its state, and the claims are lemmas about that function.

## What turned out not to hold as promised

- A code fence without an info string does not open a block, so a directive written inside
  a bare fence is read; a line around it hides it exactly when it opens a block
  (`SkillDirectives.FenceHidesIffItOpens`).
- The linter reads references line by line and the engine reads them in the joined block, so
  a clean document can still fail; `SkillLintExact.LintIsExact` gives the exact condition.
- The barrier of an operator block may be a directive the engine skips, exactly when that
  directive has a guard on another variable (`SkillBarrier.BarrierMaySkipIff`, with a document
  in `SkillBarrier.SkippedBarrierExample`).
- A key set whose line has no `=` writes one key and is asked about by another, so it is not
  recognised as done (`SkillReapply.MutationSettles`, `SkillReapply.BareLineNeverSettles`);
  applying it again still changes nothing.
- An append is undone exactly when the file was empty or newline-terminated and had no line
  that trims to the appended one; a merged element is undone exactly when its key holds a
  primitive or nothing, because parsed objects are never `===` (`SkillUndo`).
- Two adapters can meet when one prefix begins the other, and always when one has none
  (`StateIsolation.KeysMeetIff`, `StateIsolation.MeetingNamespacesLeak`); the default adapter
  and a named one stay invisible to each other while the default one's keys do not start with
  the other's prefix (`StateIsolation.DefaultAsksElsewhere`). An expiry at time 0 is no expiry
  to the JavaScript conditions but is swept by the SQL, and only that can be seen
  (`StateIsolation.ExpiryZeroLeaks`).
- A row is sent beyond the limit when the mailbox is gone at the moment a delivery or a
  permanent failure is recorded, or recording the failure throws; without these three the
  limit holds (`Delivery.SendLimitIsExact`).
- The first heartbeat of a runtime that had none can get it killed
  (`HostSweep.ForeignHeartbeatKills`).
- With the accumulate policy a mention-sticky agent joins threads nobody called it to
  (`RouterHistory.AccumulateEngagesUncalled`); an empty thread id never becomes sticky.
- An exit callback left with a runtime whose start is still under way can be dropped, when the
  start then fails before any terminal event; left with any other runtime it cannot
  (`ContainerRegistry.CallbackCanBeDroppedIff`, with a run in
  `ContainerRegistry.DroppedCallbackExample`). In the same situation the stop, settling late,
  can finalise the session's next runtime (`ContainerStops.StopCanHitSuccessorIff`).

## Model

| member | source | states |
|---|---|---|
| SkillDirectives.ParseDirectives | scripts/skill-directives.ts:125-162 | The index-driven scan, with its two nested loops, ends on every input and returns what the recursive reading of the lines returns; what that is for a document, `SkillBodies.DocumentIsRead` says. |
| SkillDirectives.ReadBody | scripts/skill-directives.ts:136-141 | The inner loop stops at the first closing fence or the end, with exactly the lines in between. |
| SkillDirectives.ParseTokens | scripts/skill-directives.ts:146-153 | Header words split into arguments in order and `key:value` attributes, the last value of a key winning. |
| SkillDirectives.ParseIsWellFormed | scripts/skill-directives.ts:125-162 | For any document, the directives' lines strictly increase, each is an opening fence of a directive, and every body line is trimmed and non-empty. |
| SkillDirectives.HeaderIsRead | scripts/skill-directives.ts:10-14 | A header written in the grammar is read back token for token. |
| SkillDirectives.TwoReadersOneDocument | scripts/skill-directives.ts:10-14 | For any mix of fence-free prose, plain blocks with an info string and directives, the parser returns exactly the directives, in order, with their fence lines. |
| SkillBodies.DocumentIsRead | scripts/skill-directives.ts:125-162 | In a document of blocks, the directives are the command blocks in order: the kind of each by its tag, its arguments and attributes, and for its body the texts of its code lines, which is exactly the code where no line is blank or has blanks around it. |
| SkillBodies.BodyIsTheTexts | scripts/skill-directives.ts:155-155 | For any code the body is the lines without the blanks around them, in order, blank lines left out; every line is a text set in blanks or blank (`SkillBodies.EveryLineIsOne`). |
| SkillBodies.BodySplits | scripts/skill-directives.ts:155-155 | The body of two stretches of code is the two bodies one after the other. |
| SkillBodies.FenceIs | scripts/skill-directives.ts:113-113 | In characters: a block opens at three backticks with something other than a blank right behind them and no line end after it, and closes at those or at three backticks alone. |
| SkillBodies.KindByTag | scripts/skill-directives.ts:116-116 | The kind of each of the eight tags; any other tag is kept as an unknown kind. |
| SkillDirectives.FenceHidesIffItOpens | scripts/skill-directives.ts:113-160 | A line around a directive hides it if and only if the line opens a block, as a fence with an info string does and a bare fence does not; what follows is read alike either way. |
| SkillDirectives.BareFenceHidesNothing | scripts/skill-directives.ts:113-113 | In particular a directive inside a bare fence is parsed all the same. |
| SkillLintRules.Validate | scripts/skill-directives.ts:207-346 | The loop that grows `problems` and `defined` reports each directive's problems in order, and a problem is in the report if and only if a directive on that line breaks that rule, each rule being said of the directive alone. |
| SkillLintRules.ReportedIffBroken | scripts/skill-directives.ts:207-346 | The same for the function: versions, core match, required attributes and bodies, JSON, regular expressions, removed attributes, references, guards and kinds, each reported exactly where the rule is broken. |
| SkillLintRules.CleanIffUnbroken | scripts/skill-directives.ts:207-346 | A document reports nothing if and only if no directive breaks any rule. |
| SkillLintRules.InexactIffUnpinned | scripts/skill-directives.ts:216-220 | The version rule is reported for a line if and only if a dependency there is not a name and an exact version set off by the last `@`. |
| SkillLintRules.RefsAreMentioned | scripts/skill-directives.ts:183-187 | The references found in a text are exactly the names that stand in it in double braces, blanks inside or not, wherever they stand. |
| SkillLintRules.DefinesAreBound | scripts/skill-directives.ts:164-180 | The names a directive defines: the first argument of a prompt other than `secret`, and for a capture the name, or the trimmed name of every part. |
| SkillLintRules.ReportGoesDown | scripts/skill-directives.ts:207-346 | The report goes down the document line by line. |
| SkillLint.LintIsSound | scripts/skill-directives.ts:207-346 | A clean, unguarded document with nothing undefined in its joined bodies, run where nothing outside fails, defers nothing and bounces nothing; after every prefix of it, the names the linter counts as defined are bound. |
| SkillLint.MutationGoesThrough | scripts/skill-apply.ts:633-819 | A mutation the linter passes does not throw in such an environment, and afterwards all names it defines are bound. |
| SkillLint.StraddlingIsMissed | scripts/skill-directives.ts:183-187 | A two-line body whose reference only exists once joined has no problems for the linter. |
| SkillLintExact.LintIsExact | scripts/skill-apply.ts:860-1024 | For a clean document where nothing outside fails, the run applies completely if and only if the joined bodies of operator blocks and steps mention only names defined above. |
| SkillLintExact.BindsOnlyDefined | scripts/skill-apply.ts:608-629 | A directive binds no name beyond those the linter counts as defined by it. |
| SkillPolicy.FindBarrier | scripts/skill-policy.ts:76-96 | The inner loop finds the first later directive whose guard may hold together with the block's, or the end. |
| SkillPolicy.GatePolicy | scripts/skill-policy.ts:76-96 | The outer loop fills the map with the decision of every operator block. |
| SkillPolicy.PolicyIsPerBlock | scripts/skill-policy.ts:76-96 | Every operator block of a parsed document has its own decision under its own line; none overwrites another. |
| SkillPolicy.GuardsAgree | scripts/skill-policy.ts:42-47 | The guard as the static analysis reads it is unmet exactly when the interpreter skips on it. |
| SkillPolicy.GuardedIff | scripts/skill-apply.ts:578-582 | The interpreter skips on a guard if and only if it reads `v=x` at its first equals sign and `v` is not bound to `x`, blanks around both aside. |
| SkillPolicy.ConfirmsIff | scripts/skill-policy.ts:76-96 | A confirmation is asked for if and only if the first later directive whose guard is not opposed to the block's is there and is neither a prompt nor an operator block; it is about readiness if and only if that directive is a step. |
| SkillPolicy.BarrierIsSound | scripts/skill-policy.ts:76-96 | Once the engine has shown an operator block, everything before the barrier is skipped by its own unmet guard and nothing but skip notes changes; the barrier is skipped too exactly as its own guard says, and for an unguarded block it is the next directive; with no barrier nothing later runs at all. |
| SkillBarrier.BarrierMaySkipIff | scripts/skill-policy.ts:72-96 | With some shell, some document that ends with the two blocks, run from the beginning, shows the operator block and skips the next one as its barrier, if and only if that one has a guard on another variable than the block's own. |
| SkillBarrier.SkippedBarrierExample | scripts/skill-policy.ts:72-96 | A document for which, in any install configuration, the policy asks for a confirmation and the engine skips the command it is for. |
| SkillEngine.Engine.constructor | scripts/skill-apply.ts:833-853 | A run starts with no bindings, journal, verdicts or latch. |
| SkillEngine.Engine.CallExec | scripts/skill-apply.ts:827-831 | A command is run and recorded, or fails when no exec was given. |
| SkillEngine.Engine.BindCapture | scripts/skill-apply.ts:608-629 | Captures bind the output, or the fields of its JSON, in order, keeping earlier bindings when a later one fails. |
| SkillEngine.Engine.ForLines | scripts/skill-apply.ts:650-656 | A body's lines are worked on in order up to the first that throws, with the changes of the lines before it kept. |
| SkillEngine.Engine.ApplyOne | scripts/skill-apply.ts:633-819 | The mutation of each kind: its file changes, bindings, commands, journal entries and the error it throws, as the rows of `SkillEffects` say them. |
| SkillEngine.Engine.Catch | scripts/skill-apply.ts:998-1023 | A throw closes the open step and ends as deferred or as a bounce that latches `blocked`. |
| SkillEngine.Engine.DoPrompt | scripts/skill-apply.ts:887-923 | A prompt is bound, deferred for want of an answer, or deferred as invalid after normalising. |
| SkillEngine.Engine.DoOperator | scripts/skill-apply.ts:924-950 | An operator block is skipped when blocked, else rendered, collected and emitted (`SkillEffects.OperatorShows` says what text). |
| SkillEngine.Engine.DoStep | scripts/skill-apply.ts:974-997 | A mutation is bracketed by step events, its error handled by the catch. |
| SkillEngine.Engine.Process | scripts/skill-apply.ts:860-1024 | One turn of the loop, with all its branches in order. |
| SkillRendering.TextIsFilled | scripts/skill-apply.ts:565-571 | A text made of literal parts and of names in double braces, all bound, becomes the literal parts as they stand and the bound values, in order, and nothing else. |
| SkillRendering.RefIsHole | scripts/skill-directives.ts:115-115 | A reference begins a text if and only if the text begins with an identifier in double braces, blanks inside or not, and it is that one. |
| SkillRendering.FirstUnbound | scripts/skill-apply.ts:565-571 | A text with an unbound name throws, and names the first one. |
| SkillEffects.EnvSetWrites | scripts/skill-apply.ts:777-792 | A key set appends `key=` and the value filled in, on a line of its own, and journals the key, unless some line of the env file gives the key something. |
| SkillEffects.SetsKeyIs | scripts/skill-apply.ts:106-113 | What gives a key something: blanks, the key, blanks, `=`, and a value that is not blank. |
| SkillEffects.RunCalls | scripts/skill-apply.ts:759-774 | A command line calls exactly its text filled in and journals the line as it is written, with the undo it was given. |
| SkillEffects.RunCaptures | scripts/skill-apply.ts:608-629 | A capture binds the trimmed output if it has the shape asked for, and otherwise throws with nothing bound or journaled. |
| SkillEffects.JsonIsCaptured | scripts/skill-apply.ts:623-628 | A capture with parts binds from the parsed output; output that is no JSON throws. |
| SkillEffects.PathsOneByOne | scripts/skill-apply.ts:624-628 | The parts are bound in order up to the first that throws (`SkillEffects.OnePath` says what each binds). |
| SkillEffects.CheckCalls | scripts/skill-apply.ts:732-735 | A check calls its command and leaves no journal entry, binding or file change. |
| SkillEffects.UnboundStops | scripts/skill-apply.ts:565-571 | A command with an unbound name is not called at all. |
| SkillEffects.StepStreams | scripts/skill-apply.ts:741-758 | A step streams its whole body, filled in, as one command, and journals the body as it is written when it completes. |
| SkillEffects.FieldsOneByOne | scripts/skill-apply.ts:747-754 | The fields a step reports are bound part by part, in order (`SkillEffects.OneField` says what each binds). |
| SkillEffects.OperatorShows | scripts/skill-apply.ts:924-950 | An operator block's text, filled in, is what is collected and what the listener hears, once. |
| SkillEffects.AppendsLine | scripts/skill-apply.ts:689-692 | A line is appended on a line of its own and journaled. |
| SkillEffects.InsertsAtMarker | scripts/skill-apply.ts:679-687 | A line is inserted above the first line that holds the closing marker, indented like it. |
| SkillEffects.NothingToInsertAt | scripts/skill-apply.ts:681-682 | Without such a line the insert throws and changes nothing. |
| SkillEffects.CopyCopies | scripts/skill-apply.ts:662-668 | Every destination holds the content of its (last) source, no other file changes, and the destinations are journaled in order. |
| SkillEffects.CopyFetches | scripts/skill-apply.ts:650-668 | From a branch: the remote is resolved, the branch fetched, and every line shown into its destination, in order. |
| SkillEffects.PathsOfLine | scripts/skill-apply.ts:654-665 | A path alone is source and destination; with an arrow, the trimmed texts before and behind it. |
| SkillEffects.DepAdds | scripts/skill-apply.ts:696-714 | One command adds the specs, and is journaled with the command that removes their names: the caller's where it resolves them, otherwise the manager's in the directory asked for. |
| SkillEffects.MergeMerges | scripts/skill-apply.ts:793-815 | The object goes to the end of the array if no element has its value under the key, and on a refresh replaces the first that has where they differ; otherwise nothing changes. |
| SkillEffects.LinesByKind | scripts/skill-apply.ts:648-819 | Which of these a directive does with its lines, by kind, effect and attributes; undo commands only for external runs. |
| SkillEffects.BodyGoesDown | scripts/skill-apply.ts:650-791 | A body is worked on line by line, down to the first that throws. |
| SkillEffects.SkipsWhenDone | scripts/skill-apply.ts:129-201 | What counts as done for each kind, in the files. |
| SkillEffects.MergeSkipsIff | scripts/skill-apply.ts:172-190 | A merge is done, on an install, if and only if an element has the object's value under the key; a body that is no value goes to an agent. |
| SkillEffects.SkippedIff | scripts/skill-apply.ts:860-997 | A directive is skipped, with nothing else changed, if and only if a refresh or its guard passes it over, or it is a block after a bounce, or its effect is the caller's, or it has nothing left to do. |
| SkillEffects.GatedIff | scripts/skill-apply.ts:860-997 | Restarts, steps and wirings go to an agent untried if and only if something bounced before and nothing else keeps them from running. |
| SkillEffects.GoesByStatus | scripts/skill-apply.ts:957-997 | Every other directive works, is skipped or goes to an agent by its status. |
| SkillEffects.WorkIsHeardOf | scripts/skill-apply.ts:974-1023 | Work that goes through is heard of before and after and noted; work that throws is heard of as failed, and then waits for a name if the message is about one, or else goes to an agent and blocks. |
| SkillEffects.PromptBinds | scripts/skill-apply.ts:887-902 | A prompt takes the caller's input for its name, or else the one answer it asks for; without one it is deferred by name. |
| SkillEffects.AnswerBinds | scripts/skill-apply.ts:903-923 | An answer is made uniform and bound if it fits, secret if the prompt says so; otherwise nothing is bound and the prompt is deferred with its expression. |
| SkillEffects.AnswersAreNormal | scripts/skill-apply.ts:531-543 | Trimming, dropping the slashes at the end, lower case, and nothing for any other word. |
| SkillEngine.Engine.ApplySkill | scripts/skill-apply.ts:821-1028 | The whole loop, and the non-secret values it returns. On a new engine: every directive has its verdict or bound answer, nothing dangerous follows the first bounce, step events are bracketed at every moment, and no value only secret prompts bind is returned. |
| SkillEngine.Engine.UndoOne | scripts/skill-apply.ts:1036-1069 | One journal entry undone, or the error thrown with files untouched. |
| SkillEngine.Engine.RemoveSkill | scripts/skill-apply.ts:1031-1071 | The journal played backwards up to the first entry that throws, an undo command included; what a complete install of fresh changes left is taken back to the files before it. |
| SkillUndoRuns.RemovalUndoesASuffix | scripts/skill-apply.ts:1036-1070 | Whatever its undo commands do, a removal undoes exactly the entries after some point of the journal; unless that is its front it throws what the entry before it throws, a file that does not parse or an undo command. With an exec it calls the recorded undo commands of those entries, last first, and of the entry whose command throws; without one, none. |
| SkillUndoRuns.QuietRemovalUndoesAll | scripts/skill-apply.ts:1036-1070 | With no undo command throwing, a removal is the whole journal undone. |
| SkillUndo.UndoAppendExactly | scripts/skill-apply.ts:1038-1046 | Undoing an append restores the file if and only if it was empty or newline-terminated and held no line that trims to the appended one. |
| SkillUndo.UndoInsertExactly | scripts/skill-apply.ts:677-691 | Undoing a marker insert restores the file if and only if it held no such line. |
| SkillUndo.UndoSetKeyExactly | scripts/skill-apply.ts:1047-1055 | Undoing a key set restores the file if and only if it was empty or newline-terminated, had no `KEY=` line, and every line of the value begins with `KEY=`. |
| SkillUndo.UndoPushExactly | scripts/skill-apply.ts:1056-1066 | Undoing a pushed element restores the array if and only if its key holds a primitive or nothing. |
| SkillUndo.UndoReplace | scripts/skill-apply.ts:808-813 | Undoing a replaced element puts the recorded one back in its place. |
| SkillUndoRuns.UndoInvertsApply | scripts/skill-apply.ts:1031-1071 | After a fully applied install run whose changes were fresh, removal by the journal restores every text file line for line and every JSON array element for element. |
| SkillUndoRuns.StatusGuaranteesFreshness | scripts/skill-apply.ts:129-201 | A one-line append, one-path copy or merge that the idempotency check lets through is fresh if and only if its target has the right shape: no JSON file for a text change, newline-terminated for an append, an object with a comparable key for a merge. |
| SkillUndoRuns.UndoSplit | scripts/skill-apply.ts:1036-1037 | Undoing two stretches of journal is undoing the later, then the earlier. |
| SkillReapply.ReapplyIsANoOp | scripts/skill-apply.ts:93-201 | A second install run after a fully applied one changes no file, journals no copy, append, key set or merge, ends with the same bindings and applies completely. |
| SkillReapply.MutationSettles | scripts/skill-apply.ts:633-819 | A mutation that went through undoes no earlier one's recognition and leaves nothing to do; its directive is recognised as done, but for a key set with a line without `=`, which is recognised exactly when the whole line happens to be a key that is set. |
| SkillReapply.BareLineNeverSettles | scripts/skill-apply.ts:165-171 | Such a line: `ab` writes the key `a`, and the status goes on asking for `ab`. |
| SkillSecrets.JournalIgnoresAnswers | scripts/skill-apply.ts:633-819 | Two runs that take the same branches and see the same successes leave the same journal, whatever was answered or printed. |
| SkillSecrets.SecretsStayOut | scripts/skill-apply.ts:1025-1027 | A name only secret prompts bind is never among the returned values. |
| SkillHealth.OneVerdict | scripts/skill-apply.ts:860-1024 | Whatever throws, a directive ends in exactly one of applied, skipped, deferred, bounced or an answered prompt. |
| SkillHealth.EveryDirectiveIsAccountedFor | scripts/skill-apply.ts:860-1024 | The run never stops early: verdicts and answered prompts add up to the number of directives. |
| SkillHealth.NothingDangerousAfterABounce | scripts/skill-apply.ts:853-964 | After the first bounce no restart, step or wire command runs and no operator block is shown. |
| SkillHealth.StepsAreBracketed | scripts/skill-apply.ts:974-1019 | At every moment of a run, every step-start the consumer took is closed by exactly one matching step-end before anything else begins; none is open at the end. |
| SkillHealth.DirectiveWorks | scripts/skill-apply.ts:633-819 | A mutation only runs commands of its own directive and emits nothing. |
| StateSqlite.SqliteStateAdapter.Sweep | src/state-sqlite.ts:263-268 | The cleanup sweeps expired rows of all adapters from three tables. |
| StateSqlite.SqliteStateAdapter.Get | src/state-sqlite.ts:55-68 | Sweep, select, and the second expiry test, with its own clock reading. |
| StateSqlite.SqliteStateAdapter.SetIfNotExists | src/state-sqlite.ts:81-98 | An expired row gives way, any other one wins. |
| StateSqlite.SqliteStateAdapter.AcquireLock | src/state-sqlite.ts:126-143 | The expired row goes, the insert decides, and the caller's lock has the stored token and expiry. |
| StateSqlite.SqliteStateAdapter.ReleaseLock | src/state-sqlite.ts:145-151 | Only a row with the lock's token is deleted. |
| StateSqlite.SqliteStateAdapter.ExtendLock | src/state-sqlite.ts:153-166 | Only a row with the lock's token is extended, and then the lock object too. |
| StateSqlite.SqliteStateAdapter.AppendToList | src/state-sqlite.ts:174-207 | However many attempts collide, and whatever other callers commit in between, it is one append to the table as they left it. |
| StateSqlite.SqliteStateAdapter.GetList | src/state-sqlite.ts:209-217 | The values of the unexpired rows, permuted into ascending index order, however the rows lie in the table. |
| StateTables.SortsByIdx | src/state-sqlite.ts:209-217 | The rows read in index order are a permutation of the rows, in ascending order. |
| StateTables.UnexpiredMeans | src/state-sqlite.ts:209-217 | A read drops the rows that have expired, all copies of them, and no others. |
| StateTables.SweptMeans | src/state-sqlite.ts:263-268 | A sweep removes exactly the list rows that have expired. |
| StateTables.SweepRemovesTheExpired | src/state-sqlite.ts:263-268 | The sweep of all tables: a row goes if and only if its expiry has passed, and what stays is unchanged. |
| StateSqlite.SqliteStateAdapter.Enqueue | src/state-sqlite.ts:221-228 | An append under the singly prefixed queue key amid other callers' steps, and the depth when it is counted. |
| StateSqlite.SqliteStateAdapter.Dequeue | src/state-sqlite.ts:230-252 | The retry loop among other callers' steps: it gives up at the first look that finds the queue empty and deletes the oldest row otherwise. |
| StateKv.ValueUntilExpiry | src/state-sqlite.ts:55-79 | A value set is the value read until it expires and never after, whatever is done to other keys and whoever sweeps in between. |
| StateKv.OneWinner | src/state-sqlite.ts:81-98 | Of any number of `setIfNotExists` on a free key, among other calls and sweeps, exactly the first is told it stored its value. |
| StateQueue.AppendRefines | src/state-sqlite.ts:174-207 | On a queue, append is: add at the end, keep the last `maxLength`; indices stay contiguous. |
| StateQueue.DequeueRefines | src/state-sqlite.ts:230-252 | Dequeue returns the oldest entry and leaves exactly the others. |
| StateQueue.QueueConserves | src/state-sqlite.ts:174-259 | Over every interleaving, with sweeps and lost attempts: each entry ever enqueued is, in order, dequeued once, trimmed, or still stored, and the answers given are exactly the dequeued ones. |
| StateQueue.ListIsInOrder | src/state-sqlite.ts:209-217 | Reading a queue as a list gives its entries in order. |
| StateQueue.FreshQueueConserves | src/state-sqlite.ts:174-259 | The same from an empty queue. |
| StateQueue.TablesRunTheQueue | src/state-sqlite.ts:174-268 | Whatever callers do to the shared tables, the rows under one queue's key go through the steps of that queue. |
| StateQueue.DequeueConserves | src/state-sqlite.ts:230-252 | A dequeue racing any number of others serves exactly the oldest entry at the point it takes effect, or nothing if there is none then, and every entry stays accounted for. |
| StateQueue.AppendHappensOnce | src/state-sqlite.ts:174-207 | An append that lost any number of races is one append transaction after the steps that won them. |
| StateLocks.StepKeepsInv | src/state-sqlite.ts:126-166 | Every statement, issued with a clock reading of any age, keeps each live lock's row in the table. |
| StateLocks.LiveLockKeepsOthersOut | src/state-sqlite.ts:126-166 | From any table an earlier process left, in every interleaving of acquires, releases, extends and sweeps, a live lock's row is in the table, every other insert on its thread changes nothing and grants nothing, and no other lock on it is live. |
| StateLocks.FormerHolderIsHarmless | src/state-sqlite.ts:145-166 | A former holder's release or extend changes no successor's row. |
| StateLocks.FreeThreadIsGranted | src/state-sqlite.ts:132-142 | With no row on the thread the insert hands out a lock that is live until its expiry. |
| StateLocks.ExpiredRowGivesWay | src/state-sqlite.ts:126-143 | A row left behind blocks no longer than its expiry: an acquire then takes its place. |
| StateLocks.WholeAcquire | src/state-sqlite.ts:126-143 | An acquire whose statements nobody interrupts is the adapter's operation: same row, same grant. |
| StateLocks.WholeExtend | src/state-sqlite.ts:153-166 | So is an extension by who holds the lock. |
| StateIsolation.KeysMeetIff | src/state-sqlite.ts:42-44 | Keys of two adapters, named or default, can coincide if and only if one prefix begins the other; the default adapter's empty prefix begins every one. |
| StateIsolation.PlainNamesAreApart | src/state-sqlite.ts:42-44 | Distinct names without a colon never coincide. |
| StateIsolation.SweepIsInvisible | src/state-sqlite.ts:55-98 | Sweeping expired key-value rows, at any moment up to now, changes no later `get` or `setIfNotExists`. |
| StateIsolation.OthersAreInvisible | src/state-sqlite.ts:42-268 | As long as two adapters, named or default, ask about different stored keys, dropping every operation and sweep of the other from an interleaving changes none of this one's answers. |
| StateIsolation.ApartAsksElsewhere | src/state-sqlite.ts:42-44 | Adapters whose prefixes do not begin one another ask about different stored keys, whatever they do. |
| StateIsolation.DefaultAsksElsewhere | src/state-sqlite.ts:34-44 | So do the default adapter and a named one, in either role, while the default one uses no key that starts with the other's prefix. |
| StateIsolation.MeetingNamespacesLeak | src/state-sqlite.ts:42-44 | If the prefixes are not apart, one adapter reads what the other wrote, in some interleaving. |
| StateIsolation.ExpiryZeroLeaks | src/state-sqlite.ts:62-98 | A foreign sweep shows in some later `get` or `setIfNotExists` of a key if and only if the key's row expires at time 0. |
| StateIsolation.SweepBetweenShowsIff | src/state-sqlite.ts:81-98 | A foreign sweep between the two statements of one `setIfNotExists` changes its answer if and only if the row had not expired at the first and has by the sweep. |
| Delivery.AtMostOneDrain | src/delivery.ts:163-174 | In every interleaving, whatever fails, at most one drain per session is active and the in-flight set is exactly the sessions being drained. |
| Delivery.AtMostThreeSends | src/delivery.ts:218-280 | When no record is lost to a missing mailbox and none of a permanent failure throws, no row reaches the adapter more than three times in a process, whatever throws. |
| Delivery.ExactlyOnce | src/delivery.ts:218-249 | A row whose first send and record succeed is sent exactly once, whatever others do in between and for the rest of the run. |
| Delivery.RecordedIsFinal | src/delivery.ts:189-194 | A recorded row is never sent again. |
| Delivery.AtMostOneFirst | src/delivery.ts:224-225 | At most one row of a session is ever its first delivery. |
| Delivery.StepKeepsInv | src/delivery.ts:163-281 | Each section between awaits keeps the counts: an unrecorded row's sends never exceed its counted attempts, but for one under way. |
| Delivery.UndeliveredIsTheRest | src/delivery.ts:189-194 | What is left of the due rows: each that is not delivered and no other, in the order in which they are due. |
| Delivery.ReadTakesTheRest | src/delivery.ts:187-198 | A drain that has read the queue is about to send exactly the due rows that are not recorded, in order. |
| Delivery.UnrecordedFailureIsSentAgain | src/delivery.ts:218-280 | With any one of three faults (the mailbox gone when a delivery is recorded, or the mailbox gone or an error when the permanent failure is), a row polled k times is sent k times, for every k. |
| Delivery.SendLimitIsExact | src/delivery.ts:218-280 | The limit of three sends holds over all runs if and only if none of those three faults can occur. |
| DeliveryLoop.DeliveryLoop.DeliverSessionMessages | src/delivery.ts:163-174 | A whole call is a run of the protocol's steps, and nothing when the session is in flight. |
| DeliveryLoop.DeliveryLoop.DrainSession | src/delivery.ts:176-281 | The loop takes the undelivered rows in order and ends with none pending. |
| DeliveryLoop.DeliveryLoop.DeliverRow | src/delivery.ts:218-280 | One row's try and catch come to the four steps of the protocol. |
| ContainerRegistry.OneSpawnPerSession | src/container-runner.ts:102-155 | In every interleaving of adoption, wakes, failures, terminals and kills, a session has at most one spawn in flight, its promise is the one on record, and no registration replaces an entry. |
| ContainerRegistry.FinalisedOnce | src/container-runner.ts:301-346 | Each runtime is finalised at most once; each callback runs at most once and only after its runtime's entry is gone. |
| ContainerRegistry.CallbackRunsIffOver | src/container-runner.ts:339-371 | A callback has run if and only if the runtime it was left with was finalised to its end. |
| ContainerRegistry.NobodyWaitsForever | src/container-runner.ts:247-255 | A spawn waiting in the catch waits for a promise that is resolved or about to be, and then ends. |
| ContainerRegistry.CallbackCanBeDroppedIff | src/container-runner.ts:247-255 | A callback left with a runtime can be dropped in some continuation if and only if, at the kill, the runtime's start is still under way and no terminal event has reached it. |
| ContainerRegistry.LostForGood | src/container-runner.ts:339-371 | A dropped callback is never run later. |
| ContainerRegistry.DroppedCallbackExample | src/container-runner.ts:247-371 | A run from a fresh host that drops one: woken, registered, killed with a callback, and the start fails. |
| ContainerStops.StopCanHitSuccessorIff | src/container-runner.ts:359-370 | The stop a kill asks for can, settling late, finalise a later runtime of the session if and only if, at the kill, the start is still under way and no terminal event has arrived. |
| ContainerStops.SuccessorIsHitExample | src/container-runner.ts:247-370 | A run from a fresh host in which a stop asked for the first runtime finalises the second. |
| ContainerRegistry.NeverOverwrittenIff | src/container-runner.ts:394-412 | No registration ever replaces an entry, over all runs, if and only if the snapshots list no session twice. |
| ContainerRegistry.StepKeepsInv | src/container-runner.ts:134-412 | Every synchronous section keeps the registry's invariant. |
| ContainerRunner.ContainerRunner.WakeContainer | src/container-runner.ts:134-155 | The synchronous part of a wake: nothing when running or already being woken. |
| ContainerRunner.ContainerRunner.RegisterRuntime | src/container-runner.ts:277-299 | A fresh runtime object becomes the session's entry. |
| ContainerRunner.ContainerRunner.StartFailed | src/container-runner.ts:247-255 | The catch drops and resolves its own unfinished runtime, and otherwise goes on to wait. |
| ContainerRunner.ContainerRunner.FinishAndResolve | src/container-runner.ts:301-311 | Only the first terminal event goes on. |
| ContainerRunner.ContainerRunner.Finish | src/container-runner.ts:313-346 | The entry goes if it is still this runtime's, then all callbacks run in order, then the promise resolves. |
| ContainerRunner.ContainerRunner.KillContainer | src/container-runner.ts:349-371 | The callback is left with the runtime found, which gets a pending stop. |
| ContainerRunner.ContainerRunner.StopSettled | src/container-runner.ts:359-370 | A settled stop finalises by session, unless its own runtime is finished. |
| HostSweep.DecideStuckAction | src/host-sweep.ts:63-109 | Spared if and only if the ceiling has not passed and no claim is stuck; the ceiling comes first, and a claim kill names the first stuck claim. |
| HostSweep.SparedInFields | src/host-sweep.ts:63-109 | In the fields of the signs: spared if and only if it lived in the last half hour and no claim of more than a minute is without a later heartbeat; a Bash that runs with a declared timeout has that long instead, if it is longer. |
| HostSweep.MilderIsSpared | src/host-sweep.ts:63-109 | A later heartbeat, a longer declared Bash timeout or fewer claims never turn a spared runtime into a killed one, except a first heartbeat that is older than the runtime. |
| HostSweep.ForeignHeartbeatKills | src/host-sweep.ts:89-96 | For the heartbeat this holds if and only if it is not the first one and older than the runtime. |
| HostSweep.FreshRuntimeHasFullCeiling | src/host-sweep.ts:89-96 | A fresh runtime without claims is spared for exactly the ceiling. |
| HostSweep.SessionMailbox.ResetStuckProcessingRows | src/host-sweep.ts:305-354 | The loop over the claims, in order, and the deletion of the claims. |
| HostSweep.SessionMailbox.MaintainSession | src/host-sweep.ts:207-233 | Rows are reset exactly when no runtime is alive or a swept one is killed; a just-woken one is never judged. |
| HostSweep.RetriesAreBounded | src/host-sweep.ts:305-339 | Over any history of claims, answers and sweeps, each leaving the rows the method leaves, a row is rescheduled at most five times, after 5, 10, 20, 40 and 80 seconds, and given up on only after all five. |
| HostSweep.ResetInFields | src/host-sweep.ts:313-339 | One claimed row: left alone unless pending and due, failed after five tries, and otherwise tried again after the wait of its try. |
| HostSweep.SixthCrashGivesUp | src/host-sweep.ts:305-339 | A row every runner dies of is tried again after each of the five waits and given up on at the sixth crash, not before. |
| HostSweep.AnsweredIsDone | src/host-sweep.ts:305-339 | An answered row stays as it was answered over any later history, is not tried again and not given up on. |
| HostSweep.BothAreReset | src/host-sweep.ts:313-339 | Of two due rows claimed by a runner that dies, each is tried again after its own wait. |
| HostSweep.ClaimedRowMovesOnce | src/host-sweep.ts:312-338 | A sweep moves every claimed row that is pending and due exactly one try on, even if claimed twice, and that is always progress. |
| HostSweep.UnclaimedRowsStay | src/host-sweep.ts:312-338 | Rows without a claim are left alone. |
| HostSweep.ClearedClaimsSpare | src/host-sweep.ts:341-353 | Clearing the claims is what lets the next runtime live: it is spared if and only if they were cleared or none is too old. |
| Router.InboundRouter.FanOutMessage | src/router.ts:370-454 | The loop delivers, accumulates, subscribes once and records a message nobody took; what rows that leaves, `RouterRows.EachAgentGetsItsRow` says. |
| Router.InboundRouter.HandleWiring | src/router.ts:374-442 | One turn of the loop with its gates; what it leaves, `RouterRows.TurnLeaves` says. |
| Router.InboundRouter.DeliverToAgent | src/router.ts:517-597 | The session is found or created first, then the command gate, then the row. |
| RouterRows.EachAgentGetsItsRow | src/router.ts:374-442 | With one wiring per agent, a fan-out only adds, and for an agent at most one row: exactly one if its wiring is woken by the message or keeps it as context and the command gate passes; it carries the message, wakes if and only if the wiring is woken, and lies in a session of the agent that is right for chat and thread. A denied command leaves one denial instead. |
| RouterRows.TurnLeaves | src/router.ts:374-442 | The same for one wiring, whatever the state. |
| RouterRows.EngageIs | src/router.ts:477-515 | When a message is for an agent, in the fields of wiring, chat and message: by pattern, by mention, or by a session in the thread. |
| RouterRows.ResolvedIsRight | src/router.ts:517-543 | The session a delivery resolves is the latest that fits: the agent's, and unless it shares one over all chats this chat's, and the thread's or none; only if none fits it is a new one of that kind. |
| RouterRows.OpensIffNoneFits | src/router.ts:374-442 | A fan-out opens one session for an agent if and only if it takes the message for it and none of its sessions fits. |
| RouterRows.SubscribesIffWanted | src/router.ts:402-454 | One subscription to the message's thread if and only if it wakes some mention-sticky wiring in a group thread it sees; and a record of a dropped message if and only if no wiring took it. |
| RouterHistory.StickyEngagement | src/router.ts:477-515 | In a conversation a mention-sticky wiring engages if and only if the gates agree and the message is a mention or an earlier message opened the thread; under `drop` that is an earlier gated mention. |
| RouterHistory.SessionIffOpened | src/router.ts:517-543 | A thread has a session if and only if some message opened it. |
| RouterHistory.AccumulateEngagesUncalled | src/router.ts:423-432 | The second of two plain messages engages if and only if the policy is `accumulate`. |
| RouterHistory.EmptyThreadDoesNotStick | src/db/sessions.ts:42-60 | An empty thread id is stored but never found. |
| RouterHistory.HandledAtMostOnce | src/router.ts:374-442 | Each wiring adds one row to its agent if it took the message and the command gate passed, and none otherwise. |
| RouterHistory.RefusedIsStoredNowhere | src/router.ts:395-432 | A message the gates refuse leaves no row and no session of that agent. |
| RouterHistory.OneSubscribePerMessage | src/router.ts:402-422 | At most one subscribe per message, of its thread, exactly when a mention-sticky wiring engaged in it. |
| SqlMask.MaskSqlNonCode | scripts/q.ts:44-110 | The index-driven scan computes the token-wise mask, on every input. |
| SqlMask.MaskKeepsShape | scripts/q.ts:47-47 | Every output character is the input's or a blank, and newlines are exactly where they were. |
| SqlMask.MaskIsAllCode | scripts/q.ts:44-110 | No position of the mask begins a token (`SqlTokens.NothingIsLeft` says it in characters). |
| SqlTokens.NothingIsLeft | scripts/q.ts:44-110 | The mask has no quote character, no bracket, and no `--`, `/*` or dollar tag anywhere. |
| SqlTokens.QuotedIsBlanked | scripts/q.ts:77-95 | A text between any of the three quotes, its own quotes doubled, is blanked with the quotes, and the rest is masked by itself; unclosed, it is blanked to the end. |
| SqlTokens.LineCommentIsBlanked | scripts/q.ts:52-58 | A line comment is blanked with its newline kept. |
| SqlTokens.BlockCommentIsBlanked | scripts/q.ts:60-66 | A block comment is blanked up to the first `*/`, or to the end. |
| SqlTokens.DollarIsBlanked | scripts/q.ts:68-75 | A dollar-quoted text is blanked up to the same tag, or to the end. |
| SqlTokens.BracketIsBlanked | scripts/q.ts:97-103 | A bracketed name is blanked up to the first closing bracket, or to the end. |
| SqlTokens.CodeStays | scripts/q.ts:105-106 | A character at which none of these begins stays. |
| SqlTokens.FirstWordDecides | scripts/q.ts:112-117 | A statement is a query by the first word of what is left: one of four words, or `WITH` with no writing word in the rest. |
| SqlMask.MaskTwice | scripts/q.ts:44-110 | Masking twice is masking once. |
| SqlMask.MaskSplits | scripts/q.ts:44-110 | Masking splits over concatenation at every token boundary. |
| SqlMask.InsideDoesNotMatter | scripts/q.ts:38-43 | Rewriting the inside of a literal, quoted name or comment, length and newlines kept, leaves the mask as it was. |
| SqlMask.QueryIgnoresLiterals | scripts/q.ts:112-117 | So it never changes whether a statement is a query. |
| EnvUpsert.UpsertEnv | scripts/photon-setup.ts:583-608 | The replace, pop and push loops compute the specified lines. |
| EnvUpsert.ScanEnv | scripts/photon-setup.ts:647-662 | The scan returns the value of the first line that sets the key. |
| EnvUpsert.LineByLine | scripts/photon-setup.ts:586-598 | Only the first line of a written key is replaced; every other line, later duplicates included, stays where and what it was. |
| EnvUpsert.LineSets | scripts/photon-setup.ts:586-592 | A line sets the key before its first equals sign to the value behind it, blanks around both aside. |
| EnvUpsert.LineSetsNothing | scripts/photon-setup.ts:586-592 | A comment and a line without an equals sign set nothing. |
| EnvUpsert.UpsertRoundTrip | scripts/photon-setup.ts:583-662 | The scan finds every new value, and for every other key what it found before. |
| EnvUpsert.UnrelatedLinesSurvive | scripts/photon-setup.ts:583-608 | All non-blank lines that set none of the written keys survive, in order. |
| EnvUpsert.UpsertTwice | scripts/photon-setup.ts:583-608 | Writing the same keys again changes nothing. |

## Left out

- SkillEngine.Engine.RemoveSkill: undo commands go to a shell and change no modelled file, though they may throw.
- SkillUndoRuns.UndoInvertsApply: a text file left empty counts as absent, and effects of commands outside the files are not undone; runs that deferred or bounced are not covered, because a throw inside a mutation can leave work the journal does not name.
- SkillLintRules.Validate: reports line and rule; the wording of the messages is not modelled.
- SkillEffects.CopyFetches: said for commands that go through; where one throws, `SkillEffects.BodyGoesDown` says how far the copy came.
- SkillEffects.DepAdds: said for commands that go through and specs with a version; a spec without one loses its last character in the remove command, as in the engine.
- SkillReapply.ReapplyIsANoOp: commands may run and be journaled again; only file-changing kinds are quiet.
- StateIsolation.OthersAreInvisible: each of the observed adapter's operations is atomic, which is needed (`StateIsolation.SweepBetweenShowsIff`); its lists have no time to live and it extends no expired lock.
- StateQueue.QueueConserves: lists whose rows mix times to live are not queues and are not covered.
- ContainerRegistry.FinalisedOnce: does not say which handle's terminal event finalises a runtime, because lookup is by session and late events depend on the driver.
- Delivery.AtMostThreeSends: counts per process, as the attempt map does; a restart gives a failed row a fresh chance.
- RouterHistory.StickyEngagement: messages are routed one at a time, though src/index.ts:92 starts each without awaiting the one before; sessions are only created by routing and never closed, one wiring per agent and chat, and gates answer rather than throw.
- Effects of commands on files, other than `git show` writing the named path, and of dependency installs on `package.json`.
- File system faults, directories, path normalisation and links; strings are sequences of characters, not UTF-16 code units.
- JavaScript's built-in property names, array indices as object keys, and the order of JSON object keys.
- A prompt with no variable is taken to bind the name `undefined`, as the engine's map does.
- Step labels, durations, detail texts, failure hints, reference prose, offer URLs and the dry-run plan.
- The linter's separate passes for the reference floor and for gate ambiguity.
- Regular expression engines, JSON grammar, upper-casing and shell commands: parameters, with only the laws named above.
- The SQL driver, migrations and transaction isolation: a lost attempt is rolled back whole, and other callers' steps commit before the next one.
- Mailbox, session manager, guards, drivers and adapters: only their answers appear.
- Message routing before the fan-out (lookup, auto-creation, sender resolution), attachments, backfill and cross-session echoes.
- Recurrence, task-session closing and echo pruning in the sweep; the setup wizard, services, containers and sign-in flows.
- Moderation and provider selection of the group guard.
