# Bickr: verified models of its protocols and of its template compiler

This project models the parts of Bickr whose correctness is not visible in any one function,
and proves it over all inputs, all runs and all interleavings. It is checked with Dafny 4.11:
`dafny verify dfyconfig.toml`.

| component | files |
|---|---|
| result-template compiler | `TemplateLanguage`, `TemplateMeaning`, `TemplateParser`, `TemplateSyntax`, `TemplateReader`, `TargetProgram`, `TemplateEmission`, `TemplateAcceptance`, `TemplateCorrectness`, `TemplateCompiler`, `TemplateImports` |
| entity lifecycle (accounts, worlds, bots) | `Lifecycle`, `LifecycleSafety`, `LifecycleHistory`, `LifecycleRetries`, `LifecycleEffects`, `LifecycleDatabase` |
| credentials and admission | `Credentials`, `CredentialSafety`, `CredentialAccess`, `CredentialDatabase`, `RateLimit` |
| follower activity | `FollowerActivity`, `FollowerDelivery`, `FollowerDigest`, `FollowerStore` |
| notification fanout | `Fanout`, `FanoutSafety`, `FanoutReach`, `FanoutWorker` |
| account export, event stream, substring search, cascade deletion | `AccountExport`, `EventStream`, `SubstringSearch`, `CascadeDelete` |
| shared | `Outcomes`, `Ordering`, `Retention` |

How the models are built:

- A protocol is a state of tables, a function for the effect of each database batch, and a
  step relation over them. Everything a batch does is one step. Reads, and work on other
  stores, happen in earlier or later states than the batch they lead to, and anybody else may
  step in between. Some fields of a state are history: they only record what happened, and no
  effect depends on them.
- Beside each protocol stands a class whose fields are the tables. Its methods do what the
  program does, statement by statement and loop by loop, and are proved to have exactly the
  specified effect.
- What an operation is for is stated apart from the function that computes it, in the words
  of its tables and with the numbers written out: what readers then see, who is told, what
  is accepted and for how long, which templates compile.
- The compiler has an abstract syntax, a direct interpreter that knows nothing of variables,
  aliases or flags, a target language of flat lines with its own semantics, and the emitter
  between them, both as a function and as the class that appends lines.
- Identifiers are naturals where only their order matters, strings elsewhere. Timestamps are
  integers in milliseconds. Hashes and random tokens are distinct or fresh values.

What the protocols assume of their callers is written in each `Enabled` predicate: fresh ids
and tokens, a clock that does not go back, one owner's lifecycle work serialized by the owner
queue, logout only with a credential that was read, receipts only from a selection. Unique
keys, the cascades and the follow trigger are those of the migrations.

Where the code falls short of what one would expect, the model keeps the code and says when:

- A revoked credential from the old store can still be accepted by a reader that began before
  it expired and holds that time, once cleanup has removed what revoked it. This is possible
  if and only if the credential is from the old store, was not cut off with its account, and
  is unexpired at the reader's time (`CredentialSafety.AcceptanceAfterRevocation`;
  `CredentialSafety.SlowReadOutlivesTheMarker` is one such run). In every other case it is
  refused for ever.
- Migration takes access away from documents that a reader accepts and the importer refuses,
  and from no others (`CredentialDatabase.PageKeepsAccess`).
- A repeated reservation that overtakes the first one past the lookup is told that its owner
  or world is not found if and only if the guard has closed meanwhile
  (`LifecycleHistory.RepeatedReservationIsIdempotent`, with a run in
  `LifecycleHistory.ReservationRaceIsRefused`).
- Deletion is not idempotent under that race: while the first deletion is under way, the same
  request past its lookup is always refused, as not found for a bot and as a conflict for a
  world or account (`LifecycleHistory.RacingDeletionIsRefused`, with a run in
  `LifecycleHistory.DeletionRaceIsRefused`; the exact condition is
  `LifecycleHistory.RepeatedDeletionIsAnswered`).
- A stale revision fence keeps the operation row, but not the revision of the entity row, which
  moves if and only if the operation is exactly one revision ahead, in the phase aimed at, and
  holds the entity (`LifecycleHistory.StaleKvFailureTouchesEntity` and
  `LifecycleHistory.StaleResolutionTouchesEntity`, with a run in
  `LifecycleHistory.SecondKvFailureBumpsEntity`). Other retries have no revision fence at all.
- A fanout page is exact if and only if no direct recipient but the largest is listed twice
  (`FanoutSafety.ExactPagesNeedDistinctRecipients`).
- The chunks of an event stream matter if and only if a finished block is malformed and an
  event comes before the first such block (`EventStream.ChunkingMatters`): a malformed block
  also hides the events before it in its chunk (`EventStream.MalformedHidesItsChunk`).

## Model

| member | source | states |
|---|---|---|
| `TemplateParser.ParseInvertsPrint` | scripts/localization/result-template-compiler.ts:45-94 | the parser accepts exactly the printed forms of valid trees and returns the tree: no two trees print alike, and no other token sequence is a template |
| `TemplateParser.SequenceReadsPrint` | scripts/localization/result-template-compiler.ts:47-93 | what a run of nodes reads is a valid tree followed by the stop that ended it; nothing is skipped or read twice |
| `TemplateParser.PrintIsParsed` | scripts/localization/result-template-compiler.ts:47-93 | a printed valid tree, followed by a stop of its block or the end, is read back whole |
| `TemplateParser.ChainIsParsed` | scripts/localization/result-template-compiler.ts:63-70 | else-if and else branches up to the closing tag are read back in order; an else branch is last |
| `TemplateParser.CasesAreParsed` | scripts/localization/result-template-compiler.ts:79-87 | cases are read back in order, each with at least one valid name that no earlier case has |
| `TemplateSyntax.AcceptedTokensAreFine` | scripts/localization/result-template-compiler.ts:45-94 | an accepted template has no words and no stray delimiter in its text, only valid, distinct names in each case tag, and no tag out of place |
| `TemplateSyntax.CasesAreDistinct` | scripts/localization/result-template-compiler.ts:79-88 | the cases of a switch are valid if and only if each has a name, all names are valid and none comes twice in the whole switch |
| `TemplateSyntax.BlankMeansSpaces` | scripts/localization/result-template-compiler.ts:76-78 | before the first case there is only white space |
| `TemplateReader.Parser.Parse` | scripts/localization/result-template-compiler.ts:45-94 | the position-driven parser gives the same answer as the recursive one; an accepted template is the printed form of the returned valid tree |
| `TemplateReader.Parser.Sequence` | scripts/localization/result-template-compiler.ts:47-93 | the node loop stops at the end or at the first tag of its enclosing block, with everything before it read |
| `TemplateReader.Parser.Node` | scripts/localization/result-template-compiler.ts:50-92 | one literal, tag or block is read, and the position always moves on |
| `TemplateReader.Parser.IfBlock` | scripts/localization/result-template-compiler.ts:57-71 | a condition block is read with all its branches, up to exactly its own closing tag |
| `TemplateReader.Parser.Branches` | scripts/localization/result-template-compiler.ts:63-70 | the branch loop reads the else-if chain and refuses anything after an else branch |
| `TemplateReader.Parser.EachBlock` | scripts/localization/result-template-compiler.ts:72-75 | an each block is read up to exactly its own closing tag |
| `TemplateReader.Parser.KindBlock` | scripts/localization/result-template-compiler.ts:76-89 | a switch has only blank text before its first case, at least one case, and its closing tag |
| `TemplateReader.Parser.Cases` | scripts/localization/result-template-compiler.ts:79-87 | the case loop reads all cases and refuses a repeated or malformed name |
| `TargetProgram.ReadFlattenFunctions` | scripts/localization/result-template-compiler.ts:241-245 | the emitted flat lines have exactly one block structure, that of the functions they were written from |
| `TargetProgram.ReadFlatten` | scripts/localization/result-template-compiler.ts:139-240 | every opened block of emitted statements is closed where it must be: reading the lines back gives the statements |
| `TemplateEmission.RoomShrinks` | scripts/localization/result-template-compiler.ts:188-194 | inlining a partial leaves strictly fewer partials that may still be inlined, which is why emission ends |
| `TemplateAcceptance.ModuleAccepted` | scripts/localization/result-template-compiler.ts:139-245 | which modules compile, exactly: paths and @first where they may stand, known single filters, messages with every declared parameter once and nothing else, partials that exist and do not recur, no raw output in loops and nothing written after raw output; the conditions look at the trees alone |
| `TemplateAcceptance.NodesAccepted` | scripts/localization/result-template-compiler.ts:139-240 | the same for a list of nodes in any frame, with the raw and output flags it returns |
| `TemplateAcceptance.ParametersAccepted` | scripts/localization/result-template-compiler.ts:161 | the three checks on the argument names together mean that every declared parameter is supplied once and nothing else |
| `TemplateAcceptance.MessageAccepted` | scripts/localization/result-template-compiler.ts:154-168 | a message call is emitted if and only if the message exists, its parameters are supplied exactly, and all argument paths may stand there |
| `TemplateMeaning.ConditionsFailFor` | workers/agent-runtime/src/localization/result-template.ts:78-85 | a condition fails exactly for nothing, false, zero, empty text, an empty list, and a count or score of zero |
| `TemplateMeaning.FiltersAre` | scripts/localization/result-template-compiler.ts:173-179 | the seven filters and their helpers |
| `TemplateMeaning.ListsAreJoined` | scripts/localization/result-template-compiler.ts:209-216 | a loop runs over all items in order and @first holds for the first only: the usual separated list comes out joined |
| `TemplateMeaning.SwitchTakesItsCase` | scripts/localization/result-template-compiler.ts:217-233 | a switch renders the first case with the label of its subject, and throws without one |
| `TemplateMeaning.ArgumentsAre` | scripts/localization/result-template-compiler.ts:162-168 | a message gets its arguments in the order written, and only the selecting parameter is marked as such |
| `TemplateMeaning.InsertWrites` | scripts/localization/result-template-compiler.ts:170-181 | a value goes through the helper of its filter, or through inline, and is raw for raw_last only |
| `TemplateMeaning.PartialMeansItsTree` | scripts/localization/result-template-compiler.ts:184-197 | a partial is its own tree on the value passed, outside any loop |
| `TemplateCorrectness.ExpressionCorrect` | scripts/localization/result-template-compiler.ts:127-138 | a compiled path reads the value that its source path names, through every stacked case alias |
| `TemplateCorrectness.NodesCorrect` | scripts/localization/result-template-compiler.ts:139-240 | the statements emitted for a list of nodes run exactly as the direct interpreter does on them, in every environment that models where emission stands |
| `TemplateCorrectness.IfCorrect` | scripts/localization/result-template-compiler.ts:198-208 | unless and else-if chains choose the same branch as the interpreter; only the first condition is negated |
| `TemplateCorrectness.EachCorrect` | scripts/localization/result-template-compiler.ts:209-216 | the loop runs its body on every item, with the first-item flag true on the first only |
| `TemplateCorrectness.SwitchCorrect` | scripts/localization/result-template-compiler.ts:217-233 | the case chosen by label runs with paths below the subject redirected to the narrowed value, and an unlisted label throws |
| `TemplateCorrectness.PartialCorrect` | scripts/localization/result-template-compiler.ts:184-197 | an inlined partial means what its own tree means on the value passed to it |
| `TemplateCorrectness.NodesRawLast` | scripts/localization/result-template-compiler.ts:146-239 | the raw and output flags are sound: in every execution a raw segment is the last one, and nothing is written when no output is flagged |
| `TemplateCorrectness.PartialRawLast` | scripts/localization/result-template-compiler.ts:194-195 | raw output inside a partial counts for the text around the partial |
| `TemplateCorrectness.SwitchRawLast` | scripts/localization/result-template-compiler.ts:217-235 | raw output inside any case counts for the text after the switch |
| `TemplateCorrectness.FunctionsCorrect` | scripts/localization/result-template-compiler.ts:241-245 | each emitted function, on any view, runs as the interpreter does on its template, within the depth of the templates there are |
| `TemplateCorrectness.CompiledModuleMeansItsTemplates` | scripts/localization/result-template-compiler.ts:139-245 | the main theorem: from the flat lines of an accepted module, calling a template on any view gives the interpreter's run, exceptions included, and a raw segment is followed by nothing |
| `TemplateCompiler.Emitter.constructor` | scripts/localization/result-template-compiler.ts:113-126 | emission starts with no lines, helpers, imports or serial numbers |
| `TemplateCompiler.Emitter.Emit` | scripts/localization/result-template-compiler.ts:139-240 | the emitting loop appends exactly the specified lines, advances the serial, collects the helpers used and returns the flags, or stops with the first problem |
| `TemplateCompiler.Emitter.EmitOne` | scripts/localization/result-template-compiler.ts:150-234 | one node, dispatched by its kind, adds exactly its own lines; which nodes are refused is stated by TemplateAcceptance.NodesAccepted |
| `TemplateCompiler.Emitter.EmitPartial` | scripts/localization/result-template-compiler.ts:184-197 | a partial is opened with a fresh variable and a typed view that is imported, emitted, and closed |
| `TemplateCompiler.Emitter.EmitIf` | scripts/localization/result-template-compiler.ts:198-208 | a condition block emits its branches in order and closes them all |
| `TemplateCompiler.Emitter.EmitRest` | scripts/localization/result-template-compiler.ts:200-206 | the branch loop emits each else branch with its own condition, never negated |
| `TemplateCompiler.Emitter.EmitBranch` | scripts/localization/result-template-compiler.ts:204-205 | a branch adds its body and its flags |
| `TemplateCompiler.Emitter.EmitEach` | scripts/localization/result-template-compiler.ts:209-216 | a loop takes a fresh serial and refuses raw output in its body |
| `TemplateCompiler.Emitter.EmitSwitch` | scripts/localization/result-template-compiler.ts:217-233 | a switch emits its blank prefix and then its subject |
| `TemplateCompiler.Emitter.EmitKind` | scripts/localization/result-template-compiler.ts:220-233 | the subject is bound to a fresh variable; every case is emitted with one alias more |
| `TemplateCompiler.Emitter.EmitArms` | scripts/localization/result-template-compiler.ts:224-230 | cases are emitted in order |
| `TemplateCompiler.Emitter.EmitArm` | scripts/localization/result-template-compiler.ts:225-229 | a case is its labels, its body and a break |
| `TemplateCompiler.Emitter.EmitFunction` | scripts/localization/result-template-compiler.ts:241-245 | a template becomes one function over its view; exactly the helpers its body calls are added to those collected |
| `TemplateCompiler.Emitter.Compile` | scripts/localization/result-template-compiler.ts:241-245 | all templates become functions, in order, as specified; imported view types are exactly those the lines name, and the helpers collected exactly those the functions call |
| `TemplateImports.HelpersAreCalled` | scripts/localization/result-template-compiler.ts:111-245 | the helpers collected for the import line are exactly those that some emitted line calls |
| `TemplateImports.ViewsAreNamed` | scripts/localization/result-template-compiler.ts:112-195 | the view types collected are exactly those that some emitted line names |
| `LifecycleSafety.StepKeepsInv` | packages/shared/src/entity-lifecycle.ts:370-1144 | every step keeps: unique keys per owner; valid rows; each live or blocked operation and its entity row in the same phase; pending claims held by live or blocked creations; handles only in visible worlds; closed accounts |
| `LifecycleSafety.RunsAreSafe` | packages/shared/src/entity-lifecycle.ts:382-432 | in every reachable state a world being deleted has no participant handle claimed in it, and an account being deleted has no live or blocked creation and no foreign claim in its worlds |
| `LifecycleSafety.InvIsSafe` | packages/shared/src/entity-lifecycle.ts:531-611 | the invariant implies both deletion guarantees |
| `LifecycleSafety.CleanupCascadesNothing` | packages/shared/src/entity-lifecycle.ts:1298-1309 | retention cleanup removes finished operation rows only: the cascades of their deletion find no claim and no secret |
| `LifecycleSafety.ReserveKeepsInv` | packages/shared/src/entity-lifecycle.ts:409-468 | the reservation batch, guarded by visible owner and world, keeps the invariant |
| `LifecycleSafety.BeginDeleteKeepsInv` | packages/shared/src/entity-lifecycle.ts:545-691 | the deletion batch hides the row in the same step in which it checks for handles and creations, and keeps the invariant |
| `LifecycleSafety.MaterializeKeepsInv` | packages/shared/src/entity-lifecycle.ts:693-721 | a stale materialization keeps operation and entity in the same phase |
| `LifecycleSafety.RetryKeepsInv` | packages/shared/src/entity-lifecycle.ts:919-957 | a retry, guarded by the phase only, keeps the invariant whatever earlier revision its caller had read |
| `LifecycleSafety.KvFailureKeepsInv` | packages/shared/src/entity-lifecycle.ts:959-982 | a KV failure, guarded by the revision, moves operation and entity row together, also when it blocks the creation |
| `LifecycleSafety.ResolveKeepsInv` | packages/shared/src/entity-lifecycle.ts:984-1001 | resuming or cancelling a blocked creation keeps the invariant |
| `LifecycleSafety.ActivateKeepsInv` | packages/shared/src/entity-lifecycle.ts:723-774 | activation, with its unguarded statements, keeps the invariant from a live creation |
| `LifecycleSafety.AbortKeepsInv` | packages/shared/src/entity-lifecycle.ts:889-917 | aborting a live deletion shows the row again and keeps the invariant |
| `LifecycleSafety.FinishDeletionKeepsInv` | packages/shared/src/entity-lifecycle.ts:804-840 | finishing a live deletion drops entity, row and claims together |
| `LifecycleSafety.FinishCompensationKeepsInv` | packages/shared/src/entity-lifecycle.ts:1119-1144 | finishing compensation releases everything the creation held |
| `LifecycleHistory.RowsOnlyAdvance` | packages/shared/src/entity-lifecycle.ts:693-1144 | a changed row keeps its identity and its revision grows by one; terminal is absorbing, terminal_failed is left only by resolving a blocked creation, and blocked is exactly failed without a cleanup date |
| `LifecycleHistory.ReadsStayEarlier` | packages/shared/src/entity-lifecycle.ts:973-976 | what a caller read stays the row or an older revision for ever, so a revision fence that still matches proves the row untouched |
| `LifecycleHistory.KvAccounting` | packages/shared/src/entity-lifecycle.ts:959-1001 | the failure count moves by one per recorded failure and only then; a set deadline moves only by an operator; no retry is scheduled past it |
| `LifecycleHistory.StaleKvFailureTouchesEntity` | packages/shared/src/entity-lifecycle.ts:965-980 | a KV failure under a stale revision never changes the operation; it touches the entity row if and only if the operation is exactly one revision ahead, in the phase aimed at, and holds that entity, and then only the revision moves |
| `LifecycleHistory.StaleResolutionTouchesEntity` | packages/shared/src/entity-lifecycle.ts:984-1001 | the same for resuming and cancelling under a stale revision |
| `LifecycleHistory.SecondKvFailureBumpsEntity` | packages/shared/src/entity-lifecycle.ts:965-980 | that effect at an input: two workers record a failure from the same read |
| `LifecycleRetries.KvFailuresAreBounded` | packages/shared/src/entity-lifecycle.ts:959-980 | over every run, whatever steps come in between: at most 128 failures are recorded of a creation, its deadline stays one hour after the first, and it is blocked exactly when the count is full or the last failure reached the deadline |
| `LifecycleRetries.PacedFailuresBlockEarly` | packages/shared/src/entity-lifecycle.ts:14-16 | over every run in which failures wait for the stored retry time: n failures with r plain retries among them take at least 30(n-1)-25r seconds up to the deadline, so without plain retries the creation is blocked by the 121st |
| `LifecycleRetries.QuietStep` | packages/shared/src/entity-lifecycle.ts:693-1144 | no other step moves the failure count, the deadline or the retry time of a creation that goes on |
| `LifecycleHistory.FinishedHoldsNothing` | packages/shared/src/entity-lifecycle.ts:1128-1143 | a finished operation holds no pending claim and no secret in any reachable state |
| `LifecycleHistory.CompensationLeavesNothing` | packages/shared/src/entity-lifecycle.ts:1128-1143 | finished compensation leaves no claim, secret or entity row of its operation and touches nothing of anybody else |
| `LifecycleHistory.ActivationKeepsKeys` | packages/shared/src/entity-lifecycle.ts:739-769 | activation turns exactly its own pending claims into active ones |
| `LifecycleHistory.DeletionDropsOnlyItsClaims` | packages/shared/src/entity-lifecycle.ts:819-839 | finishing a deletion drops exactly the claims of its entity, none of them pending |
| `LifecycleHistory.ExistingIsUnique` | packages/shared/src/entity-lifecycle.ts:1173-1182 | an owner and key name at most one operation |
| `LifecycleHistory.RepeatedReservationIsIdempotent` | packages/shared/src/entity-lifecycle.ts:375-379 | a repeated request changes nothing and gets the first operation, or a refusal when hash or action differ; it also says exactly when a racing repeat is told not found instead |
| `LifecycleHistory.ReservationRaceIsRefused` | packages/shared/src/entity-lifecycle.ts:370-498 | that refusal at an input: a run in which the first request succeeds and the same request, looked up before it, is told not found |
| `LifecycleHistory.RepeatedDeletionChangesNothing` | packages/shared/src/entity-lifecycle.ts:545-680 | a repeated deletion request changes nothing, and its reply in every case: matched with the first operation if the lookup found it or the deletion guard holds again, otherwise not found or a conflict |
| `LifecycleHistory.RepeatedDeletionIsAnswered` | packages/shared/src/entity-lifecycle.ts:545-680 | the same request gets the first deletion back if and only if the lookup already found it or the entity has become deletable again |
| `LifecycleHistory.RacingDeletionIsRefused` | packages/shared/src/entity-lifecycle.ts:613-680 | while the first deletion is under way, the same request that raced past the lookup is always refused: not found for a bot, a conflict for a world or account |
| `LifecycleHistory.DeletionRaceIsRefused` | packages/shared/src/entity-lifecycle.ts:545-680 | that refusal at an input: one world, the same request twice |
| `LifecycleHistory.ReservationClaimsItsKeys` | packages/shared/src/entity-lifecycle.ts:434-468 | a new reservation claims every requested key, all of them free before, for itself alone |
| `LifecycleEffects.ReservationIsExact` | packages/shared/src/entity-lifecycle.ts:380-468 | all or nothing, and exactly when: a hidden owner or world inserts nothing, a taken key refuses the batch, otherwise operation, entity, claims and secret appear together as requested |
| `LifecycleEffects.DeletionIsExact` | packages/shared/src/entity-lifecycle.ts:545-691 | a deletion begins if and only if the entity is visible and nothing depends on it; it is hidden, and its operation recorded as requested, in the same batch |
| `LifecycleEffects.MaterializeMoves` | packages/shared/src/entity-lifecycle.ts:693-721 | a pending creation and its entity row move on, with no other change |
| `LifecycleEffects.ActivationShows` | packages/shared/src/entity-lifecycle.ts:723-774 | activation makes the entity visible unless its row is deleted or missing, turns exactly its own pending claims active, drops the secret and closes the operation |
| `LifecycleEffects.DeletionFinishes` | packages/shared/src/entity-lifecycle.ts:804-840 | a finished deletion drops exactly the claims and the row of its entity and closes the operation with its result |
| `LifecycleEffects.AbortShows` | packages/shared/src/entity-lifecycle.ts:889-917 | an aborted deletion makes the entity visible again, keeps all claims, and closes the operation with the failure |
| `LifecycleEffects.RetryIsExact` | packages/shared/src/entity-lifecycle.ts:919-957 | the first seven retryable failures schedule a try after five seconds, the eighth turns to compensation |
| `LifecycleEffects.KvFailureIsExact` | packages/shared/src/entity-lifecycle.ts:959-982 | a KV failure schedules a try after half a minute, at most until the deadline, or blocks at the 128th failure or the deadline |
| `LifecycleEffects.ResolutionIsExact` | packages/shared/src/entity-lifecycle.ts:984-1001 | a resumed creation starts its failure accounts afresh and needs a visible owner; a cancelled one is compensated |
| `LifecycleEffects.ProgressIsExact` | packages/shared/src/entity-lifecycle.ts:1039-1077 | progress keeps a live account deletion going and counts only failures |
| `LifecycleEffects.CompensationBegins` | packages/shared/src/entity-lifecycle.ts:1079-1117 | compensation begins for any live operation, unless its caller read it as failed |
| `LifecycleEffects.CompensationFinishes` | packages/shared/src/entity-lifecycle.ts:1119-1144 | everything the operation held goes and nothing else; the failure stays on record |
| `LifecycleEffects.AbortRestores` | packages/shared/src/entity-lifecycle.ts:613-917 | beginning a deletion and aborting it leaves what readers see, all claims and all secrets as they were |
| `LifecycleEffects.CompensationRestores` | packages/shared/src/entity-lifecycle.ts:409-1144 | reserving a creation and compensating it leaves no trace but the failed operation |
| `LifecycleEffects.BotsLeaveNothing` | packages/shared/src/entity-lifecycle.ts:409-840 | the life of a bot: visible once activated, hidden once its deletion begins, and in the end all keys, secrets and entity rows as before |
| `LifecycleEffects.ReservationReply` | packages/shared/src/entity-lifecycle.ts:469-498 | a first reservation request is answered with its new operation exactly if owner and world are visible and all keys are free; otherwise not found, or a conflict, and nothing changes |
| `LifecycleEffects.DeletionReply` | packages/shared/src/entity-lifecycle.ts:555-680 | a first deletion request is not found, a conflict, or answered with its new operation, exactly when |
| `LifecycleEffects.KeysAnswerForTheirOperation` | packages/shared/src/entity-lifecycle.ts:375-379 | a used key answers for the request, hash and action, it was first used for, and refuses every other |
| `LifecycleEffects.FinishingNeedsItsPhase` | packages/shared/src/entity-lifecycle.ts:762-771 | the finishing statements leave operations of the other kind and finished ones alone |
| `LifecycleEffects.RepeatsFindTheFirst` | packages/shared/src/entity-lifecycle.ts:375-379 | over any run: the same reservation request gets its first operation while the row is kept, another request under its key is refused |
| `LifecycleEffects.RepeatedDeletionsFindTheFirst` | packages/shared/src/entity-lifecycle.ts:550-554 | over any run: the same for deletions |
| `LifecycleDatabase.Database.constructor` | packages/shared/src/entity-lifecycle.ts:370-374 | empty tables satisfy the invariant |
| `LifecycleDatabase.Database.FindByKey` | packages/shared/src/entity-lifecycle.ts:1173-1182 | the lookup finds the one operation of an owner and key |
| `LifecycleDatabase.Database.ReserveCreation` | packages/shared/src/entity-lifecycle.ts:370-498 | lookup, guarded batch and answer have exactly the specified effect and reply |
| `LifecycleDatabase.Database.GuardOpen` | packages/shared/src/entity-lifecycle.ts:382-395 | owner, world and world owner are visible |
| `LifecycleDatabase.Database.BeginDeletion` | packages/shared/src/entity-lifecycle.ts:545-691 | lookup, visibility check, guarded batch and answer have exactly the specified effect and reply |
| `LifecycleDatabase.Database.DeletionBlocked` | packages/shared/src/entity-lifecycle.ts:565-611 | what stops a deletion from starting |
| `LifecycleDatabase.Database.MarkMaterializing` | packages/shared/src/entity-lifecycle.ts:693-721 | operation and entity rows move to materializing only from pending |
| `LifecycleDatabase.Database.ActivateEntity` | packages/shared/src/entity-lifecycle.ts:723-774 | claims, row, entity, secret and operation as specified; true exactly when the entity has a row that is not deleted, which is then visible |
| `LifecycleDatabase.Database.FinalizeDeletion` | packages/shared/src/entity-lifecycle.ts:804-840 | the whole deletion batch as specified |
| `LifecycleDatabase.Database.AbortLiveDeletion` | packages/shared/src/entity-lifecycle.ts:889-917 | the whole abort batch as specified |
| `LifecycleDatabase.Database.RecordRetryableFailure` | packages/shared/src/entity-lifecycle.ts:919-957 | the retry, guarded by the phase only, as specified |
| `LifecycleDatabase.Database.RecordKvFailure` | packages/shared/src/entity-lifecycle.ts:959-982 | the revision-fenced KV failure as specified |
| `LifecycleDatabase.Database.ResolveBlockedCreation` | packages/shared/src/entity-lifecycle.ts:984-1001 | resume or cancel as specified, refused when the fence or the account does not allow it |
| `LifecycleDatabase.Database.RecordAccountProgress` | packages/shared/src/entity-lifecycle.ts:1039-1077 | the progress record, guarded by the phase only, as specified |
| `LifecycleDatabase.Database.StartCompensation` | packages/shared/src/entity-lifecycle.ts:1079-1117 | the start of compensation, guarded by the phase only, as specified |
| `LifecycleDatabase.Database.FinalizeCompensation` | packages/shared/src/entity-lifecycle.ts:1119-1144 | the whole compensation batch as specified |
| `LifecycleDatabase.Database.CleanupTerminal` | packages/shared/src/entity-lifecycle.ts:1298-1309 | one call removes between one and 500 expired finished rows, as asked, the oldest first, or all there are; live and blocked operations stay, and nothing else goes with them |
| `CredentialSafety.StepKeepsInv` | packages/shared/src/auth-sessions.ts:70-203 | every step keeps: rows carry their document, owner and expiry; markers outlast their credential; claimed requests and minted tokens match one to one |
| `CredentialSafety.RevokedIsNeverAccepted` | packages/shared/src/auth-sessions.ts:144-166 | the main theorem, for a reader with any time whose lookups interleave with any run after the revocation, whatever the old store returns: a credential that is not from the old store, or was cut off with its account, is never accepted; another only if it expires after the time the reader holds and before the last lookup ends |
| `CredentialSafety.RevokedLegacyRead` | packages/shared/src/auth-sessions.ts:144-166 | exactly when a read accepts a revoked document of the old store: it is unexpired at the time the reader holds, and the lookups find neither marker nor revoked row; each of these that stood at the revocation was then removed by a cleanup after the expiry |
| `CredentialSafety.AcceptanceAfterRevocation` | packages/shared/src/auth-sessions.ts:144-166 | of any revoked state, exactly: some run and some reader that begins in it at a given time accept the credential if and only if it is a document of the old store, not cut off, and still unexpired at that time |
| `CredentialSafety.SlowReadOutlivesTheMarker` | packages/shared/src/auth-sessions.ts:144-166 | a concrete run in which that exception happens |
| `CredentialSafety.DeadStaysDead` | packages/shared/src/auth-migration.ts:63-67 | no step revives a revoked or expired credential: not a late migration batch, a retry, a cleanup or time |
| `CredentialSafety.DeadForever` | packages/shared/src/auth-sessions.ts:144-196 | the same over any run |
| `CredentialSafety.LogoutKills` | packages/shared/src/auth-sessions.ts:180-196 | after logout the credential is revoked, by its row or by its marker |
| `CredentialSafety.RevokeByIdKills` | packages/shared/src/auth-credentials.ts:76-82 | revoking by id leaves the credential revoked |
| `CredentialSafety.RevokeAllKills` | packages/shared/src/auth-credentials.ts:84-94 | revoke-all revokes rows, missing rows and documents not yet migrated, unless they claim to be from the future |
| `CredentialSafety.MigrationKeepsAccess` | packages/shared/src/auth-migration.ts:45-65 | a credential accepted before the batch for documents the importer takes is accepted after it with the same document, even when the old store has lost it |
| `CredentialAccess.AcceptedUntilRevoked` | packages/shared/src/auth-sessions.ts:144-166 | over any run and any interleaved read: before its expiry, an issued credential is accepted if and only if no step since revoked it and its account is not cut off since |
| `CredentialAccess.SessionsLast` | packages/shared/src/auth-sessions.ts:70-85 | a session of an active account lasts thirty days, exactly, unless it is revoked |
| `CredentialAccess.TokensLast` | packages/shared/src/auth-sessions.ts:122-137 | a device token lasts ninety days, exactly, unless it is revoked |
| `CredentialAccess.AccessStays` | packages/shared/src/auth-sessions.ts:144-203 | a credential that reads back, migrated or not, still does after any step that does not name it |
| `CredentialAccess.RowChangesExactly` | packages/shared/src/auth-sessions.ts:180-203 | one step on a credential row: it is revoked exactly by its logout, its own revocation or that of its account, goes only after its expiry, and changes in no other way |
| `CredentialAccess.RequestChangesExactly` | packages/shared/src/auth-sessions.ts:105-138 | one step on a device request: its approval, its claim and the revocation by its account, and nothing else |
| `CredentialAccess.DeviceLoginMints` | packages/shared/src/auth-sessions.ts:87-138 | from the start: pending until approved, then open to the approver for ten minutes in all, and a poll in time mints a token once |
| `CredentialAccess.ApprovalIsExclusive` | packages/shared/src/auth-sessions.ts:105-115 | an approved request stays with its approver |
| `CredentialAccess.RevokeAllCutsOffExactly` | packages/shared/src/auth-credentials.ts:84-94 | revoke-all cuts off what was created up to its time and nothing later |
| `CredentialAccess.OldCredentialRead` | packages/shared/src/auth-sessions.ts:154-166 | an old credential without a row is accepted exactly during the transition, unexpired, and neither logged out nor cut off |
| `CredentialAccess.LogoutMarksOldCredentials` | packages/shared/src/auth-sessions.ts:187-193 | logout leaves a marker for an old credential, and only for one, that lives exactly as long as the credential |
| `CredentialAccess.WindowOnlyCloses` | packages/shared/src/auth-sessions.ts:154-156 | once the transition has ended no step opens it again |
| `CredentialDatabase.PageKeepsAccess` | packages/shared/src/auth-migration.ts:18-70 | a whole page, with its deletions from the old store: every credential reads back as before, except those without a row whose document a reader accepts and the importer refuses; these are lost |
| `CredentialSafety.PollCompletesExactly` | packages/shared/src/auth-sessions.ts:130-137 | the poll whose claim succeeds is exactly the one whose token row is inserted; every other poll changes nothing |
| `CredentialSafety.MintsAreSingle` | packages/shared/src/auth-sessions.ts:105-138 | one request mints at most one token, for the account that approved it first |
| `CredentialSafety.ClosedRequestNeverMints` | packages/shared/src/auth-sessions.ts:131-135 | a request revoked or removed before it was consumed never mints, by any step |
| `CredentialSafety.ClosedRequestsStayClosed` | packages/shared/src/auth-sessions.ts:105-138 | the same over any run |
| `CredentialSafety.RevokeAllClosesRequests` | packages/shared/src/auth-credentials.ts:90-93 | revoke-all closes every pending request of its account |
| `CredentialDatabase.Imports` | packages/shared/src/auth-migration.ts:45-53 | the names copied are exactly those on the page with a usable, unexpired document |
| `CredentialDatabase.ImportsAre` | packages/shared/src/auth-migration.ts:45-53 | a name is copied if and only if it is on the page and holds a document the importer takes that has not expired |
| `CredentialDatabase.Rejects` | packages/shared/src/auth-migration.ts:37-55 | every name that held something is either copied or counted invalid |
| `CredentialDatabase.AuthStore.constructor` | packages/shared/src/auth-migration.ts:15-20 | the tables start empty beside the old store |
| `CredentialDatabase.AuthStore.ReadCredential` | packages/shared/src/auth-sessions.ts:144-166 | an uninterrupted read returns what the specified lookups return; a document of the old store needs nothing but a later expiry |
| `CredentialDatabase.AuthStore.CreateSession` | packages/shared/src/auth-sessions.ts:70-85 | a session row is inserted for an active account, otherwise nothing; what it is worth is CredentialAccess.SessionsLast |
| `CredentialDatabase.AuthStore.StartRequest` | packages/shared/src/auth-sessions.ts:87-98 | a request row without an owner is inserted |
| `CredentialDatabase.AuthStore.Approve` | packages/shared/src/auth-sessions.ts:105-115 | true exactly when the request is open and free or already of this account; then it belongs to it |
| `CredentialDatabase.AuthStore.Poll` | packages/shared/src/auth-sessions.ts:117-138 | pending exactly for an open request without approval, complete exactly when this poll consumed it, and then the token row is there |
| `CredentialDatabase.AuthStore.Logout` | packages/shared/src/auth-sessions.ts:180-196 | only a credential that still reads back is revoked; a legacy one also gets its marker |
| `CredentialDatabase.AuthStore.RevokeById` | packages/shared/src/auth-credentials.ts:76-82 | true exactly when the account owns that credential and is active |
| `CredentialDatabase.AuthStore.RevokeAll` | packages/shared/src/auth-credentials.ts:84-94 | the cut-off only grows, and every row of the account is revoked |
| `CredentialDatabase.AuthStore.Cleanup` | packages/shared/src/auth-store.ts:36-45 | the rows removed are chosen here: expired ones, the oldest first, 500 or all there are |
| `CredentialDatabase.AuthStore.MigratePage` | packages/shared/src/auth-migration.ts:18-70 | a dry run or failure changes nothing; otherwise the valid documents are imported under rows and markers, the page is retired, the cursor moves, and the counters count |
| `CredentialDatabase.AuthStore.ScanPage` | packages/shared/src/auth-migration.ts:33-56 | the page loop collects exactly the importable names and counts the rest |
| `CredentialDatabase.AuthStore.DeleteAll` | packages/shared/src/auth-migration.ts:64 | the page's names, and only those, leave the old store |
| `CredentialDatabase.AuthStore.InsertAll` | packages/shared/src/auth-migration.ts:49-53 | inserts never replace a row nor pass a revocation marker |
| `RateLimit.ConsumeIsExact` | packages/shared/src/auth-store.ts:57-67 | a call is admitted if and only if its address has fewer than 20 and everybody fewer than 200 in the current hour; then both buckets get one hit, otherwise nothing changes |
| `RateLimit.ConsumeConserves` | packages/shared/src/auth-store.ts:57-67 | an admission keeps the global count equal to the sum of the address counts and to the calls admitted |
| `RateLimit.CleanupConserves` | packages/shared/src/auth-store.ts:40-42 | cleanup removes no bucket of a retained window |
| `RateLimit.CurrentWindowIsRetained` | packages/shared/src/auth-store.ts:49-50 | the current window is always retained |
| `RateLimit.RunsConserve` | packages/shared/src/auth-store.ts:36-68 | in every reachable state and retained window: global hits equal address hits together and calls admitted; 20 per address and 200 in all are never passed |
| `RateLimit.LimitsHold` | packages/shared/src/auth-store.ts:48-68 | in every reachable state at most 20 calls of an address and 200 in all were admitted in the current hour |
| `RateLimit.BucketsOutliveTheirHour` | packages/shared/src/auth-store.ts:49-50 | a bucket outlives its last call by one to two hours |
| `RateLimit.RateLimiter.Consume` | packages/shared/src/auth-store.ts:48-68 | the two statements under one fresh claim have exactly the specified effect |
| `RateLimit.RateLimiter.Cleanup` | packages/shared/src/auth-store.ts:40-42 | the buckets removed are chosen here: expired ones, the oldest first, 500 or all there are; every other bucket stays as it was |
| `Retention.ChooseOldest` | packages/shared/src/auth-store.ts:38-42 | the bounded retention query: due rows only, nothing left out that is older than a row chosen, up to the limit or all |
| `FollowerDelivery.NewestLeavesOutOlder` | packages/shared/src/follower-activity.ts:140-143 | a row that the six-row query leaves out is older than all six |
| `FollowerDelivery.HeadIsNewest` | packages/shared/src/follower-activity.ts:114 | the probed head is the actor's newest stored event |
| `FollowerDelivery.RowsLeaveOutOlder` | packages/shared/src/follower-activity.ts:137-157 | however far the cursor moved since the probe, an undelivered event of the range is a row or older than six rows |
| `FollowerDelivery.SelectCovers` | packages/shared/src/follower-activity.ts:194-221 | an issue accounts for every stored event between the edge's cursor and its receipt |
| `FollowerDelivery.SelectExplains` | packages/shared/src/follower-activity.ts:201-208 | what is listed was not told directly, can be linked to and is at most fourteen days old; what is suppressed fails one of the three |
| `FollowerDelivery.SilentCoversNothingShowable` | packages/shared/src/follower-activity.ts:209-212 | a silent receipt passes only events told directly, without a link, or over fourteen days old |
| `FollowerDelivery.StepKeepsInv` | packages/shared/src/follower-activity.ts:93-243 | every step keeps cursors below the high-water mark, probes behind cursors, and every issued receipt safe to acknowledge |
| `FollowerDelivery.NothingIsLost` | packages/shared/src/follower-activity.ts:137-224 | the main theorem: a stored event at or below a cursor was accounted for by an acknowledged receipt that listed it, suppressed it as told directly, without a link or over fourteen days old, or announced older activity |
| `FollowerDelivery.StoredThen` | migrations/0070_follower_activity_cursors.sql:5-12 | sequences are never given out twice, so an event stored now with an old number was stored then |
| `FollowerDelivery.AcknowledgeTakesTheMaximum` | packages/shared/src/follower-activity.ts:93-98 | receipts in any order raise each cursor exactly to the largest valid one |
| `FollowerDelivery.OrderDoesNotMatter` | packages/shared/src/follower-activity.ts:99-103 | late, repeated or reordered receipts give the same cursors |
| `FollowerDigest.SelectionIsExact` | packages/shared/src/follower-activity.ts:137-224 | a probe is answered if and only if something is owed and none of the six newest is of an inactive bot or world; the digest lists exactly the showable ones of the five newest, suppresses the others, announces older ones from the sixth on, and its receipt is the newest |
| `FollowerDigest.ProbeIsExact` | packages/shared/src/follower-activity.ts:114-189 | a follow has something new if and only if both bots are active and the followed one has an event beyond the cursor |
| `FollowerDigest.NewActivityIsListed` | packages/shared/src/follower-activity.ts:33-224 | a new event reaches an active follower: the follow is probed and its digest lists the event |
| `FollowerDigest.AcknowledgedIsQuiet` | packages/shared/src/follower-activity.ts:93-103 | acknowledging the digest of the newest probe leaves nothing to probe |
| `FollowerDigest.NewFollowIsQuiet` | migrations/0070_follower_activity_cursors.sql:21-26 | a new follow owes nothing of the past |
| `FollowerDigest.PruningKeepsShowable` | packages/shared/src/follower-activity.ts:226-243 | pruning never takes an event that could still be shown |
| `FollowerStore.DigestsAreTheIssues` | packages/shared/src/follower-activity.ts:194-224 | notices are exactly the issues of the chosen probes that list or announce something, silent receipts exactly the others |
| `FollowerStore.GroupsAreRows` | packages/shared/src/follower-activity.ts:190-192 | grouping the combined answer by actor gives back each probe's own rows |
| `FollowerStore.SweepMissesNothing` | packages/shared/src/follower-activity.ts:233-237 | a sweep page misses nothing up to its last row, and a short one nothing at all |
| `FollowerStore.ActivityStore.constructor` | migrations/0070_follower_activity_cursors.sql:13-20 | existing follows start before the empty stream |
| `FollowerStore.ActivityStore.Insert` | packages/shared/src/follower-activity.ts:33-40 | a source gets at most one event, with the next sequence |
| `FollowerStore.ActivityStore.Follow` | migrations/0070_follower_activity_cursors.sql:21-26 | a new follow starts at the high-water mark |
| `FollowerStore.ActivityStore.ProbeFollows` | packages/shared/src/follower-activity.ts:167-189 | invalid sizes are refused; the chosen probes are those of every follow up to the position to continue from, which moves on, and of every follow when nothing is left |
| `FollowerStore.ActivityStore.Examine` | packages/shared/src/follower-activity.ts:179-185 | the probing loop examines in order and stops at the actor limit |
| `FollowerStore.ActivityStore.SelectActivity` | packages/shared/src/follower-activity.ts:189-224 | digests and silent receipts are exactly the specified issues of the chosen probes, in order |
| `FollowerStore.ActivityStore.Digest` | packages/shared/src/follower-activity.ts:194-221 | an empty or inactive group issues nothing; otherwise the showable ones of the first five rows are listed, and a full group says so; over the stored events this is FollowerDigest.SelectionIsExact |
| `FollowerStore.ActivityStore.Acknowledge` | packages/shared/src/follower-activity.ts:93-103 | a batch of receipts moves the cursors as specified |
| `FollowerStore.ActivityStore.Prune` | packages/shared/src/follower-activity.ts:226-243 | the expired events removed are chosen here, the oldest first, 8000 or all there are; otherwise only orphans go, and what remains in the swept range has its content |
| `FollowerStore.GroupByActor` | packages/shared/src/follower-activity.ts:191-192 | the grouping loop keeps every actor's rows in order |
| `FanoutSafety.MergeCut` | packages/shared/src/bot-notification-fanout.ts:89-97 | cutting both sorted arms to n before merging changes nothing in the first n |
| `FanoutSafety.BoundedPageIsExact` | packages/shared/src/bot-notification-fanout.ts:85-101 | the two-arm page is the first n of the whole audience after the cursor |
| `FanoutSafety.PageFlagsAreExact` | packages/shared/src/bot-notification-fanout.ts:92-97 | the followed flag of a row is that of the whole follower list |
| `FanoutSafety.RepeatsLoseRecipients` | packages/shared/src/bot-notification-fanout.ts:90 | a recipient listed twice, with a larger one after it, makes a short page of an audience that goes on |
| `FanoutSafety.ExactPagesNeedDistinctRecipients` | packages/shared/src/bot-notification-fanout.ts:89-101 | the page is exact for every cursor, size and follower list if and only if no recipient but the largest is listed twice |
| `FanoutSafety.PageReachesAudience` | packages/shared/src/bot-notification-fanout.ts:85-101 | a page misses nobody up to its last id, and nobody at all when it is short |
| `FanoutSafety.StepKeepsInv` | packages/shared/src/bot-notification-fanout.ts:23-153 | every step keeps: considered ids in order and up to the cursor; the cursor past nobody unconsidered; publications among the considered and without repetition |
| `FanoutSafety.NobodyIsToldTwice` | packages/shared/src/bot-notification-fanout.ts:124-152 | with any number of stale or failing workers, an event is published to a recipient at most once, and only if a committed page considered it |
| `FanoutSafety.CursorsRise` | packages/shared/src/bot-notification-fanout.ts:149-151 | the cursor never goes back, and every committed page that leaves the job moves it |
| `FanoutSafety.JobsEndInTwoWays` | packages/shared/src/bot-notification-fanout.ts:65-68 | a job ends only when it is two weeks old or by a short page |
| `FanoutSafety.FinishedJobsConsideredEverybody` | packages/shared/src/bot-notification-fanout.ts:83-153 | when a short page ended a job, every direct recipient and every follower since the enqueue was considered by exactly one committed page |
| `FanoutReach.PageTellsExactly` | packages/shared/src/bot-notification-fanout.ts:102-152 | a page that applies tells exactly its bots but the actor that can be told and were addressed directly, or followed before the event both when read and when committed; a page that does not apply tells nobody |
| `FanoutReach.NotificationsAreExplained` | packages/shared/src/bot-notification-fanout.ts:124-152 | over any run: every notification comes from a committed page that named the bot as a direct recipient or a follower from before the event; never the actor |
| `FanoutReach.FinishedJobsToldEverybody` | packages/shared/src/bot-notification-fanout.ts:83-153 | over any run: when a short page ends a job, every direct recipient and every follower from before the event that stayed, and could be told whenever a page was committed, has been told |
| `FanoutReach.SmallAudiencesAreToldAtOnce` | packages/shared/src/bot-notification-fanout.ts:23-153 | a job with fewer than fifty direct recipients is finished by its first page, which tells each of them that can be told, but not the actor |
| `FanoutReach.JobsAreStored` | packages/shared/src/bot-notification-fanout.ts:43-44 | a new job is stored as it is, beside the others |
| `FanoutReach.LimitsAre` | packages/shared/src/bot-notification-fanout.ts:19-66 | a job expires exactly two weeks after its event; a page has at most fifty rows |
| `FanoutWorker.FanoutService.Enqueue` | packages/shared/src/bot-notification-fanout.ts:43-48 | a stored job has no follower audience and is due at once; a writer that is not deferred delivers the first page at once |
| `FanoutWorker.FanoutService.DeliverChunk` | packages/shared/src/bot-notification-fanout.ts:83-154 | one page is read, turned into notifications and committed exactly as specified, whatever position the worker holds |
| `FanoutWorker.FanoutService.Notifications` | packages/shared/src/bot-notification-fanout.ts:102-122 | the row loop builds notifications for exactly the rows meant for someone else; who is told in the end is FanoutReach.PageTellsExactly |
| `FanoutWorker.FanoutService.Inserted` | packages/shared/src/bot-notification-fanout.ts:131-148 | building and then checking inserts exactly the recipients |
| `FanoutWorker.FanoutService.Run` | packages/shared/src/bot-notification-fanout.ts:50-81 | one run finds the hundred jobs longest due and handles them one after the other exactly as specified: each next attempt is put off by five minutes, expired jobs go, failed pages keep their share of the budget, short ones return it; at most 500 ids in all, and every job found unless the budget is spent |
| `FanoutWorker.FanoutService.DueJobs` | packages/shared/src/bot-notification-fanout.ts:51-52 | the first query: jobs that are due, by rising date of the next attempt, at most a hundred, with the position each has then |
| `FanoutWorker.FanoutService.TakeTurn` | packages/shared/src/bot-notification-fanout.ts:58-77 | one turn of the loop: the attempt is put off first, whatever then becomes of the job |
| `FanoutWorker.HandledJobsWait` | packages/shared/src/bot-notification-fanout.ts:59-60 | a job handled by one run is not found by another within five minutes, so failing jobs cannot keep others from their turn |
| `FanoutWorker.WorkersRunTheProtocol` | packages/shared/src/bot-notification-fanout.ts:50-81 | the run of a worker is a run of the protocol, so what holds of all runs holds of it, and considers at most 500 ids |
| `AccountExport.PageIsExact` | packages/shared/src/account-export-repository.ts:195-213 | rows come in order beyond the position and existed when read; the next position moves strictly on and passes no row that stayed through the page's three queries |
| `AccountExport.ForeignCursorsAreRefused` | packages/shared/src/account-export-repository.ts:105-114 | a cursor is good exactly for the account and section it was issued for |
| `AccountExport.StayersFollow` | packages/shared/src/account-export-repository.ts:185-202 | a row that stayed belongs to the parent fixed by the page or to a later one |
| `AccountExport.OneMorePage` | packages/shared/src/account-export-repository.ts:116-122 | one more page extends the exported rows without gap, repetition or disorder |
| `AccountExport.NextIsNew` | apps/web/src/account-export.ts:140-145 | positions strictly increase, so a cursor never comes back |
| `AccountExport.NextCursor` | apps/web/src/account-export.ts:140-145 | a repeated cursor is refused, any other is remembered and returned |
| `AccountExport.ExportSection` | apps/web/src/account-export.ts:56-86 | the section loop never fails on a repeated or foreign cursor; a complete export holds every row present throughout exactly once and in order, whatever else changed between pages |
| `EventStream.BlocksIsSplit` | apps/web/src/avatar-generation-stream.ts:110-124 | cutting at blank lines: the pieces make up the text, no block completes a blank line early, none is left in the remainder |
| `EventStream.SplitIsUnique` | apps/web/src/avatar-generation-stream.ts:110-124 | there is only one way to cut a text |
| `EventStream.BlocksIncremental` | apps/web/src/avatar-generation-stream.ts:82-93 | cutting what has arrived, and later the remainder with the rest, is cutting it all |
| `EventStream.ChunkingIsInvisible` | apps/web/src/avatar-generation-stream.ts:70-101 | however a text is chunked, the stream fails exactly when the whole text does, delivers a prefix of its events, and all of them when nothing is malformed |
| `EventStream.FinishedBlocksDecide` | apps/web/src/avatar-generation-stream.ts:82-98 | while no finished block is malformed, every chunking delivers all the events of the text, also when its unterminated tail is malformed |
| `EventStream.ChunkingMatters` | apps/web/src/avatar-generation-stream.ts:70-101 | of a text, exactly: all chunkings deliver the same if and only if no finished block is malformed or the whole text delivers nothing |
| `EventStream.MalformedHidesItsChunk` | apps/web/src/avatar-generation-stream.ts:86-92 | a malformed block takes the events before it in its own chunk with it, but not those of earlier chunks |
| `EventStream.FramesRoundTrip` | workers/agent-runtime/src/avatar/service.ts:433 | end to end: whatever chunks the network makes of the server's frames, the listener gets the payloads, each once and in order |
| `EventStream.FrameBlock` | apps/web/src/avatar-generation-stream.ts:113-118 | the data of a framed payload is the payload |
| `EventStream.BlockMeansItsData` | apps/web/src/avatar-generation-stream.ts:112-131 | a block means its data fields, trimmed, one to a line; other lines and carriage returns before breaks mean nothing; no data, or the end marker, is ignored |
| `EventStream.LinesReadBack` | apps/web/src/avatar-generation-stream.ts:113-114 | lines joined by breaks of either kind are read back |
| `EventStream.TrimIsExact` | apps/web/src/avatar-generation-stream.ts:116 | trimming gives the text between its blank ends |
| `EventStream.ParseBuffer` | apps/web/src/avatar-generation-stream.ts:103-125 | the buffer loop returns the events of the complete blocks and a remainder without a blank line |
| `EventStream.ReadStream` | apps/web/src/avatar-generation-stream.ts:70-101 | the chunk loop delivers what the whole text would |
| `SubstringSearch.Utf8IsPrefixFree` | packages/shared/src/indexed-substring-search.ts:29 | no character's encoding starts another's (section 3 of RFC 3629) |
| `SubstringSearch.Utf8Lengths` | packages/shared/src/indexed-substring-search.ts:29 | one byte below 0x80, two below 0x800, three in the basic plane, else four, with continuations after the first |
| `SubstringSearch.TokenIsInjective` | packages/shared/src/indexed-substring-search.ts:14-15 | different texts have different tokens |
| `SubstringSearch.ShortTokens` | packages/shared/src/indexed-substring-search.ts:25-35 | the loop collects exactly the tokens of every character and every adjacent pair |
| `SubstringSearch.TokenFindsContained` | packages/shared/src/indexed-substring-search.ts:25-35 | a one- or two-character query's token is in the index of a text if and only if the text contains the query |
| `SubstringSearch.LikeFindsContained` | packages/shared/src/indexed-substring-search.ts:8 | the escaped LIKE pattern accepts exactly the texts that contain the query, capitals A to Z aside |
| `SubstringSearch.QueryKinds` | packages/shared/src/indexed-substring-search.ts:7-15 | two characters, or one outside the basic plane, make a short query; one ordinary character makes none |
| `SubstringSearch.ShortSearchIsLiteral` | packages/shared/src/indexed-substring-search.ts:5-16 | for a short query the index and the pattern agree on every text, and both mean containment, capitals A to Z aside |
| `SubstringSearch.LongSearchIsLiteral` | packages/shared/src/indexed-substring-search.ts:10-13 | a long query is one quoted phrase, and its pattern means the same containment |
| `SubstringSearch.PhraseIsLiteral` | packages/shared/src/indexed-substring-search.ts:12 | a long query reaches the index as one literal phrase, whatever operators it spells |
| `CascadeDelete.ChainIsUnique` | apps/web/src/app-records.ts:113-114 | a bot has at most one chain of clone links up to a root of the selection |
| `CascadeDelete.ChainDoesNotReturn` | apps/web/src/app-records.ts:109-112 | a chain of clone links never comes back to where it began |
| `CascadeDelete.DepthSorter.constructor` | apps/web/src/app-records.ts:102-103 | the selection is indexed by id, nothing is cached or visited |
| `CascadeDelete.DepthSorter.Depth` | apps/web/src/app-records.ts:104-118 | the memoised recursion ends on any links; where the links end, the depth is their number; cached values never change |
| `CascadeDelete.DepthSorter.Sort` | apps/web/src/app-records.ts:119 | the result is a permutation in falling order of depth |
| `CascadeDelete.SortBotsForCascadeDelete` | apps/web/src/app-records.ts:101-120 | a permutation in which a linked clone comes before its source whenever the links above it end |

## Left out

- The tokenizer of templates: tag and comment delimiters, whole-line tags, the words inside a tag (field paths, filters, message arguments), line numbers, and which problem a rejected template is reported with.
- The TypeScript text of the generated module: import lines, location comments, escaping of literals, function name mangling. The target program keeps statements, variables and paths.
- JavaScript values beyond records, lists, strings, numbers, booleans, null and undefined: inherited properties, not-a-number, getters. The filters and the catalog are parameters of the runtime.
- Lifecycle: created, updated and terminal timestamps, recovery leases and alarms, injected failures, the statements of inference graphs and projections that join a batch (a row appears or is marked deleted as an opaque step), renames and provider links that also write claims, and failure classification.
- LifecycleSafety.RunsAreSafe: assumes that one owner's work is serialized, as the owner queue does; activation is only from pending or materializing, and finishing or aborting only of a live deletion.
- Credentials: the MCP record kinds with their grants and refresh families, credential names, lists and pages, user-agent hints, the fields of documents that do not decide acceptance.
- CredentialDatabase.AuthStore.MigratePage: client registrations, which are copied with a fixed expiry, are not modelled; the listing of the old store is a parameter, and one page of a prefix runs at a time.
- CredentialDatabase.AuthStore.ReadCredential: text that is no JSON, which makes the real read throw, and documents that lack the three deciding fields are both read as nothing.
- CredentialDatabase.AuthStore.Cleanup: ties between equal expiry dates are not ordered by key.
- RateLimit.RateLimiter.Cleanup: ties between equal expiry dates are not ordered by key.
- LifecycleDatabase.Database.CleanupTerminal: ties between equal dates are not ordered by id.
- RateLimit.RateLimiter.Consume: addresses stand for their hashes.
- Follower activity: the encoding of receipts and cursors, profile names and localized text, and the owner's combined notification page. A receipt that no selection issued is not acknowledged in the model.
- FollowerStore.ActivityStore.Prune: ties between equal creation dates are not ordered by sequence.
- Fanout: notification texts, delivery reasons and the payload mirror in KV. A worker that holds the payload of a job already removed does nothing in the model, as its guarded batch does nothing.
- FanoutWorker.FanoutService.Enqueue: the follower-activity event that joins the same batch is not part of this member; inserting it is `FollowerStore.ActivityStore.Insert`.
- FanoutWorker.FanoutService.Run: ties between equal attempt dates are not ordered by event id.
- AccountExport.ExportSection: a missing document, a failed request or an aborted download ends the real export; here it only ends the readings. Sections with one level of keys, record contents, images, notes and the archive are not modelled. The child part of a three-part key is one ordered identifier.
- EventStream.ReadStream: decoding bytes to text and JSON to events are a given chunk list and a given function; the reducer that applies events to the chat entries is not modelled.
- SubstringSearch.ShortSearchIsLiteral: the normalization of the query (control characters, white space, Unicode lower case, the cut at 160 units) comes before the model, and the full-text engine is the membership of a token.
- CascadeDelete.DepthSorter.Sort: the built-in sort is an insertion sort here; only its order and contents are stated, not its stability.
- Screens, commands, HTTP and MCP plumbing, formatting helpers and route parsing: they would only add easy members.
