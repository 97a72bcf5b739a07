# Verified model of the data-quality platform's protocols and scanners

A Dafny model of the parts of the platform whose correctness spans several calls, several
processes or a whole text, with machine-checked proofs of what those parts promise. Each
external system (the LangGraph saver, the Discord API, Airflow, the warehouse, the control
store) is a small state whose answers may be lost and whose effects may or may not have
taken place; a process may die after any saved step. Digests are arbitrary functions into
sixteen hexadecimal digits.

| module | what it models |
|---|---|
| `SqlScanner`, `ParenScanner`, `SqlLiterals`, `SqlWords`, `SqlPieces`, `DdlReader` | the SQL scanners of the diagram builder and how the catalog combines them |
| `CheckpointReplay` | resuming a checkpointed graph and replaying a historical checkpoint in a child thread |
| `ThreadIds`, `ReplayPreview` | thread ids, operator requests, replay previews and the batch runner's derivation |
| `SmokePhases` | the cross-process checkpoint smoke with its exclusive marker file |
| `DiscordHistory`, `DiscordDeletion`, `DiscordManifest`, `DiscordMeaning` | cursor pagination, the bounded HTTP client, and manifest deletion |
| `JournaledReset` | the nine-phase reset, its journal, and the one validation run it may create |
| `OutboxPlatform`, `OutboxAcceptance` | the requests and closure decisions the platform keeps under idempotency keys, and the acceptance stages for one run id |
| `LegacyImport`, `LegacyMigration` | one legacy approval history, and the preflight and import of all of them |
| `Outcomes`, `Text` | results, whitespace, `strip`, `join` |

What the source does by looping and assigning is a method with a loop, or a class with
fields; its contract says what it computes as a definition over the whole input or a relation
between old and new state, and lemmas say what that definition means.

Safety holds however calls fail. Beside it, most operations say exactly when they succeed on
a steady machine, one on which nothing dies, every outside system answers, nothing around the
run changes and no earlier request is still in flight: the `steady` clauses. So a model that merely refused everything would not meet its contracts.

Results that correct a natural reading of the code, each with its input and exact condition:

- `closing_paren` and `split_sql` disagree on text with double quotes or dollar tags outside
  single-quoted literals (`ParenScanner.DoubleQuoteCounterexample`, `DollarTagCounterexample`).
  The slice up to a match splits exactly when such literals are closed and the parentheses in
  them cancel, as long as they hold no single quote (`InsideSplitsExactly`).
- The pending-node check of a replay is made by the first call only. If routing from the
  writer does not schedule the chosen nodes, the first call raises and a retry runs other
  nodes (`CheckpointReplay.RetryEscapesTheCheck`), or, if routing schedules none, reports
  success without running any (`RetryRunsNothing`). `FirstNodesRun` is the exact condition.
- Two different namespaces and values can share a thread id, whatever the digest, once a
  namespace holds a bar (`ThreadIds.BarredNamespacesMeet`; `IdsMeetExactly` gives the exact
  condition). Without bars an id names its alert.
- A legacy record's version may exceed its number of update times, when two snapshots of one
  time spell equal parameters differently, such as `1` and `1.0`
  (`LegacyImport.OvercountExample`; `VersionCountsTimes` gives the exact condition).
- A copy of a legacy snapshot can turn an accepted history into a rejected one, when its
  parameters hold a NaN that the model dump replaces (`LegacyImport.CopyExample`;
  `CopiesNeverMatter` gives the exact condition).
- A valid manifest can need more than the client's 3000 calls, so that no single run finishes
  it: one call reads each message and one more deletes each that is present
  (`DiscordManifest.ValidButTooLong`; `DeleteManifest` gives the exact condition).
- A DELETE that lands after its message was read back makes `deleted` too small; the sum and
  the absence of every message still hold (`DiscordManifest.DeleteManifest`).
- A restored fixture is clean unless the column ADD had an unknown outcome and lands after the
  restore, with no outside writer (`Acceptance.RunStages`).

Some runs can never be completed, by design, and the contracts say exactly which. A smoke
marker torn by a crash fails every phase (`SmokeRun.RunPhase`). A reset is stuck once its one
attempt is spent and no run came or can still come of it, or one that failed, or when the
attempt must be spent so because another DagRun already exists (`Controller.Stuck`). An
acceptance run is stuck when its warning was missed or cannot come any more, its date is
taken, its check ended without a pass or is no longer good before there is a closure, or the
closure met another error than the fixture's fault, or a worker delivered it, before the fault
was recorded (`Acceptance.Stuck`). Being stuck is shown to last. On a steady machine a run that
is not stuck completes unless a remediation of the date, or a contract, schema or data changed
since the check, stands between it and its closure, and these may go away
(`Controller.ApplyPlan`, `Acceptance.RunStages`, `Acceptance.RunAll`).

Documentation and code part in one place: an empty checkpoint id makes the replay id builder
fail on a missing dictionary entry, not with the documented error. The model follows the code
(`NoCheckpoint`, in `ThreadIds.ReplayIdIsValid`).

## Model

| member | source | states |
|---|---|---|
| SqlScanner.SplitSql | scripts/build_repository_diagrams.py:42-73 | the one-pass loop with quote, depth and start returns what scanning each fragment afresh from no quote and depth 0 gives, or raises exactly when the text ends quoted or unbalanced |
| SqlScanner.SplitFragments | scripts/build_repository_diagrams.py:42-73 | every fragment is the slice of the input at its offset, has net depth zero, closed quotes and no delimiter of its own to cut at; joined they rebuild the input up to a blank tail |
| SqlScanner.ResplitIsIdentity | scripts/build_repository_diagrams.py:42-73 | splitting a non-blank fragment again returns that fragment alone at offset 0 |
| SqlScanner.SplitOfJoin | scripts/build_repository_diagrams.py:42-73 | round trip: atomic texts joined by an inert delimiter split back into exactly those texts at their running offsets |
| SqlScanner.ScanOver | scripts/build_repository_diagrams.py:45-67 | a delimiter after a balanced prefix is the first cut, and the scan resumes behind it as if from the start |
| SqlPieces.LiteralIsPassed | scripts/build_repository_diagrams.py:45-57 | a double-quoted or dollar-quoted literal whose quote does not come up inside is passed over whole: what follows is scanned as if it stood alone, and nothing in the literal counts or cuts |
| SqlPieces.LiteralIsAtomic | scripts/build_repository_diagrams.py:45-57 | such a literal alone is one fragment |
| ParenScanner.ClosingParen | scripts/build_repository_diagrams.py:76-91 | returns the first index at which the depth outside single quotes is back to zero, and raises exactly when there is none |
| ParenScanner.NetDepth | scripts/build_repository_diagrams.py:42-91 | on text without single quotes in foreign literals, split_sql ends in the paren scanner's quote state and at its depth less the parentheses inside those literals |
| ParenScanner.ScannersAgree | scripts/build_repository_diagrams.py:42-91 | on text with only single quotes both scanners end in the same quote state and the same depth |
| ParenScanner.SplitsExactlyWhenBalanced | scripts/build_repository_diagrams.py:68-69 | on text without single quotes in foreign literals split_sql returns if and only if single quotes and foreign literals are closed and the paren scanner's depth is what those literals hold |
| ParenScanner.InsideIsBalanced | scripts/build_repository_diagrams.py:76-91 | from an opening parenthesis, the slice up to its match has its single quotes closed and depth zero, and its depth never goes negative |
| ParenScanner.InsideSplitsExactly | scripts/build_repository_diagrams.py:185-192 | that slice, if its foreign literals hold no single quote, is accepted by split_sql if and only if they are closed and their parentheses cancel |
| ParenScanner.InsideSplits | scripts/build_repository_diagrams.py:185-192 | in particular the slice never raises when it has no quotes but single ones |
| ParenScanner.NoForeignQuotes | scripts/build_repository_diagrams.py:54-58 | text without double quotes and dollar signs satisfies the agreement condition |
| ParenScanner.DoubleQuoteCounterexample | scripts/build_repository_diagrams.py:76-91 | a parenthesis inside double quotes closes for one scanner and leaves the other unbalanced |
| ParenScanner.DollarTagCounterexample | scripts/build_repository_diagrams.py:76-91 | the same for a dollar-quoted parenthesis |
| SqlLiterals.LiteralEndsAgree | scripts/build_repository_diagrams.py:30-39 | the literal pattern of normalize and uncomment ends a literal where the quote state of the scanners closes |
| SqlLiterals.UncommentOnlyBlanks | scripts/build_repository_diagrams.py:36-39 | every character stays or becomes a space, and newlines stay, so lengths and offsets are kept |
| SqlLiterals.UncommentIdempotent | scripts/build_repository_diagrams.py:36-39 | cleaning cleaned text changes nothing |
| SqlPieces.CodeStays | scripts/build_repository_diagrams.py:36-39 | text without quotes and comment marks is left as it is, wherever it stands |
| SqlPieces.CommentIsBlanked | scripts/build_repository_diagrams.py:36-39 | a comment becomes as many spaces, up to the end of its line, and what follows is cleaned on its own |
| SqlPieces.LiteralIsKept | scripts/build_repository_diagrams.py:36-39 | a quoted literal stays letter for letter, comment marks in it and all |
| SqlPieces.LineCountsNewlines | scripts/build_repository_diagrams.py:94-97 | the line of an offset is one more than the number of newlines before it |
| SqlLiterals.SameLine | scripts/build_repository_diagrams.py:94-97 | a line number counted on cleaned text is the line number on the raw text |
| SqlLiterals.SplitIsProper | scripts/build_repository_diagrams.py:32-33 | splitting at literals yields alternating text without literals and whole literals, and concatenates back to the input |
| SqlLiterals.SplitOfCat | scripts/build_repository_diagrams.py:32-33 | that decomposition is unique: every proper sequence of parts is recovered from its concatenation |
| SqlLiterals.NormalizeKeepsLiterals | scripts/build_repository_diagrams.py:30-33 | every quoted literal survives normalization, in order and unchanged |
| SqlWords.CollapseIsLine | scripts/build_repository_diagrams.py:32-33 | collapsing keeps every word and leaves one space for each stretch of whitespace, none elsewhere |
| SqlWords.NormalizeKeepsWords | scripts/build_repository_diagrams.py:30-33 | between the same literals stand the same words, separated by exactly one space, with a space next to a literal only where there was whitespace and none at the two ends |
| SqlLiterals.NormalizeIdempotent | scripts/build_repository_diagrams.py:30-33 | normalizing twice is normalizing once |
| DdlReader.FragmentSits | scripts/build_repository_diagrams.py:193-195 | a fragment of the cleaned body starts, after its leading blanks, at the recorded offset of the raw file, and the recorded line is right |
| DdlReader.TableDeclarations | scripts/build_repository_diagrams.py:179-195 | one table body up to column recognition: every declaration is normalized and placed in the raw file; it fails only for an unclosed body or one whose foreign literals hold a single quote, are open or do not balance |
| CheckpointReplay.ResolveWriter | agent/checkpointing.py:519-585 | returns the recorded writer, or the only node of the topology that reaches every pending node, and raises exactly when no unique one exists |
| CheckpointReplay.Outgoing | agent/checkpointing.py:561-571 | the table of targets holds exactly the edges whose source is not special |
| CheckpointReplay.OneWriter | agent/checkpointing.py:519-585 | a checkpoint has at most one writer |
| CheckpointReplay.Saver.Invoke | agent/checkpointing.py:514-516 | running pending nodes with saves to spare extends one thread by the graph's path and touches no other |
| CheckpointReplay.Saver.Resume | agent/checkpointing.py:473-516 | a missing thread or empty state fails; a complete one is returned without running a node; else pending nodes run; what is returned are the thread's final values, flagged as executed if and only if the thread grew |
| CheckpointReplay.Saver.Branch | agent/checkpointing.py:638-666 | copy, check the pending nodes, run; or resume the child that is already there |
| CheckpointReplay.Saver.Replay | agent/checkpointing.py:588-683 | only the child thread changes, and only for a source checkpoint that can be replayed; a call that returns gives the child's final values, flagged as executed if and only if it saved a checkpoint made by running nodes |
| CheckpointReplay.RetryReplay | agent/checkpointing.py:588-683 | over any number of calls, each dying after any saved step, no thread but the child changes |
| CheckpointReplay.CrashesAreInvisible | agent/checkpointing.py:588-683 | however the saved steps are shared among calls, the child's history is that of one uninterrupted call |
| CheckpointReplay.CopyFollowsChosen | agent/checkpointing.py:650-666 | the child goes through exactly the states the chosen checkpoint's pending nodes lead to |
| CheckpointReplay.CallReports | agent/checkpointing.py:638-683 | whatever the child held, a call that returns reports executed nodes exactly when the child is longer than before, or than the lone copy if it was absent |
| CheckpointReplay.SuccessfulCall | agent/checkpointing.py:588-683 | over any earlier calls, a call succeeds if and only if the saves so far reach the end; it then returns the values that the pending nodes of the chosen checkpoint end with, and a true executed flag |
| CheckpointReplay.OneEnding | agent/checkpointing.py:588-683 | those values are unique |
| CheckpointReplay.CompleteStays | agent/checkpointing.py:501-507 | once complete, no call runs a node or saves anything |
| CheckpointReplay.FirstNodesRun | agent/checkpointing.py:640-660 | over any calls that may save two checkpoints, the first nodes run are the chosen ones if and only if routing from the writer schedules them |
| CheckpointReplay.RetryRunsNothing | agent/checkpointing.py:501-507 | if routing schedules nothing, the first call raises and every retry reports success with the chosen values, having run no pending node |
| CheckpointReplay.RetryEscapesTheCheck | agent/checkpointing.py:640-660 | a graph on which the first call raises and the retry returns other values than the chosen nodes end with |
| ThreadIds.ThreadIdIsValid | agent/checkpointing.py:239-270 | an id exists exactly for non-blank inputs, is namespace and digest, passes its own validator and has at most 137 characters, so the branch for ids over 160 never acts |
| ThreadIds.ReplayIdIsValid | agent/checkpointing.py:372-399 | exactly when a replay id exists, which error an empty checkpoint gives, its text, and that a source of length n yields length min(n + 35, 137) |
| ThreadIds.ReplayMeetsItsSource | agent/checkpointing.py:372-399 | a replay id equals its source if and only if the source has 137 characters and ends in a colon and the replay's own digest |
| ThreadIds.IdsMeetExactly | agent/checkpointing.py:239-270 | unless the two hashed texts collide, two ids are equal if and only if these texts and the safe namespaces are |
| ThreadIds.IdNamesItsAlert | agent/checkpointing.py:239-270 | unless the two hashed texts collide, equal ids mean equal namespaces, if these have no bar, and equal values |
| ThreadIds.BarredNamespacesMeet | agent/checkpointing.py:262-265 | with a bar in the namespace two alerts share an id for every digest |
| ThreadIds.ReplayIdNamesItsRequest | agent/checkpointing.py:372-399 | unless the two hashed texts collide, equal replay ids mean equal source, checkpoint and request |
| ThreadIds.SanitizePiecewise | agent/checkpointing.py:262-262 | safe characters are kept wherever they stand and each whole run of unsafe ones becomes one hyphen |
| ThreadIds.StripsOnlyMarks | agent/checkpointing.py:262-262 | marks are taken from both ends and nothing between |
| ThreadIds.SafeNamespaceShows | agent/checkpointing.py:262-263 | what is left is cut to 120 characters, or replaced by a fixed name if nothing is left |
| ReplayPreview.ValidatedIsNormal | agent/checkpoint_operations.py:80-145 | a validated request has every field in its allowed form, and a request in that form is accepted unchanged |
| ReplayPreview.ValidationCleans | agent/checkpoint_operations.py:80-145 | validation accepts exactly the requests that are normal once stripped and lowered, and returns them so |
| ReplayPreview.ActionsIgnoreCase | agent/checkpoint_operations.py:109-112 | requests that differ in the case of the action only are validated alike, and carry it in lower case |
| ReplayPreview.CommandsCarryTheirRequest | agent/checkpoint_operations.py:149-178 | reading a command's configuration gives back its whole request, but for limit and node where only an inspection has them; it runs triage if and only if it does not inspect, and never resumes |
| ReplayPreview.RevalidationChangesNothing | scripts/trigger_airflow_triage.py:89-111 | re-validating a validated request changes nothing, so the command carries that request's own configuration |
| ReplayPreview.RunnerMeetsRequest | scripts/run_triage_alerts.py:210-255 | from the configuration of a validated replay the batch runner always derives a source and a child id, the ones the request implies |
| ReplayPreview.PreviewMeetsRunner | agent/checkpoint_operations.py:204-302 | a preview is accepted exactly when its request is valid and the inspected checkpoint is current and waits for the node; its two ids are those the runner derives from its configuration |
| ReplayPreview.PreviewShowsItsRequest | agent/checkpoint_operations.py:236-295 | a preview shows the given alert, namespace, nodes and request id, or the default one if none was given; its ids are built from these, and its configuration reads back as them |
| ReplayPreview.DefaultNamesItsReplay | agent/checkpoint_operations.py:181-201 | unless the hashed texts collide, one default request id means one alert, namespace and checkpoint as given |
| SmokePhases.CopyIsPrepared | agent/checkpointing.py:650-660 | on the smoke graph the copy a replay makes equals the checkpoint it was made from, whose writer is the prepare node |
| SmokePhases.SmokeRun.ApplyMarkerOnce | scripts/smoke_agent_checkpoint.py:121-169 | the marker is created only if absent; success means it is written in full, and dying in between leaves it torn |
| SmokePhases.SmokeRun.RunNode | scripts/smoke_agent_checkpoint.py:219-258 | one super-step: the marker precedes the saved effect, and histories stay on the one known path |
| SmokePhases.SmokeRun.Invoke | scripts/smoke_agent_checkpoint.py:201-272 | an uninterrupted invocation completes the thread, or stops before the effect when compiled to pause |
| SmokePhases.SmokeRun.Replay | scripts/smoke_agent_checkpoint.py:373-400 | a replay of the pre-effect checkpoint completes the child, leaves the source alone, and executes nodes exactly when the child was not complete |
| SmokePhases.FindPreEffect | scripts/smoke_agent_checkpoint.py:172-197 | returns a checkpoint exactly when it is the only one waiting for the effect node |
| SmokePhases.SmokeRun.RunPhase | scripts/smoke_agent_checkpoint.py:276-438 | a phase other than initialize succeeds only with source counts and marker all one; replays never touch the source; a torn marker fails every phase; on a steady machine each phase succeeds if and only if source, child and marker are at the stage it expects |
| SmokePhases.SmokeRun.RunPhases | scripts/smoke_agent_checkpoint.py:276-438 | over any phases with crashes the marker is created at most once and no saved state, in source or child, counts more effects than that |
| DiscordHistory.TakePage | scripts/demo_reset_discord.py:155-168 | a page is taken if and only if each message is well formed, new, below the cursor, within the bound, and if the bot's without a thread |
| DiscordHistory.Messages | scripts/demo_reset_discord.py:143-171 | no id is returned twice whatever the server lists; against an honest server it succeeds if and only if the channel holds fewer than 2000 messages, with every bot and every human id in order |
| DiscordHistory.HonestPage | scripts/demo_reset_discord.py:149-168 | the next page of an honest channel continues where the last ended and is acceptable |
| DiscordMeaning.ListsHoldTheChannel | scripts/demo_reset_discord.py:162-168 | the two lists hold exactly the bot's and the humans' ids of the channel, newest first |
| DiscordMeaning.BelowIsBelow | scripts/demo_reset_discord.py:149-152 | what an honest page is drawn from are exactly the messages below the cursor |
| DiscordDeletion.Judge | scripts/demo_reset_discord.py:63-101 | an attempt is repeated exactly after a lost answer or server error of a GET or a rate limit of at most 30 seconds, and settled exactly by a usable answer or an unknown DELETE |
| DiscordDeletion.UnknownIsReadBack | scripts/demo_reset_discord.py:337-354 | in a log that keeps the rules, between a DELETE of unknown outcome and any later DELETE lies a read that found that later message still the bot's |
| DiscordDeletion.Client.Request | scripts/demo_reset_discord.py:55-101 | at most three attempts and 3000 calls; all but the last met a transient fault; it succeeds exactly if the last answer settles it, gives what that answer means, and gives up early only on a fault that is not transient or at the bound; a DELETE of unknown outcome is never repeated blindly; against a steady server one call is made, if the bound allows one |
| DiscordDeletion.Client.ReadTarget | scripts/demo_reset_discord.py:315-321 | true only for a present, plain message of the bot, just read; false only if it is gone |
| DiscordDeletion.Client.Attempt | scripts/demo_reset_discord.py:337-354 | one DELETE and its read-back end with the message gone, a failure, or a fresh licence to try again |
| DiscordDeletion.Client.DeleteOne | scripts/demo_reset_discord.py:333-354 | on return the message is gone, nothing else was removed or put in flight, and it counts as deleted only if it was there, and exactly if nobody else deletes and no DELETE lands late; against a steady server it takes one call, or two if present, and fails exactly beyond the bound |
| DiscordManifest.ValidateSnapshot | scripts/demo_reset_discord.py:265-312 | accepts exactly the manifests whose entries cover the roots and threads once each with globally new message ids |
| DiscordMeaning.GoodEntriesMeans | scripts/demo_reset_discord.py:278-307 | entries are valid exactly if each is in scope and lists no message twice, and any two share neither channel nor message |
| DiscordManifest.KeysAreDistinct | scripts/demo_reset_discord.py:298-307 | a valid manifest names each message once |
| DiscordMeaning.KeysHoldTheEntries | scripts/demo_reset_discord.py:308-312 | the keys to delete are exactly the entries' bot messages, each under its channel |
| DiscordManifest.DeleteEntries | scripts/demo_reset_discord.py:328-354 | after each channel the counters equal the ids dealt with, all of them gone, and the calls made are those the ids cost |
| DiscordManifest.DeleteManifest | scripts/demo_reset_discord.py:324-355 | on return deleted plus missing is the number of ids, all are gone, and deleted is at most the number present, and that number if nobody else deletes and no DELETE lands late; on any outcome only the bot's own listed messages were removed or are in flight and the DELETE discipline held; an invalid manifest sends nothing; against a steady server it succeeds if and only if two calls, one per channel, one per id and one per present message fit the bound |
| DiscordManifest.ValidButTooLong | scripts/demo_reset_discord.py:60-62 | a valid manifest of 1500 present messages exceeds the bound on calls |
| JournaledReset.SavedOnlyGrows | scripts/reset_local_demo.py:306-313 | over any run the saved phases are a growing prefix of the nine in order, and a saved attempt is never forgotten |
| JournaledReset.WorkFollowsItsPredecessors | scripts/reset_local_demo.py:306-313 | work on a phase starts only when exactly all earlier phases are saved and the saved journal names this phase as current |
| JournaledReset.SavedWorkNeverRuns | scripts/reset_local_demo.py:306-309 | the work of a saved phase never runs again |
| JournaledReset.AsksAtMostOne | scripts/reset_local_demo.py:397-400 | over the whole log the validation step is asked to create at most once |
| JournaledReset.HashIsKept | scripts/reset_local_demo.py:303-305 | one journal carries one manifest hash for life |
| JournaledReset.Airflow.Validation | scripts/demo_reset_runtime.py:156-182 | at most one POST, only if allowed and only for an absent run on an otherwise empty platform; a lost answer is read back, and a POST of unknown outcome may still land later; success shows the run as it is, and an ended run never changes |
| JournaledReset.Controller.Validate | scripts/reset_local_demo.py:397-410 | the attempt is saved before the one request that may create; it completes only with the platform's own run, ended and successful, in the journal, and on a steady machine exactly if the reset was not stuck |
| JournaledReset.Controller.RunPhase | scripts/reset_local_demo.py:306-313 | a saved phase is skipped, any other is announced, worked and saved, keeping the log's rules through a crash at any step; whenever `validated` is saved, the saved result is the platform's run |
| JournaledReset.Controller.ApplyPlan | scripts/reset_local_demo.py:301-443 | finishing means all nine phases were saved with the platform's own successful run as the validation result; another manifest's journal is refused untouched; a stuck reset stays stuck; on a steady machine a run or resume finishes if and only if its confirmation matches and it is not stuck, that is, no attempt was spent without a run or on one that failed, and none must be |
| JournaledReset.Lifetime | scripts/reset_local_demo.py:301-443 | over any number of runs, crashes and refusals on one journal the rules hold and at most one validation POST is sent |
| OutboxPlatform.Platform.Create | agent/tools/incident_resolution.py:262-336 | a key already used answers with its request whatever became of it; a new key registers a request, which may be dead at once, unless a remediation of the date is pending; answers can be lost |
| OutboxPlatform.Platform.Close | agent/tools/incident_resolution.py:400-457 | a key already decided answers with that decision for the same request only and delivers nothing; a new decision needs a check that passed and is still good, no pending remediation and nothing changed since, and its delivery is tried at once |
| OutboxPlatform.Platform.DeliverWithFault | scripts/accept_resolution_outbox.py:257-267 | on a steady machine the closure is left pending by the fault if and only if it has met no other error and no worker has delivered it; once either has happened it never is again |
| OutboxAcceptance.Acceptance.PrepareFixture | scripts/accept_resolution_outbox.py:122-142 | the ADD is issued only for a run without a manifest, on a clean table and after the manifest is saved; on a steady machine exactly if the fixture's older incidents allow it; with a manifest it only reports whether the ADD was confirmed |
| OutboxAcceptance.Acceptance.CaptureAlert | scripts/accept_resolution_outbox.py:145-176 | capture completes only on evidence of this run's warning; on a steady machine if and only if the date is free or the alert already known, and the warning is in evidence or can still be detected |
| OutboxAcceptance.Acceptance.RestoreFixture | scripts/accept_resolution_outbox.py:179-195 | only this run's own column is dropped, and success means the flag is saved and the table then clean; on a steady machine it always succeeds after a claimed preparation |
| OutboxAcceptance.Acceptance.RequestCheck | scripts/accept_resolution_outbox.py:207-214 | a check is requested only after capture and restore are saved; what is recorded is the request held under this run's key, new and open or whatever became of it; on a steady machine it succeeds if and only if there is one already or no remediation is pending |
| OutboxAcceptance.Acceptance.WaitForPass | scripts/accept_resolution_outbox.py:217-239 | a pass is recorded only for a requested check that passed; on a steady machine if and only if the check is not over without a pass |
| OutboxAcceptance.Acceptance.ConfirmWithFault | scripts/accept_resolution_outbox.py:242-277 | a closure is commanded only after a recorded pass; on a steady machine it succeeds if and only if there is a decision untouched by other errors and workers, or none and the pass is good with no remediation or change in the way |
| OutboxAcceptance.Acceptance.ReplayOutbox | scripts/accept_resolution_outbox.py:280-287 | replay is recorded only after a recorded fault and once the decision is delivered, and sends no closure |
| OutboxAcceptance.Acceptance.RunAll | scripts/accept_resolution_outbox.py:333-353 | preparation if there is no manifest yet, then the stages not yet recorded in order, complete a run on a steady machine if and only if it is fresh with a clean table, no barring incident and a free date, or is not stuck, and no remediation or change stands between it and its closure |
| OutboxAcceptance.Acceptance.RunStages | scripts/accept_resolution_outbox.py:333-353 | over any stages in any order with crashes: one ADD at most; every closure command carries one key and the recorded request and follows a recorded pass, so there is one decision at most; flags are recorded in order and never withdrawn; a restored fixture is clean if the ADD was confirmed or cannot land late; a stuck run stays stuck |
| LegacyImport.Prepare | scripts/migrate_legacy_approvals.py:45-119 | reports the first failing check of the sorted scan, and accepts exactly the histories whose every pair of snapshots agrees, whose newest is not running and whose parameters JSON can hold |
| LegacyImport.AcceptedExactly | scripts/migrate_legacy_approvals.py:56-119 | the scan of neighbours in sorted order decides a condition on the bare set of snapshots, but for parameters that do not equal their own copy, which are accepted only alone |
| LegacyImport.HistoryOnlyAdvances | scripts/migrate_legacy_approvals.py:87-99 | in an accepted history decisions and ranks only advance, ends are absorbing, a run id persists, and after any start every snapshot is approved |
| LegacyImport.OneRunOwnsTheHistory | scripts/migrate_legacy_approvals.py:94-95 | all run ids anywhere in an accepted history are equal |
| LegacyImport.ImportedUnstarted | scripts/migrate_legacy_approvals.py:74-77 | a record imported as not started has no execution and no run id in its whole history |
| LegacyImport.RecordIsConsistent | scripts/migrate_legacy_approvals.py:103-117 | an imported record is settled, owns a run exactly if it executed, executed only if approved, and has decision fields exactly if decided |
| LegacyImport.RecordShowsNewest | scripts/migrate_legacy_approvals.py:102-117 | every field of the record is that of any newest snapshot of the input, times in UTC, empty names as none, and the cancellation exactly if cancelled |
| LegacyImport.HistoryKeepsAll | scripts/migrate_legacy_approvals.py:100-119 | the history holds every snapshot of the input as often as it occurs, oldest first |
| LegacyImport.KeepForgetsOnly | scripts/migrate_legacy_approvals.py:82-86 | what the history keeps of two snapshots is equal exactly if they differ only in version, eligibility and the writing of times |
| LegacyImport.TroubleIsFirst | scripts/migrate_legacy_approvals.py:56-99 | the conflict reported is that of the first snapshot in order that meets one |
| LegacyImport.ReportsFirst | scripts/migrate_legacy_approvals.py:57-99 | and of that snapshot's conflicts the one checked first |
| LegacyImport.OrderNeverMatters | scripts/migrate_legacy_approvals.py:49-49 | record, kept history and reported conflict are the same for every order of the input |
| LegacyImport.CopiesNeverMatter | scripts/migrate_legacy_approvals.py:56-119 | repeating snapshots of an accepted history changes the record never, and acceptance exactly when the parameters do not equal their own copy |
| LegacyImport.CopyExample | scripts/migrate_legacy_approvals.py:57-58 | a history accepted alone and rejected with a copy of its snapshot |
| LegacyImport.NotFiniteExample | scripts/migrate_legacy_approvals.py:118-118 | a spotless history is rejected for a number that JSON cannot hold |
| LegacyImport.VersionCountsTimes | scripts/migrate_legacy_approvals.py:109-109 | the version is at least the number of distinct update times, and equal exactly when tied snapshots spell their parameters alike |
| LegacyImport.OvercountExample | scripts/migrate_legacy_approvals.py:88-109 | an accepted history with one update time and a larger version |
| LegacyMigration.OfKeepsCopies | scripts/migrate_legacy_approvals.py:132-135 | a request's group holds each of its snapshots as often as the rows do |
| LegacyMigration.Collect | scripts/migrate_legacy_approvals.py:130-137 | every well-formed row is grouped under its request, requests in the order first named and snapshots in row order, and there is one blocker for each malformed row, in row order and with its id |
| LegacyMigration.Preflight | scripts/migrate_legacy_approvals.py:138-149 | writes nothing; each request is ready or blocked, and each blocker names its request and its cause: exactly the conflict of its history, exactly a hash of an earlier request, or else the store's refusal; without blockers each has its own history's record and no hash is shared; rows fit to import, finite parameters included, are blocked only by the store |
| LegacyMigration.PreflightMeansImportable | scripts/migrate_legacy_approvals.py:138-154 | a preflight without blockers implies that all histories are acceptable and no two requests share a hash |
| LegacyMigration.Migrate | scripts/migrate_legacy_approvals.py:122-162 | a real write implies apply, quiescence and importable rows; imported plus reused is the number of requests, or the count before the first refused write, after which none is tried; it ends without blockers if and only if the rows are importable, writers are quiesced for an apply, and the store raised no fault |

## Left out

- LangGraph, SQLite, Airflow, ClickHouse, PostgreSQL, Docker, S3 and HTTP: each is an abstract state with nondeterministic answers. Discord DELETEs, the column ADD and the validation POST may land late; any other request of unknown outcome takes effect before the next call of the same client or never.
- Checkpoint ids are positions in a thread, nodes do not empty a non-empty state, values are an arbitrary type, node and routing functions are functions of the state, and the child id is given as different from the source id; ThreadIds.ReplayMeetsItsSource says when it is.
- ThreadIds.IdNamesItsAlert: collisions of the digest are excluded only for the two texts compared; nothing is assumed of the digest elsewhere.
- ParenScanner.InsideSplitsExactly: for slices whose foreign literals hold a single quote nothing is claimed, since the two scanners then read different literals.
- DdlReader.TableDeclarations: the recognition of columns and constraints, which comes after and can also raise.
- ReplayPreview.ValidationCleans: lowering an action is modelled for ASCII letters, the only ones that can lead to one of the three action names.
- SmokePhases.SmokeRun.Invoke: LangGraph's own input checkpoint before the first node is merged with the first one.
- DiscordHistory.Messages: message ids are numbers, so ids that differ only in leading zeros are not told apart and the check of 15 to 22 digits is part of a message's shape; malformed pages are a failed listing.
- DiscordManifest.DeleteManifest: nobody adds or edits the listed messages meanwhile, others may delete them; the fixed fields of the manifest and the identity checks are GET requests that may abort.
- JournaledReset.Controller.ApplyPlan: plan validation and the bodies of the phases other than validation are single effects that may fail, and on a steady machine do not; claims hold for one journal, which is removed after the last phase.
- OutboxAcceptance.Acceptance.RunStages: nobody else alters the fixture table or its ownership marker, uses this run's keys, or acknowledges, triages, revises or closes this run's incident; the read-only verify stage is absent.
- OutboxPlatform.Platform.Close: its many grounds for refusal are three: a check that is no longer good (expired, or followed by a finished remediation or a newer check), a pending remediation, and a contract, schema or watermark that differs from the check's.
- LegacyImport.Prepare: which parameters equal their own copy, and which JSON can hold after the model dump, are given, since both turn on how the pydantic library treats numbers that are not finite; the immutable fields that no check reads are one field, and the JSON text of a snapshot is an arbitrary order that tells snapshots apart.
- LegacyMigration.Migrate: the control store's own conflict rules are its free choice of reply.
- Concurrent runs on one journal, one acceptance run id or one thread.
- Thread discovery and archived threads in the Discord script, column and constraint recognition, diagrams and Markdown, DAG files, argument parsing, logging, path checks, and everything about models and budgets: wiring or short bounded checks.
