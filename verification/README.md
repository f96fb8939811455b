# Verification of the native-turn import pipeline

Agents leave logs on disk. Memmy reads them, cuts them into turns, stages the messages, and
captures every turn once - in real time through a hook, and later through an offline scan. This
Dafny project models that pipeline and two smaller protocols that share its discipline, and
proves what they promise over every log, every run and every interleaving.

| part | files | main results |
|---|---|---|
| shared contract of the readers | `source_turn.dfy`, `block_selection.dfy`, `jsonl_lines.dfy`, `staged_agreement.dfy` | pairing by id only; hook selection equals scan grouping, also through staging, paging and cutting; reading does not depend on how a file is cut into chunks |
| Codex | `codex_source_turn.dfy`, `codex_turns.dfy`, `codex_hook_scan.dfy`, `codex_ingestion.dfy`, `codex_logs.dfy` | what is captured is what the log's records say; the hook's early reading and the scan's late reading select the same turn, and it is the one ingested after staging, paging and cutting |
| Hermes | `hermes_source_turn.dfy`, `hermes_turns.dfy`, `hermes_compaction.dfy` | what is captured is what the rows say; compaction never shows; an undo retracts its own turn only |
| OpenCode | `opencode_source_turn.dfy`, `opencode_turns.dfy`, `opencode_database_source.dfy`, `opencode_rows.dfy`, `opencode_identity.dfy` | what is captured is what the rows and parts say; migrating the database keeps every turn; a complete native turn is frozen |
| state rewriter | `legacy_state.dfy` | the one-pass character machine erases exactly the legacy arrays of any JSON text |
| staging | `ordering.dfy`, `scan_store.dfy`, `scan_pages.dfy` | staging survives interruption; paging has no gap and no repeat |
| the two passes | `turn_cut.dfy`, `turn_passes.dfy`, `unnamed_turns.dfy`, `initial_selection.dfy` | exactly when preparing and ingesting see the same turns; the first scan's selection is exact |
| watermark | `watermark.dfy` | no native turn is lost over any run of scans, and every fate was earned by an answer |
| scan jobs | `scan_jobs.dfy` | in every interleaving the executor behaves like one scan at a time; a source holds its last commit |
| migrations | `migration_state.dfy`, `migration_registry.dfy`, `migration_runner.dfy` | recorded migrations run at most once across crashes; every state written can be read |
| config lock | `config_writer.dfy` | exactly when writers serialise |
| folders | `folder_path.dfy` | reachability on cyclic links; which moves keep a tree a tree |

`wrappers.dfy` and `text.dfy` hold shared value types and string operations. Code that works step
by step is a method or a class proved against a specification function of the same step; what the
source promises is then proved about that function, in terms of the log, the rows or the run alone.
Protocols whose calls overlap - scan jobs,
config writers - are state machines over the steps between two waits. `dafny verify
dfyconfig.toml` checks everything.

## Readings of the source

- Keys in the state rewriter are compared after escape pairs were dropped, not decoded.
  `KeysAreReadExactly` says for which keys that is right; `EscapedKeyIsTaken` and
  `EscapedKeyIsMissed` show both ways to be wrong.
- Hermes does not see an undo of a turn that compaction had archived; `UndoIsStagedUnlessCompacted`
  says exactly when.
- Codex takes the working directory from the last record that names one, so a quiet record after
  the answer can change the content; `DirectoryDecidesContent` is the exact condition, and
  `MovedDirectoryChangesContent` such a log.
- The two passes over staged messages use different rules for where a turn begins. A native reader
  that finds no turn id stages its messages without one, and then a user message after another
  message starts a turn for ingesting and not for preparing. `CutsAgreeExactly` is the exact
  condition on a stream, and `UnnamedLogIsCutDifferently` a Codex log that fails it.
  `RecordsAreFoundExactly`, `UnnamedTurnIgnoresWatermark` and `WatermarkDecidesExactly` say what it
  means: the extra turn has no record and is ingested whatever the watermark says.
- A message that is staged again under its id replaces the first one, so the scan does not see a
  conflict between two contents of a turn that the hook reports. `HookAgreesExactly` is the exact
  condition; `RestagedTurnConflictsInTheHookOnly` shows it.
- The config lock excludes exactly as long as no lock of a live process is removed
  (`ExclusionExactly`), for which it is enough that no lock gets older than two minutes
  (`WritersInTimeSerialise`). The removal follows the look at the lock in a second step, so age is
  not the condition: a process that is slower than two minutes can lose its lock, and so can one
  that has just taken it over from a crashed one (`SecondRemoverTakesAFreshLock`).
  `SharedLockLosesAChange` shows the cost.
- The registry's test for duplicate ids is implied by its order test; the model keeps both, as the
  source does.

Parameters stand for what is outside: redaction and rendering of tool calls, decoding of one JSON
line, SHA-256, the registry's id pattern, the clock, the answers of `completeSourceTurn` and
`addMemory`, and the effects of a migration's `up`.

## Model

| member | source | states |
|---|---|---|
| SourceTurns.PairSourceToolCalls | AgentSourceCore/src/source-turn.ts:129-148 | the two counting loops pair every call as the id-based definition says |
| SourceTurns.PairingIsById | AgentSourceCore/src/source-turn.ts:129-148 | a call takes a result exactly when its non-empty id occurs once on each side: it then carries the result's fields where the result has them, and otherwise its own; it keeps its own name and input |
| SourceTurns.PairingIgnoresPosition | AgentSourceCore/src/source-turn.ts:129-148 | reordering results changes nothing; reordering calls reorders the output the same way |
| SourceTurns.SelectSourceTurn | AgentSourceCore/src/source-turn.ts:194-223 | the streaming selection computes the decision on the last run of messages with the expected turn id |
| SourceTurns.SelectionMeans | AgentSourceCore/src/source-turn.ts:194-223 | what is selected, or why nothing is, in terms of the messages: another conversation, no message, two contents, a message that is not complete, or the last turn shown |
| SourceTurns.StagedMeans | AgentSourceCore/src/source-turn.ts:166-187 | staging keeps every message, says of each the state and identity of its turn, and puts a turn on the last message only, and only when there is no reason |
| SourceTurns.CanonicalIsContent | AgentSourceCore/src/source-turn.ts:225-228 | two turns have equal canonical content exactly when every field but the sequence is equal |
| BlockSelection.OnlyBlockIsSelected | AgentSourceCore/src/source-turn.ts:166-223 | among messages of other turns, what one staged block was staged with is selected: its turn or its reason |
| SourceTurns.HookAgreesWithScan | AgentSourceCore/src/source-turn.ts:50-58 | the hook accepts a turn exactly when the conversation matches and the scan accepts the group of all its messages, with equal canonical content |
| SourceTurns.HookAgreesWithScanOnBlocks | AgentSourceCore/src/source-turn.ts:166-223 | the same for every stream of staged blocks: repeated, conflicting, unfinished |
| SourceTurns.HookNeedsCompleteStates | AgentSourceCore/src/source-turn.ts:194-223 | whatever was staged, the hook finds a turn exactly when the scan accepts the group, the conversation matches and every message of the turn is in state complete |
| SourceTurns.GroupOrderDoesNotMatter | AgentSourceCore/src/source-turn.ts:50-58 | neither order nor repetition nor anything but the metadata of a group decides what the scan makes of it |
| StagedAgreement.StagedAndPaged | Memory/src/agent-source/scan-store.ts:37-69 | what is paged out of any interrupted staging comes from the stream, has each of its keys once and ascends in time; a message whose key no other message has is among it |
| StagedAgreement.GroupIsWhole | AgentSourceCore/src/index.ts:168-203 | contiguous turn ids put exactly the messages of a turn into its group |
| StagedAgreement.HookAgreesExactly | Memory/src/agent-source/runtime.ts:918-926 | from a reader's stream through interrupted staging, paging and cutting, also when messages are staged again under their ids: the hook accepts what ingestion accepted exactly when no message is of another conversation and every superseded message agrees; ingestion accepts what the hook accepted exactly when a message that is left carries a turn; the contents are equal |
| StagedAgreement.HookAgreesWithIngestion | Memory/src/agent-source/runtime.ts:918-926 | where the turn's messages have their own ids, the ingested group is accepted exactly when the hook accepts the turn, with equal canonical content, whatever else was staged |
| StagedAgreement.HookTurnHasGroup | Memory/src/agent-source/runtime.ts:886-926 | a turn the hook accepts has a group in the scan, and ingestion emits it |
| StagedAgreement.GroupShowsMessages | Memory/src/agent-source/runtime.ts:886-926 | the messages of the ingested group have the words, times, roles and metadata of the messages the reader staged of the turn, and no others |
| StagedAgreement.RestagedTurnConflictsInTheHookOnly | AgentSourceCore/src/source-turn.ts:194-223 | two contents under one message id: the hook reports a conflict, the scan has the second only and accepts it |
| JsonlLines.LineAssembler.Append | AgentSourceCore/src/jsonl-lines.ts:22-31 | a segment extends the line; more than the limit is never buffered |
| JsonlLines.LineAssembler.ParseSegments | AgentSourceCore/src/jsonl-lines.ts:37-54 | one line gives its record, or one report, or nothing when blank |
| JsonlLines.ReadJsonlObjects | AgentSourceCore/src/jsonl-lines.ts:16-79 | for every cut of the file into chunks the events are those of its newline-separated lines, in order |
| JsonlLines.LinesPartitionTheFile | AgentSourceCore/src/jsonl-lines.ts:16-79 | the lines contain no newline and join back to the file |
| JsonlLines.EveryLineAccountedFor | AgentSourceCore/src/jsonl-lines.ts:37-79 | object lines within the limit are yielded once each; every other line that is not blank is reported once, with its reason |
| CodexSourceTurn.RolloutReader.FinishOpenTurn | AgentSourceCore/src/codex-source-turn.ts:55-94 | finish and discard: what is staged for the open turn, and the state left behind |
| CodexSourceTurn.RolloutReader.TakeSession | AgentSourceCore/src/codex-source-turn.ts:100-109 | a session record: another session id ends the open turn as a conflict |
| CodexSourceTurn.RolloutReader.TakeTurnStart | AgentSourceCore/src/codex-source-turn.ts:110-122 | a turn start: a new id ends an open turn and begins its own |
| CodexSourceTurn.RolloutReader.TakeComplete | AgentSourceCore/src/codex-source-turn.ts:123-129 | a completion record ends the open turn, as a conflict if the ids differ |
| CodexSourceTurn.RolloutReader.TakeResponse | AgentSourceCore/src/codex-source-turn.ts:133-171 | a response item: the message, call or result it adds |
| CodexSourceTurn.RolloutReader.Take | AgentSourceCore/src/codex-source-turn.ts:96-172 | one log record: the whole new state and the messages emitted |
| CodexSourceTurn.ReadCodexRollout | AgentSourceCore/src/codex-source-turn.ts:36-181 | the generator is the fold of the step over the log, closed with the stop evidence if that applies |
| CodexSourceTurn.ReadCodexSourceTurn | AgentSourceCore/src/codex-source-turn.ts:183-189 | the hook selects from that reading |
| CodexTurns.TurnIsCaptured | AgentSourceCore/src/codex-source-turn.ts:60-181 | for any log before it, the records of a turn and how it ends - a completion, an abort, another turn, another session, the known stop, the end of the file - decide what is staged: one message for each thing said, with its text, time and line, and the turn or the first reason against it |
| CodexTurns.CompletedTurnIsSelected | AgentSourceCore/src/codex-source-turn.ts:60-189 | what is selected after a completion record, whatever follows: query and answer are the redacted texts in order, start, end, sequence, evidence, tools and directory are those the records name, and it failed exactly when the completion record says so |
| CodexTurns.StoppedTurnIsSelected | AgentSourceCore/src/codex-source-turn.ts:60-189 | the same for the hook, when the log stops and only the stop is known |
| CodexHookAndScan.HookAndScanSelectTheSame | AgentSourceCore/src/codex-source-turn.ts:60-189 | for a log whose turn ends in a final answer, the hook's reading and the scan's reading of any longer log with the completion record and later turns select the same turn or the same reason |
| CodexHookAndScan.DirectoryDecidesContent | AgentSourceCore/src/codex-source-turn.ts:106-121 | for every turn the hook accepts: the scan accepts it with equal content exactly when the last directory named is the old one; with another directory it accepts it exactly when there was no earlier finished block; a turn that adds nothing of its own is selected alike |
| BlockSelection.SelectBlock | AgentSourceCore/src/codex-source-turn.ts:173-189 | selecting from a prefix, one block of the turn and other turns is deciding on that block's run |
| CodexIngestion.RolloutIsOrderly | AgentSourceCore/src/codex-source-turn.ts:36-181 | every message of a rollout is staged with a state and comes from a line of its own, in the order of the lines |
| CodexIngestion.HookTurnIsIngested | AgentSourceCore/src/codex-source-turn.ts:36-189 | the turn the hook captures from the early log has a group in the scan of the later log among any other files, however often staging was interrupted; the group is emitted, and it is accepted exactly when the hook accepted the turn, with equal canonical content |
| CodexLogs.AnsweredTurnIsIngested | AgentSourceCore/src/codex-source-turn.ts:36-189 | one such log: a question and its final answer are captured by the hook and ingested by the scan |
| CodexLogs.AnsweredTurnSaysItsWords | AgentSourceCore/src/codex-source-turn.ts:60-189 | the turn of that log, once its completion record came, has the question as query and the answer as answer, its own times, and fails only when the record says so |
| CodexLogs.MovedDirectoryChangesContent | AgentSourceCore/src/codex-source-turn.ts:106-121 | the same log with a quiet record that names another directory: both accept the turn, with different contents |
| CodexLogs.UnnamedLogIsCutDifferently | AgentSourceCore/src/codex-source-turn.ts:60-94 | a rollout without turn ids whose staged messages the two passes cut differently |
| LegacyState.LegacyIdEraser.RewriteChar | Memory/src/agent-source/runtime.ts:1428-1471 | the eraser's fields and output after one character are those of the machine's step |
| LegacyState.LegacyIdEraser.RewriteChunk | Memory/src/agent-source/runtime.ts:1425-1472 | one chunk is a run of the machine from where the last chunk left it |
| LegacyState.RewriteState | Memory/src/agent-source/runtime.ts:1409-1480 | the output for a list of chunks is the run over their concatenation |
| LegacyState.SkipValue | Memory/src/agent-source/runtime.ts:1430-1438 | strings with brackets and quotes, and nested arrays, never end a skip early |
| LegacyState.BufferReadsKey | Memory/src/agent-source/runtime.ts:1440-1447 | the bounded key buffer recognises exactly the keys that read as the legacy key once escape pairs are dropped |
| LegacyState.RewriteErases | Memory/src/agent-source/runtime.ts:1409-1473 | any JSON text cut into any chunks comes out as the print of the value with every such array emptied |
| LegacyState.EraseIsExact | Memory/src/agent-source/runtime.ts:1408-1473 | the result is well-formed and free of legacy content, and equals the input exactly when the input was free of it |
| LegacyState.PlainKeysReadAsSpelled | Memory/src/agent-source/runtime.ts:1444-1445 | a key without escapes is read as it is spelled |
| LegacyState.KeysAreReadExactly | Memory/src/agent-source/runtime.ts:1440-1447 | a key is both read as and decoded to the legacy key exactly when it is spelled out; a key with an escape is read wrong exactly when its plain characters spell the legacy key or it decodes to it |
| LegacyState.EscapedKeyIsTaken | Memory/src/agent-source/runtime.ts:1441-1445 | a key with an escaped newline in front is taken for the legacy key |
| LegacyState.EscapedKeyIsMissed | Memory/src/agent-source/runtime.ts:1441-1445 | the legacy key with its first letter escaped is not recognised |
| HermesSourceTurn.FindFirstCopy | AgentSourceCore/src/hermes-source-turn.ts:134-141 | the loop finds the first copy as defined |
| HermesSourceTurn.FirstCopyIsMinimal | AgentSourceCore/src/hermes-source-turn.ts:133-145 | it is a row with the same identity, and no such row has a lower id |
| HermesSourceTurn.OwnFirstCopy | AgentSourceCore/src/hermes-source-turn.ts:68-71 | a row takes part in the split exactly when no earlier row has its identity |
| HermesSourceTurn.ReadHermesSession | AgentSourceCore/src/hermes-source-turn.ts:62-92 | the reader stages the split of the originals without retracted turns |
| HermesTurns.SessionTurnIsSelected | AgentSourceCore/src/hermes-source-turn.ts:62-197 | what is selected for the turn a user row opens: nothing after an undo; else the query is the redacted trimmed text of that row, the answer the redacted join of the trimmed assistant texts, the end that of the last row that stopped, the tools those of its rows in order; or the reason against it |
| HermesTurns.SplitApart | AgentSourceCore/src/hermes-source-turn.ts:75-83 | a user row and everything up to the next one is one turn, whatever stands around it |
| HermesTurns.MessagesShowRows | AgentSourceCore/src/hermes-source-turn.ts:227-261 | what is staged of a turn is row by row its calls, results and texts, at the time of the row, and nothing else |
| HermesTurns.NamesDiffer | AgentSourceCore/src/hermes-source-turn.ts:162 | turns of one session with different first rows have different names |
| HermesCompaction.SessionShowsConversation | AgentSourceCore/src/hermes-source-turn.ts:62-92 | over any run of appends, compactions and undos, what the reader sees is the conversation in which compaction does nothing |
| HermesCompaction.ChangeShows | AgentSourceCore/src/hermes-source-turn.ts:67-92 | each single change acts on the view as it acts on the conversation |
| HermesCompaction.CompactionNeverShows | AgentSourceCore/src/hermes-source-turn.ts:62-100 | after any run the reader stages what it stages after the run without its compactions, to the message id |
| HermesCompaction.UndoRemovesItsBlock | AgentSourceCore/src/hermes-source-turn.ts:85-91 | after an undo of any session everything is staged as before, without the block of the turn taken back |
| HermesCompaction.TurnsHaveOwnIds | AgentSourceCore/src/hermes-source-turn.ts:75-83 | the turns of a session have different, rising ids, so that block is one |
| HermesCompaction.UndoRetractsOneTurn | AgentSourceCore/src/hermes-source-turn.ts:85-91 | marking a user row keeps the ids and rows of all turns and retracts its own turn only |
| HermesCompaction.UndoIsSeenUnlessCompacted | AgentSourceCore/src/hermes-source-turn.ts:151-155 | taking back a turn is seen exactly when its row was not compacted |
| HermesCompaction.UndoIsStagedUnlessCompacted | AgentSourceCore/src/hermes-source-turn.ts:62-155 | on a session: taking back the turn of any row the reader shows removes exactly its block, and changes nothing that is staged when compaction had archived the row |
| HermesCompaction.ResolveNamesATurn | AgentSourceCore/src/hermes-source-turn.ts:118-131 | an id is found exactly when the user sent that sentence; it is that of the earliest among the most recent rows with the sentence, and of a turn of the split unless that row is a summary |
| OpencodeSourceTurn.CollectParts | AgentSourceCore/src/opencode-source-turn.ts:183-226 | the loop over parts computes the collected text, flags, calls and results |
| OpencodeSourceTurn.FindId | AgentSourceCore/src/opencode-source-turn.ts:259-266 | the first position of the reverted message, or the end |
| OpencodeSourceTurn.ReadOpencodeSession | AgentSourceCore/src/opencode-source-turn.ts:72-163 | the map-and-list reader stages, message by message, the block of each user with all its assistants |
| OpencodeTurns.BlockIsTold | AgentSourceCore/src/opencode-source-turn.ts:120-299 | what is staged of a user message: its words, then reply by reply the calls and the text, and the turn or the reason against it, all told from the parts |
| OpencodeTurns.SelectedTurnIsTold | AgentSourceCore/src/opencode-source-turn.ts:72-181 | what the plugin and the scan select: the query is the user's unwrapped text, the answer the redacted join of the texts of all its assistants in order, the calls and results those of their tool parts; or the reason why there is none |
| OpencodeTurns.VisibleExactly | AgentSourceCore/src/opencode-source-turn.ts:259-266 | the visible messages are those before the reverted one, or all of them |
| OpencodeTurns.RequestIsUnwrapped | AgentSourceCore/src/opencode-source-turn.ts:268-270 | the text between the first opening tag and the first closing tag after it is taken, and without such a pair all of it |
| OpencodeDatabaseSource.ReadLegacy | AgentSourceCore/src/opencode-database-source.ts:45-71 | legacy messages keep their slots; content is shown when its owner was migrated and still exists |
| OpencodeDatabaseSource.CloseAssistants | AgentSourceCore/src/opencode-database-source.ts:100-115 | an idle row closes exactly the assistants of the current turn, in place |
| OpencodeDatabaseSource.ReadMessages | AgentSourceCore/src/opencode-database-source.ts:45-117 | the adapter computes the second generation's messages and parts |
| OpencodeRows.NativeTurnIsCaptured | AgentSourceCore/src/opencode-database-source.ts:72-115 | a user row, the assistant rows after it and its idle row, in any log and with anything after them: what is captured is what these rows say, and it failed exactly when the idle row, or the last answer itself, said so |
| OpencodeRows.ItemSays | AgentSourceCore/src/opencode-database-source.ts:85-98 | a stored item is the part it says; a failed tool's output is its error, if it has one |
| OpencodeIdentity.MigrationKeepsTurns | AgentSourceCore/src/opencode-database-source.ts:45-117 | a legacy turn whose user row survives gives the same block - id, sequence, text, tools, completion - through both adapters, whatever else was deleted or appended |
| OpencodeIdentity.DeletedHistoryStaysHidden | AgentSourceCore/src/opencode-database-source.ts:56-71 | every legacy message keeps its place; one whose owner the second generation deleted keeps nothing else and belongs to no turn |
| OpencodeIdentity.CompleteTurnIsFrozen | AgentSourceCore/src/opencode-database-source.ts:72-115 | a complete native turn is emitted unchanged from every extension of the log |
| OpencodeIdentity.CompleteNeedsIdle | AgentSourceCore/src/opencode-database-source.ts:72-115 | without an idle row after its user row a native turn is never complete |
| OpencodeIdentity.CompleteIsClosed | AgentSourceCore/src/opencode-database-source.ts:100-115 | the user of a complete native turn is not the one that later rows would join |
| OpencodeIdentity.IdleCompletes | AgentSourceCore/src/opencode-database-source.ts:72-115 | a question, an answer and an idle row are such a complete native turn |
| ScanStore.Store.Open | Memory/src/agent-source/scan-store.ts:37-46 | reopening continues after the highest ordinal, with no cached counts |
| ScanStore.Store.Stage | Memory/src/agent-source/scan-store.ts:51-63 | insert, refresh in place or ignore; refused exactly above 64 MiB; the cached counts stay right |
| ScanStore.Store.StageBatch | Memory/src/agent-source/scan-store.ts:64-68 | all messages or none; a failed batch leaves the rows as they were and drops the cached counts |
| ScanStore.Store.Count | Memory/src/agent-source/scan-store.ts:44-48 | the cached count of a source is the number of its rows |
| ScanStore.CountBySource | Memory/src/agent-source/scan-store.ts:45-48 | the counts built from the table are right for every source |
| ScanStore.ViewStageOne | Memory/src/agent-source/scan-store.ts:38-60 | staging a message is staging it among its own source's rows; no other source changes |
| ScanStore.StagingKeepsPlaces | Memory/src/agent-source/scan-store.ts:56-60 | a row never changes its key, its ordinal or its position |
| ScanStore.StagingSurvivesInterruption | Memory/src/agent-source/scan-store.ts:37-68 | once a pass has read the whole stream the rows hold what one undisturbed pass gives: per key the last native message, else the first |
| ScanStore.OrdinalsFollowFirstAppearance | Memory/src/agent-source/scan-store.ts:37-63 | at any moment the keys are those of the longest prefix staged, by first appearance, with increasing ordinals |
| ScanPages.TakePage | Memory/src/agent-source/scan-store.ts:69 | a page ends where it first reaches 500 rows or 8 MiB, or with the rows |
| ScanPages.ReadScanPage | Memory/src/agent-source/runtime.ts:1179-1188 | store and reader stop at the same row; a page is empty only when nothing is left |
| ScanPages.PageIsBounded | Memory/src/agent-source/runtime.ts:1179-1188 | a page has at most 500 rows, only its last row may reach 8 MiB, and it is shorter only at the end |
| ScanPages.RowsFollowKeys | Memory/src/agent-source/scan-store.ts:69 | the rows of a conversation are read in order of time and id, one conversation after the other |
| ScanPages.AfterIsRest | Memory/src/agent-source/scan-store.ts:69 | the rows after a cursor, in keyset order, are the rest of the order |
| ScanPages.ReadAllPages | Memory/src/agent-source/runtime.ts:871-885 | the page loop ends and gives every row once, in keyset order |
| ScanPages.KeyIsStrict | Memory/src/agent-source/scan-store.ts:69 | the keyset order is a strict order |
| ScanPages.RowsApart | Memory/src/agent-source/scan-store.ts:69 | no two staged rows tie in it |
| TurnCut.OrderedTurns | AgentSourceCore/src/index.ts:168-196 | the generator emits the emittable groups of the cut |
| TurnCut.EmittedHasIdentity | AgentSourceCore/src/index.ts:244-252 | an emitted turn always has an identity: its native id or its first message's id |
| TurnCut.Preparation.FlushTurn | Memory/src/agent-source/runtime.ts:1062-1080 | the selection record saved for a turn |
| TurnCut.Preparation.FlushConversation | Memory/src/agent-source/runtime.ts:1081-1093 | the selection record saved for a conversation |
| TurnCut.Preparation.Prepare | Memory/src/agent-source/runtime.ts:1045-1140 | the prepare loop saves the records of its own cut and of every conversation, and selects all conversations when an incremental scan's content changed |
| TurnPasses.ConversationIsRecorded | Memory/src/agent-source/runtime.ts:1081-1093 | a conversation's record names its last message, that message's time and the digest of the run that ends with it, and is selected exactly when that time is at or after the watermark |
| TurnPasses.PagesAreOrdered | Memory/src/agent-source/scan-store.ts:69 | the stream both passes read has distinct messages and ascending times per conversation |
| TurnPasses.CutIsPartition | AgentSourceCore/src/index.ts:168-187 | cutting loses and reorders nothing |
| TurnPasses.EmittedExactly | AgentSourceCore/src/index.ts:168-196 | a group is emitted exactly when a native reader staged it, whatever its state, or it begins with words of the user and ends with words of the assistant |
| TurnPasses.PlainTurnsAreQuestions | AgentSourceCore/src/index.ts:198-203 | without a native reader every question starts a turn and nothing else does |
| TurnPasses.CutsAgreeExactly | Memory/src/agent-source/runtime.ts:1099-1112 | the two passes cut a stream into the same turns exactly when no user message without a turn id was staged after another message without one |
| UnnamedTurns.RecordsAreFoundExactly | Memory/src/agent-source/runtime.ts:902 | every ingested turn finds the record prepared for it exactly when there is no such message |
| UnnamedTurns.UnnamedTurnIgnoresWatermark | Memory/src/agent-source/runtime.ts:896-907 | the turn that begins at such a message is ingested with its conversation, whatever the watermark says |
| UnnamedTurns.WatermarkDecidesExactly | Memory/src/agent-source/runtime.ts:896-907 | the watermark decides about every turn, for every watermark, exactly when there is no such message |
| TurnPasses.KeysAreDistinct | AgentSourceCore/src/index.ts:244-252 | in either pass, turn ids that do not recur apart give every group its own key |
| TurnPasses.EveryTurnIsFound | Memory/src/agent-source/runtime.ts:902 | every turn that is ingested finds the record prepared for it, in tables with any earlier records: its first and last message, their times, and whether the last one is at or after the watermark |
| TurnPasses.IngestedExactlyFromWatermark | Memory/src/agent-source/runtime.ts:896-907 | a scan looks past exactly the turns whose last message is before the watermark, whether or not the content hash changed |
| InitialSelection.TurnMetaTable.SelectInitialTurns | Memory/src/agent-source/scan-store.ts:85-94 | the three updates select exactly the turns with fewer than N newer candidates, and those with fewer than K newer turns in sources without any; other sources keep their flags |
| InitialSelection.GlobalIsTop | Memory/src/agent-source/scan-store.ts:90 | the first N rows of the order are the rows with fewer than N before them |
| InitialSelection.LocalIsTop | Memory/src/agent-source/scan-store.ts:91 | the same for the row numbers inside a source |
| InitialSelection.GlobalIsInitialSegment | Memory/src/agent-source/scan-store.ts:90 | everything newer than a globally selected turn is selected too |
| InitialSelection.SelectedStartNoEarlier | Memory/src/agent-source/scan-store.ts:90 | no turn the global part drops starts later than one it keeps; at the same start the kept one's source and ids come first |
| InitialSelection.KeptStartNoEarlier | Memory/src/agent-source/scan-store.ts:90-91 | the same for all turns that are kept and dropped inside one source |
| InitialSelection.GlobalIsFull | Memory/src/agent-source/scan-store.ts:90 | the global part has N turns, or all candidates when there are fewer |
| InitialSelection.NoSourceIsStarved | Memory/src/agent-source/scan-store.ts:91 | with K at least 1 every source that has turns keeps one |
| InitialSelection.SelectionIsBounded | Memory/src/agent-source/scan-store.ts:89-91 | at most N plus K times the number of missing sources are selected |
| Watermark.CaptureTurn | Memory/src/agent-source/runtime.ts:908-1036 | the verdict on a selected turn - done, cancelled, given up, waiting, or capture unavailable - and exactly which answers are accepted and which fail |
| Watermark.JudgeMeans | Memory/src/agent-source/runtime.ts:930-1036 | which answers of the world count as captured, cancelled, failed, waiting or given up: a submission that threw always fails, and the day of waiting is exact |
| Watermark.IngestStagedMessages | Memory/src/agent-source/runtime.ts:886-1042 | the loop's latestSeenAt, retryFrom, hasUncommittedSkips and errorCount are the tally of the verdicts |
| Watermark.TallyBounds | Memory/src/agent-source/runtime.ts:889-890 | the tally is the latest activity of all turns, the earliest of the waiting ones, and whether a capture failed |
| Watermark.UnsettledHoldsWatermark | Memory/src/agent-source/runtime.ts:376-380 | a turn that is not settled keeps the next watermark at or before its last activity |
| Watermark.StepLosesNothing | Memory/src/agent-source/runtime.ts:365-381 | new activity, a scan, a failed scan and an interrupted scan all keep the property that no turn is lost |
| Watermark.NoTurnIsLost | Memory/src/agent-source/runtime.ts:365-381 | after any run every turn is settled - finished, cancelled, left out at first, given up after 24 hours - by an answer that earns it, or was active at or after the watermark |
| Watermark.FatesAreEarned | Memory/src/agent-source/runtime.ts:886-1042 | in any reachable history, a fate goes back to a scan since the turn's last activity that looked at it: finished means that the submission was stored, existed or was finally rejected, cancelled means that reason, given up means more than 24 hours |
| Watermark.WatermarkExactly | Memory/src/agent-source/runtime.ts:365-381 | after a scan the watermark stays where it was if anything failed or nothing was staged, else is the earliest activity that waits, else the latest of all |
| Watermark.AbandonedOnlyWhenOld | AgentSourceCore/src/source-turn.ts:91-100 | whatever the world answers, a turn is given up only when its last activity is more than 24 hours old |
| Watermark.IngestFollowsHistory | Memory/src/agent-source/runtime.ts:886-1042 | a scan as the code makes it is the scan step of the history: the same item for every turn and the same next watermark |
| Watermark.EmittedAreIdentified | AgentSourceCore/src/index.ts:244-252 | every turn that ingesting emits has an identity, in every stream |
| Watermark.FirstIngestFollowsHistory | Memory/src/agent-source/runtime.ts:340-346 | the same for a first scan, whatever its selection left out |
| ScanJobs.FindReusable | Memory/src/agent-source/runtime.ts:651-677 | a reused store is on disk, not excluded, not done, and fits the request |
| ScanJobs.NewestIsReused | Memory/src/agent-source/runtime.ts:670-672 | no reusable store was updated later than the one chosen |
| ScanJobs.FindReusableScanJob | Memory/src/agent-source/runtime.ts:651-677 | the loop finds that store |
| ScanJobs.Executor.StartScan | Memory/src/agent-source/runtime.ts:205-277 | refused without effect, resumed, or a new run; accepted exactly when nothing is shut down and no other scan is in its way |
| ScanJobs.Executor.PauseScan | Memory/src/agent-source/runtime.ts:435-455 | the whole state after pausing |
| ScanJobs.Executor.CancelScan | Memory/src/agent-source/runtime.ts:457-472 | the whole state after cancelling; the controller stays until its run has unwound |
| ScanJobs.Executor.DisposeAll | Memory/src/agent-source/runtime.ts:637-644 | the whole state after disposal |
| ScanJobs.Executor.OnProgress | Memory/src/agent-source/runtime.ts:322-324 | progress is shown for the current run only, and not while paused |
| ScanJobs.Executor.CommitSource | Memory/src/agent-source/runtime.ts:382-396 | the source state is written only by a run that is neither aborted nor replaced |
| ScanJobs.Executor.OnSettled | Memory/src/agent-source/runtime.ts:251-273 | the handlers of a run's promise as one step |
| ScanJobs.Executor.CloseStore | Memory/src/agent-source/runtime.ts:414-428 | when a run ends its store is removed if it completed or was cancelled |
| ScanJobs.Executor.ForgetCanceled | Memory/src/agent-source/runtime.ts:425-427 | a cancellation is forgotten only after the store was removed |
| ScanJobs.StepKeepsInv | Memory/src/agent-source/runtime.ts:205-277 | every step of every run keeps job ids distinct and the shared slots tied to their run |
| ScanJobs.StaleRunsAreHarmless | Memory/src/agent-source/runtime.ts:251-273 | no step of a cancelled or replaced run changes the visible scan, the pause flag, the request, the source state or another run's controller |
| ScanJobs.RunsKeepToTheirJob | Memory/src/agent-source/runtime.ts:414-429 | a run touches no other job's store or cancellation |
| ScanJobs.CancelMakesStale | Memory/src/agent-source/runtime.ts:457-472 | after a cancellation no live run is the current one |
| ScanJobs.JobsAreIsolated | Memory/src/agent-source/runtime.ts:205-277 | in every interleaving live runs have distinct job ids and stale runs are harmless |
| ScanJobs.ExecutorIsSimple | Memory/src/agent-source/runtime.ts:205-472 | in every interleaving the executor shows what a machine with one scan at a time shows: the scan in force, its progress, its pause, how it ended, and the value of every source |
| ScanJobs.ActiveExactly | Memory/src/agent-source/runtime.ts:205-472 | a run is the scan in force exactly when it was started while none was and nothing ended it since |
| ScanJobs.LastCommitWins | Memory/src/agent-source/runtime.ts:382-396 | in every interleaving the value of a source is that of the last commit made by a run that was in force at that moment, and its first value if there was none |
| ScanJobs.NewRunWorksOnItsJob | Memory/src/agent-source/runtime.ts:651-677 | a new run works on its own request, and on the newest store that it can continue, or else on a new job |
| ScanJobs.StoreOfARun | Memory/src/agent-source/runtime.ts:414-429 | what each step of a run does to its own store and cancellation |
| MigrationState.IdentityIsInjective | Migrations/src/state-store.ts:111-115 | two identities are equal exactly when id and target are |
| MigrationState.ValidateAppliedRecords | Migrations/src/state-store.ts:131-161 | the loop accepts exactly what the definition accepts |
| MigrationState.ValidatedAreValid | Migrations/src/state-store.ts:72-161 | what is accepted has valid fields, targets that match the registry, and no (id, target) twice |
| MigrationState.MatchesExactly | Migrations/src/state-store.ts:117-129 | a record matches exactly when the registry does not know its id, or its last definition has the record's version and the scope of its target |
| MigrationState.RecordRoundTrip | Migrations/src/state-store.ts:72-109 | a printed record reads back as itself exactly when it is valid |
| MigrationState.StateRoundTrip | Migrations/src/state-store.ts:225-252 | a written state reads back as itself exactly when its records are valid and distinct |
| MigrationState.TargetForIsValid | Migrations/src/state-store.ts:181-198 | the target of a migration is valid and has its scope |
| MigrationState.TargetNamesPaths | Migrations/src/state-store.ts:181-198 | two runs have the same target exactly when the paths that the migration is about are the same |
| MigrationState.AppliedMeansRecorded | Migrations/src/state-store.ts:200-215 | a migration counts as applied exactly when it is recorded for this run's target |
| MigrationRegistry.CompareOrder | Migrations/src/registry.ts:47-56 | the loop computes the lexicographic order of version, then sequence |
| MigrationRegistry.OrderIsStrict | Migrations/src/registry.ts:47-56 | that order is irreflexive and transitive |
| MigrationRegistry.OrderIsByVersion | Migrations/src/registry.ts:47-56 | one id precedes another exactly when the first number that differs is smaller, or none differs and its sequence is smaller |
| MigrationRegistry.ValidateMigrationRegistry | Migrations/src/registry.ts:58-129 | accepts exactly the registries with valid entries, distinct ids and every pair in increasing order, comparing neighbours only |
| MigrationRunner.RunMigrations | Migrations/src/runner.ts:195-299 | the loop applies, defers, records and stops as the step function says |
| MigrationRunner.RunSplitsRegistry | Migrations/src/runner.ts:198-299 | a run that is not stopped splits the registry, in order, into applied, skipped and deferred |
| MigrationRunner.RunDoesItsWork | Migrations/src/runner.ts:195-299 | a run does the work of every migration that is neither recorded nor deferred, in order, up to the first failure, and is stopped exactly when there is one |
| MigrationRunner.StepKeepsInv | Migrations/src/runner.ts:206-292 | one migration keeps the file readable and in agreement with the completed work |
| MigrationRunner.RecordedMigrationsRunOnce | Migrations/src/runner.ts:195-299 | over any sequence of runs, targets and crashes the file can be read and records exactly the saved work, recorded work is never done again, and the work done is exactly what each run owed |
| ConfigWriter.ProcessStillFits | Memory/src/config/writer.ts:23-34 | a process inside owns the lock and works on what is in the file, after every step of every process |
| ConfigWriter.StepKeepsInv | Memory/src/config/writer.ts:16-66 | every safe step keeps the file equal to the committed changes in lock order |
| ConfigWriter.WritersSerialise | Memory/src/config/writer.ts:16-66 | while no lock of a live process is removed, at most one process is between lock and release and the file holds the changes applied in lock order |
| ConfigWriter.ExclusionExactly | Memory/src/config/writer.ts:16-66 | in any run, at most one process is ever inside, and the next to try the lock would not join it, exactly when no step removes the lock of a live process |
| ConfigWriter.WritersInTimeSerialise | Memory/src/config/writer.ts:16-66 | in a run in which no lock ever becomes older than two minutes at most one process is inside and the file holds the changes applied in lock order |
| ConfigWriter.UndisturbedWriterCommits | Memory/src/config/writer.ts:16-34 | a process that nobody disturbs changes the file and leaves no lock |
| ConfigWriter.GivesUpExactly | Memory/src/config/writer.ts:54-62 | a process that found the lock taken gives up after five seconds, exactly unless the lock is more than two minutes old |
| ConfigWriter.RemovalIsSafeExactly | Memory/src/config/writer.ts:55-58 | removing a lock that looked stale and taking it keeps one process inside exactly when the removed lock has no live owner at that moment, whatever its age |
| ConfigWriter.StaleLockOfLiveProcessIsShared | Memory/src/config/writer.ts:55-59 | a process that is inside for more than two minutes, in any phase, can lose the lock to a second one, and both are inside |
| ConfigWriter.SecondRemoverTakesAFreshLock | Memory/src/config/writer.ts:55-58 | two processes that saw a crashed one's lock remove it in turn: the second removes a lock made that instant, and both are inside |
| ConfigWriter.TwoRemoversAreReached | Memory/src/config/writer.ts:47-66 | that state is reached from the start by one crash and a wait |
| ConfigWriter.SharedLockLosesAChange | Memory/src/config/writer.ts:24-29 | two processes inside: the slower one overwrites the other's change |
| FolderPath.FolderChain | Knowledge/src/ui/folder-path.ts:4-20 | the longest walk of distinct folders from child to parent, ending at the root, a missing folder or a folder it already has |
| FolderPath.DescendantFolderIds | Knowledge/src/ui/folder-path.ts:48-69 | exactly the non-empty ids at or below the roots, once each, with at most one push per root and folder |
| FolderPath.ChildCountBound | Knowledge/src/ui/folder-path.ts:52-58 | distinct ids have together no more children than there are folders |
| FolderPath.BelowIsUp | Knowledge/src/ui/folder-path.ts:4-69 | an id is below a folder exactly when the folder is reached from it upwards |
| FolderPath.MoveKeepsAcyclic | Knowledge/src/ui/page.tsx:1053-1067 | reparenting keeps the links acyclic exactly when the new parent is not at or below the moved folder |
| FolderPath.OfferedMovesAreSafe | Knowledge/src/ui/page.tsx:1053-1067 | the destinations that are not banned are exactly those that keep the tree a tree |

## Left out

- Times are integers (milliseconds); parsing dates, and texts that are not dates, are not modelled. Text order of canonical timestamps is taken for time order.
- Characters are code points, not UTF-16 units; `"\s"` is the white space of ECMAScript.
- Payloads (`input`, `output`, `error`) are their JSON text; rendering and parsing them are parameters, and so is redaction. Nothing assumes that redaction is idempotent.
- A text field holds "" where the source holds `undefined`, except where the difference shows; a `sourceTurnId` that is the empty text is treated as missing.
- `rowIdentity` joins its fields with NUL characters; the model compares the fields, that is, it assumes that no field contains one.
- `rawMeta.sourceFile`, the legacy ids and display fields of messages are not carried along.
- Canonical content is compared as a record, not through its JSON text.
- SQLite, files and renames are atomic steps; a statement's result is a function of the table. The upgrade of old scan tables is not modelled.
- The message total of `count()` without a source, checkpoints, scan results, analytics and progress counts of ingestion are not modelled.
- `stageStandaloneSource` batches its stream by 500 messages and 8 MiB; the staging theorem holds for any batches, so the batching loop itself is left out.
- Watermark.NoTurnIsLost: assumes what the environment owes, stated in `Fair`: new messages are not older than the watermark, and an undisturbed scan reads at least every turn active since the watermark it was given.
- TurnPasses.IngestedExactlyFromWatermark: assumes of the reader that a conversation is staged throughout or not at all, that turn ids do not recur apart, and that a turn id is not the id of a message without one (`Orderly`); a first scan's selection is the subject of `InitialSelection` and of `FirstIngestFollowsHistory`.
- CodexIngestion.HookTurnIsIngested: assumes that what is paged is orderly (as above), that different lines print different message ids, and that no other file has messages of the same turn.
- CodexTurns.TurnIsCaptured: is about a log in which nothing is open before the turn and its records name no second turn or session (`AtRest`, `OfOneTurn`), and assumes that a rendered tool is never empty.
- HermesTurns.SessionTurnIsSelected: states the turn of the rows that take part; which rows those are is the subject of `FirstCopyIsMinimal` and of `HermesCompaction`.
- OpencodeRows.NativeTurnIsCaptured: is about a session without a revert point and with its own row ids; a revert point cuts the messages first, as `VisibleExactly` says, and then `SelectedTurnIsTold` applies.
- MigrationState.TargetNamesPaths: assumes that SHA-256 does not collide on the texts at hand and that no path contains NUL.
- Skills are ingested by the same scan; their error count enters the watermark as a number.
- ScanJobs.JobsAreIsolated: leaves out the slot `resumePausedScan`, which a job that is already aborted can overwrite; waiting while paused is not a step, so runs are freer than in the source.
- `scanResults` deletes a finished store after its last page, and completed stores are deleted after a while; neither is modelled, and `mutateConnection` and automation are not.
- ConfigWriter.WritersSerialise: is about overlapping calls, so the writer is a machine over file operations and not a method; YAML and file modes are not modelled.
- Migrations run under a lock of an external library; the model takes one run at a time and lets it crash between any two steps.
- The registry's id pattern is a parameter that gives three numbers and a sequence; number overflow is not modelled.
- Claude Code, Cursor and the other sources without a reader above are not modelled. For Claude Code the hook and the scan record different evidence, so the Codex result does not carry over.
- HTTP routes, the user interface except the move dialog's filter, budgets, logging, installers, clustering scores: not part of this model.
