# Verified models of the vst daemon's stateful cores

Dafny models of the Rust code that keeps state across calls in `vst-activity`
and `vst-agents`, with proofs about every run or every input. Each loop or
update-in-place operation is a method, proved against a function or a predicate
of its inputs; the properties are lemmas about those.

| files | component |
|---|---|
| `OmpIndex`, `OmpPath`, `OmpImport`, `OmpEvents`, `OmpChaining`, `OmpStamps`, `OmpSession` | omp history: byte index, active branch, turns, watermarks, what each event says, and what repeated imports of a growing file emit, without and with their model stamps |
| `CodexImport`, `CodexEvents` | codex rollout import, buffered per turn, watermark by ordinal, and what each event says |
| `ClaudeImport`, `ClaudeEvents` | claude transcript import, watermark by line, and what each event says |
| `SkillText` | chat texts with skill tokens: escaping, parsing, serializing |
| `ActivityThrottle`, `ThrottleRuns` | the activity tracker, and every timed run of it with its timers and store writes |
| `CivilCalendar` | day numbers to dates, and the order of the timestamps |
| `AcpShared`, `AcpTurns` | the state of an ACP connection, and every interleaving of overlapping prompt turns on it |
| `IdleTimeout`, `TurnWatchdog` | the two clocks that end a silent turn |
| `DescendantWalk`, `RolloutSearch` | the process walk and the bounded file search, with the decisions taken from it |
| `TailBuffer` | the output buffer of a background terminal |

`dafny verify dfyconfig.toml` checks the whole project.

## What the code promises and does not keep

- Spacing of activity writes (`lib.rs:5-7`): a trailing flush that comes late can
  be followed by the eviction of its own entry, which forgets the flush. The
  promise holds exactly for timers at most `IDLE_EVICT - 2 * THROTTLE` plus one
  nanosecond late (`SpacingIffTimersPrompt`). After `forget`, or a write that
  finds no session, the old timer still fires, on the entry's successor
  (`StaleTimerBreaksSpacing`, with punctual timers). A removal keeps the promise
  exactly when a window has passed since the last snapshot of the session and no
  timer of it is pending (`RemovalKeepsSpacingIffSafe`).
- One failed store write loses the tool for as long as the same tool is reported
  again (`FailedWriteLosesTool`). With writes that end in order and may fail, the
  stored tool is the reported one exactly when the last tool whose write landed is
  the last one sent (`StoredToolAgreesIff`).
- A codex or omp import starts with an empty model, so chained imports stamp
  events differently (`CodexImport.StampIsLost`, `OmpStamps.StampIsLost`).
  `CodexImport.ChainedStamps` and `OmpStamps.ChainedStamps` say exactly when they
  do not.
- An entry appended to an omp turn that was already imported as complete is
  never imported (`LateResultIsLost`); `OmpChaining.ChainedImports` gives the
  exact condition.
- A claude transcript read while its last line is being written counts that line
  as read (`HalfWrittenLineIsLost`), unlike codex and omp. `HalfWrittenLine` says
  exactly when nothing is lost. A transcript that exists and cannot be read sends
  the mark back to the beginning, and the next import repeats what comes before
  the mark (`UnreadableFileRepeats`).
- Codex ordinals that repeat lose lines (`RepeatedOrdinalLosesTurn`). Unless
  chained imports lose one line and repeat another, they agree exactly when they
  lose none, repeat none and read the later ones in the same turns
  (`ChainedImportsIff`); when they do both, only the texts tell
  (`LossHiddenByRepetition`).
- Serializing and parsing skill tokens is promised to be a round trip for any list
  of segments (`skill_tokens.rs:11-13`). It is one exactly for the lists without
  empty or adjacent texts and without a blank or a closing brace in a name
  (`ParseInvertsSerializeIff`).
- A prompt that checked the connection before it was disposed installs its sink
  after it (`SinkAfterDisposal`). Once the channel is closed and the sink taken, a
  sink lives only until its turn's own send (`SinkGoneAfterClose`).
- A prompt whose timeout gave up on the answer gives the gate back while the agent
  still has it, so two prompts can be at the agent without a wait
  (`AbandonedOverlaps`); that, or a full wait, is the only way
  (`OverlapWaitedOrAbandoned`).
- The clamp that keeps the idle poll from spinning (`acp_connection.rs:1321-1322`)
  covers the open-tool limit and not the prompt timeout. A prompt timeout of zero
  makes the poll go round with no wait exactly while a tool with a limit of its own
  is open and below that limit (`RoundAtOnceIff`, `BusyPromptSpins`); any other poll
  decides (`ZeroTimeoutDecides`).

## Model

| member | source | states |
|---|---|---|
| `OmpIndex.ReadUntil` | rust/vst-agents/src/omp_import.rs:82-90 | What one read returns: the bytes up to and including the next newline, or the rest of the file, with no earlier newline in it. |
| `OmpIndex.BuildIndex` | rust/vst-agents/src/omp_import.rs:75-114 | For every file and every parser: the entries are, in file order and disjoint, exactly the newline-terminated lines that are short enough and parse, each with its own byte span. Oversize and malformed lines shift nothing; a last fragment is not indexed. |
| `OmpIndex.NextIndex` | rust/vst-agents/src/omp_import.rs:91-111 | Invariant of the scan: after one more line, kept or skipped, the index is exact up to the end of that line. |
| `OmpIndex.SpanRereads` | rust/vst-agents/src/omp_import.rs:178-184 | Reading a span again, in the file or in any later state of it, gives the bytes that were indexed, with their newline. |
| `OmpIndex.IndexGrows` | rust/vst-agents/src/omp_import.rs:75-114 | The index of a file is a prefix of the index of whatever it grows into; a file has one index. |
| `OmpPath.AnyId` | rust/vst-agents/src/omp_import.rs:120-125 | Whether some entry has a non-empty id. |
| `OmpPath.IdTable` | rust/vst-agents/src/omp_import.rs:126-130 | The table finds the last entry with an id, for every id. |
| `OmpPath.ChooseLeaf` | rust/vst-agents/src/omp_import.rs:131-152 | Of all entries that have an id or name a leaf the last one decides: the leaf is the last entry with the id it names, when that is known; else, and when it names none, the last entry with an id that is no bookkeeping. |
| `OmpPath.WalkUp` | rust/vst-agents/src/omp_import.rs:153-174 | On any links, cyclic ones included: ends at the leaf, every step follows a parent link, no entry repeats, and the branch cannot be extended. |
| `OmpPath.ActivePath` | rust/vst-agents/src/omp_import.rs:119-175 | Returns the active branch of any index, stamped or not: file order without ids, else the maximal branch to the leaf that the last such entry decides, and nothing only when no entry can end a branch. |
| `OmpPath.ActiveIsUnique` | rust/vst-agents/src/omp_import.rs:116-118 | An index has exactly one active branch. |
| `OmpPath.NavigatedChild` | rust/vst-agents/src/omp_import.rs:141-174 | Whatever leaves were named before, an entry written as a child of any entry, and naming none, ends the active branch; the rest of it is its parent's branch. |
| `OmpPath.AppendBeside` | rust/vst-agents/src/omp_import.rs:36-38 | Appending a bookkeeping entry leaves the active branch unchanged. |
| `OmpPath.AppendChild` | rust/vst-agents/src/omp_import.rs:119-175 | Appending a child of the leaf with a fresh id extends the active branch by exactly that entry. |
| `OmpPath.BranchGrows` | rust/vst-agents/src/omp_import.rs:119-175 | After any number of such appends the old active branch is a prefix of the new one. |
| `OmpImport.EmitTurn` | rust/vst-agents/src/omp_import.rs:417-494 | Appends the events of each entry in order, each stamped with the model known at it, and returns the model known after the turn. |
| `OmpImport.TurnEnd` | rust/vst-agents/src/omp_import.rs:572-577 | A turn runs to the next typed user or the end. |
| `OmpImport.EmitTurns` | rust/vst-agents/src/omp_import.rs:557-585 | The loop over turns emits the complete turns up to the first incomplete one and names the user entry it held back at. |
| `OmpImport.ImportBranch` | rust/vst-agents/src/omp_import.rs:524-596 | Start position, turns and watermark together, on every branch and watermark. |
| `OmpImport.ImportReads` | rust/vst-agents/src/omp_import.rs:529-544 | An import reads from the last reset boundary or from just after its watermark, whichever is later, and from the root when there is neither. |
| `OmpImport.ResetHides` | rust/vst-agents/src/omp_import.rs:529-533 | Whatever stands before a boundary, values and all, neither events nor watermark change as long as ids and types do not. |
| `OmpImport.ParsedIs` | rust/vst-agents/src/omp_import.rs:546-555 | Entries are read with their own values, in order. |
| `OmpImport.ParsedHas` | rust/vst-agents/src/omp_import.rs:546-555 | No entry with a value is left out. |
| `OmpEvents.EventsSaid` | rust/vst-agents/src/omp_import.rs:417-494 | Every event was said by an entry: in the turn of the typed user before it, with that user's id, or its position when it has none, and for a compaction its own id; under the model named last; with the time and the contents of the entry. |
| `OmpEvents.ImportSaid` | rust/vst-agents/src/omp_import.rs:524-585 | The same for the events of an import, among the entries from the boundary or the watermark on. |
| `OmpEvents.EntriesSpeak` | rust/vst-agents/src/omp_import.rs:417-494 | Every entry of a turn that is not held back says all it has to say: a prompt, a result, a compaction, each block of an answer, its usage, its error. |
| `OmpEvents.HeldIffOpen` | rust/vst-agents/src/omp_import.rs:279-300 | The last turn, and no other, is held back if and only if it has no session exit and its last answer, if any, did not stop for good or has a call without a result. |
| `OmpChaining.TurnsErased` | rust/vst-agents/src/omp_import.rs:557-585 | The model known when a scan begins shows in nothing but the stamps. |
| `OmpChaining.ScanSplits` | rust/vst-agents/src/omp_import.rs:278-300 | A typed user closes every turn before it: what precedes it is emitted in full, whatever its own completeness. |
| `OmpChaining.HeldChain` | rust/vst-agents/src/omp_import.rs:587-595 | When a turn was held back, importing again from the returned mark re-reads it and nothing else: same events, same mark as one import. |
| `OmpChaining.OpenChain` | rust/vst-agents/src/omp_import.rs:557-595 | When nothing was held back: same events if and only if the tail was kept, same mark if and only if the last turn stays closed. |
| `OmpChaining.ChainedImports` | rust/vst-agents/src/omp_import.rs:504-597 | Importing a branch and then the grown branch emits what one import of the grown branch emits, up to the model, if and only if nothing to emit was written to a turn already emitted; and returns the same watermark if and only if the last turn stays complete. |
| `OmpChaining.ChainedAtUser` | rust/vst-agents/src/omp_import.rs:504-597 | In particular whenever the growth begins with a typed user (up to the model; `OmpStamps.StampedAtUser` for the stamps). |
| `OmpChaining.RepeatedImports` | rust/vst-agents/src/omp_import.rs:504-597 | Any number of imports of a growing branch, each from the mark of the one before, while no state's tail is written to again: the events of one import of the last state, up to the model, and its mark. |
| `OmpChaining.RepeatedAtUsers` | rust/vst-agents/src/omp_import.rs:504-597 | In particular whenever a typed user, or nothing, was written after each of the states imported. |
| `OmpChaining.CursorSeals` | rust/vst-agents/src/omp_import.rs:599-614 | An import from the leaf's id emits exactly the complete turns written since, and nothing when nothing was written. |
| `OmpChaining.LateResultIsLost` | rust/vst-agents/src/omp_import.rs:565-568 | A branch on which a late tool result is never imported. |
| `OmpStamps.TurnsDiffer` | rust/vst-agents/src/omp_import.rs:557-585 | Two different models at the start of a scan show in its events if and only if some entry of a complete turn emits before any entry names a model. |
| `OmpStamps.SplitStamped` | rust/vst-agents/src/omp_import.rs:557-585 | A typed user splits a scan with its stamps: the second part is read with the model the first part named last. |
| `OmpStamps.ChainedStamps` | rust/vst-agents/src/omp_import.rs:557-597 | Chained imports emit exactly what one import emits, stamps included, if and only if the tail was kept and either no model is known where the second import restarts or nothing there is emitted before a model is named. |
| `OmpStamps.StampedAtUser` | rust/vst-agents/src/omp_import.rs:504-597 | When the growth begins with a typed user, the stamps alone decide. |
| `OmpStamps.StampIsLost` | rust/vst-agents/src/omp_import.rs:558-564 | A branch on which chained imports and one import differ in a stamp and in nothing else. |
| `OmpSession.ReadNodes` | rust/vst-agents/src/omp_import.rs:546-555 | Reads every entry of the path again, in order. |
| `OmpSession.ReadSession` | rust/vst-agents/src/omp_import.rs:521-555 | Index, active branch and second pass give the branch of the file. |
| `OmpSession.ImportOmpHistory` | rust/vst-agents/src/omp_import.rs:504-597 | Bytes to events: a missing, unreadable or oversize file echoes the watermark; any other is the import of the file's one active branch. |
| `OmpSession.FileSaid` | rust/vst-agents/src/omp_import.rs:504-585 | From bytes to events: every event has the time and the contents of the value in the bytes of a line on the file's active branch. |
| `OmpSession.OmpCurrentCursor` | rust/vst-agents/src/omp_import.rs:599-614 | The id of the last entry of the active branch; nothing for an unusable file or an empty branch. |
| `OmpSession.OneSession` | rust/vst-agents/src/omp_import.rs:504-555 | A file has one active branch. |
| `OmpSession.SessionGrows` | rust/vst-agents/src/omp_import.rs:75-184 | When a file was appended to in place, the old branch, values included, is a prefix of the new one. |
| `OmpSession.ChainedFileImports` | rust/vst-agents/src/omp_import.rs:504-597 | `OmpChaining.ChainedImports` and `OmpStamps.ChainedStamps` end to end on the bytes of a file and of the file it grew into. |
| `CodexImport.ImportCodexHistory` | rust/vst-agents/src/codex_import.rs:115-378 | The buffered loop emits exactly the events of all lines past the watermark up to the last end line, and returns that line's ordinal; an unreadable file echoes the watermark. |
| `CodexImport.ScanLine` | rust/vst-agents/src/codex_import.rs:135-371 | Invariant of the loop: emitted plus buffered events are the events of all lines read, and the buffer is what follows the last end line. |
| `CodexEvents.ImportSaid` | rust/vst-agents/src/codex_import.rs:164-371 | Every event was said by a line past the watermark and before an end line: in the turn the line names, else in that of the last `task_started` read with no end line since, and in none when there is none; a token count under the model named last, its tokens adding up. |
| `CodexEvents.LinesSpeak` | rust/vst-agents/src/codex_import.rs:164-371 | Every such line says what it has to say; a command, its call and its result. |
| `CodexEvents.UnnumberedMarkCountsLines` | rust/vst-agents/src/codex_import.rs:32-36 | Without ordinals a mark is the number of lines up to the last end line, and the next import reads exactly the lines after it. |
| `CodexEvents.NoMarkReadsAll` | rust/vst-agents/src/codex_import.rs:120-123 | Without a mark, or with one that is no number, every line is read whose ordinal is not negative. |
| `CodexImport.ChainedImports` | rust/vst-agents/src/codex_import.rs:115-378 | For every earlier state of a rollout, a half-written last line included, whose returned mark separates the lines (none up to it is read again, no finished one after it is left behind): import, then import the grown rollout from the mark, equals one import, up to the model, with the same mark. |
| `CodexImport.OrderedSeparates` | rust/vst-agents/src/codex_import.rs:147-150 | Increasing ordinals separate at every mark. |
| `CodexImport.RepeatedImports` | rust/vst-agents/src/codex_import.rs:110-114 | Any number of imports, each from the mark of the one before, with marks that separate: the events of one import of the last state, up to the model, and its mark. |
| `CodexImport.OrderedImports` | rust/vst-agents/src/codex_import.rs:110-114 | In particular a growing rollout with increasing ordinals can be imported any number of times, at any times. |
| `CodexImport.ChainedImportsIff` | rust/vst-agents/src/codex_import.rs:115-378 | Whatever the ordinals, as long as a line is not lost while another is repeated: the chained imports emit what one import emits, up to the model, if and only if no finished line that emits is lost, none up to the mark is emitted again, and the later ones are read in the same turn or name their own. |
| `CodexImport.LossAndRepetition` | rust/vst-agents/src/codex_import.rs:147-150 | Losing a line makes the chained imports emit strictly less than one import, and reading one again strictly more, unless they do both. |
| `CodexImport.LossHiddenByRepetition` | rust/vst-agents/src/codex_import.rs:147-150 | Why not both: a family of rollouts that lose a line and repeat another, and emit the same if and only if the two texts are equal. |
| `CodexImport.ChainedStamps` | rust/vst-agents/src/codex_import.rs:337-366 | They agree exactly, model included, if and only if no end line was read by the first import, it knew no model at the last one, or no finished turn counts tokens before a model is named again. |
| `CodexImport.StampIsLost` | rust/vst-agents/src/codex_import.rs:337-366 | A rollout on which chained imports and one import differ in a stamp and in nothing else. |
| `CodexImport.ReimportEmitsNothingIff` | rust/vst-agents/src/codex_import.rs:110-114 | Importing the same rollout from its own mark changes nothing, if and only if no end line has a larger ordinal than the last one. |
| `CodexImport.RepeatedOrdinalLosesTurn` | rust/vst-agents/src/codex_import.rs:147-150 | Why the ordinals must increase: a rollout with a repeated ordinal that loses an event. |
| `ClaudeImport.ParseClaudeNativeHistory` | rust/vst-agents/src/claude_import.rs:121-513 | The loop returns the events of the lines from the start line on and the number of lines. |
| `ClaudeImport.ReadUser` | rust/vst-agents/src/claude_import.rs:170-403 | A user line: autonomous marker before the meta skip, prompt and results, new turn or none. |
| `ClaudeImport.SortBlocks` | rust/vst-agents/src/claude_import.rs:241-255 | Text blocks and tool results of a message, each in order. |
| `ClaudeImport.AnswerCalls` | rust/vst-agents/src/claude_import.rs:278-400 | Each result takes its edit call out of the table and carries that call's diffs. |
| `ClaudeImport.ReadBlocks` | rust/vst-agents/src/claude_import.rs:411-483 | Events of an assistant's blocks, and the table with its edit calls. |
| `ClaudeImport.ReadAgent` | rust/vst-agents/src/claude_import.rs:404-509 | An assistant line: its blocks, then its usage. |
| `ClaudeEvents.ImportSaid` | rust/vst-agents/src/claude_import.rs:170-509 | Every event was said by a line read: in the turn of the last line that opened one, with its uuid; with the time and the contents of the line; a result with the diffs of the last edit call with its id, if that is unanswered and has any, and with none otherwise. |
| `ClaudeEvents.LinesSpeak` | rust/vst-agents/src/claude_import.rs:170-509 | Every line says all it has to say: its prompt or its marker, each of its results, each block of an answer, its usage. |
| `ClaudeImport.SameFrom` | rust/vst-agents/src/claude_import.rs:127-128 | The rest of a transcript reads the same in two states if and only if no event continues the turn in progress (or the turns are equal) and no result answers an earlier call with different diffs. |
| `ClaudeImport.SplitImports` | rust/vst-agents/src/claude_import.rs:121-513 | Parsing to any cut and then from the cut equals parsing it all, up to fresh ids, if and only if the cut falls neither inside a turn nor between an edit call and its result. |
| `ClaudeImport.SplitBeforeTurn` | rust/vst-agents/src/claude_import.rs:121-513 | In particular at a cut before a line that opens a turn, when no edit call is still unanswered across it. |
| `ClaudeImport.RepeatedImports` | rust/vst-agents/src/claude_import.rs:121-513 | Any number of imports of a growing transcript emit as many events as one import, and the same ones, up to fresh ids, if and only if nothing between two cuts continues a turn, or answers an edit call, from before the first of them. |
| `ClaudeImport.EachDiffOnce` | rust/vst-agents/src/claude_import.rs:294-296 | No two results of an import carry the diff of the same edit call. |
| `ClaudeImport.HalfWrittenLine` | rust/vst-agents/src/claude_import.rs:574-584 | When the last line was half-written at the first import: chained imports equal one import if and only if the completed line emits nothing and a cut after it would lose nothing. |
| `ClaudeImport.HalfWrittenLineIsLost` | rust/vst-agents/src/claude_import.rs:574-584 | A prompt read half-written is counted, so it is never imported. |
| `ClaudeImport.ImportFile` | rust/vst-agents/src/claude_import.rs:596-613 | A missing file echoes the mark; any other is parsed from the mark, and the next mark is its number of lines. |
| `ClaudeImport.UnreadableFileRepeats` | rust/vst-agents/src/claude_import.rs:574-584 | After an existing file that cannot be read, the next import emits at least what one from the mark would, and more if and only if a line before the mark emits. |
| `SkillText.EscapeSkillText` | rust/vst-agents/src/skill_tokens.rs:29-40 | The loop writes every backslash and opening brace escaped. |
| `SkillText.UnescapeSkillText` | rust/vst-agents/src/skill_tokens.rs:94-113 | The loop reads an escape as the character it stands for and leaves any other backslash. |
| `SkillText.EscapeRoundTrip` | rust/vst-agents/src/skill_tokens.rs:11-13 | An escaped text reads as what was typed, and a scan for tokens never meets an open one in it. |
| `SkillText.SerializeSkillSegments` | rust/vst-agents/src/skill_tokens.rs:156-171 | The loop writes the segments one after the other. |
| `SkillText.TryParseToken` | rust/vst-agents/src/skill_tokens.rs:61-91 | The two scans find the token that begins here, with its name, its arguments and its end, or that there is none. |
| `SkillText.ParseSkillSegments` | rust/vst-agents/src/skill_tokens.rs:119-153 | The loop returns the segments of the text, with the pending characters flushed before each token and at the end. |
| `SkillText.ParseInvertsSerializeIff` | rust/vst-agents/src/skill_tokens.rs:8-13 | Parsing a serialized list gives the list back if and only if no text is empty or follows a text and no name has a blank or a closing brace; arguments are free. |
| `SkillText.RewrittenTextParsesAlike` | rust/vst-agents/src/skill_tokens.rs:155-156 | Parsing any text and writing it back keeps its segments. |
| `SkillText.UnescapeIsParse` | rust/vst-agents/src/skill_tokens.rs:93-98 | A text parses as the one text it unescapes to, if and only if it holds no token. |
| `SkillText.ImportedTextHasNoToken` | rust/vst-agents/src/skill_tokens.rs:29-40 | An escaped text parses as what was typed, whatever was typed. |
| `ActivityThrottle.ActivityTracker.constructor` | rust/vst-activity/src/lib.rs:57-65 | Starts with no entries. |
| `ActivityThrottle.ActivityTracker.TakeSnapshot` | rust/vst-activity/src/lib.rs:105-119 | The snapshot and the settled entry; nothing for a clean entry; no other entry changes. |
| `ActivityThrottle.ActivityTracker.EvictIdle` | rust/vst-activity/src/lib.rs:100-103 | Keeps exactly the entries that are armed, dirty or recent, unchanged. |
| `ActivityThrottle.ActivityTracker.RecordInner` | rust/vst-activity/src/lib.rs:156-199 | The whole new map and what is spawned: nothing, a write, or a trailing flush with its delay. |
| `ActivityThrottle.ActivityTracker.TrailingFlush` | rust/vst-activity/src/lib.rs:75-94 | What a timer does when it fires, on a missing entry too. |
| `ActivityThrottle.ActivityTracker.Forget` | rust/vst-activity/src/lib.rs:150-152 | Removes the entry and nothing else. |
| `ActivityThrottle.ActivityTracker.WriteSnapshot` | rust/vst-activity/src/lib.rs:121-139 | A broadcast only when the store updated a row; a missing session loses its entry; an error changes nothing. |
| `ThrottleRuns.NoDirtyEntryWithoutTimer` | rust/vst-activity/src/lib.rs:75-199 | In every reachable state, after removals and stale timers too: a dirty entry has its flag set, a set flag has a pending timer, and no timer is more than a window away. |
| `ThrottleRuns.NoLostActivity` | rust/vst-activity/src/lib.rs:73-198 | Every record is carried by a snapshot of its session, under its own time text or that of a later record, taken at the record or at most a window plus the timers' lateness after it, unless its entry is removed first. |
| `ThrottleRuns.SnapshotsAreReported` | rust/vst-activity/src/lib.rs:105-190 | In every run a snapshot names a project, a text and a tool that were reported for its own session. |
| `ThrottleRuns.MemoryEvicted` | rust/vst-activity/src/lib.rs:100-103 | Eviction forgets a flush only when a full window has passed since. |
| `ThrottleRuns.SnapshotsAreSpaced` | rust/vst-activity/src/lib.rs:4-25 | Snapshots of a session that is only removed when that is safe are at least THROTTLE apart, across eviction and re-creation of its entry, when timers are at most MAX_LATE late. |
| `ThrottleRuns.SpacingIffTimersPrompt` | rust/vst-activity/src/lib.rs:73-103 | That bound is exact: the spacing holds in every run if and only if timers are at most MAX_LATE late. |
| `ThrottleRuns.LateTimerBreaksSpacing` | rust/vst-activity/src/lib.rs:75-103 | A run in which a late flush evicts its entry, for every larger lateness. |
| `ThrottleRuns.RemovalKeepsSpacingIffSafe` | rust/vst-activity/src/lib.rs:134-152 | After any run whose removals of a session were safe, one more removal keeps every continuation spaced if and only if no timer of the session is pending and a window has passed since its last snapshot. |
| `ThrottleRuns.StaleTimerBreaksSpacing` | rust/vst-activity/src/lib.rs:75-85 | A run with punctual timers and a `forget` in which two later snapshots are one nanosecond apart. |
| `ThrottleRuns.StoredToolAgreesIff` | rust/vst-activity/src/lib.rs:97-199 | When writes end in order, failed or not: at all times the last tool reported waits in its entry with a flush armed, or was the last one sent; and once no write is in flight the store holds it if and only if the last tool whose write landed is the last one sent. |
| `ThrottleRuns.StoredToolAgrees` | rust/vst-activity/src/lib.rs:97-199 | In particular, once no write is in flight, the stored tool is the last one reported when no write of the session failed. |
| `ThrottleRuns.FailedWriteLosesTool` | rust/vst-activity/src/lib.rs:112-177 | A run in which one failed write loses the tool although it is reported again. |
| `CivilCalendar.CivilIsTheCalendar` | rust/vst-activity/src/lib.rs:215-227 | For every integer the result is a valid date of the proleptic Gregorian calendar, and counting years, months and days to it gives the input back. |
| `CivilCalendar.CivilInvertsDayNumber` | rust/vst-activity/src/lib.rs:215-227 | Every valid date is reached, from the day the calendar gives it. |
| `CivilCalendar.CivilEpoch` | rust/vst-activity/src/lib.rs:215 | Day 0 is 1970-01-01. |
| `CivilCalendar.CivilSuccessor` | rust/vst-activity/src/lib.rs:215-227 | The date of the next day is the next date. |
| `CivilCalendar.CivilKeepsOrder` | rust/vst-activity/src/lib.rs:215-227 | Strictly increasing and injective, both ways. |
| `CivilCalendar.CivilFitsWords` | rust/vst-activity/src/lib.rs:216-226 | When the first addition fits a signed 64-bit word, so does every later intermediate value, and the casts to `u32` keep month and day. |
| `CivilCalendar.FourDigitDays` | rust/vst-activity/src/lib.rs:208-210 | The days since the epoch whose year has four digits are exactly those up to 9999-12-31. |
| `CivilCalendar.DateTextKeepsOrder` | rust/vst-activity/src/lib.rs:209-210 | For four-digit years the date texts have one length and sort as their dates. |
| `CivilCalendar.IsoKeepsOrder` | rust/vst-activity/src/lib.rs:202-213 | Up to the end of the year 9999 the timestamps sort as their times, to the millisecond (section 5.1 of RFC 3339). |
| `AcpShared.OpenIffLastSaysOpen` | rust/vst-agents/src/acp_connection.rs:129-160 | After any updates a tool is open if and only if the last update that says whether it is, says open. |
| `AcpShared.Shared.constructor` | rust/vst-agents/src/acp_connection.rs:251-269 | No sinks, no session, alive, no open tools. |
| `AcpShared.Shared.ApplyToolUpdate` | rust/vst-agents/src/acp_connection.rs:134-160 | The open set after an update, by kind and status. |
| `AcpShared.Shared.Notify` | rust/vst-agents/src/acp_connection.rs:603-627 | With a sink: the update goes there, the clock shows now, and tools change for the current session only; without one nothing changes. |
| `AcpShared.Shared.InstallSink` | rust/vst-agents/src/acp_connection.rs:475-478 | The turn's sink replaces any other. |
| `AcpShared.Shared.ReleaseTurnSink` | rust/vst-agents/src/acp_connection.rs:1291-1301 | The turn's own sink and the open tools go together; another turn's stay. |
| `AcpShared.Shared.ClearOpenTools` | rust/vst-agents/src/acp_connection.rs:1275 | Empties the open set and nothing else. |
| `AcpShared.Shared.Dispose` | rust/vst-agents/src/acp_connection.rs:549-564 | The first call clears everything; later ones change nothing. |
| `AcpTurns.SinkOwnership` | rust/vst-agents/src/acp_connection.rs:1014-1062 | In every interleaving: the sink is absent or the newest turn's; while the connection is usable it is installed exactly while that turn runs, and tools are open only under an installed sink. |
| `AcpTurns.StaleReleaseIsHarmless` | rust/vst-agents/src/acp_connection.rs:1291-1301 | The release of any turn but the newest changes neither sink nor open tools. |
| `AcpTurns.SinkAfterDisposal` | rust/vst-agents/src/acp_connection.rs:464-489 | Why the connection must be usable: an interleaving that ends disposed with a sink installed. |
| `AcpTurns.SinkGoneAfterClose` | rust/vst-agents/src/acp_connection.rs:464-489 | Once the channel is closed and the sink taken, in every continuation: a sink is the newest turn's, and only between its install and its send; with no turn about to send there is none, and any turn's send leaves none. |
| `AcpTurns.OneDestination` | rust/vst-agents/src/acp_connection.rs:601-641 | Every update reaches at most one place, and a prompt's sink only as that of the newest turn. |
| `AcpTurns.NothingUndelivered` | rust/vst-agents/src/acp_connection.rs:601-641 | In every run no update that finds a sink is lost, those set aside go out of band exactly when they name the current session and someone listens, and deliveries keep the order of the steps. |
| `AcpTurns.ClockIsLastRestart` | rust/vst-agents/src/acp_connection.rs:602-612 | In every run the idle clock shows the time of the last request or update under a sink, and nothing else moves it. |
| `AcpTurns.IdleTimeoutSeesClock` | rust/vst-agents/src/acp_connection.rs:1335-1343 | From a prompt's request on, `IdleTimeout`'s last activity over the times of those steps is what this clock shows. |
| `AcpTurns.OpenIffLastSaidOpen` | rust/vst-agents/src/acp_connection.rs:613-624 | In every run a tool is open if and only if the last step that says so says open: an update for the current session under a sink, a clearing, or the release of the sink's turn. |
| `AcpTurns.OverlapWaitedForGate` | rust/vst-agents/src/acp_connection.rs:1029-1054 | Two turns wait for an answer together only if one of them waited the full bound for the gate. |
| `AcpTurns.OverlapWaitedOrAbandoned` | rust/vst-agents/src/acp_connection.rs:1029-1054 | The agent has two prompts together only if one of their turns waited the full bound for the gate, or gave up on its answer after the idle timeout. |
| `AcpTurns.AbandonedOverlaps` | rust/vst-agents/src/acp_connection.rs:1343-1353 | An interleaving in which the agent has two prompts and neither waited, because the first was given up on. |
| `IdleTimeout.SendPromptInner` | rust/vst-agents/src/acp_connection.rs:1303-1359 | The poll loop's outcome, for any updates, open tools, answer and poll times. |
| `IdleTimeout.DecisionIs` | rust/vst-agents/src/acp_connection.rs:1327-1358 | The outcome is that of the first poll that sees the answer or finds the limit reached: an open tool's own limit, else the prompt's; after a timeout the error waits for the answer or for the grace, whichever ends first. |
| `IdleTimeout.SteadyUpdatesNeverTimeOut` | rust/vst-agents/src/acp_connection.rs:1258-1263 | Updates with gaps below every limit that applies keep a prompt alive for any number of polls. |
| `IdleTimeout.TimeoutWindow` | rust/vst-agents/src/acp_connection.rs:1303-1359 | A timeout comes only after the limit since the last update, and is decided at most the largest limit since then plus one poll later; the error is back within the grace, and not before its end unless the answer came. |
| `IdleTimeout.SilenceTimesOut` | rust/vst-agents/src/acp_connection.rs:1343-1353 | An unanswered prompt times out by the first poll that ends a limit after the last update. |
| `IdleTimeout.DoSendPrompt` | rust/vst-agents/src/acp_connection.rs:1264-1289 | The poll loop under the limits as coded: the default hour, and the open-tool limit between 1 ms and seven days. |
| `IdleTimeout.RoundAtOnceIff` | rust/vst-agents/src/acp_connection.rs:1321-1353 | A poll neither answers nor times out and waits for nothing before the next, if and only if the prompt timeout is zero and a tool with a limit of its own is open and silent for less than that. |
| `IdleTimeout.ZeroTimeoutDecides` | rust/vst-agents/src/acp_connection.rs:1335-1353 | Without such a tool a prompt timeout of zero is decided by the first poll. |
| `IdleTimeout.BusyPromptSpins` | rust/vst-agents/src/acp_connection.rs:1321-1326 | An unanswered prompt with an open tool on which any number of polls go round at once. |
| `IdleTimeout.LongestSilence` | rust/vst-agents/src/acp_connection.rs:1264-1359 | A prompt that times out is back within the longest of its limits, one poll and the grace after its last update, whatever tools are open; so within the longer of its timeout and seven days, 5 s and 45 s. |
| `TurnWatchdog.Drain` | rust/vst-agents/src/acp_run_turn.rs:183-220 | Streams the events of all updates before the wake that ends the loop, each in its place, and nothing else. |
| `TurnWatchdog.RunTurn` | rust/vst-agents/src/acp_run_turn.rs:183-290 | The whole output of the turn and the time it is over: after the streamed events a result with the answer's usage, its usage event, and its refusal last, when the answer came in time; a bare result when a fired watchdog waited out the grace; the answer's error when it failed. |
| `TurnWatchdog.WatchdogWindow` | rust/vst-agents/src/acp_run_turn.rs:183-206 | The watchdog ends a turn only after an idle window without updates and with no tool open, and at most one window after the later of the last update and the time from which no tool was open. |
| `TurnWatchdog.WatchdogIsDue` | rust/vst-agents/src/acp_run_turn.rs:191-202 | While the turn goes on, its pending deadline is never later than that. |
| `TurnWatchdog.FiredTurnCloses` | rust/vst-agents/src/acp_run_turn.rs:222-230 | Once it fires the turn is over within the cancel grace, with a result. |
| `TurnWatchdog.OutcomesShape` | rust/vst-agents/src/acp_run_turn.rs:255-289 | A refusal error follows the result if and only if refusals are errors and the turn was refused. |
| `TurnWatchdog.TurnEndsInShape` | rust/vst-agents/src/acp_run_turn.rs:222-290 | A turn ends without a further event if and only if it was cancelled, or failed after a cancel; with one error if and only if it failed without one; and otherwise with one result, the usage event before it when it has usage, and only a refusal after it. |
| `TurnWatchdog.TurnTellsAnswer` | rust/vst-agents/src/acp_run_turn.rs:222-289 | What the closing events tell of the answer, and when the turn is over, for every ending. |
| `DescendantWalk.ChildrenTable` | rust/vst-agents/src/acp_connection.rs:914-926 | The table lists, for every parent, its children in the order read. |
| `DescendantWalk.PushKids` | rust/vst-agents/src/acp_connection.rs:941-946 | Appends the children other than the daemon to output and stack alike. |
| `DescendantWalk.FirstTagged` | rust/vst-agents/src/acp_connection.rs:928-934 | The root is the first child of the daemon, in the order read, carrying the tag, and there is none only if no child carries it. |
| `DescendantWalk.KidsAreNew` | rust/vst-agents/src/acp_connection.rs:938-947 | Why no visited set is needed: the children of the process popped next were never found before, cycles or not. |
| `DescendantWalk.WalkFrom` | rust/vst-agents/src/acp_connection.rs:938-948 | Terminates on every snapshot and returns exactly the descendants of the root that parent links reach without passing the daemon, each once. |
| `DescendantWalk.SnapshotDescendants` | rust/vst-agents/src/acp_connection.rs:891-949 | The same from the snapshot and the tags; nothing without a tagged child. |
| `RolloutSearch.ScanListing` | rust/vst-agents/src/codex_import.rs:429-451 | One listing: a match is a rollout of the id; without one, every subdirectory in bound is pushed and every hidden entry noticed. |
| `RolloutSearch.ThreadIdIs` | rust/vst-agents/src/native_chat_id.rs:118-133 | A file is a rollout of an id if and only if its name ends in the id, 36 hexadecimal digits and dashes, and the suffix. |
| `RolloutSearch.SearchRollout` | rust/vst-agents/src/codex_import.rs:414-458 | On every finite tree with links and unreadable parts: Found names a rollout of the id within the depth bound; NotFound proves there is none and nothing was hidden; Unsure says nothing was found but something was hidden. |
| `RolloutSearch.TruthIsUnique` | rust/vst-agents/src/codex_import.rs:403-409 | That meaning determines the answer. |
| `RolloutSearch.FindRollout` | rust/vst-agents/src/codex_import.rs:460-477 | Over both roots: Found if and only if a rollout exists, NotFound if and only if absence is proven. |
| `RolloutSearch.RolloutExists` | rust/vst-agents/src/codex.rs:128-140 | False if and only if absence is proven. |
| `RolloutSearch.ResumableChatId` | rust/vst-agents/src/codex.rs:142-154 | The stored id unless it is empty or proven absent, then the recorded one likewise, else none. |
| `RolloutSearch.RefreshChatIdOnToggle` | rust/vst-agents/src/codex.rs:436-460 | A stored id is replaced if and only if it is proven absent and a different recorded id is not. |
| `TailBuffer.OutputState.constructor` | rust/vst-agents/src/acp_terminal_manager.rs:74-81 | Starts empty and not truncated. |
| `TailBuffer.OutputState.Push` | rust/vst-agents/src/acp_terminal_manager.rs:83-102 | The backward scan keeps the shortest tail with `limit` bytes once the limit is passed. |
| `TailBuffer.OutputState.Render` | rust/vst-agents/src/acp_terminal_manager.rs:104-109 | All kept bytes in order, and the flag. |
| `TailBuffer.CutIsShortest` | rust/vst-agents/src/acp_terminal_manager.rs:88-98 | A tail has `limit` bytes if and only if it begins at the cut or before. |
| `TailBuffer.PushKeepsTail` | rust/vst-agents/src/acp_terminal_manager.rs:83-102 | For any history and limit of at least 1: trimming on every push keeps what trimming once at the end keeps; the byte count is theirs; truncated if and only if the history exceeds the limit. |
| `TailBuffer.LastBytesKept` | rust/vst-agents/src/acp_terminal_manager.rs:88-109 | What is shown ends with the last `limit` bytes ever pushed, and without its first chunk would not. |
| `TailBuffer.TrimsLikeOnceIff` | rust/vst-agents/src/acp_terminal_manager.rs:83-109 | At every limit, 0 included, the text shown is that of trimming once and truncated says whether the history exceeds the limit; the chunks kept are the same too, unless the limit is 0 and a history with bytes ends in two empty chunks. |
| `TailBuffer.ReaderTrimsLikeOnce` | rust/vst-proc/src/pty.rs:508-560 | So for what the PTY reader sends, with no two empty chunks in a row, at every limit. |

## Left out

- OmpChaining.ChainedImports: assumes present and unique ids on the branch, no new reset boundary, and a watermark that no later entry takes as its id; files without ids (`legacy-` turn ids) are imported but not chained.
- OmpChaining.RepeatedImports: up to the model stamp, and one way, as the condition is per import; so for `CodexImport.RepeatedImports`.
- OmpChaining.ChainedAtUser: up to the model stamp; `OmpStamps.StampedAtUser` has the stamps.
- OmpSession.ChainedFileImports: the file grows by bookkeeping entries and children of the leaf, with fresh ids and without active-leaf stamps; tree navigation changes the branch, and nothing is then promised.
- OmpImport.EmitTurn: a tool call's arguments that are no object are not modelled, and four ASCII characters are the blank ones.
- CodexImport.ChainedImportsIff: nothing is said when one line is lost and another repeated, where the texts decide (`LossHiddenByRepetition`).
- ClaudeImport.ParseClaudeNativeHistory: `strip_inline_base64` has been applied to tool inputs and results before the model sees them.
- AcpShared.Shared.Dispose: one step here, five locks in the program, which AcpTurns takes as separate steps; the sink of extension notifications and the observer of file writes, cleared with the rest, are not modelled.
- DescendantWalk.SnapshotDescendants: a snapshot lists each process once, as a directory does.
- ThrottleRuns.StoredToolAgreesIff: writes of a session end in the order of their snapshots, and the session is not removed.
- AcpTurns.AbandonedOverlaps: when the timeout gives up is free in this system; `IdleTimeout` says when it does.
- IdleTimeout.SendPromptInner: updates arrive at given times; the text of the errors is not modelled.
- TailBuffer.ReaderTrimsLikeOnce: the PTY reader itself is not part of this model; that it sends no two empty chunks in a row is assumed.
- TurnWatchdog.RunTurn: the result channel answers at some time; after the update stream ended the program waits for it without a bound. Connecting and session set-up before the prompt are not modelled.
- JSON: lines and entries are datatypes with the fields the code branches on, and the omp parsers are parameters. Duplicate keys and number formats are not modelled.
- Wall-clock texts and random ids inside events: a missing timestamp stays missing, a fresh turn id is named after its line.
- The watermark texts of codex and claude as decimal text.
- The activity tracker reads the clock before it takes its lock and twice in a trailing flush; a step here has one time.
- Overflow of the first addition in `civil_from_days`: days are integers, and `CivilFitsWords` says when words suffice.
- The file system and `/proc` change while they are read: a tree or a snapshot is one value.
- `kill_descendants`, pid reuse, process spawning and PTYs.
- A spawned prompt that is dropped midway releases the gate without releasing its sink; here it only stops.
- `session/new`, `session/load` (but for their clearing of open tools), steering, extension notifications, permission, file and terminal requests.
- The opencode stream parser and the listener registry of `json_agent_stream.rs`: they would only add easy members.
- `normalize.rs`, launch arguments, hook scripts, limit probes and the user interface.
