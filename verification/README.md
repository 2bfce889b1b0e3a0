# Crash-safe protocols of the workspace orchestrator

A Dafny model of the parts of the orchestrator that promise to survive a crash,
a retry or a second process, and proofs of what they promise.

`dafny verify dfyconfig.toml` checks everything. A crash is modelled as an
operation stopped after any of its atomic writes (for the event log: after any
byte of a write), a run as any sequence of operations so stopped. Python's
strings are sequences of code points in the event codec and Dafny strings
elsewhere; timestamps of gates are integers; a fingerprint or a signature is the
content it was taken of, so that equal ones mean equal contents.

| files | what they model |
|---|---|
| Utf8, JsonNumbers, JsonStrings, JsonCodec, JsonTheorems, JsonGrammar, JsonReading | the JSON the log is written in: encoder, decoder, their laws, and the grammar they are held against |
| AgentEvents, EventCodec, EventMeaning | events as dictionaries and as lines, key by key |
| LogScan, LogCrash, EventStore | one run's log file, its repair, what crashes leave, and the store itself |
| Mirror, MirrorMeaning | copying an attempt's log into its Execution's log through a persisted cursor |
| Formats | the formats of ids and hashes as regular expressions, and white space |
| GateRecords, GateChain, GateTheorems, GateMeaning | gate, activation and review records, the validation of a chain of gates, what a validated chain guarantees, and what exactly is accepted |
| GateOps, GateRuns, GateLineage, GateFrames, GateReopen, GatePending, GateAcceptance, GateService | the operations that write gate files, what every run of them keeps, what later worlds keep valid, reopening as a transaction, and the operations step by step |
| Transition, TransitionCrash, TransitionTheorems, TransitionTakeover, PhaseHistory, TransitionRuns, TransitionAcceptance, TransitionService | moving a requirement to its next phase: crashes, takeovers, and the phase over whole runs |
| Deployment, DeploymentTheorems, DeploymentMeaning, DeploymentService | deploying at most once, and completing on the strength of it |
| Replies, ReplyTheorems, Workbench, ReplyMeaning | replying to an Execution at most once |
| CommandQueue, RetryCycles, CommandQueues, QueueMeaning | the dashboard's command queue under interleaving |
| Ownership, OwnershipLedger, OwnershipMeaning | the ledger of claimed task cards, and the first engine's books beside it |
| Strings, TextLines, SectionNames, Markdown, MarkdownLaws, MarkdownWrites, SectionMeaning | sections of the workspace documents as a lens |

The files named Meaning, Acceptance and Grammar say when each operation is accepted
and what it leaves, in terms of the records, texts and fields themselves, and
prove that the definitions the other files work with come to exactly that.

Where a promise turned out not to hold everywhere, the code is modelled as it is
and the limit is proved:

- `replace_section` reads back what it wrote exactly where nothing comes after
  the section, or a heading does and no later section has its name
  (`MarkdownLaws.ReadsBack`): a `## ` line without a name ends the section being
  replaced but is not read as a heading (`MarkdownLaws.UnnamedLineComesBack`).
- Replacing a section leaves the others alone for every body exactly in documents
  that do not end in a heading without a name, or in which the heading above that
  end is of the name replaced and a nameless section further up is empty too
  (`MarkdownLaws.OthersUnchanged`); `MarkdownLaws.ScopeIsChanged` is a document
  of the other kind.
- Writing twice equals writing the last text across the two names of a section
  exactly when both names find the same line or neither finds one, and what
  follows the section survives (`MarkdownWrites.LastWriteWins`). The Chinese name
  does not find an English heading: in a document `## Goal`, a write under `目标`
  followed by one under `Goal` loses the second (`MarkdownWrites.GoalIsLost`).
- Retries of commands can form a cycle: a mark closes one exactly when the chain
  of retries from the command retried leads to the row of the retry id
  (`RetryCycles.MarkCycles`, over runs `RetryCycles.CyclesComeFromMarks`, for one
  call `RetryCycles.RetryCloses`); a retry under the command's own id is the
  shortest (`RetryCycles.RetryOfItself`). With an empty retry id a replay is not
  recognised (`CommandQueue.EmptyRetryIdRepeats`).
- The file names of deployments and completions are joined by dashes and collide
  (`DeploymentTheorems.KeysCollide`). For deployments the receipt is compared
  with the caller, so nothing is confused. `complete` does not compare: it hands
  out the caller's own token exactly when nothing, or a completion of the same
  work, was first recorded under the name (`DeploymentTheorems.OwnTokenOrFirst`),
  and else another's (`DeploymentTheorems.TokenOfAnother`), though never among
  well-formed names (`DeploymentTheorems.TokenIsTheCallers`).
- A reply that was taken can be stored as a failure, exactly when the note of its
  delivery could not be written and the error handler's record could
  (`ReplyTheorems.StoredOperationTells`, `ReplyTheorems.FailureAfterDelivery`).
- A delegation notes its card as dispatched without asking the ownership ledger:
  the note bears a claimed name exactly when a plan claimed the card between its
  creation and the note (`Ownership.NotesAreApart`, `Ownership.DelegatedTooLate`).
  The task being run is apart all the same (`Ownership.NeverBothEngines`).
- A card whose own id is empty makes the ownership ledger unreadable
  (`Ownership.CommitReadable`).
- `record_review_from_payload` checks the review before it takes the lock; the
  model lets everything change in between (`GateOps.ReviewPlan` takes what was
  seen separately from what is there).

## Model

| member | source | states |
|---|---|---|
| Utf8.RoundTrip | src/workspace_orchestrator/agent_runtime/events.py:215-221 | Strict UTF-8: decoding gives back every text without a lone surrogate, whatever follows. |
| Utf8.Torn | src/workspace_orchestrator/agent_runtime/events.py:243-248 | A cut text decodes only if it was cut between characters, and then to the prefix it is. |
| JsonNumbers.EncodedIntIsLexeme | src/workspace_orchestrator/agent_runtime/events.py:215-221 | An integer is written as a JSON integer token whose value is that integer. |
| JsonNumbers.ScanStops | src/workspace_orchestrator/agent_runtime/events.py:244-248 | A number token followed by anything that cannot continue it is scanned to exactly its end. |
| JsonStrings.CharsRoundTrip | src/workspace_orchestrator/agent_runtime/events.py:215-248 | Escaping and unescaping a string give it back, and stop at its closing quote. |
| JsonStrings.CharsTorn | src/workspace_orchestrator/agent_runtime/events.py:244-248 | A string body cut anywhere is a syntax error, never a shorter string. |
| JsonCodec.GetPut | src/workspace_orchestrator/agent_runtime/events.py:235-241 | Setting a key of a sorted dictionary changes that key only. |
| JsonCodec.SameFields | src/workspace_orchestrator/agent_runtime/events.py:217-219 | Two key-sorted dictionaries with the same lookups are the same dictionary, so sort_keys fixes one text. |
| JsonCodec.SortedPairs | src/workspace_orchestrator/agent_runtime/events.py:235-241 | The duplicate-key check accepts the pairs of every written dictionary and rebuilds it. |
| JsonTheorems.ValueRoundTrip | src/workspace_orchestrator/agent_runtime/events.py:215-248 | Every JSON value is read back from its text and nothing after it is consumed. |
| JsonTheorems.DecodeUndoesEncode | src/workspace_orchestrator/agent_runtime/events.py:215-248 | Decoding the bytes of any encodable value yields that value. |
| JsonTheorems.EncodeInjective | src/workspace_orchestrator/agent_runtime/events.py:215-221 | Equal bytes mean equal values. |
| JsonTheorems.NoRawNewline | src/workspace_orchestrator/agent_runtime/events.py:57-58 | The encoder never writes byte 10, so a line end in the file is always a record boundary (section 7 of RFC 8259). |
| JsonTheorems.NoProperPrefixDecodes | src/workspace_orchestrator/agent_runtime/events.py:178-187 | No proper prefix of an encoded object decodes: a torn record is always recognised as torn (section 4 of RFC 8259). |
| JsonTheorems.EncodableText | src/workspace_orchestrator/agent_runtime/events.py:217-221 | Encoding fails if and only if some string of the value holds a lone surrogate. |
| Utf8.DecodeIs | src/workspace_orchestrator/agent_runtime/events.py:244-248 | Bytes are read as a text if and only if they are its UTF-8 encoding: no overlong, surrogate or torn form is. |
| JsonGrammar.DocumentIs | src/workspace_orchestrator/agent_runtime/events.py:244-248 | A text is read as a document if and only if it is a spelling of that document in the grammar of RFC 8259: any white space, any escapes, any number forms, members in any order without repetition. |
| JsonReading.WellFormedIs | src/workspace_orchestrator/agent_runtime/events.py:215-248 | The values the codec is proved about are exactly those that some text is read as. |
| JsonReading.ReadAgain | src/workspace_orchestrator/agent_runtime/events.py:215-248 | A document read from any bytes, in any spelling, can be written unless a text in it holds half of a surrogate pair, and is then read as the same document. |
| JsonReading.HalvesAre | src/workspace_orchestrator/agent_runtime/events.py:215-221 | A text can be encoded exactly when no character of it is half of a surrogate pair. |
| JsonGrammar.TextWritten | src/workspace_orchestrator/agent_runtime/events.py:215-221 | A document is written without white space, with single commas and colons, its members in the order of their names. |
| JsonGrammar.EscapesWritten | src/workspace_orchestrator/agent_runtime/events.py:215-221 | Which characters are escaped in a written string, and how: quote, backslash and control characters, and nothing else. |
| JsonGrammar.ConstantsRefused | src/workspace_orchestrator/agent_runtime/events.py:224-227 | NaN and the infinities are refused wherever a value is read, and not taken for a torn line. |
| JsonGrammar.RepeatsRefused | src/workspace_orchestrator/agent_runtime/events.py:235-241 | An object that names a member twice is refused. |
| AgentEvents.FromToDict | src/workspace_orchestrator/agent_runtime/contracts.py:239-304 | from_dict undoes to_dict on every valid event, unknown extra fields included. |
| AgentEvents.ToFromDict | src/workspace_orchestrator/agent_runtime/contracts.py:239-304 | to_dict after from_dict answers every lookup as the dictionary read, with the defaults filled in. |
| AgentEvents.ReadIsValid | src/workspace_orchestrator/agent_runtime/contracts.py:258-304 | Whatever from_dict accepts is a valid event. |
| AgentEvents.ExtraKept | src/workspace_orchestrator/agent_runtime/contracts.py:239-256 | The unknown keys of the written dictionary are exactly the extra fields. |
| AgentEvents.NameInjective | src/workspace_orchestrator/agent_runtime/contracts.py:239-256 | No two fields share a key. |
| EventMeaning.FromDictIs | src/workspace_orchestrator/agent_runtime/contracts.py:258-304 | from_dict reads a document as an event if and only if the document has, under each of the thirteen keys by its own name, what the event has in that field, the texts not blank, and the event keeps every other key. |
| EventMeaning.ToDictIs | src/workspace_orchestrator/agent_runtime/contracts.py:239-256 | to_dict writes each field under its own key, null where there is none, and the extra fields as they are. |
| EventCodec.EventRoundTrip | src/workspace_orchestrator/agent_runtime/events.py:215-263 | A stored line decodes to the event it was written for and holds no newline. |
| EventCodec.EventTorn | src/workspace_orchestrator/agent_runtime/events.py:178-187 | A stored line cut at any byte is not JSON. |
| EventCodec.IdentityIsContent | src/workspace_orchestrator/agent_runtime/events.py:278-281 | Two storable events have the same identity if and only if they differ at most in their sequence number. |
| EventCodec.Renumbered | src/workspace_orchestrator/agent_runtime/events.py:54-56 | Numbering a storable event keeps it storable. |
| EventCodec.CopyFacts | src/workspace_orchestrator/agent_runtime/events.py:40-41 | The defensive copy append takes writes the same bytes as the event given, and is that event whenever it is valid. |
| EventCodec.EncodableEvent | src/workspace_orchestrator/agent_runtime/events.py:215-221 | A valid event can be written if and only if none of its texts holds a lone surrogate. |
| EventMeaning.LineIs | src/workspace_orchestrator/agent_runtime/events.py:244-265 | A line is read as an event if and only if it is the UTF-8 encoding of a JSON object that describes the event. |
| EventMeaning.ReadIsStorable | src/workspace_orchestrator/agent_runtime/events.py:244-265 | An event read from any line can be stored unless a text in it holds half of a surrogate pair, and is then read back as the same event. |
| EventMeaning.AppendAnswers | src/workspace_orchestrator/agent_runtime/events.py:43-61 | A new id is stored under the next number with all else as it came; the same content again is answered with the stored event; the same id with any other content is refused. |
| LogScan.ScanImage | src/workspace_orchestrator/agent_runtime/events.py:157-176 | A file that begins with a log's lines is read as that log followed by whatever its tail holds. |
| LogScan.ScanSound | src/workspace_orchestrator/agent_runtime/events.py:157-197 | Every file that is not refused holds events of one run, numbered from 1 without gap, with distinct ids. |
| LogCrash.ScanHolds | src/workspace_orchestrator/agent_runtime/events.py:157-197 | What a locked read returns for any file that crashes can leave is determined: the log, with the torn tail dropped or the unterminated event kept. |
| LogCrash.RepairSettles | src/workspace_orchestrator/agent_runtime/events.py:175-197 | After the repair of a tail the file is exactly the lines of the events read: it ends on a record boundary. |
| LogCrash.RepairCrash | src/workspace_orchestrator/agent_runtime/events.py:175-212 | A repair stopped after any of its writes, or inside one at any byte, leaves a file that means the same log and can be repaired again. |
| LogCrash.LineCrash | src/workspace_orchestrator/agent_runtime/events.py:57-60 | Any byte prefix of encode(e) + newline appended to a log means the old log, or the old log plus e. |
| LogCrash.CallCompletes | src/workspace_orchestrator/agent_runtime/events.py:37-80 | A call that ends leaves the log plus exactly the event it had to add, on a record boundary. |
| LogCrash.AppendCrash | src/workspace_orchestrator/agent_runtime/events.py:37-61 | An append stopped anywhere means the old log or the old log plus the event; nothing else. |
| LogCrash.LogOnlyGrows | src/workspace_orchestrator/agent_runtime/events.py:37-80 | Over every run of reads and appends, each stopped anywhere, the log only grows at its end. |
| LogCrash.AcknowledgedSurvives | src/workspace_orchestrator/agent_runtime/events.py:37-61 | An event whose append returned is in the log after any later run of crashes, with the number it was given. |
| LogCrash.NothingLost | src/workspace_orchestrator/agent_runtime/events.py:178-212 | Bytes that leave the file are in a backup first: what remains and what was backed up cover the old file. |
| LogCrash.RepairKeepsScan | src/workspace_orchestrator/agent_runtime/events.py:157-197 | For every readable file, not only those crashes leave: repairing changes none of the events read and leaves nothing to repair. |
| EventStore.PageBySequence | src/workspace_orchestrator/agent_runtime/events.py:63-80 | replay(after, limit) is exactly the first limit events numbered above after. |
| EventMeaning.SelectedAre | src/workspace_orchestrator/agent_runtime/events.py:125-132 | A query keeps all events of the log that meet each condition asked, and no others, in the order of their numbers. |
| EventMeaning.RunIdIs | src/workspace_orchestrator/agent_runtime/events.py:18 | A run id is 1 to 128 letters, digits, dots, dashes and underscores, the first a letter or digit. |
| EventStore.RuntimeEventStore.ReadLocked | src/workspace_orchestrator/agent_runtime/events.py:157-197 | The read returns what the scan of the file says and performs exactly the repair writes. |
| EventStore.RuntimeEventStore.Append | src/workspace_orchestrator/agent_runtime/events.py:37-61 | The append performs exactly the specified writes on its own log only and answers by identity: conflict, the stored event, or the newly numbered one. |
| EventStore.RuntimeEventStore.Replay | src/workspace_orchestrator/agent_runtime/events.py:63-80 | Returns the page of the log after the cursor; bad arguments are refused. |
| EventStore.RuntimeEventStore.QueryExecution | src/workspace_orchestrator/agent_runtime/events.py:82-132 | The paging loop ends with the filter of a log between the one at its start and the one at its end, while others append between pages. |
| Mirror.CopyStep | src/workspace_orchestrator/multi_agent.py:228-243 | Copying a source event again changes nothing, and copying the next one extends the mirror by exactly it: never a conflict. |
| Mirror.StepKeepsMirror | src/workspace_orchestrator/multi_agent.py:181-244 | Every step, a sync under any session cut anywhere included, keeps the Execution log the image of a prefix of the attempt log at least as long as the cursor. |
| Mirror.ExactlyOnce | src/workspace_orchestrator/multi_agent.py:181-244 | So over every run, with crashes between copying and persisting the cursor and the observed session changing as it likes: no duplicate, no gap, no reorder. |
| Mirror.CrashIsSync | src/workspace_orchestrator/multi_agent.py:221-244 | A sync stopped inside the append of any copy, at any byte of the Execution file, leaves what the machine leaves when it stops between two events. |
| Mirror.CompletedSync | src/workspace_orchestrator/multi_agent.py:181-244 | A sync that ends leaves the cursor at min(length, old cursor + 1000), with everything up to it mirrored, if and only if every event of the page belongs to the attempt and the observed session; otherwise the cursor stays. |
| MirrorMeaning.EveryEventIsImage | src/workspace_orchestrator/multi_agent.py:226-244 | Over every run each event of the Execution's log is the attempt's event of that number, the same in id, runtime, kind, payload, session, turn, time, version, extra, requirement and task, with the Execution's run and execution id; none before the cursor is missing. |
| MirrorMeaning.SyncGoesSoFar | src/workspace_orchestrator/multi_agent.py:220-244 | A sync mirrors the next thousand events as far as they are the attempt's and of its session, no further, and moves the cursor past them only when all of them are. |
| Mirror.ExecutionMirror.SyncEvents | src/workspace_orchestrator/multi_agent.py:221-244 | The copying loop on the two stores does what the machine says: it stops at the first event of another attempt. |
| Mirror.ExecutionMirror.Sync | src/workspace_orchestrator/multi_agent.py:181-219 | Only a page copied to its end moves the persisted cursor. |
| Formats.ShaIs | src/workspace_orchestrator/phase_gate.py:23 | A text is a commit hash exactly when the regular expression for one matches all of it. |
| Formats.IdentifierIs | src/workspace_orchestrator/phase_gate.py:25 | A text is a safe file name exactly when the regular expression for one matches all of it. |
| Formats.RequirementIs | src/workspace_orchestrator/phase_gate.py:843 | A text is a requirement id exactly when the regular expression for one matches all of it, over ASCII digits. |
| Formats.StripIs | src/workspace_orchestrator/phase_gate.py:846-849 | What stripping takes off either end is white space, one of 29 characters, and what it leaves neither begins nor ends with any. |
| GateRecords.AncestryIsWalk | src/workspace_orchestrator/adapters/git.py:97-119 | A commit is an ancestor of another if and only if some walk through parents leads there. |
| GateRecords.AncestorTransitive | src/workspace_orchestrator/phase_gate.py:1742-1743 | Being an ancestor in the commit graph is transitive. |
| GateRecords.DefinitionsFacts | src/workspace_orchestrator/phase_gate.py:1198-1236 | A declared chain has its phases in order, each naming the one after it, no phase task twice. |
| GateTheorems.ChainIsFlat | src/workspace_orchestrator/phase_gate.py:1943-2049 | The mutual recursion through gates and activations ends, and accepts gate n if and only if for every k up to n the checks of phase k alone hold. |
| GateTheorems.LinkTimes | src/workspace_orchestrator/phase_gate.py:1828-1858 | For one gate: activated <= every receipt start <= its end <= reviewed <= issued. |
| GateTheorems.CausalTimeline | src/workspace_orchestrator/phase_gate.py:1969-1971 | Along a validated chain issue times never go back and each activation falls between the two gates it joins. |
| GateTheorems.AncestryOfChain | src/workspace_orchestrator/phase_gate.py:2037-2038 | For i < j in a validated chain, commit i is an ancestor of commit j. |
| GateTheorems.PastIsInHead | src/workspace_orchestrator/phase_gate.py:1986-1991 | Every commit of the chain below the last gate is HEAD or an ancestor of it. |
| GateTheorems.DefinitionsAreFrozen | src/workspace_orchestrator/phase_gate.py:2051-2066 | Every definition file of the chain and the text of its plan are the same at the issue commit and at HEAD. |
| GateTheorems.CurrentGateHistory | src/workspace_orchestrator/phase_gate.py:1686-1757 | A gate accepted as current has its whole history ordered in time, contained in HEAD and unchanged. |
| GateTheorems.GateFixesItsPast | src/workspace_orchestrator/phase_gate.py:2030-2036 | Two workspaces in which the same gate validates hold the same gates below it and the same receipts: the fingerprints fix the whole past. |
| GateTheorems.EvidenceOfGate | src/workspace_orchestrator/phase_gate.py:1814-1941 | In a validated chain every suite declared for a phase has passed on that phase's commit in a session other than the reviewing one, every acceptance item has a passing result, and the reviewing session is none of the implementing ones. |
| GateMeaning.DefinitionsAre | src/workspace_orchestrator/phase_gate.py:1142-1236 | A chain of definitions is read from a commit if and only if the commit declares it: phases 0 to n-1 and no other, each file well formed and of its own identity, its plan as committed, each naming the next task, no task twice. |
| GateMeaning.EvidenceIs | src/workspace_orchestrator/phase_gate.py:1814-1941 | The receipts are accepted if and only if each one cited is a passing run of a declared suite, by id, content, command and the runner of its kind, with a link where one is needed, on the gate's commit and in its time, unchanged, vouched for by the authority from phase 4 on; every suite ran, every piece of evidence is cited, and the runs and sessions are exactly the attested ones, none the reviewer's. |
| GateMeaning.ActivationIs | src/workspace_orchestrator/phase_gate.py:1943-1991 | An activation is accepted if and only if it opens its phase on the gate at the path below, for the task that gate's commit declares next, not before its issue, with HEAD on or after its commit, and that gate's chain stands. |
| GateMeaning.ChainIs | src/workspace_orchestrator/phase_gate.py:1993-2067 | The recursive validation accepts a gate if and only if, phase by phase, the record says PASS in every part, the definition is untouched, the evidence is complete, the gate below is the one carried, and the activation is for its task. |
| GateMeaning.CurrentIs | src/workspace_orchestrator/phase_gate.py:1686-1769 | A gate is accepted as current if and only if it is such a gate of the clean HEAD of its own checkout, not being reopened, and its task is the requirement's current one after the first phase. |
| GateMeaning.CurrentStands | src/workspace_orchestrator/phase_gate.py:1686-2050 | What is accepted as current is accepted as part of a chain. |
| GateRuns.ApplyIsSound | src/workspace_orchestrator/phase_gate.py:1496-1514 | A safe write keeps every file at the path of its own record and every activation on its gate. |
| GateRuns.PlanIsSafe | src/workspace_orchestrator/phase_gate.py:1035-1133 | Every write of a review, issue, activation or reopening is safe in the state it meets, also where the rest is cut off. |
| GateRuns.StepKeeps | src/workspace_orchestrator/phase_gate.py:1287-1566 | One operation in any outside world, stopped after any of its writes, keeps the invariant and loses no review or gate. |
| GateRuns.FilesMatchPaths | src/workspace_orchestrator/phase_gate.py:1496-1514 | In every reachable state the file at (requirement, phase) holds a record of that requirement and phase. |
| GateRuns.PinnedForever | src/workspace_orchestrator/phase_gate.py:1058-1059 | An activation of phase p stands on the gate of phase p-1 with the recorded fingerprint and commit, and neither of the two ever changes again. |
| GateRuns.NothingLost | src/workspace_orchestrator/phase_gate.py:1035-1133 | Every review and gate ever stored is still at its path or inside an archive of that path; archives never change. |
| GateLineage.WritesAreJustified | src/workspace_orchestrator/phase_gate.py:1287-1566 | What an operation other than reopen writes is justified in the state it finds: a review is of the current commit, a gate is valid and carries the review on file, an activation is valid. |
| GateLineage.StoredGatesAreChained | src/workspace_orchestrator/phase_gate.py:1686-1757 | In every reachable state each stored gate names the stored gate below it by phase, commit and content, with an activation between them in time. |
| GateReopen.RetryAllowed | src/workspace_orchestrator/phase_gate.py:1048-1068 | Nothing a reopening writes makes the same reopening inadmissible later, also when HEAD has moved on to a descendant that keeps the definitions and plans up to the phase. |
| GateReopen.ReopenRecovers | src/workspace_orchestrator/phase_gate.py:1035-1133 | After a crash at any write and any number of calls by anyone, in any worlds, for any reasons, each crashing anywhere: the next uninterrupted call is accepted if and only if it is admitted and gives the first reason, and then ends in exactly the files the first call would have left: journal completed, candidates gone, archive of the original candidates. A later HEAD that keeps the definitions and plans up to the phase admits it. |
| GatePending.PendingBlocks | src/workspace_orchestrator/phase_gate.py:1030-1033 | While a journal is pending, recording a review and issuing a gate at that phase write nothing. |
| GatePending.PendingUntilFinished | src/workspace_orchestrator/phase_gate.py:1069-1133 | Through any operations of anyone, stopped anywhere, the candidates stay as the journal archived them until that reopening completes. |
| GatePending.MidwayCompletes | src/workspace_orchestrator/phase_gate.py:1069-1133 | A call that finds a reopening in progress is accepted if and only if it is admitted, gives its reason and is for its task, and an accepted call completes it. |
| GatePending.CrashedReopenFinishes | src/workspace_orchestrator/phase_gate.py:1035-1133 | A crashed reopening, then any run of anyone, each operation stopped anywhere: some call has completed it, or the next accepted one does, wherever HEAD is by then. |
| GatePending.CrashIsMidway | src/workspace_orchestrator/phase_gate.py:1077-1133 | A reopening that crashed after its journal is in that pending state, with the archive of the candidates it found. |
| GateFrames.ChainStays | src/workspace_orchestrator/phase_gate.py:1993-2066 | A valid chain stays valid while time passes and HEAD moves on to descendants, as long as its own phases keep their files, their definitions and their plans. |
| GateFrames.StaysValid | src/workspace_orchestrator/phase_gate.py:1943-1991 | So does an activation, as long as the phases below its own keep theirs. |
| GateAcceptance.ReviewAccepted | src/workspace_orchestrator/phase_gate.py:1287-1381 | A review is recorded if and only if it is an outside pass of now, of the clean HEAD and a declared phase whose evidence its receipts are, HEAD is the same under the lock, and no other review is there; the record written says just that. |
| GateAcceptance.ActMakes | src/workspace_orchestrator/phase_gate.py:1035-1566 | In a run, a review, gate, activation or reopening that nothing stops makes of the files exactly what it is accepted for, and one stopped before its first write makes nothing. |
| GateAcceptance.IssueAccepted | src/workspace_orchestrator/phase_gate.py:1516-1668 | A gate is issued if and only if a review of HEAD with unchanged, revalidated receipts is on file and the gate made of it, the definition, the gate below and what was handed in is valid and not contradicted by one on file; that gate is all that is written. |
| GateAcceptance.ReopenAccepted | src/workspace_orchestrator/phase_gate.py:1035-1133 | A reopening succeeds if and only if the phase is the current one, not done and not advanced, and there is a review or gate to archive, or a journal of the same reason, and while one is pending only for its own reason and task; then exactly the archive and a completed journal are left, and neither candidate. |
| GateServices.GateStore.Finish | src/workspace_orchestrator/phase_gate.py:1113-1133 | Archive, remove, complete: the steps are the planned writes in order, and stop where the archive or the candidates disagree. |
| GateServices.GateStore.Reopen | src/workspace_orchestrator/phase_gate.py:1035-1133 | The steps of reopen on the files are the planned writes in order, so a crash leaves a prefix of them; nothing stored is lost; and a call that returns leaves no candidate, a completed journal with its reason, and the archive on file. |
| GateServices.GateStore.RecordReview | src/workspace_orchestrator/phase_gate.py:1287-1381 | A call that returns leaves a passing review of the current commit on file, by this reviewer, of these receipts, the reviewer none of the implementing sessions, with no reopening pending; a review on file is never overwritten, and a refused call changes nothing. |
| GateServices.GateStore.IssueGate | src/workspace_orchestrator/phase_gate.py:1568-1668 | A call that returns leaves a gate on file that is valid on the clean HEAD and carries the attestation, receipts and fingerprints of the review on file; a gate on file is never overwritten, and a refused call changes nothing. |
| GateServices.GateStore.WriteActivation | src/workspace_orchestrator/phase_gate.py:1410-1423 | It returns if and only if the activation is valid and no other is on file; then it is on file and pins the gate below by content and commit, which stays; a refused call changes nothing. |
| TransitionCrash.RebindFacts | src/workspace_orchestrator/automation/session_runtime.py:185-236 | Rebinding a session is idempotent, puts it on the next phase task and off the finished one, and touches no other session. |
| TransitionCrash.AttachFacts | src/workspace_orchestrator/automation/session_runtime.py:39-136 | A session that attached holds the task it attached to; every other session is as it was. |
| TransitionCrash.StageGoesOn | src/workspace_orchestrator/phase_gate.py:2176-2251 | From any stage of the switch the same call is admitted again and ends in the same state. |
| TransitionTheorems.StartReadsBack | src/workspace_orchestrator/phase_gate.py:2108-2140 | The definition a fresh call starts from is the one its gate was issued against, which a resumed call reads back. |
| TransitionTheorems.StartsFromCurrentGate | src/workspace_orchestrator/phase_gate.py:2134-2174 | An activation is written only from a valid gate on the clean HEAD, by a session that holds one of the two phase tasks, and pins exactly that gate. |
| TransitionTheorems.TransitionRecovers | src/workspace_orchestrator/phase_gate.py:2076-2251 | Stopped after any step and retried any number of times, each retry stopped anywhere and HEAD moving on in between to descendants that keep the finished phases: the next full retry succeeds and ends in exactly the state the first call would have ended in. |
| TransitionTakeover.WelcomeFinishes | src/workspace_orchestrator/phase_gate.py:2193-2224 | From the journal on, the second half succeeds if and only if its opening session is this one or at work no more and this one holds one of the two tasks, or none and can be attached; where it fails it writes at most sessions. |
| TransitionTakeover.TakenOver | src/workspace_orchestrator/phase_gate.py:2076-2251 | After a stop with the activation on file, any calls by any sessions at any HEAD, each stopped anywhere and the sessions changed by others in between: the next full call is accepted if and only if its journal is valid at its HEAD and its session is welcome, and then leaves the files and tasks the first call would have left; the journal is valid at every later HEAD that keeps the finished phases. |
| TransitionTheorems.NextOpensLast | src/workspace_orchestrator/phase_gate.py:2225-2251 | Opening the next phase task is the last step, taken only where activation, current task, session and finished task are all switched. |
| TransitionTheorems.SuccessCompletes | src/workspace_orchestrator/phase_gate.py:2225-2251 | A call that succeeds has switched all of activation, current task, session and both task states. |
| TransitionTheorems.FailureOpensNothing | src/workspace_orchestrator/phase_gate.py:2176-2224 | A call that is going to fail opens nothing. |
| PhaseHistory.IssuedIsRooted | src/workspace_orchestrator/phase_gate.py:1686-1757 | A gate issued on the clean HEAD declares at its commit, for every phase below, what the commit of that phase's own gate declares. |
| PhaseHistory.ValidIsAuthorised | src/workspace_orchestrator/phase_gate.py:1943-1991 | A valid activation is for the task that the commit of its gate declares next. |
| PhaseHistory.GateTaskIsPhase | src/workspace_orchestrator/phase_gate.py:2051-2066 | In every reachable state the task a phase's gate was issued for is the task of the activation of that phase and of no other, HEAD moving as it likes. |
| TransitionRuns.PhaseIsUnique | src/workspace_orchestrator/phase_gate.py:2186-2192 | A requirement with a current task is in exactly one phase. |
| TransitionRuns.EventPhase | src/workspace_orchestrator/phase_gate.py:2076-2251 | Each event leaves a requirement in its phase or takes it one phase up. |
| TransitionRuns.PhaseNeverGoesBack | src/workspace_orchestrator/phase_gate.py:2098-2251 | Over every run of transitions, gate operations and outside changes, each stopped anywhere and at any HEAD, phases not yet issued re-planned at will: the current phase never goes back, and every phase entered has an activation on its gate. |
| TransitionRuns.AdvanceLeaves | src/workspace_orchestrator/workspace.py:539-563 | A cut transition never switches the current task without the activation on file, and only from the task that the finished phase's gate was issued for. |
| TransitionAcceptance.FreshAccepted | src/workspace_orchestrator/phase_gate.py:2126-2250 | With no activation on file a call does something if and only if HEAD declares a next phase, the gate is valid and not ahead of the clock, the tasks are in one of three and one of four states, and the session works on one of them; it then writes that activation first, and succeeds if and only if the current task is one of the two and the tasks to be moved have versions, leaving everything switched and nothing else changed. |
| TransitionAcceptance.ResumedAccepted | src/workspace_orchestrator/phase_gate.py:2098-2250 | With an activation on file a call is refused unless the activation stands and HEAD declares the same tasks; it then succeeds if and only if tasks and current task allow it, the session that opened the transition is this one or gone, and this one holds one of the tasks, or none and may be attached. |
| TransitionAcceptance.StopsInOrder | src/workspace_orchestrator/phase_gate.py:2186-2250 | A call that would succeed, stopped anywhere, has gone in one order: activation, current task, session, last task, next task; whatever has changed, everything before it has, and until the current task changes the session is at most back on it. |
| TransitionAcceptance.ReplacementIs | src/workspace_orchestrator/automation/session_runtime.py:185-235 | Rebinding takes the last task out, leaves the others in place and puts the next one at the end. |
| TransitionAcceptance.OtherEvents | src/workspace_orchestrator/workspace.py:539-563 | In a run, gate operations make what they are accepted for and leave sessions and tasks; others can rewrite anything but gate files and a current task that is set. |
| TransitionServices.PhaseTransitionGuard.AdvanceNext | src/workspace_orchestrator/phase_gate.py:2076-2251 | The steps of advance_next are the planned ones in order, so a crash leaves a prefix of them. |
| DeploymentTheorems.DeployAtMostOnce | src/workspace_orchestrator/deployment.py:317-381 | Over every run of services sharing a root, with crashes, the provider is invoked at most once per journal key, and the key's file stays. |
| DeploymentTheorems.CallsAreAuthorized | src/workspace_orchestrator/deployment.py:467-482 | Every invocation of the provider, in every run, is of a merged and verified commit that a recorded authorization names for that environment. |
| DeploymentTheorems.ReusedReceipt | src/workspace_orchestrator/deployment.py:331-350 | An earlier receipt is handed out only to a caller whose project, environment, commit, provider and authorization it names, and it tells what the one call under the key came to. |
| DeploymentTheorems.FreshReceipt | src/workspace_orchestrator/deployment.py:361-381 | So does the receipt of a deployment that just ran, and it would be accepted again. |
| DeploymentTheorems.KeysCollide | src/workspace_orchestrator/deployment.py:325-328 | Two different policies can share a key for every commit. |
| DeploymentTheorems.UncertainForever | src/workspace_orchestrator/deployment.py:338-342 | After a stop between intent and receipt nothing deploys under the key again and every attempt is refused. |
| DeploymentTheorems.CompletionCaused | src/workspace_orchestrator/deployment.py:383-413 | Where deployment is required, a token is handed out only after the provider answered success for the requirement and commit asked for, and for those the token names. |
| DeploymentTheorems.CompleteRepeats | src/workspace_orchestrator/deployment.py:398-413 | Completing again at any later time returns the identical token. |
| DeploymentTheorems.TokenNamesSeparate | src/workspace_orchestrator/deployment.py:393-396 | Token names separate for well-formed requirement ids, hashes and receipt ids. |
| DeploymentTheorems.OwnTokenOrFirst | src/workspace_orchestrator/deployment.py:393-413 | Over every run, the token an answer hands out is the caller's own if and only if nothing was recorded under its name before, or the completion first recorded there was of the same environment, requirement, commit and receipt. |
| DeploymentTheorems.SecondCompletion | src/workspace_orchestrator/deployment.py:393-413 | Of two completions under new names, the second is answered with its own token if and only if the names differ or both are of the same work. |
| DeploymentTheorems.TokenIsTheCallers | src/workspace_orchestrator/deployment.py:399-407 | Among well-named completions the token handed out names the environment, requirement, commit and receipt asked for. |
| DeploymentTheorems.TokenOfAnother | src/workspace_orchestrator/deployment.py:393-407 | With names that are not well formed it can be another's: a concrete pair of requests that share a token. |
| DeploymentTheorems.RunKeeps | src/workspace_orchestrator/deployment.py:67-86 | Recorded authorities and finished files never change in any run. |
| DeploymentMeaning.RecordIs | src/workspace_orchestrator/deployment.py:70-90 | An authority is recorded if and only if its id is a safe name not taken and it names the requirement, commit, receipt and verification of its own merge. |
| DeploymentMeaning.JudgeIs | src/workspace_orchestrator/deployment.py:317-382 | A deployment runs if and only if the request is a recorded authority's, of a merge that went through, for the policy's environment, on the clean main branch at the merged commit, and nothing is on file; an earlier receipt is handed out if and only if it is signed and of the very request. |
| DeploymentMeaning.RefusalTells | src/workspace_orchestrator/deployment.py:92-121 | The code of a refusal tells which of these failed first. |
| DeploymentMeaning.FileRefuses | src/workspace_orchestrator/deployment.py:332-350 | What is on file decides the answer: interrupted, no receipt, a wrong signature, another request, or the receipt. |
| DeploymentMeaning.DeployLeaves | src/workspace_orchestrator/deployment.py:351-381 | A deployment that ran leaves the signed receipt of what the provider said, every field of it, and one more call. |
| DeploymentMeaning.CrashLeaves | src/workspace_orchestrator/deployment.py:332-382 | One that stops before its receipt is written leaves its intent on file, the call if there was one, and a free lock. |
| DeploymentMeaning.CompleteIs | src/workspace_orchestrator/deployment.py:383-428 | A completion is granted if and only if it shows the signed success of its requirement and commit on file where one is required; it gets a new token under a free name, and else the one there if as much was required for it. |
| DeploymentServices.DeploymentService.Record | src/workspace_orchestrator/deployment.py:67-86 | An authorization id is bound once; recording it again succeeds only with the same content. |
| DeploymentServices.DeploymentService.Deploy | src/workspace_orchestrator/deployment.py:317-381 | The steps of deploy are those of the machine, and its answer is the receipt on file or a refusal. |
| DeploymentServices.DeploymentService.IsPersisted | src/workspace_orchestrator/deployment.py:415-428 | The search through the root finds a receipt if and only if it is on file, intact, under a name that is no completion's. |
| DeploymentServices.DeploymentService.Complete | src/workspace_orchestrator/deployment.py:383-413 | The steps of complete and its answer are those of the machine. |
| ReplyTheorems.ReplyAtMostOnce | src/workspace_orchestrator/workbench.py:322-455 | For each requirement and command id, over all crashes, retries and concurrent services, resume and send_message together are invoked at most once, and only for the Execution and message on record. |
| ReplyTheorems.ReuseRejected | src/workspace_orchestrator/workbench.py:429-435 | A command id used once is refused for any other Execution or message, for good. |
| ReplyTheorems.RepeatsAreInvisible | src/workspace_orchestrator/workbench.py:429-449 | Once a command id has its record, a run comes to the same state, with the same messages sent, as the run without any further call under that id, whatever is interleaved. |
| ReplyTheorems.ReplayIsTrue | src/workspace_orchestrator/workbench.py:436-444 | A replay that says the reply went through is true: that message was taken by the one delivery. |
| ReplyTheorems.StoredOperationTells | src/workspace_orchestrator/workbench.py:368-417 | Over every run, a stored operation tells whether the message was taken, by being ok or of unknown fate, if and only if it is not the case that the note of this delivery failed to be written and the error handler's record was written after it; errors under other keys, or about messages not taken, do not matter. |
| ReplyTheorems.FailureAfterDelivery | src/workspace_orchestrator/workbench.py:384-417 | Such a run: a message that was taken ends as a stored failure. |
| ReplyMeaning.ReplayIs | src/workspace_orchestrator/workbench.py:422-455 | How a call under a recorded id is answered: refused for another Execution or message, or an operation of another session or incomplete; in progress while there is no operation; else with the operation, marked as a replay. |
| ReplyMeaning.ReplyComesTo | src/workspace_orchestrator/workbench.py:327-420 | What one call comes to for every runtime and every answer: the operation returned, field by field, the one record stored, and one delivery exactly when the runtime can be asked and is willing. |
| ReplyMeaning.StoreFails | src/workspace_orchestrator/workbench.py:408-420 | A record that cannot be written becomes an error that can be, once, and then raises. |
| Workbench.Service.Claim | src/workspace_orchestrator/workbench.py:422-455 | The claim is written if and only if the command id is well formed and unused; otherwise the answer comes from the record. |
| Workbench.Service.Reply | src/workspace_orchestrator/workbench.py:322-420 | One uninterrupted reply is the machine's five events, its answer is what is stored, and the runtime is kept exactly when the message was taken. |
| CommandQueue.QueueOrder | src/workspace_orchestrator/dashboard.py:47-180 | Over every interleaving, with retry in its three parts: ids stay unique, rows are never removed or reordered, target and message never change, the status never goes back, an end state keeps its result. |
| CommandQueue.AnswersAreOnFile | src/workspace_orchestrator/dashboard.py:47-149 | What enqueue, update, cancel and the second half of retry answer with is the row on file under the id; an enqueue answers only with its own message. |
| CommandQueue.ReplayedRetryAddsOneRow | src/workspace_orchestrator/dashboard.py:151-180 | Over any run, however often and interleaved retries are sent under one id: at most one row has the id, and every retry past its enqueue has that row, with its own message. |
| CommandQueue.EmptyRetryIdRepeats | src/workspace_orchestrator/dashboard.py:53 | With an empty retry id each replay adds a row of its own and then raises. |
| RetryCycles.MarkCycles | src/workspace_orchestrator/dashboard.py:168-179 | Marking keeps the rows free of cycles of retries if and only if the chain of retries from the command retried does not lead to the row of the retry id. |
| RetryCycles.CyclesComeFromMarks | src/workspace_orchestrator/dashboard.py:151-180 | Over every interleaving, the rows are free of cycles throughout if and only if every mark is safe in that sense where it happens. |
| RetryCycles.RetryCloses | src/workspace_orchestrator/dashboard.py:151-180 | A retry without interruption closes a cycle if and only if it finds an unmarked row of its id with its own message, to which the chain from the command retried leads before the call. |
| RetryCycles.ReachesSoon | src/workspace_orchestrator/dashboard.py:151-180 | A chain of retries that ever gets to a row does so in fewer steps than there are rows. |
| RetryCycles.RetriesNeverCycle | src/workspace_orchestrator/dashboard.py:151-180 | Retries begun under an id that names no row, or a later one, never form a cycle, whatever is interleaved: a sufficient check before each. |
| RetryCycles.RetryOfItself | src/workspace_orchestrator/dashboard.py:151-180 | A command retried under its own id becomes a retry of itself. |
| QueueMeaning.EnqueueIs | src/workspace_orchestrator/dashboard.py:47-70 | When a command is enqueued, repeated or refused, and the row it becomes. |
| QueueMeaning.UpdateIs | src/workspace_orchestrator/dashboard.py:100-125 | The row after an update, field by field; a row that has ended is answered as it is. |
| QueueMeaning.CancelIs | src/workspace_orchestrator/dashboard.py:127-149 | Only a queued row is cancelled, and what it then says. |
| QueueMeaning.RetryIs | src/workspace_orchestrator/dashboard.py:151-180 | What one retry does: a new row, the next attempt and naming the failed one; a mark on a row of the id that is of the same message and not marked; or nothing. |
| QueueMeaning.StepsAre | src/workspace_orchestrator/dashboard.py:151-180 | The same for the steps that other calls run between. |
| CommandQueues.Queue.Enqueue | src/workspace_orchestrator/dashboard.py:47-70 | Enqueues once; the same again answers with the row, other content under the id is refused. |
| CommandQueues.Queue.Update | src/workspace_orchestrator/dashboard.py:100-125 | Moves a command that is not finished; a finished one is returned as it is. |
| CommandQueues.Queue.Cancel | src/workspace_orchestrator/dashboard.py:127-149 | Cancels a queued command only. |
| CommandQueues.Queue.Retry | src/workspace_orchestrator/dashboard.py:151-180 | Without interruption a retry is its three events, and what it returns is a row marked as a retry. |
| CommandQueues.Queue.RecoverDelivered | src/workspace_orchestrator/dashboard.py:87-98 | Exactly the delivered commands of the requirement fail; every other row stays. |
| Ownership.CommitKeepsClosed | src/workspace_orchestrator/execution_ownership.py:112-131 | A commit keeps every alias of a claim on the same record, changes no owner, drops no alias, and adds only aliases of the plan. |
| Ownership.CommitReadable | src/workspace_orchestrator/execution_ownership.py:27-46 | The next reader accepts the ledger if and only if every claim that went in has a requirement, a node and no empty alias. |
| Ownership.NeverBothEngines | src/workspace_orchestrator/automation/dispatcher.py:265-288 | Over every interleaving of plans, dispatches, delegations, cancellations, session changes and dispatcher crashes: no claim for the second engine is of the key of the task the first one runs, nor of another name of it as long as created cards have keys of their own; and a note that says dispatched bears a claimed name only if a delegation wrote it too late. |
| Ownership.NotesAreApart | src/workspace_orchestrator/automation/delegation.py:137-160 | Over every run a note that says dispatched bears a claimed name if and only if it was last written by a delegation of a card a name of which was claimed by then: delegate_task writes the note without asking the ledger. |
| Ownership.DelegatedTooLate | src/workspace_orchestrator/automation/delegation.py:106-160 | It happens: a plan that claims the card between its creation and the note leaves a card both claimed and noted as dispatched. |
| Ownership.RunningIsNotClaimed | src/workspace_orchestrator/execution_ownership.py:119-131 | A plan with a card of a task under way in the first engine is dropped, however the card is called, and a crash of the dispatcher does not free it. |
| Ownership.OwnershipIsForGood | src/workspace_orchestrator/execution_ownership.py:82-132 | Over every interleaving no alias changes owner or disappears, and a claimed plan keeps each card for its requirement and node. |
| Ownership.ClaimedForSecondEngineOnly | src/workspace_orchestrator/execution_ownership.py:48-60 | From the claim on the first engine is refused every task that goes by any of its aliases, and the second may run it for no other node. |
| Ownership.PreparedClaims | src/workspace_orchestrator/execution_ownership.py:112-118 | Every missing card becomes an alias of a claim of its own node. |
| Ownership.PreparedFromFree | src/workspace_orchestrator/execution_ownership.py:113-118 | Every claim of a plan comes from a card the provider knew under that name and nobody was bound to, and carries every name of the card. |
| Ownership.CommittedWereIdle | src/workspace_orchestrator/execution_ownership.py:62-80 | Nothing is committed of which the dispatcher's books have a task claimed, running, to be cancelled or of unknown result under any alias, or an open session of the requirement has a task. |
| OwnershipMeaning.ReadableIs | src/workspace_orchestrator/execution_ownership.py:27-46 | When the ledger can be read. |
| OwnershipMeaning.ClaimPlanIs | src/workspace_orchestrator/execution_ownership.py:82-132 | A plan is accepted if and only if it is well bound, its claimed cards are its own nodes', and each new card is known by that name, worked on by nobody, idle in the books and the open sessions, and shares no name with a claim or another new card; then exactly the new cards' names lead to one claim each, of their node. |
| OwnershipMeaning.HalvesMakeCall | src/workspace_orchestrator/execution_ownership.py:99-132 | The two locked halves in a row are that call. |
| OwnershipMeaning.SettleIs | src/workspace_orchestrator/execution_ownership.py:119-132 | The second half, whenever it comes, stores what was prepared if and only if the cards are then idle and their names free. |
| OwnershipMeaning.SessionsDecide | src/workspace_orchestrator/execution_ownership.py:119-132 | What decides whether a prepared claim is stored are the sessions known when it is. |
| OwnershipMeaning.FirstEngineIs | src/workspace_orchestrator/automation/dispatcher.py:265-288 | When the first engine starts or cancels a card, and the note it writes. |
| OwnershipMeaning.SecondEngineIs | src/workspace_orchestrator/execution_ownership.py:54-60 | The second engine may run a card if and only if every name of it is claimed for that requirement and node. |
| OwnershipLedgers.ExecutionOwnership.CommitAll | src/workspace_orchestrator/execution_ownership.py:119-131 | The nested loops over claims and aliases store all claims or none. |
| OwnershipLedgers.ExecutionOwnership.ClaimPlan | src/workspace_orchestrator/execution_ownership.py:82-132 | One uninterrupted claim_plan has the machine's outcome. |
| TextLines.JoinTrim | src/workspace_orchestrator/workspace.py:171-179 | Stripping a document on the right drops its blank last lines and strips the line then last. |
| SectionNames.SameSection | src/workspace_orchestrator/workspace.py:31-64 | The label of a section and its canonical name lead to the same section. |
| SectionNames.AliasesInjective | src/workspace_orchestrator/workspace.py:31-64 | The alias map is injective. |
| SectionMeaning.TableIs | src/workspace_orchestrator/workspace.py:31-64 | The two name maps are this table of 31 pairs, read either way, and leave every other name alone. |
| SectionMeaning.HeadingIs | src/workspace_orchestrator/workspace.py:152-157 | A line is a heading if and only if it is "## ", a name without a carriage return, and blanks; its name is that one, stripped. |
| SectionMeaning.SectionIs | src/workspace_orchestrator/workspace.py:149-159 | A section is the stripped text between the last heading of its name and the next heading; there is none if and only if no heading has the name. |
| SectionMeaning.ReplaceIs | src/workspace_orchestrator/workspace.py:162-181 | replace_section as an edit of the text: the first section of either name gives way to its heading as written and the stripped body, up to the next line that begins with "## ", and the end is tidied; a document without it gets it at the end under the label. |
| MarkdownLaws.SectionsAfterReplace | src/workspace_orchestrator/workspace.py:149-181 | After replace_section every other section is what it was, unless the end of the document is a heading without a name that the tidying spoils. |
| MarkdownLaws.OthersUnchanged | src/workspace_orchestrator/workspace.py:162-181 | Every other section stays what it was, for all plain bodies, if and only if the document does not end in a heading without a name, or the heading above that end is of the name replaced and a nameless section further up is empty as well. |
| MarkdownLaws.ScopeIsChanged | src/workspace_orchestrator/workspace.py:178-180 | So not in a document of Goal, Scope and a heading without a name: replacing Goal puts that heading's marks into Scope and the nameless section is gone. |
| MarkdownLaws.OwnAfterReplace | src/workspace_orchestrator/workspace.py:149-181 | The section replaced has the stripped new body if nothing follows it, or, once the end is tidied, a heading does, unless a later section of its name hides it. |
| MarkdownLaws.ReadsBack | src/workspace_orchestrator/workspace.py:149-181 | Reading back what was written works for every plain body if and only if nothing comes after the section, or, once the end is tidied, a heading does and no later section has the same name. |
| MarkdownWrites.LastWriteWins | src/workspace_orchestrator/workspace.py:162-181 | Writing a section twice, under either of its names each time, equals writing the last text, up to blanks at the end, if and only if both names find the same line or neither finds one, and what comes after the section survives the tidying of the end. |
| MarkdownWrites.EitherNameWrites | src/workspace_orchestrator/workspace.py:165-181 | One write under the Chinese or the English name is the same write if and only if both names find the same line or neither finds one. |
| MarkdownWrites.SecondWriteLost | src/workspace_orchestrator/workspace.py:165-181 | In a document that has the section under its own name only, a write under the label and then one under the name reads as the first. |
| MarkdownWrites.GoalIsLost | src/workspace_orchestrator/workspace.py:165-181 | So for a document "## Goal" and its label: the second write is lost for all plain bodies. |
| MarkdownLaws.UnnamedLineComesBack | src/workspace_orchestrator/workspace.py:152-169 | In a document with a "## " line without a name the written section reads back with that line in it. |
| MarkdownLaws.MarkdownSections | src/workspace_orchestrator/workspace.py:149-159 | One pass over the headings computes the mapping in which the last section of a name wins. |

## Left out

- JSON numbers with a fraction or an exponent: kept as their text, so the rounding to binary floating point and the refusal of values beyond its range are not modelled; nor are Python's limits on the digits of an integer and on nesting depth.
- ISO timestamps: whether a text is one, with a time zone, is a parameter of the event codec.
- The branch of `query` without an Execution id: it decodes the first line of every file before any repair; only the Execution branch is modelled.
- Log files are keyed by run id; the digest that names them, symbolic-link and hard-link checks are operating-system facts.
- The texts of errors: a gate or transition call that raises is refused, whatever it says; of deployments and replies the error codes are kept, but not those of a merge receipt's own checks.
- Upper-casing of requirement ids: requirement ids are taken as already normalised, and their digits as ASCII.
- The `from_dict` readers of gates, receipts, reviews, activations and definitions: a file holds a record or is absent.
- SHA-256, HMAC and attestations: free constructors; a receipt's external authority from phase 4 on is a function of the outside world.
- `require_task_active`, `require_requirement_completion_ready` and `publish_completion_token`: they read what the model proves about, and would add members settled by one body.
- Linking and unlinking sessions at the task provider, and all session fields except id, activity and tasks; session ids are taken without blanks around them.
- The provider's version numbers are taken to go up by one with each status change; a failed compare-and-set, like any other error on the way, is a place where the operation stops.
- The requirement's lock and the provider lock: the operations of one requirement run one after the other, as the locks make them; the review's checks outside the lock are modelled.
- Deployment timeouts, the environment registry, and the check of policy texts in the constructor.
- Command timestamps are texts; `recover_delivered` uses one for all its updates.
- Closing runtimes, the Execution rows and the runtime's session reference as a record: a session is identified by a text.
- `bullets`, templates, and headings that contain a line end; a section heading must be free of blanks around it to read back under its own name.
- HTTP servers, the command line, hooks, packaging, process launching and the adapters of external products.
- EventStore.RuntimeEventStore.QueryExecution: the number of events others append during the loop is bounded by a parameter, without which the loop need not end.
- Workbench.Service.Reply: every record of the one call is written; storage errors are in the interleaved machine of `Replies`.
- GateServices.GateStore.IssueGate: the verification runner's fresh word on the receipts is a parameter, because it runs the suites again.
- Ownership.NeverBothEngines: one dispatcher process, as its pid check enforces; its books are changed by the program's own calls alone; acquiring the ledger's lease is part of the one write. Only the key of a running task is safe whatever keys the provider gives to created cards; a claim of that same card carries its key and is refused.
- TransitionRuns.PhaseNeverGoesBack: others leave a current task alone once it is set, as the code does for requirements under phase gates.
- TransitionTakeover.TakenOver: between the calls others change sessions, not the two phase tasks or the requirement's files.
