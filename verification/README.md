# League of Orchestrator: verified models of its state machines and languages

This project models the parts of League of Orchestrator that have real state or a real
language in them, and proves what the repository relies on them for. Six components are
covered, each in modules of its own.

1. **Watcher delivery.** Transition logs are read with byte cursors; material lines become
   pending events; a watcher claim, a direct prompt or a supersede mark settles each one in
   one durable state whose delivered table is bounded. `UpdateLog` and `UpdateReader` model
   the incremental reader, `Delivery` the state machine (every interleaving of log growth,
   scans, claims, direct deliveries that commit or abort, and process deaths),
   `DeliverySafety` its invariant, `DeliveryRuns` what holds over whole runs, and
   `DeliveryLimits` two runs that show what does not. `AgentWatcher` holds the operations
   themselves, as methods over the state dictionary and the state file, each proved to take
   steps of the state machine. Beside it stand `RecordPair` (log and snapshot) with
   `TransitionText` (the program's own printing and strict decoding of a line, from UTF-8
   up), `Debounce` (runtime mismatches), `Callsigns` (the name pools), `Launches` (any number
   of launches over one pool, which may die anywhere) and `LaunchRoster` (the code of a
   launch, whose history is a run of that machine).
2. **Cleanup.** `CleanupPlan` is the planner, `CleanupPlanLaws` what every accepted plan
   looks like, and `CleanupPlanOrder` what the order of a manifest changes. `CleanupTerms`
   writes out what a manifest has to say and prove, `CleanupAccepted` and `CleanupContents`
   prove that the planner accepts exactly these manifests and what the plan then holds, and
   `CleanupUnproven` is a manifest whose plan removes a worktree without proof. `CleanupSaga`
   is the crash-resumable executor with the storage operations it uses, as a state machine
   with any number of executors; `CleanupRuns` has the theorems about whole runs,
   `CleanupBlocks` says which refusals block an operation and what goes through,
   `CleanupOverlap` shows why they need the lease to outlive the work, and `CleanupExecutor`
   is the executor's code, which may crash anywhere while other executors go on, and leaves
   a history that is a run of the state machine.
3. **Receipts.** `Json` prints and parses values as section 7 of RFC 8259 has the strings,
   `FrontMatter` parses documents and `FrontMatterExact` says which; `Receipt` is the
   scaffold and the validator, `ReceiptRoundTrip` and `ReceiptValidity` prove that they
   agree. `ReceiptTerms` writes out what a request and a receipt have to be, and
   `ReceiptExact` and `ReceiptBody` prove that exactly these are accepted.
4. **Shell words.** `ShellWords` has the lexer, the quote decoder, a reference tree for
   words after sections 2.2 and 2.6.7 of the POSIX.1-2017 Shell Command Language, and the
   quoter of the Pi bridge; `RepositoryPolicy` is the inspection of a tool call.
   `ShellTerms` writes out, on command lines as a caller writes them, which commands write
   to a repository from which directory, and `ShellSegments` and `ShellScripts` prove that
   the inspection decides exactly this.
5. **Versioned store.** `VersionedStore` has the tables as maps and the operations as
   compare-and-swap steps, `SqliteStore` the object whose transactions refine them.
6. **Writer cutover.** `Cutover` is the journalled switch and its recovery as scripts of
   atomic writes, `CutoverRoot` the functions that make those writes and may be killed
   after any of them.

`Prelude`, `Sorting` and `Permutations` hold what several components share.

Python's hash functions are taken to be injective, so a digest is the tuple it is computed
from. `char` is a Unicode scalar value. The set of characters that `str.isalnum` accepts and
the decoding of a log line are parameters of the models that use them. The files of a record,
the processes that are running, and what external commands answer are inputs.

## What turned out not to hold

- A log line can be settled twice: a candidate that a watcher holds may be superseded by a
  direct delivery and then forgotten by the bounded table before the watcher marks it
  (`DeliveryLimits.LineSettledTwice` gives the run). `DeliveryRuns.SettledOnceExactly` states
  exactly when this happens: at a watcher mark whose event is neither pending nor in the
  table. No line is ever delivered twice (`DeliveryRuns.DeliveredOnceInOrder`).
  Both runs exist for every material transition that the program itself writes
  (`DeliveryLimits.RecordedIsSuited`).
- A watcher checks that a line is the latest under the record lock but marks it after the
  lock is free, so the mark may come after a later line (`DeliveryLimits.WatcherMayMarkLate`).
  `DeliveryRuns.MarkedLatestExactly` says for whole runs when all marks are of latest lines:
  if and only if between no check and its mark anything was appended to the log, not even
  part of a line, and the snapshot is what it was. A direct prompt is made under the lock
  (`DeliveryRuns.DirectIsLatest`).
- The scaffold accepts any positive pull-request number, but the validator limits the source
  label to 160 characters, so it accepts the scaffold's receipt only below 10^146
  (`ReceiptValidity.ScaffoldValidExactly`, `ReceiptValidity.HugeNumberIsRefused`).
- `transition_record` keeps log and snapshot in step only if the log ends with a line feed;
  otherwise the new text joins the last line, both files have changed, and the final check
  refuses the pair (`RecordPair.UnterminatedBreaksPair`).
- A launch can leave its callsign in use without a record: `Launches.LaunchEndsExactly` says
  that this is so if and only if it died or could not write its release, and nobody released
  the name in between.
- A failing launch can release the reservation of another, because the release compares the
  role and not the record (`Launches.LaunchFreesAnother` gives the run): if and only if the
  name was released since its own reservation and is in use again
  (`Launches.ReleasesOthersExactly`).
- The fence protects cleanup receipts, not effects. `CleanupRuns.AppliedOnceExactly` says when
  an action has had its effect at most once: if and only if no executor acted on it after
  another had done so since its own inspection. In every plan, each action has a run in which
  two executors overlap after a lease has run out and both have its effect
  (`CleanupOverlap.OverlapRepeatsEffect`); in `CleanupOverlap.ExampleExitsTwice` the agent is
  prompted twice to exit.
- The archive action of a cleanup plan lists the resources in the order of the manifest, so
  reordering a manifest changes that action and nothing else
  (`CleanupPlanOrder.PlanIgnoresOrder`). A refused manifest may be refused for another reason.

- A material status may be written in any case of letters, but a pending event whose status
  is not in lower case is refused as a candidate, and a scan with a refused candidate pending
  fails (`UpdateReader.MaterialExactly`, `Delivery.CandidateExactly`, `Delivery.CaseIsRefused`).
- The planner asks for the git proofs by the class of the task. A plan removes a worktree or
  a branch without the proof that it is registered, clean and published if and only if the
  task is an analysis that lists a resource whose own cleanup action is such a removal
  (`CleanupContents.UnprovenRemovalExactly`; `CleanupUnproven.UnprovenRemoval` gives the
  manifest). The final actions of a plan are always proven.

## Model

| member | source | states |
|---|---|---|
| ShellWords.ShellLiteral | src/league/delegation_policy.py:21-54 | The decoder's loop over index, quote and value returns what the decoding defined by recursion on the rest of the word returns, for every word. |
| ShellWords.PiecesRebuild | src/league/delegation_policy.py:16-18 | For every command, the tokens and the skipped white space joined again are the command, and no token is empty. |
| ShellWords.LongestMatch | src/league/delegation_policy.py:16-18 | Behind any word of the reference grammar at the front of a text the lexer goes on exactly as if it began there, so it never stops inside a word; that what it takes is a word is `LexerAndDecoderAgree`. |
| ShellWords.DecodeIsQuoteRemoval | src/league/delegation_policy.py:21-54 | Decoding a well-formed word gives its quote removal, or nothing exactly when the word has an active expansion, glob, tilde or brace. |
| ShellWords.ExpandsExactly | src/league/delegation_policy.py:34-38 | The characters that make a `$` an expansion, in double quotes and outside, are those that the reference tree lists. |
| ShellWords.BracesExactly | src/league/delegation_policy.py:40-45 | The search for a brace list finds one exactly if some `{` and the next `}` behind it have a comma or two dots between them. |
| ShellWords.LexerAndDecoderAgree | src/league/delegation_policy.py:16-54 | Every word token of every command is a well-formed word, so the decoder never meets an open quote or a dangling backslash in it. |
| ShellWords.DecodeQuoted | integrations/pi/league-runtime.ts:34-36 | The decoder returns the original of any quoted string, with quotes, newlines, backslashes and hash signs. |
| ShellWords.LexJoined | src/league/delegation_policy.py:16-18 | Quoted strings joined with spaces lex to exactly one token for each. |
| ShellWords.QuoteRoundTrip | integrations/pi/league-runtime.ts:34-36 | Quoting a list of strings, joining, lexing and decoding gives the list back, for every list. |
| RepositoryPolicy.SplitSegments | src/league/delegation_policy.py:113-131 | The loop with its segment and comment variables splits a command as the recursive definition does. |
| RepositoryPolicy.RepositoryImplementation | src/league/delegation_policy.py:82-178 | The method with its loops and its tracked directory decides what the specification decides, whose exact terms are `ShellScripts.ScriptExactly` and `ShellScripts.EditExactly`. |
| RepositoryPolicy.Inspect | src/league/delegation_policy.py:132-145 | One segment's redirections and leading assignments, found by loops, decide as specified. |
| RepositoryPolicy.InspectWords | src/league/delegation_policy.py:146-177 | The chain of executables with its loop over `cd` options decides as specified; what that is for every list of words is `ShellSegments.CommandExactly`. |
| RepositoryPolicy.FindGitDirectory | src/league/delegation_policy.py:152-158 | The loop over leading `-C` options finds the specified directory and arguments. |
| RepositoryPolicy.FindTargets | src/league/delegation_policy.py:168-175 | The loop over `-t` and `--target-directory` finds the specified targets of `cp` and `mv`. |
| RepositoryPolicy.CopyWritesOne | src/league/delegation_policy.py:169-175 | `cp` has one target: the directory of its last target option, or its last argument if it has no such option. |
| RepositoryPolicy.MoveWritesAll | src/league/delegation_policy.py:169-175 | The targets of `mv` are exactly its arguments and every directory that an option names. |
| RepositoryPolicy.SegmentsMonotone | src/league/delegation_policy.py:132-178 | Knowing less about the directory at the start keeps every effect, through all `cd` and `git -C` tracking. |
| RepositoryPolicy.UnknownDirectoryIsSafe | src/league/delegation_policy.py:57-178 | A call that is an effect with a known directory is one with an unknown directory, for every command and edit. |
| RepositoryPolicy.QuotedArgumentsExact | src/league/delegation_policy.py:168-177 | A file tool called with quoted arguments is an effect exactly when an argument, as it was before quoting, names a path in a repository, or a relative one from an unknown directory. |
| ShellSegments.PathExactly | src/league/delegation_policy.py:57-67 | The parts of a path are its components between slashes without empty ones and single dots, and it is absolute exactly if the first of several components is empty. |
| ShellSegments.RedirectsExactly | src/league/delegation_policy.py:135-140 | A segment redirects into a repository exactly if one of six operators stands before a word that names something in one, and it is no descriptor duplication. |
| ShellSegments.CdExactly | src/league/delegation_policy.py:148-151 | `cd` leads to its first argument behind `--`, `-L` and `-P`, seen from the directory before it, and anywhere without an argument, with `-` or with an expansion. |
| ShellSegments.GitExactly | src/league/delegation_policy.py:152-158 | `git` is an effect exactly for `apply` and `am` in a repository, in the directory that its `-C` options lead to. |
| ShellSegments.InPlaceExactly | src/league/delegation_policy.py:162-165 | `sed` and `perl` edit in place exactly with `--in-place` or an `i` among the letters of a one-dash option. |
| ShellSegments.CopyExactly | src/league/delegation_policy.py:168-177 | `cp` is an effect exactly if the directory named last, or else its last argument, is in a repository. |
| ShellSegments.MoveExactly | src/league/delegation_policy.py:168-177 | `mv` is an effect exactly if an argument or a directory that an option names is in a repository. |
| ShellSegments.CommandExactly | src/league/delegation_policy.py:146-177 | For every list of words, what the tool named first does: an effect exactly as written out for each tool, no effect of any other, and a new directory only by `cd`. |
| ShellSegments.SegmentsExactly | src/league/delegation_policy.py:132-178 | A list of segments is an effect if and only if some segment writes to a repository from the directory that the `cd`s before it lead to. |
| ShellScripts.ScriptExactly | src/league/delegation_policy.py:57-178 | So for every command line of words, quoted in any way, symbols, separators and comments. |
| ShellScripts.CdThenTool | src/league/delegation_policy.py:148-177 | After `cd d` joined with `&&` or `;`, a file tool is an effect if and only if an argument names something in a repository seen from `d`, itself seen from the directory before it, or the directory is not known. |
| ShellScripts.EditExactly | src/league/delegation_policy.py:70-101 | An edit is an effect if and only if a target is in a repository, home directories included, or without targets its directory is; with an unknown directory, if it has no target, a relative one, or one in a repository. |
| UpdateLog.LinesOfGrowth | src/agent_watcher.py:663-666 | The lines of a grown log are those of the old one and then those behind where they ended. |
| UpdateLog.NextIsBoundary | src/agent_watcher.py:663-667 | A reader that starts on a line boundary stops on one, before the first line that is not whole. |
| UpdateLog.LinesAreLines | src/agent_watcher.py:663-667 | Every line that a read returns is a whole line of the log that it passes. |
| UpdateLog.LinesAreAll | src/agent_watcher.py:663-667 | Every whole line between the cursor and the new cursor is returned. |
| UpdateReader.ReadUpdates | src/agent_watcher.py:641-709 | The loop over raw lines, counting consumed bytes, returns the specified cursor, events, seen set and flag, or the specified failure. |
| UpdateReader.TakeLine | src/agent_watcher.py:668-708 | One line's checks: UTF-8, the seen set, strict decoding, materiality. |
| UpdateReader.SeenNeverSuppresses | src/agent_watcher.py:679-681 | A seen set that ends before the cursor suppresses no line: a read fails exactly on an unreadable line and else returns every material line, and its seen set ends before the new cursor. |
| UpdateReader.OneReadSplits | src/agent_watcher.py:641-709 | Reading a prefix of a log and then the rest gives what one read gives. |
| UpdateReader.PollingIsTimingIndependent | src/agent_watcher.py:641-709 | However a log grows between polls, torn tails included, and whatever part of the seen set survives, the polls return together what one read of the final log returns. |
| UpdateReader.CursorMoves | src/agent_watcher.py:679-709 | After a read the cursor is a line boundary of every longer log, and the kept seen set ends before it. |
| UpdateReader.MaterialExactly | src/agent_watcher.py:688-692 | A line becomes an event exactly if its status is one of seven words, in any case of letters. |
| UpdateReader.AcceptableExactly | src/agent_watcher.py:351-359 | The checks on a transition's fields: a time, an update, and one of eleven words in any case. |
| Delivery.CandidateExactly | src/agent_watcher.py:712-729 | The event of a material line is an acceptable candidate exactly if its status is one of the seven words as they are. |
| Delivery.CaseIsRefused | src/agent_watcher.py:712-729 | A material status whose event is refused. |
| DeliverySafety.ScanRecordOk | src/agent_watcher.py:868-880 | Queuing one record's events keeps the invariant: what is newly passed is pending, what is settled stays out. |
| DeliverySafety.ScanOk | src/agent_watcher.py:829-888 | A scan or baseline that commits keeps the invariant, moves no cursor back and forgets none it needs. |
| DeliverySafety.SettleOk | src/agent_watcher.py:923-936 | A mark keeps the invariant, with any eviction from the table. |
| DeliverySafety.MatchIsBehindAll | src/agent_watcher.py:814-825 | A candidate that matches the latest line lies behind every delivered line of its record. |
| DeliverySafety.MismatchHasLater | src/agent_watcher.py:814-817 | A candidate that no longer matches has a later line in its log. |
| DeliverySafety.NextKeeps | src/agent_watcher.py:531-539 | Every step of every process keeps the invariant of the durable state, of a delivery in progress and of the watcher. |
| DeliverySafety.RunKeeps | src/agent_watcher.py:531-539 | Every state of every run has it. |
| DeliveryRuns.PendingXorSettled | src/agent_watcher.py:853-936 | In every reachable state the lines consumed since the baseline are exactly those pending or settled, and none is both. |
| DeliveryRuns.DeliveredOnceInOrder | src/agent_watcher.py:905-936 | No line is delivered twice on any channel, and delivered offsets of one record strictly increase. |
| DeliveryRuns.SupersededHasLater | src/agent_watcher.py:1589-1597 | A superseded line has a later line in the same log. |
| DeliveryRuns.NeverRequeued | src/agent_watcher.py:868-880 | A settled line is never pending again in any later state, although the table may have evicted it. |
| DeliveryRuns.DirectIsLatest | src/agent_watcher.py:1658-1666 | A direct prompt for a log event is made while the line is the last of its log and equal to the snapshot. |
| DeliveryRuns.MatchesExactly | src/agent_watcher.py:749-825 | While its record is in step and has kept its identity, a pending event matches exactly if its line is the last of its log and equal to the snapshot. |
| DeliveryRuns.WatcherCheckedLatest | src/agent_watcher.py:905-920 | A line that the watcher is about to mark was the latest of its record at an earlier check, and the watcher has held it since. |
| DeliveryRuns.LatestAtMarkExactly | src/agent_watcher.py:916-920 | A line that was the latest at the watcher's check is the latest at the mark if and only if no step in between appended to its log, a whole line or part of one, and the snapshot is the same. |
| DeliveryRuns.MarkedLatestExactly | src/agent_watcher.py:905-920 | In a whole run every line the watcher marks is the latest at its mark if and only if no record was so disturbed between any check and its mark. |
| DeliveryRuns.KeepLeavesCandidate | src/agent_watcher.py:1616-1653 | A direct delivery that does not prompt has only superseded, and its candidate stays the next one. |
| DeliveryRuns.SettledOnceExactly | src/agent_watcher.py:923-936 | Log lines have been settled at most once if and only if no watcher mark found its line neither pending nor in the table. |
| DeliveryLimits.LineSettledTwice | src/agent_watcher.py:916-936 | A run in which a held line is superseded, evicted and settled again. |
| DeliveryLimits.WatcherMayMarkLate | src/agent_watcher.py:916-920 | A run in which the watcher marks a line after a later one was appended. |
| DeliveryLimits.RecordedIsSuited | src/agent_watcher.py:641-730 | Both runs exist for every material transition that the program's own printer writes and its strict decoder reads. |
| DeliveryLimits.ExampleSuited | src/agent_watcher.py:641-730 | A concrete record for which both runs exist. |
| AgentWatcher.State.MarkStateDelivered | src/agent_watcher.py:923-936 | Marks an event exactly if the table does not have it, evicting other keys down to the limit, and takes it from pending. |
| AgentWatcher.State.NextPendingEvent | src/agent_watcher.py:732-746 | Drops delivered events, refuses a bad candidate, and returns a first one by path and offset. |
| AgentWatcher.State.ScanUpdates | src/agent_watcher.py:868-880 | The loop for one record moves its cursor and queues exactly the events not in the table. |
| AgentWatcher.State.BaselineState | src/agent_watcher.py:829-850 | The baseline takes a scan step of the state machine that leaves nothing pending. |
| AgentWatcher.State.ScanState | src/agent_watcher.py:853-888 | The scan takes a scan step or fails exactly where the specification fails, and returns a next candidate. |
| AgentWatcher.StateStore.constructor | src/agent_watcher.py:514-521 | The state file starts as the default state. |
| AgentWatcher.StateStore.ScanAndRecord | src/agent_watcher.py:891-894 | A watcher's scan is a step of the state machine, or leaves the file as it was. |
| AgentWatcher.StateStore.MarkDelivered | src/agent_watcher.py:939-943 | A mark, or nothing when the table has the event. |
| AgentWatcher.StateStore.ClaimWatcherEvent | src/agent_watcher.py:905-920 | A claim is the check step and then, if the line is the latest, the mark step; it returns True exactly if it marked a fresh event. |
| AgentWatcher.StateStore.SupersedeStale | src/agent_watcher.py:1588-1597 | The superseding loop ends, as pending events get fewer, after a chain of superseding turns, each under a record lock of its own with writers going on in between; it ends at no candidate or at one that is still the latest, and raises exactly for a bad candidate or a check that raises. |
| AgentWatcher.StateStore.PromptCandidate | src/agent_watcher.py:1616-1653 | Prompts and marks exactly if enabled, without a live wait and with a reachable endpoint; otherwise the candidate stays next, and only a prompt that raises is an error. |
| AgentWatcher.StateStore.FinishDelivery | src/agent_watcher.py:1655-1666 | Under the record lock: an error if and only if the check or the prompt raises, superseded if and only if the line is no longer the latest, prompted if and only if it may be and is sent, and kept if and only if it may not be or nobody is there. |
| AgentWatcher.StateStore.DeliverTransition | src/agent_watcher.py:1571-1669 | A direct delivery is a scan, superseding turns and a prompt or a commit without one; its answer is the one to the candidate at which the loop ends, it raises exactly if the scan, the loop, the last check or the prompt does, and an error leaves the file as it was. |
| AgentWatcher.DeliveredLeads | src/agent_watcher.py:1583-1669 | Such a delivery, with growth of the logs between its record locks, is a run of steps of the delivery state machine. |
| RecordPair.Record.WritePair | src/agent_watcher.py:481-500 | Appends the line and replaces the snapshot, or cuts the log back to its size before. |
| RecordPair.Record.TransitionRecord | src/agent_watcher.py:441-511 | Refused as invalid if and only if the status is none of seven words in any case, the update or the time is blank or malformed, or the pair is out of step; otherwise it succeeds on a log that ends with a line feed unless a write fails, with one line more and its snapshot, and a failed write that is rolled back leaves both unchanged. |
| RecordPair.AppendKeepsPair | src/agent_watcher.py:402-423 | Appending an acceptable transition, printed, to a terminated log and rewriting the snapshot keeps the pair valid. |
| RecordPair.UnterminatedBreaksPair | src/agent_watcher.py:481-500 | On a log without a final line break the same writes leave an invalid pair. |
| RecordPair.TransitionGrows | src/agent_watcher.py:441-511 | A completed transition is growth of the world in the delivery state machine. |
| TransitionText.DumpDecodes | src/agent_watcher.py:489 | What `json.dumps` prints of a transition, in ASCII with surrogate pairs, decodes as UTF-8 and strict JSON to that transition, exactly when its fields are acceptable. |
| TransitionText.DecodeExactly | src/agent_watcher.py:132-155 | The strict decoder reads exactly the lines of well-formed UTF-8 that hold one object without repeated names at any depth and three acceptable texts, and as they say. |
| TransitionText.JoinedIsRefused | src/agent_watcher.py:147-155 | A line that decodes, followed by anything that is not blank, does not decode. |
| TransitionText.Utf8Append | src/agent_watcher.py:668 | Well-formed UTF-8 keeps its characters when more follows. |
| TransitionText.StrictPrints | src/agent_watcher.py:147-155 | So the program's own printer and strict decoder are as `RecordPair` assumes them. |
| Json.LoadsOnce | src/agent_watcher.py:149 | Text with something not blank behind an object is no JSON text. |
| Debounce.CountersAreStreaks | src/agent_watcher.py:1498-1561 | After any passes and resets, each stored counter is the longest suffix of identical mismatches in its record's history, and is absent exactly when the history ends clear. |
| Debounce.QueuedExactly | src/agent_watcher.py:1528-1548 | A pass queues a stalled event exactly for a mismatch whose counter reaches the limit and whose event is not in the table. |
| Debounce.QueuedAfterStreak | src/agent_watcher.py:1528-1548 | It is queued exactly after at least the requested number of identical mismatches in a row. |
| Debounce.Reconciler.Reconcile | src/agent_watcher.py:1498-1561 | The loop over the observations updates counters, pending events and the queued list as specified, with the event of its observation under each id, and refuses a limit outside 2 to 10. |
| Debounce.Reconciler.Reset | src/agent_watcher.py:1092-1097 | A failed reconciliation clears every counter. |
| Debounce.QueuedIsDeliveryStep | src/agent_watcher.py:1528-1548 | Queuing a stalled event is a step of the delivery state machine. |
| Callsigns.ReserveConserves | src/agent_watcher.py:3031-3043 | A reservation keeps free and in-use names disjoint and duplicate-free, with the same union for every role. |
| Callsigns.ReleaseConserves | src/agent_watcher.py:2310-2338 | So does a release, which sorts the list. |
| Callsigns.AllocateConserves | src/agent_watcher.py:2517-2551 | So does allocating a hidden worker, whose name was free. |
| Callsigns.DismissConserves | src/agent_watcher.py:2554-2584 | So does releasing a hidden worker. |
| Callsigns.NamesAreConserved | src/agent_watcher.py:2310-2338 | All names of both pools are conserved by every sequence of the four operations. |
| Callsigns.ReleaseUndoesReserve | src/agent_watcher.py:3182-3188 | Releasing what was just reserved restores the pool as a set. |
| Callsigns.ReserveExactly | src/agent_watcher.py:3031-3043 | A reservation goes through exactly for a free Champion name that is not in use, and moves that name only. |
| Callsigns.ReleaseExactly | src/agent_watcher.py:2310-2338 | A release goes through exactly for a name in use by that role, and moves that name only. |
| Callsigns.DismissExactly | src/agent_watcher.py:2554-2584 | The same for a hidden worker and its owner. |
| Launches.LaunchesConserve | src/agent_watcher.py:3102-3191 | However launches, deaths and releases interleave, free and in-use names stay disjoint and duplicate-free with the same union for every role. |
| Launches.HeldExactly | src/agent_watcher.py:3031-3043 | The reservation of a name is still a launch's own exactly as long as no step has taken the name out of use. |
| Launches.ReleasesOthersExactly | src/agent_watcher.py:3182-3188 | A failing launch takes the name from somebody else if and only if the name was released since its own reservation and is in use again. |
| Launches.LaunchFreesAnother | src/agent_watcher.py:2310-2338 | A run in which it does. |
| Launches.LaunchEndsExactly | src/agent_watcher.py:3102-3191 | A launch ends with its name in use and without a record of its own if and only if it died or could not write its release, and nobody released the name in between; after a success the record exists. |
| Launches.FailureRestores | src/agent_watcher.py:3182-3188 | A failing launch that writes its release leaves the name free in the Champions' list. |
| LaunchRoster.Roster.constructor | src/agent_watcher.py:3031-3043 | A pool with no launches. |
| LaunchRoster.Roster.ReserveCallsign | src/agent_watcher.py:3031-3043 | Reserves exactly a free champion name that is not in use, or changes nothing. |
| LaunchRoster.Roster.ReleaseVisibleCallsign | src/agent_watcher.py:2310-2338 | Releases exactly a name in use by the given role, or changes nothing. |
| LaunchRoster.Roster.LaunchChampion | src/agent_watcher.py:3102-3191 | With other launches and releases between any two of its steps and death where the caller says, a launch is a run of the machine: one that reserved and does not die at work ends with its record if and only if it starts and finds no record at its create step, and otherwise fails or dies; one that failed or died still holds its name exactly if it died or could not write its release, and nobody released the name. |
| Callsigns.HiddenPool.AllocateHiddenWorker | src/agent_watcher.py:2517-2551 | Takes the first free name for a worker that is not active, conserving all names. |
| Callsigns.HiddenPool.ReleaseHiddenWorker | src/agent_watcher.py:2554-2584 | Releases exactly the name of the exact worker with complete evidence, conserving all names. |
| CleanupSaga.NextKeeps | src/league/cleanup.py:619-718 | Every step of every executor keeps the invariant: receipts are a prefix of the plan and name intended states, executors are in order, and no receipt is lost. |
| CleanupSaga.RunKeeps | src/league/cleanup.py:619-718 | Every state of every run has it, with any crashes and stale executors. |
| CleanupSaga.NextIsAfterReceipts | src/league/cleanup.py:662-694 | Whatever action an executor is at, all actions before it have receipts. |
| CleanupSaga.RecordOk | src/league/sqlite_runtime_ops.py:1542-1603 | Recording the next receipt keeps receipts and completed actions in step and changes no other receipt. |
| CleanupSaga.BlockOk | src/league/sqlite_runtime_ops.py:1650-1734 | Blocking, or refusing to block, keeps the storage in order. |
| CleanupRuns.ReceiptsFormPrefix | src/league/cleanup.py:662-694 | In every reachable state receipts form a prefix of the plan order, each for an observed intended state. |
| CleanupRuns.ReceiptsAreFinal | src/league/sqlite_runtime_ops.py:1560-1569 | A receipt is never changed or dropped, so an action has at most one. |
| CleanupRuns.EffectAfterReceipts | src/league/cleanup.py:662-694 | An effect on an action happens only after the receipts of all actions before it, the archive first. |
| CleanupRuns.ReadyWasInspected | src/league/cleanup.py:667-675 | `apply` is called only after an inspection by the same executor that showed exactly the expected identity and not the intended state. |
| CleanupRuns.EffectAfterCleanPreflight | src/league/cleanup.py:644-661 | It is called only after a preflight of the whole plan, in the same execution, in which every action was acceptable. |
| CleanupRuns.RefusedPreflightHasNoEffect | src/league/cleanup.py:644-661 | An execution whose preflight finds a drifted or regressed action has had no effect at all and ends. |
| CleanupRuns.AppliedOnceExactly | src/league/cleanup.py:662-694 | Over any sequence of executions that crash anywhere and overlap, an action has had its effect at most once if and only if no executor acted on it after another had done so since its own inspection. |
| CleanupRuns.OutdatedIsStale | src/league/sqlite_runtime_ops.py:1475-1539 | Two executors that so overlap on an action do not both act with the current fence. |
| CleanupRuns.AppliedAtMostOnce | src/league/cleanup.py:662-694 | So no action ever has its effect twice as long as no lease runs out under an effect. |
| CleanupRuns.FinalizedHasReceipts | src/league/sqlite_runtime_ops.py:1752-1761 | A finalized operation has a receipt of an intended state for every action. |
| CleanupRuns.FinalizeLeavesIntended | src/league/cleanup.py:694-696 | Where nobody undoes intended states, a run that finalizes leaves every action in its own. |
| CleanupBlocks.DriftBlocks | src/league/cleanup.py:646-718 | In every run, an executor that holds the operation and inspects a resource that is neither as intended nor as expected ends, the operation is blocked with the action stopped, and no claim ever goes through again. |
| CleanupBlocks.ChangedBlocks | src/league/cleanup.py:646-718 | So does one that finds a completed action no longer intended; its receipt stays. |
| CleanupBlocks.UnknownBlocks | src/league/cleanup.py:646-718 | And one that meets an adapter that is not registered. |
| CleanupBlocks.UnverifiedLeavesOpen | src/league/cleanup.py:676-718 | An effect that is not found leaves the store as it was. |
| CleanupBlocks.RaisedBlocksExactly | src/league/cleanup.py:38-40 | A raised refusal blocks exactly if the executor holds the operation and it is neither `cleanup_adapter_failed` nor `cleanup_verification_failed`. |
| CleanupBlocks.StaleChangesNothing | src/league/sqlite_runtime_ops.py:1650-1675 | An executor whose fence is no longer the current one changes nothing. |
| CleanupBlocks.InOrderGoesOn | src/league/cleanup.py:644-675 | What is intended or as expected goes on without a refusal. |
| CleanupBlocks.OwnerRecords | src/league/sqlite_runtime_ops.py:1542-1603 | The executor that holds the operation records its receipt, and the action is done. |
| CleanupBlocks.OwnerFinalizes | src/league/sqlite_runtime_ops.py:1752-1761 | With nothing left to do it completes the operation. |
| CleanupBlocks.ClaimExactly | src/league/sqlite_runtime_ops.py:1475-1539 | A claim goes through exactly with the current fence, no live lease, and no block other than a changed identity behind the last receipt. |
| CleanupOverlap.OverlapRepeatsEffect | src/league/cleanup.py:662-694 | In every plan whose resources are as expected, every action has a run in which it has its effect twice and each action before it once: two executors overlap after a lease. |
| CleanupOverlap.ExampleIsPlan | src/league/cleanup.py:475-544 | The example begins with the archive and goes on with the final actions and adapters that the policy of an analysis task requires. |
| CleanupOverlap.ExampleIsUndone | src/league/real_cleanup.py:336-353 | None of its actions is done at first. |
| CleanupOverlap.ExampleExitsTwice | src/league/real_cleanup.py:336-353 | A run in which its archive is written once and the agent is prompted twice to exit. |
| CleanupExecutor.Cleanup.constructor | src/league/sqlite_runtime_ops.py:1139-1150 | A planned operation without receipts, before any claim. |
| CleanupExecutor.Cleanup.Begin | src/league/cleanup.py:629-632 | Claims by fence exactly when the storage allows it. |
| CleanupExecutor.Cleanup.Read | src/league/cleanup.py:635-640 | Reads which actions are completed, which are those with a receipt, while others go on. |
| CleanupExecutor.Cleanup.Preflight | src/league/cleanup.py:644-661 | The preflight loop prepares the unfinished actions in order or ends the execution, which has applied nothing. |
| CleanupExecutor.Cleanup.Judge | src/league/cleanup.py:646-660 | The checks of preflight object exactly where the specification does. |
| CleanupExecutor.Cleanup.BringAbout | src/league/cleanup.py:662-684 | Inspects, reconciles what is already intended, refuses what is stale, and applies the rest. |
| CleanupExecutor.Cleanup.ApplyAndVerify | src/league/cleanup.py:675-684 | Applies, may crash before the receipt, and verifies the effect. |
| CleanupExecutor.Cleanup.PutReceipt | src/league/cleanup.py:684-693 | Records the receipt under the fence. |
| CleanupExecutor.Cleanup.Refuse | src/league/cleanup.py:697-718 | A refusal ends the execution; with the current fence it blocks the operation for good unless it is one of the two recoverable ones, and else changes nothing in the store. |
| CleanupExecutor.Cleanup.Execute | src/league/cleanup.py:619-718 | With any steps of other executors between its own, the execution is a run of the state machine; if it finalizes, the operation is completed and every action has a receipt of an intended state; if it is refused, the operation is blocked or untouched as the refusal says; if it crashes, its last step leaves the store alone. |
| CleanupPlan.AddResources | src/league/cleanup.py:498-513 | The loop over the sorted resources with its counter appends the specified actions. |
| CleanupPlan.AddFinals | src/league/cleanup.py:551-578 | The loop over the final actions appends them with consecutive ordinals or refuses the first bad one. |
| CleanupPlan.BuildActions | src/league/cleanup.py:475-585 | The list of actions is the specified one, or refused when releases are out of order. |
| CleanupPlan.MakePlan | src/league/cleanup.py:373-607 | The planner with its loops accepts and refuses as the specification does, whose exact terms are `CleanupContents.PlanAcceptedExactly`. |
| CleanupContents.PlanAcceptedExactly | src/league/cleanup.py:373-607 | For every manifest, a plan is made if and only if owner, decisions and publications, every proof that class and disposition need, every resource and its registration, the retained repository, the issue-coupled close, the final actions with kind and adapter, the order of the releases and the version are as written out. |
| CleanupContents.PlanContents | src/league/cleanup.py:475-578 | And the plan is, field by field, the archive, one action for each resource it acts on in id order, and the final actions of the manifest. |
| CleanupContents.PlanNumbers | src/league/cleanup.py:477-505 | Its actions are numbered on from 0, and their ids are the operation, a colon and the number in at least three digits. |
| CleanupContents.UnprovenRemovalExactly | src/league/cleanup.py:47-78 | A plan removes a worktree or branch without the three git proofs exactly if the task is an analysis that lists a resource with such a removal. |
| CleanupContents.PublishedIsProven | src/league/cleanup.py:47-78 | A completed task with a pull request that keeps no repository has the three publication proofs, and a deployed service the two deployment proofs. |
| CleanupUnproven.UnprovenRemoval | src/league/cleanup.py:498-513 | A concrete manifest whose plan removes a worktree that nothing proves to be clean. |
| CleanupAccepted.RequirementsExactly | src/league/cleanup.py:111-140 | Which proofs are needed by a class and a disposition, with a retained worktree or without. |
| CleanupAccepted.DeclaredExactly | src/league/cleanup.py:434-468 | Which lists of resources are accepted against the storage, and as what. |
| CleanupAccepted.RetentionExactly | src/league/cleanup.py:152-202 | When a repository may be retained, and which. |
| CleanupAccepted.OrderExactly | src/league/cleanup.py:579-584 | The check of the releases by index is that some occurrence of each stands before all of the next. |
| CleanupPlanLaws.ActionIdsDistinct | src/league/cleanup.py:505 | Padded ordinals give distinct action ids. |
| CleanupPlanLaws.PlanIsNumbered | src/league/cleanup.py:475-578 | An accepted plan has ordinals 0 to n-1 and distinct ids. |
| CleanupPlanLaws.RegisteredIsDeclared | src/league/cleanup.py:446-465 | Every resource that the storage has registered for the task is declared, exactly as registered. |
| CleanupPlanLaws.PlanCoversResources | src/league/cleanup.py:446-549 | It starts with the archive, has one action for each resource that is not plainly retained in id order and nothing else, so one for each such resource that the storage has registered, and ends with the policy's final actions. |
| CleanupPlanLaws.RetainedPlanRemovesNothing | src/league/cleanup.py:152-202 | With a repository to retain it has no worktree removal and no branch deletion. |
| CleanupPlanOrder.PlanIgnoresOrder | src/league/cleanup.py:434-513 | Two manifests that differ in the order of their resources are both accepted or both refused, and their plans are the same except for the order in which the archive lists the resources. |
| CleanupPlanLaws.RegisteredOk | src/league/cleanup.py:264-271 | A registered resource obeys the rule of its lifetime. |
| Json.PrintedLoads | scripts/new-engineering-receipt.py:121 | Parsing what was printed gives the value back, for every JSON value with integer numbers. |
| Json.ParsePrinted | scripts/validate-engineering-impact.py:142-146 | So it does in front of any text that ends a value. |
| FrontMatter.FrontmatterDocument | scripts/validate-engineering-impact.py:123-150 | The loop over the lines fills the specified values or refuses as specified. |
| FrontMatter.AssembledParses | scripts/validate-engineering-impact.py:123-150 | A document assembled from proper fields parses to exactly those fields and the stripped text behind them. |
| FrontMatterExact.DocumentExactly | scripts/validate-engineering-impact.py:123-150 | A text parses to these values and this body if and only if it has the two delimiters and its lines give each key exactly once, as JSON or as plain text. |
| ReceiptRoundTrip.PrintOneLine | scripts/new-engineering-receipt.py:121-140 | No accepted string can break the line of its printed value. |
| ReceiptRoundTrip.FieldsProper | scripts/new-engineering-receipt.py:122-140 | All sixteen rendered fields are proper. |
| ReceiptValidity.ScaffoldParses | scripts/new-engineering-receipt.py:119-178 | For every accepted request the rendered document parses to exactly its fields and its two-paragraph body. |
| ReceiptValidity.BodyHasTwoParagraphs | scripts/validate-engineering-impact.py:301-307 | The rendered body has exactly the heading and the summary as paragraphs. |
| ReceiptValidity.ScaffoldValidExactly | scripts/validate-engineering-impact.py:310-341 | The validator accepts the scaffold's receipt if and only if it is asked about the same pull request, every reference resolves with the matching type, and the number is below 10^146. |
| ReceiptValidity.HugeNumberIsRefused | scripts/validate-engineering-impact.py:259-282 | A concrete accepted request whose receipt the validator refuses. |
| ReceiptExact.ScaffoldExactly | scripts/new-engineering-receipt.py:119-178 | A receipt is written for exactly the requests with a positive number, one-line title and summary, no heading as summary, and references that fit the classification. |
| ReceiptExact.FrontExactly | scripts/validate-engineering-impact.py:183-299 | Which fields are accepted, all sixteen written out: as asked, references that resolve, well-formed facts, sources with the exact URL, and facts only with verified evidence. |
| ReceiptBody.BodyExactly | scripts/validate-engineering-impact.py:301-307 | Which bodies: the heading with the title, a blank line, and one paragraph of at most 280 characters. |
| ReceiptBody.CollapseExactly | scripts/validate-engineering-impact.py:305-307 | The length of the collapsed summary is that of its words with one space between them. |
| ReceiptBody.ReceiptExactly | scripts/validate-engineering-impact.py:310-341 | So the validator accepts a text if and only if it parses and its fields and body are these, and returns the fields. |
| Sorting.SortedKeeps | scripts/new-engineering-receipt.py:154 | Sorting the references only reorders them. |
| Sorting.SortedAscends | scripts/new-engineering-receipt.py:154 | And puts them in order. |
| VersionedStore.EventIdsDistinct | prototypes/sqlite_store.py:329 | The names of events are injective in row and version, and those of agents and tasks are disjoint. |
| VersionedStore.TransitionExactly | prototypes/sqlite_store.py:319-359 | A transition succeeds if and only if the live agent is at the expected version. |
| VersionedStore.ReserveExactly | prototypes/sqlite_store.py:282-317 | A reservation succeeds if and only if the agent is new, the callsign known and free, and the task exists. |
| VersionedStore.TransferExactly | prototypes/sqlite_store.py:385-435 | A transfer succeeds if and only if the new owner is a live agent of the task and the task is at the expected version. |
| VersionedStore.AfterKeeps | prototypes/sqlite_store.py:99-138 | Every operation, refused or not, keeps events, receipts, snapshots and leases in step. |
| VersionedStore.RunKeeps | prototypes/sqlite_store.py:256-435 | So does every sequence of operations. |
| VersionedStore.AgentHistory | prototypes/sqlite_store.py:319-359 | In every reachable state an agent's events carry exactly the versions 1 to its version, and it shows what they fold to. |
| VersionedStore.TaskHistory | prototypes/sqlite_store.py:385-435 | A task's events and receipts carry exactly the versions 2 to its version, and its owner is the last receipt's. |
| SqliteStore.SQLiteStorePrototype.constructor | prototypes/sqlite_store.py:172-216 | A new store is empty and in order. |
| SqliteStore.SQLiteStorePrototype.CreateProject | prototypes/sqlite_store.py:256-263 | Adds a project exactly if its id and URL are new. |
| SqliteStore.SQLiteStorePrototype.CreateTask | prototypes/sqlite_store.py:265-272 | Adds a task exactly if its id is new and its project exists. |
| SqliteStore.SQLiteStorePrototype.AddCallsign | prototypes/sqlite_store.py:274-280 | Adds a callsign exactly if it is new and its role is supported. |
| SqliteStore.SQLiteStorePrototype.ReserveCallsign | prototypes/sqlite_store.py:282-317 | Three inserts, all or none, with the exact success condition. |
| SqliteStore.SQLiteStorePrototype.Transition | prototypes/sqlite_store.py:319-359 | Compare-and-swap and event, both or neither, with the exact success condition. |
| SqliteStore.SQLiteStorePrototype.TransferTaskOwner | prototypes/sqlite_store.py:385-435 | Owner, event and receipt, all or none, with the exact success condition. |
| Cutover.RunKeeps | src/league/acceptance.py:1496-1639 | Every reachable state of a cutover has the invariant, with crashes after any write and any interrupted recoveries: one writer, the stages of the journal behind their effects, and what each process has done. |
| Cutover.VerifyHolds | src/league/acceptance.py:1461-1466 | The coherence check never fails. |
| Cutover.OneWriter | src/league/acceptance.py:1444-1458 | At most one writer is active, it is the pointer's, and no snapshot of the history has two. |
| Cutover.OldNeverReturns | src/league/acceptance.py:1539-1556 | Once the new writer has been active the old one never is again. |
| Cutover.PointerExactly | src/league/acceptance.py:1544-1552 | The pointer is the new one exactly when its replacement has happened. |
| Cutover.BackupExactly | src/league/acceptance.py:1532-1536 | From its write on, through crashes and recoveries, the backup is the old pointer, and before it there is none. |
| Cutover.StageAfterEffect | src/league/acceptance.py:1520-1572 | In every reachable state the journal shows no stage before its effect. |
| Cutover.CompletedRecovery | src/league/acceptance.py:1575-1639 | A completed recovery leaves exactly the pointer's writer, new if and only if the replacement preceded it, and records so when resumed. |
| Cutover.CrashIsRecoverable | src/league/acceptance.py:1590-1607 | After a crash, recovery is let through exactly if the journal is unfinished and the generations differ. |
| Cutover.FinishedIsCoherent | src/league/acceptance.py:1593-1622 | A finished root is refused recovery and is coherent. |
| Cutover.PrefixIsReached | src/league/acceptance.py:1490-1572 | Each prefix of a script is reached by steps of the state machine. |
| CutoverRoot.Root.SetSandboxWriters | src/league/acceptance.py:1444-1458 | Writes the writers and then their snapshot, and may die between the two. |
| CutoverRoot.Root.ExecuteSwitch | src/league/acceptance.py:1496-1572 | The files end as the first writes of the switch, as many as the process lived to make. |
| CutoverRoot.Root.ReconcileStartup | src/league/acceptance.py:1575-1639 | Recovery is let through exactly by its guards, and leaves the first writes of its script. |

## Left out

- DeliveryRuns.SettledOnceExactly: covers log lines; a `champion_stalled` event may be settled again after the table has evicted it, which the code does not prevent.
- AgentWatcher.StateStore.DeliverTransition: the reasons `duplicate`, `non-material` and `no-pending-transition` are one outcome, because `last_event_id` plays no part in what is settled.
- UpdateReader.ReadUpdates: log lines end in line feeds; the decoder of a line and the UTF-8 check are parameters, for which `TransitionText` has the program's own. Lower-casing is that of ASCII.
- RecordPair.Record.TransitionRecord: the `next` and `blocker` fields and the record's role are not modelled; a reader that sees the appended line before a failed snapshot write cuts it off again is outside the append-only assumption.
- RepositoryPolicy.RepositoryImplementation: takes the tool name, the targets of an edit and the working directory as already decoded from the payload; extracting file names from patch text is not modelled.
- TransitionText.StrictPrints: which timestamps `datetime.fromisoformat` accepts is a parameter; a line whose other members hold fractions or unpaired surrogates, which the program would read, is refused here.
- CleanupRuns.AppliedOnceExactly: assumes of adapters that `apply` leaves a resource alone or brings it to its intended state, and that the identity of a resource that was acted on never comes back. Without the second, drift alone could make an executor act again.
- CleanupRuns.AppliedAtMostOnce: is one way; the exact condition is `CleanupRuns.AppliedOnceExactly`.
- CleanupOverlap.ExampleIsPlan: the values of intended states are texts.
- LaunchRoster.Roster.LaunchChampion: the preflight and the release of the agent that was started are left out; starting it, its identity and its snapshot are one answer.
- Json.PrintedLoads: fractions, exponents, the non-finite constants and unpaired surrogates are not modelled.
- ReceiptValidity.ScaffoldParses: decimal digits are the ASCII ones, and Python's limit of 4300 digits for an integer is not modelled.
- Records of the legacy format, and log lines that end in lone carriage returns.
- The public-safety patterns of the receipt scaffold, which only make it accept less, and its file creation.
- Deadlock freedom and liveness of the watcher's locks, which the watcher and the direct delivery take in opposite orders.
- Foreign effects (Herdr, tmux, git, process inspection, sockets, sleeping): only their results are inputs. A prompt that was sent although the state was not written afterwards counts as an aborted delivery.
- Finalizing a cleanup also settles assignments and the task's canonical state; only its effect on the operation is modelled, and cleanup operations are not interleaved with new plans.
- Timestamps, lease expiry dates and digests: a lease is live or not, and a digest is the value it is computed from.
- SQLite itself: statements are atomic changes of maps, 64-bit overflow of versions is not modelled, and deliveries, backup, export and migrations are left out as easier members.
- Release staging, launcher checks and file-descriptor checks in `src/league/acceptance.py`.
- The historical backfill batches and record metadata checks in `scripts/validate-engineering-impact.py`.
