# Verified model of the crash-tolerant protocols

This project models the parts of the repository that must not do a thing twice, lose it, or claim it falsely: the hash-chained
dispatch ledger, the resumable application of a Worker bundle, the write-ahead effects against GitHub and a local provider,
the patch queue, the closeout and terminal lifecycle gates, the supervision state and bounded rendering. `dafny verify
dfyconfig.toml` (Dafny 4.11) checks the whole project.

How it is laid out, one module a file:

- `Ledger`, `LedgerFile`, `LedgerFraming`, `LedgerReplay` model the dispatch ledger: chain verification, the file as UTF-8
  bytes read with `str.splitlines` and written as canonical JSON, the idempotent batch, replay, and the admission check.
  `JsonText` is the JSON text they and `BoundedEvidence` share; `JsonDecoding` shows that it can be read in one way only, and
  `EventMeaning` what the validator and the line splitter accept.
- `Resumption` is the theory of resumable runs: a program is what it does next on a disk, a run may die instead of any
  durable write, and if only the first write looks at the clock then any number of interrupted runs amount to one.
- `DispatchApplication` is the step semantics of applying a bundle: the next durable write as a function of the disk.
  `DispatchRows` and `DispatchPhases` show that the reachable disks form one line of phases, `DispatchSafety` draws the
  conclusions, and `DispatchStore` is the program itself, a class whose methods change the files step by step and are proved
  to be the runs of the step semantics, with every exception spelled out. `DispatchLedgerFile` ties the abstract ledger to
  the bytes of the file, `DispatchOrder` says what becomes of out-of-order ledgers, and `DispatchExamples` holds concrete
  applications. `DispatchOutcome` says what a finished application leaves, and when one may begin, without the functions it
  is made of. The role lifecycle is the same application with other opening checks and with or without a ledger.
- `MergeGates` and `GuardedMerge`, `IssueEffect`, `PullRequest`, `ProviderLoop` and `PatchQueue` are the write-ahead
  protocols. Servers, write outcomes and moments of death are adversarial: they are arbitrary values, or scripts and schedules
  over which the results are quantified.
- `ChildCloseout`, `ChildPlanCheck`, `TerminalPlan`, `TerminalReady` and `TerminalTransition` are the closeout compiler and the
  terminal lifecycle gate; `Sorting` is what they need about sorting.
- `GateMeaning`, `CloseoutMeaning` and `TerminalMeaning` state the merge gates, the closeout plan and the terminal plan once
  more, in the fields of what goes in and comes out.
- `SupervisionBridge` is the supervision state machine.

What is assumed, always as a parameter or a precondition and never silently:

- SHA-256 (section 6.2 of FIPS 180-4) is an arbitrary function. The ledger head theorem is stated as a reduction: equal heads
  mean equal histories, or a collision between records of the two, or a record that hashes to the all-zero head. Where a
  lemma needs injectivity it says so. In `GuardedMerge` a state names its request by a digest taken to be injective.
- The digests of an application are hexadecimal text: they hold no line separator, and stage identities are valid texts
  (`DispatchApplication.ApplicationValid`). The board, and with it the active task, stays the same during an application.
- UTF-8 decoding and JSON parsing (section 7 of RFC 8259 for what is escaped) are a codec; `LedgerFile.Faithful` is what is
  assumed of it, and `JsonDecoding.FaithfulCodec` shows that such a codec exists. Events are built of dictionaries: in every object the keys are distinct, and the model lists them in order.
- The Supervisor transition is an arbitrary deterministic partial function of state and trimmed event.
- The native identity adapter returns a child that is not its parent and replay records that only grow
  (`SupervisionBridge.AdapterKeeps`).
- Pull request creation is shown to happen at most once against a search that never forgets a pull request it has shown.

Results about the code that are not as one might expect:

- JSON does not escape U+0085, U+2028 and U+2029 but `splitlines` breaks at them: an append is read back exactly when the new
  record holds none of them, and a record that does makes the ledger unreadable for good.
- An application whose event identity holds one of these characters, or begins with a blank, starts well and can never
  complete: the first leaves the ledger unreadable, the second a Supervisor record that reconciliation does not expect. The
  same holds for a clock that is not a timestamp, and while the active task is `T006`: the recovery record is written and
  every run is then refused its first event. The exact condition of completion names all of them.
- An out-of-order ledger is refused by the application only after an earlier missing stage row was appended to it, so after
  at most two refusals the next run completes, on rows that stand in the wrong order.
- The issue lifecycle can report a plain error after it sent its request, in exactly one situation.
- The pull request lifecycle can report a plain error after it created a pull request, in exactly one situation.
- The terminal gate accepts a closeout plan with an extra action of unknown kind and no sequence.
- Whether reviews are ambiguous depends on the order in which they are listed, what is concluded from them does not.
- A supervision state is valid at birth exactly when the goal identity was given trimmed, and validity alone is not inductive:
  it needs that before there is a Supervisor there is exactly one checkpoint.

## Model

| member | source | states |
|---|---|---|
| Ledger.VerifyLines | plugins/codexmax-orchestrator/scripts/dispatch_ledger.py:129-154 | The verification loop accepts exactly the line lists that are the lines of a well-chained record list (consecutive sequences, each record naming the hash of the one before, no identity twice, own hash right) whose head is the expected one if one is given; otherwise it reports the error of the first bad line. |
| Ledger.VerifyAccepts | plugins/codexmax-orchestrator/scripts/dispatch_ledger.py:108-154 | Verification of lines succeeds with given rows exactly when the lines are those rows and the rows are well chained; rows come back unchanged. |
| Ledger.HeadCommits | plugins/codexmax-orchestrator/scripts/dispatch_ledger.py:116-126 | Two verified ledgers with one head hold the same rows, or a record of one collides with a different record of the other, or a record of one of them hashes to the zero head. |
| Ledger.NoSilentRewrite | plugins/codexmax-orchestrator/scripts/dispatch_ledger.py:108-154 | Under an injective hash that never yields the zero head, equal heads mean equal histories: no rewrite, reordering, insertion or deletion keeps the head. |
| Ledger.SealExtends | plugins/codexmax-orchestrator/scripts/dispatch_ledger.py:245-267 | A valid event of a new identity, sealed onto a verified ledger, keeps it verified. |
| Ledger.BatchSound | plugins/codexmax-orchestrator/scripts/dispatch_ledger.py:284-340 | A successful batch keeps the chain, only appends, reports for event i a stored record that equals event i in every field but perhaps the timestamp, and appends records of its own events only. |
| Ledger.BatchConcat | plugins/codexmax-orchestrator/scripts/dispatch_ledger.py:284-340 | Running A then B is running A ++ B: same ledger, same reports, and one succeeds exactly when the other does. |
| Ledger.BatchIdempotent | plugins/codexmax-orchestrator/scripts/dispatch_ledger.py:296-329 | Running a batch again, even after other rows were appended, appends nothing and reports the same records. |
| Ledger.BatchFailsOnConflict | plugins/codexmax-orchestrator/scripts/dispatch_ledger.py:303-316 | A batch is refused exactly when two of its events, or an event and the stored row of its identity, differ in some field other than the timestamp. |
| Ledger.BatchLookup | plugins/codexmax-orchestrator/scripts/dispatch_ledger.py:296-321 | What an identity means after a batch: the row stored before, or a record that equals the batch's events of that identity in every field but the timestamp. |
| LedgerFile.PlanBatch | plugins/codexmax-orchestrator/scripts/dispatch_ledger.py:290-326 | The planning loop over its two dictionaries computes exactly the batch specification; appended and idempotent counts add up to the batch length. |
| LedgerFile.LedgerStore.Verified | plugins/codexmax-orchestrator/scripts/dispatch_ledger.py:157-172 | Reading the file: absent is empty, a missing final newline and bad UTF-8 are rejected, the rest is verified line by line, and the expected head is compared last. |
| LedgerFile.LedgerStore.AppendEvent | plugins/codexmax-orchestrator/scripts/dispatch_ledger.py:245-267 | An append succeeds exactly when event, file, expected head, expected count and identity allow it, and then adds the one sealed record to the bytes; on any error the file is untouched. |
| LedgerFile.LedgerStore.AppendEventsIdempotent | plugins/codexmax-orchestrator/scripts/dispatch_ledger.py:284-340 | A batch append succeeds exactly when all events are valid, the file verifies and nothing conflicts; then every event is reported by a stored record equal to it but for the timestamp, and the file grows by exactly the planned chain, or not at all; any error changes no byte. |
| EventMeaning.ValidExactly | plugins/codexmax-orchestrator/scripts/dispatch_ledger.py:60-105 | What an event is, by writing instead of reading: named texts, a known type, a timestamp that is the text of an instant that exists, digests of 64 hexadecimal digits, dictionaries, and token usage that is not erased. |
| EventMeaning.TimestampExactly | plugins/codexmax-orchestrator/scripts/dispatch_ledger.py:60-105 | A timestamp is accepted exactly when it is the printed form of an existing instant, leap years included. |
| EventMeaning.LinesExactly | plugins/codexmax-orchestrator/scripts/dispatch_ledger.py:169 | The lines of a text are what stands between its breaks, and put together with them they are the text; a carriage return is never cut off from its line feed. |
| JsonDecoding.DumpsUnique | plugins/codexmax-orchestrator/scripts/dispatch_ledger.py:52-57 | Canonical JSON can be read in one way only: two texts that begin with canonical values and are equal begin with the same value. |
| JsonDecoding.RecordUnique | plugins/codexmax-orchestrator/scripts/dispatch_ledger.py:52-57 | Two different records never have the same text, and no record's text begins another's: what is hashed and compared as canonical bytes is the record itself. |
| JsonDecoding.Utf8Unique | plugins/codexmax-orchestrator/scripts/dispatch_ledger.py:52-57 | Different texts have different bytes. |
| JsonDecoding.FaithfulCodec | plugins/codexmax-orchestrator/scripts/dispatch_ledger.py:157-172 | What is assumed of decoding can be had: there is a codec that reads every record back and takes no proper prefix for one. |
| LedgerFraming.AppendRoundTrip | plugins/codexmax-orchestrator/scripts/dispatch_ledger.py:157-172 | Appending a record to a verified file gives a file that verifies to the old rows plus the record exactly when the record's text stays on one line. |
| LedgerFraming.BatchRoundTrip | plugins/codexmax-orchestrator/scripts/dispatch_ledger.py:231-242 | The same for a whole batch: it reads back exactly when every new record stays on one line. |
| LedgerFraming.BatchesCompose | plugins/codexmax-orchestrator/scripts/dispatch_ledger.py:284-340 | Appending A and then B leaves the very bytes of appending A ++ B, and B can read what A wrote exactly when A's records stay on one line. |
| LedgerFraming.BrokenStaysBroken | plugins/codexmax-orchestrator/scripts/dispatch_ledger.py:157-172 | Whatever is appended after a record that broke its line, every further read fails at that line. |
| LedgerFraming.TornWrite | plugins/codexmax-orchestrator/scripts/dispatch_ledger.py:157-172 | Every byte prefix of a verified file is either rejected as truncated or verifies to a prefix of the rows. |
| LedgerFraming.OneLineMeansNoSeparator | plugins/codexmax-orchestrator/scripts/dispatch_ledger.py:52-57 | Canonical JSON stays on one line exactly when no string in the record holds U+0085, U+2028 or U+2029. |
| LedgerFraming.RecordOneLine | plugins/codexmax-orchestrator/scripts/dispatch_ledger.py:52-57 | Which of a record's parts matter: it stays on one line exactly when neither its event nor its two hashes hold one of the three separators. |
| LedgerFraming.SeparatorBricksLedger | plugins/codexmax-orchestrator/scripts/dispatch_ledger.py:157-172 | A concrete event that the validator accepts, with U+2028 in a text: after it is appended the ledger can never be read again. |
| LedgerFraming.SplitConcat | plugins/codexmax-orchestrator/scripts/dispatch_ledger.py:169 | Line splitting is local: text after a finished line adds its own lines and changes none before. |
| DispatchLedgerFile.HeldReads | plugins/codexmax-orchestrator/scripts/dispatch_ledger.py:157-172 | The abstract ledger of an application agrees with the bytes: reading the file succeeds exactly when the disk says it is readable, and gives the rows of the disk. |
| DispatchLedgerFile.WritesAppend | plugins/codexmax-orchestrator/scripts/apply_scheduled_dispatch.py:770-774 | Every stage row an application writes, and every batch of another lease, is one append of bytes to that file, and it stays readable exactly when every new row stays on its line. |
| LedgerReplay.Replay | plugins/codexmax-orchestrator/scripts/dispatch_ledger.py:343-370 | The one-pass replay agrees with the per-key readings of the rows, and these with the rows themselves: a lease is active under its newest grant with no later end, accepted results and unaccounted rows are counted as sets of positions, and a task has the type of its last ending row. |
| LedgerReplay.ReplayTells | plugins/codexmax-orchestrator/scripts/dispatch_ledger.py:343-370 | The readings in the fields of the rows: who is active, how many were accepted from whom, how many are unaccounted, how each task ended. |
| LedgerReplay.ActiveLeaseMeaning | plugins/codexmax-orchestrator/scripts/dispatch_ledger.py:346-354 | A lease is active under a grant exactly when that grant is followed by no other grant, release, expiry or recovery of the lease. |
| LedgerReplay.ActiveIffNoLaterEnd | plugins/codexmax-orchestrator/scripts/dispatch_ledger.py:346-354 | A lease is active exactly when some grant of it has no later end row. |
| LedgerReplay.ForeignRowsKeepLease | plugins/codexmax-orchestrator/scripts/dispatch_ledger.py:343-370 | Rows of other leases never change whether a lease is active. |
| LedgerReplay.ValidateAdmission | plugins/codexmax-orchestrator/scripts/bind_scheduled_dispatch.py:478-549 | The binding check succeeds exactly when the grant stands where the admission says, is the lease's only grant, no later row names the lease, no later row of the task is a grant, carries a higher fence or an unknown outcome, and it is in time; the replay check in it can then never fail, and the grant is its task's newest. |
| BoundedEvidence.RenderBounded | plugins/codexmax-orchestrator/scripts/bounded_evidence.py:52-87 | Rendered text fits the budget; rendering fails exactly when even the empty excerpt does not fit; on truncation the chosen cut fits and the next longer one does not. |
| BoundedEvidence.SearchCut | plugins/codexmax-orchestrator/scripts/bounded_evidence.py:73-87 | The binary search ends on a cut that fits next to one that does not, although size is not monotone. |
| BoundedEvidence.ExcerptShape | plugins/codexmax-orchestrator/scripts/bounded_evidence.py:40-49 | An excerpt is the text, a prefix of it, or a prefix, the marker and a suffix, of exactly the requested length. |
| BoundedEvidence.TruncatedShows | plugins/codexmax-orchestrator/scripts/bounded_evidence.py:66-87 | A cut text is rendered as a whole excerpt of the asked length, flagged as truncated, and every other entry is the payload's. |
| BoundedEvidence.CompleteShows | plugins/codexmax-orchestrator/scripts/bounded_evidence.py:52-65 | A text that fits is rendered whole, flagged as not truncated, and every other entry is the payload's. |
| BoundedEvidence.SizeIsNotMonotone | plugins/codexmax-orchestrator/scripts/bounded_evidence.py:66-67 | Concrete text for which a longer cut encodes to a shorter document. |
| Resumption.Convergence | plugins/codexmax-orchestrator/scripts/apply_scheduled_dispatch.py:854-1008 | Attempts that crash any number of times and settle in the end leave the disk and the answer of one uninterrupted run under the clock of the first attempt that got to write. |
| Resumption.RunCompose | plugins/codexmax-orchestrator/scripts/apply_scheduled_dispatch.py:854-1008 | A crashed run followed by a run is one longer run, under the clock of whichever made the first write. |
| Resumption.SettledStays | plugins/codexmax-orchestrator/scripts/apply_scheduled_dispatch.py:994-1008 | Running again after a run that completed or was refused changes nothing. |
| DispatchApplication.CrashConvergence | plugins/codexmax-orchestrator/scripts/apply_scheduled_dispatch.py:854-1008 | The application reads its clock only when it creates the recovery record, so crash convergence holds for it: any history of crashed and repeated runs amounts to one run, under the clock of the first that got to write. |
| DispatchApplication.PrepareMeaning | plugins/codexmax-orchestrator/scripts/apply_scheduled_dispatch.py:525-541 | The projection lists one record and one snapshot per event, each from the snapshot before. |
| DispatchPhases.StepAt | plugins/codexmax-orchestrator/scripts/apply_scheduled_dispatch.py:637-834 | On every disk of some phase, whatever a run does next is the one durable write that leads to the next phase, unless it logs an event whose texts have blanks to trim; it stops only when finished, or when a named obstacle blocks it, an unreadable ledger, a missing recovery control and a malformed clock among them. |
| DispatchPhases.ReconcileAt | plugins/codexmax-orchestrator/scripts/apply_scheduled_dispatch.py:637-668 | Reconciliation accepts the disk every crash leaves and reads its position back. |
| DispatchPhases.CursorAt | plugins/codexmax-orchestrator/scripts/apply_scheduled_dispatch.py:663-668 | The cursor check after reconciliation is implied as soon as one event is logged, and by the opening check before. |
| DispatchPhases.ApplyAt | plugins/codexmax-orchestrator/scripts/apply_scheduled_dispatch.py:704-719 | Applying the next event leads to exactly the expected record and the next snapshot exactly when the event has no blanks to trim; otherwise the log strays. |
| DispatchPhases.TrimmedAdvance | plugins/codexmax-orchestrator/scripts/run_goalbuddy_supervisor.py:1342-1404 | The file step applies the trimmed event: the transition comes out the same, but the record is the expected one exactly when there was nothing to trim. |
| DispatchPhases.AstrayForever | plugins/codexmax-orchestrator/scripts/apply_scheduled_dispatch.py:655-657 | Once the log strayed, every run, under any clock, answers that the event suffix conflicts, and writes nothing. |
| DispatchRows.NextMark | plugins/codexmax-orchestrator/scripts/apply_scheduled_dispatch.py:760-774 | Appending the next stage row keeps the chain, the grant and the lease's usability, and adds exactly that row to the lease's rows. |
| DispatchRows.ForeignRows | plugins/codexmax-orchestrator/scripts/apply_scheduled_dispatch.py:777-834 | Rows of other leases keep everything this application relies on. |
| DispatchRows.StageRowAt | plugins/codexmax-orchestrator/scripts/apply_scheduled_dispatch.py:733-745 | The search for a stage row finds exactly the stage rows this application wrote, one each. |
| DispatchSafety.Reached | plugins/codexmax-orchestrator/scripts/apply_scheduled_dispatch.py:854-1008 | Every disk reachable by crashes, reruns under any clock and appends of other leases is the disk of some phase, or one whose log strayed at an event with blanks to trim. |
| DispatchSafety.WriteOrder | plugins/codexmax-orchestrator/scripts/apply_scheduled_dispatch.py:777-834 | On every reachable disk: stage rows are a prefix of the four stages, once each, with increasing sequences; a stage row implies the whole Supervisor part; the receipt implies all four rows; the lease is active exactly until its release row. |
| DispatchSafety.ReconcileExact | plugins/codexmax-orchestrator/scripts/apply_scheduled_dispatch.py:637-668 | Reconciliation answers (k, stale) exactly when the log verifies, its suffix is the first k expected records, and the state is snapshot k, or k - 1 when stale. |
| DispatchSafety.UniqueOutcome | plugins/codexmax-orchestrator/scripts/apply_scheduled_dispatch.py:965-1008 | A completed attempt, however often interrupted, leaves exactly one disk, spelled out from the starting disk and the clock of the first attempt that wrote: log, state, four sealed rows, recovery record and receipt. |
| DispatchSafety.OutcomeAmidOthers | plugins/codexmax-orchestrator/scripts/apply_scheduled_dispatch.py:965-1008 | The same when other leases append in between: log, state, stage events and receipt are determined, only the places of the stage rows are not. |
| DispatchOutcome.OutcomeTells | plugins/codexmax-orchestrator/scripts/apply_scheduled_dispatch.py:345-374 | What a finished application says in its own terms, compared with the grant: the returned tokens and cost in every row, accounted for by the first row alone; the six digests and facts it rests on, each under its own key; the event identities in the third row and the release in the last row alone; every other field as granted; and in the log each event with what the transition made of the state before it. |
| DispatchOutcome.ProgramTells | plugins/codexmax-orchestrator/scripts/apply_scheduled_dispatch.py:854-1008 | The same of a completed run of the program on the files. |
| DispatchOutcome.OutcomeTellsAmidOthers | plugins/codexmax-orchestrator/scripts/apply_scheduled_dispatch.py:345-374 | The same of the four rows when rows of other leases lie between them. |
| DispatchOutcome.StageEventTells | plugins/codexmax-orchestrator/scripts/apply_scheduled_dispatch.py:345-374 | One stage event, read entry by entry against the event of the grant. |
| DispatchOutcome.AdmitsExactly | plugins/codexmax-orchestrator/scripts/apply_scheduled_dispatch.py:163-227 | A ledger admits the application exactly when it verifies, the grant stands where the manifest says, the lease has no unknown outcome, expiry or recovery, and is either held under the granted fence or released once, by this very manifest. |
| DispatchOutcome.BeginsExactly | plugins/codexmax-orchestrator/scripts/apply_scheduled_dispatch.py:905-963 | Without a recovery record a run writes one exactly when the ledger admits it, the log verifies, the state is the bound one and accepts every event, and, if scheduled, no stage row or receipt exists and the cursor fits; it writes nothing else, and the record holds the projection. |
| DispatchOutcome.RecoveryAccepted | plugins/codexmax-orchestrator/scripts/apply_scheduled_dispatch.py:597-634 | A recovery record is accepted exactly when it is this application's and its projection comes out again. |
| DispatchOutcome.PrepareExactly | plugins/codexmax-orchestrator/scripts/apply_scheduled_dispatch.py:525-541 | The projection is exactly the chain of records and states that the transition makes of the events. |
| DispatchOutcome.TrimmedExactly | plugins/codexmax-orchestrator/scripts/run_goalbuddy_supervisor.py:814-830 | The file step leaves an event as it is exactly if none of its four texts has a blank at either end. |
| DispatchSafety.CompletesIff | plugins/codexmax-orchestrator/scripts/apply_scheduled_dispatch.py:854-1008 | An application completes, within 3n + 11 durable writes, exactly when it may begin, the active task is not one whose events need a recovery control, no event or stage identity is taken or repeated, no event has blanks to trim, its clock is a timestamp, the ledger can be read, and no stage row holds a line separator. |
| DispatchSafety.CompletesAfter | plugins/codexmax-orchestrator/scripts/apply_scheduled_dispatch.py:854-1008 | From a disk of some phase, under the same conditions on what is still to be written, a run completes exactly when it survives the remaining number of writes. |
| DispatchSafety.ResumesToTheEnd | plugins/codexmax-orchestrator/scripts/apply_scheduled_dispatch.py:854-1008 | From any reachable crash state, under the same conditions on what is still to be written, one more run with enough writes finishes the same transaction. |
| DispatchStore.Store.ReconcileSupervisor | plugins/codexmax-orchestrator/scripts/apply_scheduled_dispatch.py:637-668 | The reconciliation procedure repairs a state that trails by one, and otherwise changes nothing; errors as specified. |
| DispatchStore.Store.LogEvent | plugins/codexmax-orchestrator/scripts/run_goalbuddy_supervisor.py:1342-1425 | The file step on one trimmed event: refused without a recovery control where one is needed and for a known identity; otherwise record, then state, and afterwards reconciliation stands at the next event exactly if there was nothing to trim, and else answers a suffix conflict. |
| DispatchStore.Store.ApplyEvent | plugins/codexmax-orchestrator/scripts/apply_scheduled_dispatch.py:697-719 | One event and its bookkeeping: log record, state, count; each may be the last write. The run stays the run of the step semantics, or the record is not the expected one and it ends in a suffix conflict, at most with the state replaced. |
| DispatchStore.Store.ApplySupervisor | plugins/codexmax-orchestrator/scripts/apply_scheduled_dispatch.py:682-730 | The Supervisor loop is the step semantics up to the point where every event is logged and counted, with the same one exception. |
| DispatchStore.Store.AppendOrReuse | plugins/codexmax-orchestrator/scripts/apply_scheduled_dispatch.py:760-774 | One stage row: found and matching, or appended now and read back. It ends in place exactly when the stage passes, an unreadable row included among the reasons why not; every other stage row stays as found. |
| DispatchStore.Store.FinalizeStage | plugins/codexmax-orchestrator/scripts/apply_scheduled_dispatch.py:816-828 | One pass of the loop: afterwards the stage's row is in the ledger and its sequence in the recovery record, later stages are untouched, and it takes at most two writes. |
| DispatchStore.Store.FinalizeLedger | plugins/codexmax-orchestrator/scripts/apply_scheduled_dispatch.py:777-834 | The finalization loop is the step semantics on an ordered ledger. With eight writes left it answers out of order at stage j exactly when every stage before j passes, one of them is missing, and j is there; the gap is filled then, and later stages are untouched. |
| DispatchStore.Store.Conclude | plugins/codexmax-orchestrator/scripts/apply_scheduled_dispatch.py:965-1008 | Receipt written or compared, recovery record closed. |
| DispatchStore.Store.Apply | plugins/codexmax-orchestrator/scripts/apply_scheduled_dispatch.py:854-1008 | The whole run of the program on the files is the run of the step semantics, for the scheduled and the role variant, but for three ends that are spelled out: the log strayed, the row just written cannot be read back, or a refusal because of the order of the stage rows. |
| DispatchOrder.OrderDecides | plugins/codexmax-orchestrator/scripts/apply_scheduled_dispatch.py:812-821 | Where the run without the order check completes, the program completes the same way if the stage rows are in order, and is refused for their order if they are not. |
| DispatchOrder.RefusalsEnd | plugins/codexmax-orchestrator/scripts/apply_scheduled_dispatch.py:777-834 | Reruns on an out-of-order ledger: each refusal fills a gap, at most two attempts are refused, and the next one ends on the disk and with the answer of the run without the order check. |
| DispatchOrder.FinalizeRun | plugins/codexmax-orchestrator/scripts/apply_scheduled_dispatch.py:777-834 | Without the order check, finalization completes from any stage on when every remaining stage passes. |
| DispatchOrder.DisorderFate | plugins/codexmax-orchestrator/scripts/apply_scheduled_dispatch.py:812-821 | For any application whose stages pass: with the second stage row written before the first, one run is refused there, which appends the first behind the second, and the next one completes. |
| DispatchExamples.SampleCompletes | plugins/codexmax-orchestrator/scripts/apply_scheduled_dispatch.py:854-1008 | A concrete application meets all conditions of completion, and 17 writes are exactly what it takes. |
| DispatchExamples.SeparatedIdSticks | plugins/codexmax-orchestrator/scripts/apply_scheduled_dispatch.py:791-802 | An event identity with a line separator gets into the third stage row, so no run of the application ever completes, whatever its clock. |
| DispatchExamples.SeparatorSticks | plugins/codexmax-orchestrator/scripts/run_headless_provider_dispatch.py:2010-2036 | It happens: a concrete dispatch whose identity holds U+2028, with its route and result events, begins well and never completes. |
| DispatchExamples.BlankSticks | plugins/codexmax-orchestrator/scripts/run_headless_provider_dispatch.py:2010-2036 | It happens: a concrete dispatch whose identity begins with a blank begins well, its stage rows are clear, and it never completes. |
| DispatchExamples.OutOfOrderLedger | plugins/codexmax-orchestrator/scripts/apply_scheduled_dispatch.py:812-821 | A concrete out-of-order ledger: the first run is refused at the second stage, the next one completes. |
| DispatchExamples.PlainStages | plugins/codexmax-orchestrator/scripts/apply_scheduled_dispatch.py:345-374 | If neither the grant nor what the application adds holds a separator, then every stage row stays on its line. |
| DispatchStore.ReachableInOrder | plugins/codexmax-orchestrator/scripts/apply_scheduled_dispatch.py:807-815 | No crash, rerun or foreign append ever leads to an out-of-order ledger. |
| MergeGates.CheckGate | plugins/codexmax-orchestrator/scripts/github_guarded_merge.py:393-410 | The check loops pass exactly when every check is green, no identity occurs twice, and every required check is there, by name alone if it names no application. |
| MergeGates.LatestReviews | plugins/codexmax-orchestrator/scripts/github_guarded_merge.py:411-422 | The table holds each reviewer's unique newest review; it is refused exactly when a review ties with the newest earlier one of its reviewer. |
| MergeGates.ReviewGate | plugins/codexmax-orchestrator/scripts/github_guarded_merge.py:411-433 | Reviews pass exactly when they are not ambiguous, no newest review asks for changes, and enough others approved the expected head. |
| MergeGates.OrderIrrelevant | plugins/codexmax-orchestrator/scripts/github_guarded_merge.py:415-422 | Two orders of the same reviews that both give a table give the same one. |
| MergeGates.AmbiguityDependsOnOrder | plugins/codexmax-orchestrator/scripts/github_guarded_merge.py:415-420 | Concrete reviews that are ambiguous in one order and not in another. |
| GuardedMerge.NoBlindRetry | plugins/codexmax-orchestrator/scripts/github_guarded_merge.py:480-605 | In every history, any two merge requests are for one and the same request, and between them the state file of that request was set to reconciled_unmerged, right after its own pull request was seen unmerged or an answer came without a merge. |
| GuardedMerge.OneOwner | plugins/codexmax-orchestrator/scripts/github_guarded_merge.py:172-190 | Once a readable state is on disk, the state file belongs to that request for good: no later state is of another one, and it is never absent or unreadable again. |
| GuardedMerge.PutFollowsIntent | plugins/codexmax-orchestrator/scripts/github_guarded_merge.py:553-576 | Every merge request is sent from a durable effect_started of its own request, with no earlier request unaccounted for. |
| GuardedMerge.BoundAfterMerge | plugins/codexmax-orchestrator/scripts/github_guarded_merge.py:530-594 | A state is bound only right after exactly its pull request was seen merged as that commit, or its own merge request was answered so. |
| GuardedMerge.Merge.FreshGates | plugins/codexmax-orchestrator/scripts/github_guarded_merge.py:371-438 | The gates succeed only with observations that satisfy all of them, taken in this run, and are refused only for something read that does not satisfy its gate, ambiguous reviews, or a reading that failed. |
| GateMeaning.GatesExactly | plugins/codexmax-orchestrator/scripts/github_guarded_merge.py:371-438 | The gates in the fields of what is read: the one expected pull request, open, clean and no draft; every check completed without failing and listed once, every requirement met; everybody's last review unambiguous, none asking for changes, enough others approving this head; all of it whole and at these commits. |
| GuardedMerge.Merge.LastLook | plugins/codexmax-orchestrator/scripts/github_guarded_merge.py:553-571 | After the intent: merged, closed and unready are recorded for what they are, and nothing was requested; merged leaves the state bound to the commit seen, closed and unready leave it reconciled_unmerged. |
| GuardedMerge.Merge.RequestMerge | plugins/codexmax-orchestrator/scripts/github_guarded_merge.py:572-594 | The one request and its outcome: a refusal is reported only after an answer without `merged: true` and leaves reconciled_unmerged, a success leaves the state bound to its commit, and without an answer unknown is written, and is what the file says if that write happened. |
| GuardedMerge.Merge.Reconcile | plugins/codexmax-orchestrator/scripts/github_guarded_merge.py:539-546 | A run that starts on an uncertain state looks, records and requests nothing; ready leaves reconciled_unmerged, bound leaves the state bound to the commit seen. |
| GuardedMerge.Merge.Execute | plugins/codexmax-orchestrator/scripts/github_guarded_merge.py:480-605 | Any run, crashed or not: no request from effect_started, unknown or an unreadable state; a request only after all gates held and the intent was durable in the same run, and only one; an error receipt means nothing was sent or an answer came without `merged: true`; a bound receipt means the expected head was reported merged as that commit. Ready leaves reconciled_unmerged on disk, bound leaves bound, and a refused request leaves reconciled_unmerged. |
| GuardedMerge.UnknownIsNamed | plugins/codexmax-orchestrator/scripts/github_guarded_merge.py:595-602 | Exactly when a failure counts as unknown, and under which code it is reported. |
| IssueEffect.AtMostOnePost | plugins/codexmax-orchestrator/scripts/github_issue_live.py:162-288 | Over every schedule of every number of processes, with crashes and repeats, at most one request to create the issue is sent. |
| IssueEffect.ScheduleKeeps | plugins/codexmax-orchestrator/scripts/github_issue_live.py:84-117 | The invariant behind it holds on every schedule, and a state file once there is never removed. |
| IssueEffect.PostAfterFile | plugins/codexmax-orchestrator/scripts/github_issue_live.py:226-250 | The state file exists before the request and stays. |
| IssueEffect.ReceiptsTruthful | plugins/codexmax-orchestrator/scripts/github_issue_live.py:210-288 | How far receipts can be trusted: whoever reconciled sent nothing, whoever reports the issue created sent the one request, and an error receipt hides a request exactly when its answer raised an unforeseen error in decoding. |
| IssueEffect.MoveLeaves | plugins/codexmax-orchestrator/scripts/github_issue_live.py:210-288 | What each move leaves on disk: the intent before a request, the binding behind a success, doubt behind a failure whose record could be written; nothing else touches the file. |
| IssueEffect.ObserveDecides | plugins/codexmax-orchestrator/scripts/github_issue_live.py:210-230 | A process goes on to create exactly where nothing was recorded and nothing is there. |
| IssueEffect.CreatesAlone | plugins/codexmax-orchestrator/scripts/github_issue_live.py:162-288 | Undisturbed, a process creates the issue and binds it. |
| IssueEffect.HiddenRequest | plugins/codexmax-orchestrator/scripts/github_issue_live.py:276-288 | It happens: a schedule of one process that sends the request and ends with an error receipt that asks for no reconciliation; the state file still says the effect was started. |
| IssueEffect.LateComersSendNothing | plugins/codexmax-orchestrator/scripts/github_issue_live.py:46-66 | A run that finds a state file never sends anything, under any schedule. |
| IssueEffect.ExclusionNeeded | plugins/codexmax-orchestrator/scripts/github_issue_live.py:88-101 | Without exclusive creation a schedule from the empty world lets two processes both send. |
| PullRequest.AtMostOneCreation | plugins/codexmax-orchestrator/scripts/github_pr_lifecycle.py:351-484 | Against a search that never forgets, at most one creation is sent over any sequence of runs; every push and creation follows its durable intent, and a state is bound only to a head just seen on the pull request. |
| PullRequest.Publication.CreateAndBind | plugins/codexmax-orchestrator/scripts/github_pr_lifecycle.py:472-484 | Intent, creation, binding or giving up; succeeds exactly when intent, creation of the pushed head and binding all did, and then leaves the state bound; giving up leaves unknown if that write is done. |
| PullRequest.Publication.PublishLocal | plugins/codexmax-orchestrator/scripts/github_pr_lifecycle.py:410-459 | Publishing succeeds exactly when commit, intent and push did, the pull request was created or found for the new head and bound, and could be observed; the state is then bound to that head. Once the push intent is written every failure is reported unknown; an error means nothing was pushed or created. |
| PullRequest.Publication.Execute | plugins/codexmax-orchestrator/scripts/github_pr_lifecycle.py:351-470 | Any run keeps the history safe. It reports an unchanged observation exactly when it looked at or adopted the expected pull request, and a changed one exactly when it finished an earlier push or published; each leaves the state bound to that head. An error receipt hides a push or creation exactly when a reconciled push created and recorded the pull request and could then not observe it; observe mode changes nothing. |
| PullRequest.CreatesBlindly | plugins/codexmax-orchestrator/scripts/github_pr_lifecycle.py:395-409 | It happens: one run dies in its push, the next one creates the pull request and reports an error. |
| ProviderLoop.CallsTakeAFreeLease | scripts/local_qwopus_loop.py:770-774 | A call starts right after the run took a lease that was absent or released. |
| ProviderLoop.UnresolvedBlocks | scripts/local_qwopus_loop.py:770-779 | After a call that never returned nothing but checkpoint records follows, for any task, until the lease is changed from outside. |
| ProviderLoop.Runner.ChangeLease | scripts/local_qwopus_loop.py:770-774 | Replacing the lease from outside keeps everything the runs rely on; it is the one event that can free a blocked lease. |
| ProviderLoop.Runner.Attempt | scripts/local_qwopus_loop.py:769-784 | A held lease means no call at all; otherwise at most one. |
| ProviderLoop.Runner.Turn | scripts/local_qwopus_loop.py:765-795 | One turn counts the attempt, makes it and records how it went: one attempt more and one error more, or a candidate on record. |
| ProviderLoop.Runner.Retry | scripts/local_qwopus_loop.py:765-795 | The retry loop counts each attempt before it is made, so calls never exceed the durable count, and never two; it goes on until the second attempt or an error that ends all attempts, records one error an attempt, and no call follows such an error. |
| ProviderLoop.Runner.RunLocked | scripts/local_qwopus_loop.py:743-802 | Fresh or resumed, crashed or not, a run keeps calls within the durable attempts and within two; a held lease, a finished or escalated task, or an attempt interrupted in its call leads to no call. A candidate leaves the checkpoint ready, escalation leaves it escalated after the second attempt or a final error, and every refusal has its one reason. |
| PatchQueue.Workspace.ApplyRecorded | scripts/local_qwopus_loop.py:226-268 | Completed applies are rows plus the applied pending one; an unresolved announcement, another run's queue or files changed since block every further patch and change nothing; otherwise this packet is announced with the hashes before, the pending apply before it becomes a superseded row, and the hashes after are recorded exactly on success. |
| PatchQueue.Workspace.ReconcilePending | scripts/local_qwopus_loop.py:205-223 | Safe to apply exactly when the pending entry is this packet's and the files are as before it, applied already exactly when they are as after it and not as before; it changes nothing. |
| PatchQueue.Workspace.AppliedState | scripts/local_qwopus_loop.py:271-284 | The pending apply may be validated or accepted exactly when it is complete, this packet's, and the files are as it left them. |
| PatchQueue.Workspace.Validate | scripts/local_qwopus_loop.py:292-305 | A validation is kept exactly if this packet is applied, all sources are there before and after, and the tests left them unchanged; it is bound to their hashes, the two fixed files included, and stands beside the pending apply. |
| PatchQueue.Workspace.Advance | scripts/local_qwopus_loop.py:308-365 | Acceptance is committed once, in the queue, exactly when the applied and validated files are reviewed and the packet still holds on them, as one accepted row behind those that were there; asked for again it changes no row and rewrites the checkpoint file from the commit. |
| PatchQueue.Workspace.AdvanceAgain | scripts/local_qwopus_loop.py:308-365 | A crash between the two writes is repaired by asking again: one commit, one row, the file restored. |
| PatchQueue.RepairsChain | scripts/local_qwopus_loop.py:243-247 | Consecutive repairs chain: a superseded apply left exactly the hashes the next one started from. |
| ChildCloseout.History | plugins/codexmax-orchestrator/scripts/compile_parent_child_closeout.py:109-155 | History reading succeeds exactly on well-chained pages whose concatenated events are consistent: each is about a thread under the Parent and never the Parent itself, and any two agree on thread exactly when they agree on path. It gives the children those events describe, in order. |
| ChildCloseout.SeeAllIff | plugins/codexmax-orchestrator/scripts/compile_parent_child_closeout.py:131-152 | The fold over the events succeeds exactly on consistent histories. |
| ChildCloseout.SeeAllMeaning | plugins/codexmax-orchestrator/scripts/compile_parent_child_closeout.py:131-152 | Children are exactly those the events name, one to one by thread and path, each with its newest event, all under the Parent's path and none of them the Parent. |
| ChildCloseout.PagesIrrelevant | plugins/codexmax-orchestrator/scripts/compile_parent_child_closeout.py:109-155 | Two ways of cutting the same events into chained pages are both refused, or read as the same list of children. |
| ChildCloseout.OneHistory | plugins/codexmax-orchestrator/scripts/compile_parent_child_closeout.py:153-155 | The events determine the ordered list of children. |
| ChildCloseout.AgentRows | plugins/codexmax-orchestrator/scripts/compile_parent_child_closeout.py:91-106 | The inventory is accepted exactly when no path occurs twice. |
| ChildCloseout.CompilePlan | plugins/codexmax-orchestrator/scripts/compile_parent_child_closeout.py:175-233 | A plan is compiled exactly from a consistent history, an active Parent, an inventory whose active agents are all known children, and nothing to keep; it is the plan that archives every child and interrupts the active ones. |
| CloseoutMeaning.CompilesExactly | plugins/codexmax-orchestrator/scripts/compile_parent_child_closeout.py:175-191 | A request compiles exactly when its history can be trusted, each agent is listed once, the Parent runs, whoever else runs is known from the history, and nothing is to be kept. |
| CloseoutMeaning.CompiledTells | plugins/codexmax-orchestrator/scripts/compile_parent_child_closeout.py:192-233 | What a compiled plan says: the children of the history in order of path, each with its newest event and its listed status; archive every child as step two, interrupt the running ones as step one; actions in order of step, then path. |
| CloseoutMeaning.InterruptsFirst | plugins/codexmax-orchestrator/scripts/compile_parent_child_closeout.py:219 | Every interruption stands before every archiving. |
| ChildCloseout.CheckResults | plugins/codexmax-orchestrator/scripts/compile_parent_child_closeout.py:242-258 | Results are accepted exactly when every planned action is reported once, successfully, and nothing else is. |
| ChildCloseout.CheckPost | plugins/codexmax-orchestrator/scripts/compile_parent_child_closeout.py:259-270 | The fresh inventory is accepted exactly when the Parent is active and nobody else is. |
| ChildCloseout.Confirm | plugins/codexmax-orchestrator/scripts/compile_parent_child_closeout.py:236-287 | Confirmation succeeds exactly when the plan recompiles, all its actions and no others were reported done, and only the Parent still runs. |
| ChildPlanCheck.Check | plugins/codexmax-orchestrator/scripts/compile_terminal_lifecycle.py:477-551 | The terminal gate's loops accept exactly the plans that archive every child, interrupt exactly the active ones, and name targets and identities consistently. |
| ChildPlanCheck.CompiledPlansAccepted | plugins/codexmax-orchestrator/scripts/compile_terminal_lifecycle.py:477-551 | Every plan the closeout compiler can write is accepted by the terminal gate for its own goal and task, given injective action identities. |
| ChildPlanCheck.CompileThenCheck | plugins/codexmax-orchestrator/scripts/compile_parent_child_closeout.py:175-233 | The two programs end to end: whatever compiles is accepted. |
| ChildPlanCheck.UnknownActionAccepted | plugins/codexmax-orchestrator/scripts/compile_terminal_lifecycle.py:532-539 | An accepted plan stays accepted with an extra action of unknown kind and no sequence. |
| TerminalPlan.ValidateInventory | plugins/codexmax-orchestrator/scripts/compile_terminal_lifecycle.py:347-374 | An inventory is accepted exactly when the anchored authority took it, its seal fits, it is complete, and it names no resource twice. |
| TerminalPlan.ValidateAuthorities | plugins/codexmax-orchestrator/scripts/compile_terminal_lifecycle.py:377-407 | Authorities are accepted exactly when all are sealed, anchored, approved, issued and unexpired, one a resource; they are then looked up by resource. |
| TerminalPlan.PlanActions | plugins/codexmax-orchestrator/scripts/compile_terminal_lifecycle.py:866-893 | The planning loop succeeds exactly when every resource has an action, and lists every resource beside the action decided for it, and exactly what the retaining actions keep. |
| TerminalMeaning.EmittedTells | plugins/codexmax-orchestrator/scripts/compile_terminal_lifecycle.py:421-475 | What an emitted plan says of each resource, from the resource alone: exactly when each of the ten actions is decided on and why, its target and identity, how long it is kept; every resource once, in order of identity; and retained is what the retaining rows keep. |
| TerminalMeaning.ActionExactly | plugins/codexmax-orchestrator/scripts/compile_terminal_lifecycle.py:421-475 | A resource has an action exactly if it can be disposed of or left alone. |
| TerminalPlan.Check | plugins/codexmax-orchestrator/scripts/compile_terminal_lifecycle.py:717-793 | The plan check's loops accept exactly the plans with one action a resource, stable identities, and no action on what the goal does not own. |
| TerminalPlan.EmittedPlansPass | plugins/codexmax-orchestrator/scripts/compile_terminal_lifecycle.py:796-893 | Every plan the planner emits passes the plan check. |
| TerminalReady.ChildResources | plugins/codexmax-orchestrator/scripts/compile_terminal_lifecycle.py:577-642 | Resource matching succeeds exactly when the Parent is protected, planned children are one to one with the goal's threads and agents at the Parent's host, and, if the terminal actions are given, they archive every child's thread and interrupt every agent the closeout interrupts; every child gets its own pair. |
| TerminalReady.PairUp | plugins/codexmax-orchestrator/scripts/compile_terminal_lifecycle.py:628-641 | The lookup child by child can never fail after the matching; only the two plans can still disagree. |
| TerminalReady.ProtectedAre | plugins/codexmax-orchestrator/scripts/compile_terminal_lifecycle.py:554-574 | The protected thread and agent are in the inventory, shared and active. |
| TerminalReady.Compare | plugins/codexmax-orchestrator/scripts/compile_terminal_lifecycle.py:1030-1077 | The comparison loop accepts exactly when both inventories name the same resources and each is settled. |
| TerminalReady.ReadyIsFrame | plugins/codexmax-orchestrator/scripts/compile_terminal_lifecycle.py:994-1090 | When an emitted plan is found ready, the set of resources is unchanged, what the goal does not own is field for field as before, and what it owns is terminal, absent, or a session under an unexpired authority. |
| TerminalReady.ParentSurvives | plugins/codexmax-orchestrator/scripts/compile_terminal_lifecycle.py:554-574 | So the protected Parent thread and agent are still there and active. |
| TerminalReady.EmitPlan | plugins/codexmax-orchestrator/scripts/compile_terminal_lifecycle.py:851-893 | A plan is emitted exactly when the inventory is sealed and complete, all authorities count, the closeout plan is acceptable, anchored and matched with the goal's resources, and every resource has an action; the plan is then determined by the request. |
| TerminalMeaning.PlannableExactly | plugins/codexmax-orchestrator/scripts/compile_terminal_lifecycle.py:851-865 | When a plan is emitted, in fields: sealed and complete inventory, valid authorities, an acceptable and anchored closeout, the Parent seated once as thread and agent, each child with its own thread and agent, nothing of the goal's forgotten, and every resource disposable. |
| TerminalMeaning.MatchedExactly | plugins/codexmax-orchestrator/scripts/compile_terminal_lifecycle.py:577-642 | The matching of children and resources, without the sets it compares: each child present, none forgotten, the Parent no child. |
| TerminalReady.ReadyIsSafe | plugins/codexmax-orchestrator/scripts/compile_terminal_lifecycle.py:994-1090 | What ready means: nothing the goal does not own changed; whatever it owns is over, except sessions that an anchored, approved authority of the request keeps beyond the new inventory; thread and agent of every planned child are over; the Parent is there and active. |
| TerminalReady.PlanThenReady | plugins/codexmax-orchestrator/scripts/compile_terminal_lifecycle.py:1093-1155 | The gate end to end succeeds exactly when inventory and authorities are valid, the closeout plan is acceptable and matched, every resource has an action, and the plan so determined handles every child and settles a newer sealed inventory; what is found ready is then safely closed. |
| TerminalTransition.CheckBoard | plugins/codexmax-orchestrator/scripts/compile_terminal_lifecycle.py:824-843 | The board may be closed exactly when it is open on the terminal task and every other task is done or blocked. |
| TerminalTransition.CheckTransition | plugins/codexmax-orchestrator/scripts/compile_terminal_lifecycle.py:1196-1211 | The transition is accepted exactly when the terminal task went from active to done and nothing else changed. |
| TerminalTransition.TransitionFinishes | plugins/codexmax-orchestrator/scripts/compile_terminal_lifecycle.py:1196-1211 | After it every task is done or blocked and only the terminal one moved. |
| TerminalTransition.ClosingAccepted | plugins/codexmax-orchestrator/scripts/compile_terminal_lifecycle.py:1196-1211 | Marking the terminal task done and closing the board is accepted, and is the only accepted transition up to the order of tasks. |
| SupervisionBridge.RunStaysStrong | plugins/codexmax-orchestrator/scripts/desktop_thread_bridge.py:325-435 | From a fresh state every sequence of transitions keeps the state valid, with the invariant it needs; identity, histories and records only continue. |
| SupervisionBridge.StepExactly | plugins/codexmax-orchestrator/scripts/desktop_thread_bridge.py:325-531 | Exactly when each transition is carried out, and what is different afterwards. |
| SupervisionBridge.RunKeepsKeys | plugins/codexmax-orchestrator/scripts/desktop_thread_bridge.py:406-435 | Over every run no activity identity and no excepted thread is registered twice. |
| SupervisionBridge.SupervisorForLife | plugins/codexmax-orchestrator/scripts/desktop_thread_bridge.py:388-404 | Once set, the Supervisor and its identity never change for the rest of any run. |
| SupervisionBridge.EmptyIsStrong | plugins/codexmax-orchestrator/scripts/desktop_thread_bridge.py:114-172 | A fresh state is valid exactly when the goal identity was given trimmed. |
| SupervisionBridge.EmptySays | plugins/codexmax-orchestrator/scripts/desktop_thread_bridge.py:114-172 | When a fresh state is made, and every field of it. |
| SupervisionBridge.CreateNeedsOneCheckpoint | plugins/codexmax-orchestrator/scripts/desktop_thread_bridge.py:325-385 | Creating the Supervisor keeps a valid state valid exactly when there is one checkpoint so far. |
| SupervisionBridge.CountHolds | plugins/codexmax-orchestrator/scripts/desktop_thread_bridge.py:459-463 | On every reachable state the chat count check passes exactly when there is a Supervisor. |
| SupervisionBridge.OracleMeaning | plugins/codexmax-orchestrator/scripts/desktop_thread_bridge.py:438-465 | The oracle passes exactly when there is one active Parent chat and one active Supervisor chat, both the recorded ones, every worker chat is a registered exception, and the histories fit. |

## Left out

- File descriptors, symbolic link and ownership checks, `flock`, `fsync` and temporary files: writes are atomic creations, replacements and appends, locks are exclusive; exclusive creation is kept where a proof rests on it.
- Shape checks of JSON documents, formats of texts and digests, and command line parsing: values are typed and times are numbers, except in ledger events, whose digests and timestamps are checked as text. Decimal digits are those of ASCII, strings hold no lone surrogates, and numbers are integers.
- `append_event_idempotent`, the single-event wrapper: it is the batch of one.
- Manifest, envelope, result, board and goal binding checks before an application starts, and the recompilation of a role packet: they decide whether a run starts and are parameters of `Application`.
- What a recovery control does when one is given, and the migration of old runtime states: not part of this model; an application never gives one.
- Resumption.Run: a process that dies after its last effective write, before reporting, is the completed run; rewriting an identical recovery record is not counted as a write.
- GuardedMerge.Merge.Check: evidence files, board and identity checks of a merge are one step that may fail in any way; their content is not modelled.
- GuardedMerge.Merge.LoadRequest: requests are arbitrary; their parsing is not modelled.
- IssueEffect.Perform: what the issue search matches and how an issue body is bound to its marker are one arbitrary observation.
- PullRequest.Publication.Execute: the local branch, diff and scope checks are one step with the resulting head; concurrent runs on one state path are not covered, since the program takes no lock.
- LedgerReplay.Replay: a lease identity that is no string is read as absent and a provider that is no string as `unknown`; the program keys them by their value, and fails on lists and objects.
- ProviderLoop.Runner.Retry: an error that ends all attempts ends them for this run; a run killed before it recorded the escalation can be resumed and attempts once more, in the model as in the program.
- ProviderLoop.Runner.Call: the transport, its watchdog and the transport, watchdog and escalation artifacts are not modelled; a checkpoint is never unreadable.
- PatchQueue.Workspace.Patch: how a patch changes the files, and an unreadable queue, are not modelled; test runs and reviewer evidence are verdicts.
- TerminalReady.PlanThenReady: stage manifests, parent action receipts, the child closeout receipt, checker receipts and all their digests, the board and audit checks before planning, hence `confirm` beyond its board transition, are left out.
- SupervisionBridge.ReadNewest: opening and messaging threads, and the topology preflight beyond its verdict, are left out; each transition's own re-validation of its input is what the invariant makes redundant.
- The status and trust reports, repository discovery, assessments, the adapter registry, the release scripts, the C receiver, the read-only GitHub client and the projection validators are not part of this model: they write none of the files modelled here.
