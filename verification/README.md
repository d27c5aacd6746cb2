# HeadlessCode: verified models of its crash-tolerant cores

This project models the parts of HeadlessCode whose correctness depends on long runs, crashes and
interleavings, and proves their properties in Dafny 4.11. Check it with
`dafny verify --warn-contradictory-assumptions dfyconfig.toml`.

## The experiment ledger

The collectors spend real tokens, so every attempt is reserved in a budget journal before its first
request. Both journals are `PilotJournal`s: append-only files of JSON lines, each record hashing the
one before it.

- `Json` and `CanonicalJson` are the printers; `JsonReader` is a reader written from the grammar of
  RFC 8259 alone, and `JsonNumber` says what a number's text is worth. A JavaScript string is a sequence of UTF-16 code
  units, and a finite number is its sign, its shortest decimal digits and the position of its point,
  the triple from which ECMA-262 prints it. The reader reads every printed value back, so the text is
  the JSON of the value, printing is uniquely readable, and `canonicalJson` is injective up to key order, dropped undefined fields and the sign
  of zero. Two values with a non-finite number can collide; that is stated with the input.
- `JournalText` and `Journal` are the file and the class. The file is text: a write that fails may
  leave any prefix of its line behind. `open` reads it line by line. The journal is written over an
  abstract codec with five laws; `JournalJson` proves them of JSON lines under any hash, and
  `LedgerCodec` proves them for the ledger's own payloads.
- `Budget`, `Spend` and `Collector` are the collectors; `Spend` is what the provider bills for the
  requests that were sent, whether or not the process learns of it. A run takes the lock, opens a phase journal and the
  budget journal, records interrupted attempts as aborted, and visits its slots. It may end at every
  await by an exception, by an append whose outcome is unknown, or by the death of the process.
  `AnyHistory` repeats runs of both collectors in any order, and its contract is the safety of the
  whole: the ledger refuses or stays within both global caps, it settles each attempt with exactly
  what the provider billed for its requests, its total bounds the whole bill as long as the provider
  bills no request beyond its size and its cap, every request that was sent has a
  durable reservation and a durable admission, no slot has two completion records, every new attempt
  of a run has a higher epoch than all before it in both journals, and the stale-epoch guard never
  fires for the collectors' own records. And a run in which nothing goes wrong outside (`trouble`) gets
  through: `Collect` says how it can end.

Corners that hold only in part are stated as such. Recovery looks at the last record of an attempt
alone and so does not see one that was interrupted in the middle of a trajectory
(`InterruptedIsNotActive`); no safety property rests on it. A file whose last line lacks its newline
is accepted, and the next append makes it unreadable for ever (`AppendAfterHangingLine`), so `Reopen`
asks for a file that is empty or ends in a newline. A settlement may exceed its reservation, because
the clock is read again after the check; the ledger then refuses every later admission
(`OverrunRefusesForEver`). A payload holding minus zero differs in memory and after reopening, with
the same hash (`MinusZeroReadsAsZero`).

## The deliveries

- `BoardText` and `BoardDelivery`: the private board comment. Processes with any jobs and claims are
  interleaved step by step; each may die anywhere, and writes and board commands may fail before or
  after taking effect. The board never shows two comments of one identity, an accepted call leaves
  exactly one, and all accepted calls answer the evidence digest of the first record. After any
  history a call for a delivered identity is accepted from the record alone, and a delivery in which
  nothing fails is accepted; one that fails or dies leaves no trace and no lock. The lock file's
  descriptor is shared with the board command, so a dead process's lock is free only when its command
  is over. The substring test is proved exact on the text that the delivery composes, and a look is
  the answer of the bounded paged search. A command that takes effect after its timeout breaks the
  promise (`LateCommandAppearsTwice`).
- `DraftDelivery`: the draft pull request. Under one exclusive lock, at most one draft is ever
  requested per delivery key, over all runs and crashes, and only for a branch that some run has read
  as holding the reviewed candidate. What the remote answers in a run is a parameter of it, and nothing
  is assumed about it. A consequence that may surprise: when the branch reads
  back differently after a push, `pr-uncertain` is stored although no draft was requested, and from
  then on no run ever requests one.

## The schedulers

- `Coordinator`: the polling loop, its workers, `stop` and `stopCampaign`. A method is the code
  between two awaits of one task, and `AnyInterleaving` runs them in any order. At most two workers
  are active, a live worker runs only while the run is held, the run is ended only when no worker is
  active and at most once, each claim has at most one finish that returns, and at every
  succeeded finish the store holds all steps in order and all four kinds of evidence. A claim in flight at `stop` still becomes a worker that nobody aborts
  (`LaunchAfterStop`); there is at most one, and `stop` waits for it. Calls of `start` that overlap at
  their first await begin several loops; with n loops the bound is n + 1 workers and it is reached
  (`OverlappingLoops`, `BoundIsReached`).
- `Supervisor`: the restart state machine with exponential backoff, 5 seconds doubled up to 300.

## The algorithms

- `Detection`: the precision-recall area with tied scores, against an independent definition.
- `JobBody`: the job-body parser, its patterns and its whole scan by what they match. Printing and parsing are inverse exactly when the task's fences all
  close and no section heading stands outside a fence.
- `Migration` and `LegacyMigration`: legacy data moved by rename or verified copy, over any tree and
  any links in it, with a failure possible at every step. Wherever a run stops, every file is whole
  at a place of its own. A verified copy drops special files; it is complete exactly when there are
  none (`CopyIsComplete`). `existsSync` follows links, so a target that is a link leading nowhere
  passes the guard. `OverwrittenExactly` says exactly when an entry that is there is changed:
  when it is such a link, the source is no directory and the rename is taken (`LinkIsOverwritten` is a
  run). Across file systems the link stays, and a file is written through it to where it leads, which
  may lie outside the central store (`LinkIsWrittenThrough`). A removal that stops half-way leaves a
  partial source next to a whole copy, although the comment in the source says that a failed move
  leaves the source in place.
- `Guardrails`: the restricted simulator and a whole run with its counters. A run is valid exactly
  when no operation attempted a forbidden effect; an unknown operation is reported as an attempt but
  not recorded. So being valid and having nothing reported differ exactly on the runs with an unknown
  operation and no attempt (`ValidMeans`); `UnknownRunIsValid` is one.
- `Pricing`: merged endpoint prices. The merged price is an upper bound exactly under `CacheCovered`;
  `MixedListUnderestimates` is the mixed list for which it is not.
- `BudgetClock`: the pausable clock. `elapsedMs` reads the clock twice while paused, so it is the
  unpaused time exactly when both reads agree, the clock runs, or no unpaused time has passed;
  otherwise the reported time can go back (`ReportedTimeGoesBack`).
- `Crontab`: installing and removing the managed lines, with the line boundaries of Python's
  `splitlines`.

## Model

| member | source | states |
|---|---|---|
| JsonReader.ReadsBack | scripts/rsi-adversarial-qualification.ts:66-75 | a reader made from the grammar of RFC 8259 reads the printed text of a value back as the value, minus zero as zero |
| JsonReader.StringRead | scripts/rsi-adversarial-qualification.ts:70 | unescaping by the table of section 7 of RFC 8259 gives back every string, surrogates included |
| JsonReader.NumberRead | scripts/rsi-adversarial-qualification.ts:72-74 | the number grammar, read by its digits, fraction and exponent, gives back every number |
| JsonNumber.TextIsWorth | scripts/rsi-adversarial-qualification.ts:72-74 | the text of a number is worth the number |
| JsonNumber.ReadIsWorth | scripts/rsi-adversarial-qualification.ts:72-74 | a number that is read is worth what its whole part, its fraction and its exponent say |
| JsonReader.LayoutIsChosen | scripts/rsi-adversarial-qualification.ts:72-74 | which of the four layouts of ECMA-262 a number is printed in |
| JsonReader.EscapesAreShortest | scripts/rsi-adversarial-qualification.ts:70 | exactly the quote, the backslash, the controls and lone surrogates are escaped, with two characters where the table has such an escape |
| JsonReader.NumberTextInjective | scripts/rsi-adversarial-qualification.ts:72-74 | two finite numbers print the same text only when they are equal, minus zero read as zero |
| JsonReader.EscapedUnique | scripts/rsi-adversarial-qualification.ts:70 | an escaped string followed by its closing quote is read back in one way only, lone surrogates and pairs included |
| JsonReader.QuoteUnique | scripts/rsi-adversarial-qualification.ts:70 | a quoted string followed by any text determines both the string and that text |
| JsonReader.PrintUnique | scripts/rsi-adversarial-qualification.ts:66-75 | unique reading: a printed value followed by any admissible text determines the value, up to the sign of zero, and the text |
| CanonicalJson.CanonicalIsInjective | scripts/rsi-adversarial-qualification.ts:66-75 | two values without non-finite numbers print the same text exactly when they are equal after sorting keys at every level |
| CanonicalJson.CanonicalReadsBack | scripts/rsi-adversarial-qualification.ts:66-75 | the canonical text of any value reads as the value with sorted keys, undefined fields dropped and non-finite numbers as null |
| CanonicalJson.SortedTextIsMeaning | scripts/rsi-adversarial-qualification.ts:66-75 | texts with sorted keys are equal exactly when the values have the same meaning |
| CanonicalJson.SortKeysKeepsMeaning | scripts/rsi-adversarial-qualification.ts:68-71 | sorting keys gives a valid, sorted value with the same meaning |
| CanonicalJson.CanonicalRecord | scripts/rsi-adversarial-qualification.ts:68-71 | the printer on values is the source's own recursion over filtered, sorted keys |
| CanonicalJson.NonFiniteCollides | scripts/rsi-adversarial-qualification.ts:72-74 | different values with a non-finite number print the same text |
| CanonicalJson.PersistSettles | scripts/monitor-pilot/journal.ts:24-75 | what the journal stores of a value is the JSON value that printing would make of it |
| CanonicalJson.PersistedSurvivesTheFile | scripts/monitor-pilot/journal.ts:24-75 | written and read as JSON a stored value is itself but for the sign of zero, and its hashed text is the same without exception |
| CanonicalJson.MinusZeroReadsAsZero | scripts/monitor-pilot/journal.ts:24-30 | minus zero is stored as it is and reads back as zero |
| JournalText.EpochsAreMaxima | scripts/monitor-pilot/journal.ts:209-213 | the noted epoch of a run is the largest epoch among its records, and one of them |
| JournalText.AppendedLineReopens | scripts/monitor-pilot/journal.ts:111-132 | after a complete line on a clean file, open finds exactly one record more, with or without the final newline |
| JournalText.LastHashFixesHistory | scripts/monitor-pilot/journal.ts:119-131 | if equal digests mean equal records, two accepted files with the same last hash hold the same records |
| JournalText.SameHashSameChain | scripts/monitor-pilot/journal.ts:200-207 | two chains with the same last hash are equal record by record |
| JournalJson.PrintIsOneLine | scripts/monitor-pilot/journal.ts:153-160 | a printed value holds no newline |
| JournalJson.LineSays | scripts/monitor-pilot/journal.ts:142-155 | a journal line, read by the grammar of RFC 8259, is an object that tells every field under its name, whole numbers by their value, and has no name for a missing one |
| JournalJson.LinesUnique | scripts/monitor-pilot/journal.ts:119-125 | of two record lines neither starts the other unless the records agree |
| JournalJson.HashedTextIsPlain | scripts/monitor-pilot/journal.ts:144-152 | the hashed text of a record does not change when it is written and read |
| JournalJson.JsonLinesAreLawful | scripts/monitor-pilot/journal.ts:111-173 | JSON lines meet every law that the journal relies on, whatever the hash |
| JournalJson.JsonHashIsCollisionFree | scripts/monitor-pilot/journal.ts:200-207 | under an injective hash equal record hashes mean records equal up to key order and the sign of zero |
| LedgerCodec.PayloadSays | scripts/monitor-pilot/live-runner.ts:916-930 | every amount of a ledger payload stands under its own name |
| LedgerCodec.LedgerLinesArePlain | scripts/monitor-pilot/journal.ts:134-173 | JSON lines of the collectors' payloads meet the codec premise of the collectors |
| Journal.WriteTracks | scripts/monitor-pilot/journal.ts:153-167 | a write of any length leaves a file that the next open refuses or reads as the records whose line was completely written |
| Journal.WriteAfterHanging | scripts/monitor-pilot/journal.ts:119-131 | whatever is written after a line without its newline spoils that line |
| Journal.LogFile.Write | scripts/monitor-pilot/journal.ts:153-167 | any prefix of a line may reach the file; only a complete line with its newline may be reported as success |
| Journal.PilotJournal.constructor | scripts/monitor-pilot/journal.ts:102-109 | a new journal is empty |
| Journal.PilotJournal.Open | scripts/monitor-pilot/journal.ts:111-132 | succeeds exactly on files whose lines parse and chain, and then holds exactly the durable records |
| Journal.PilotJournal.ReadLines | scripts/monitor-pilot/journal.ts:119-131 | succeeds exactly when every line parses and the records chain, and fills all fields from them |
| Journal.PilotJournal.Remember | scripts/monitor-pilot/journal.ts:127-130 | adds a record to memory and keeps sequence, hash and epochs in step |
| Journal.PilotJournal.Append | scripts/monitor-pilot/journal.ts:134-173 | refuses exactly when the outcome of an earlier append is unknown, the epoch is stale, the payload is not JSON or the file cannot be opened, and without a trace; otherwise appends exactly the next chained record, or the disk fails and leaves an unknown outcome that blocks later appends |
| Journal.PilotJournal.CheckAppend | scripts/monitor-pilot/journal.ts:135-141 | an uncertain journal and a stale epoch are refused, nothing else |
| Journal.PilotJournal.Commit | scripts/monitor-pilot/journal.ts:153-172 | opens, writes and closes the file and takes the record into memory; only a fault of the disk stops it |
| Journal.PilotJournal.ActiveAttempts | scripts/monitor-pilot/journal.ts:192-198 | lists, once each, the attempts whose last record says that they started or run |
| Journal.PilotJournal.LastIndices | scripts/monitor-pilot/journal.ts:193-196 | maps every attempt to the index of its last record |
| Journal.PilotJournal.AbortActiveAttempts | scripts/monitor-pilot/journal.ts:175-186 | writes one abort record for each active attempt in order and stops at the first append that fails |
| Journal.PilotJournal.AbortAll | scripts/monitor-pilot/journal.ts:178-184 | the loop over the active attempts, with the records that reached the file |
| Journal.PilotJournal.AbortOne | scripts/monitor-pilot/journal.ts:179-183 | one turn of that loop |
| Journal.Reopen | scripts/monitor-pilot/journal.ts:111-132 | a fresh open of a clean file rebuilds the same records, last sequence, last hash and epochs |
| Journal.AppendAfterHangingLine | scripts/monitor-pilot/journal.ts:119 | a last line without its newline is accepted, and the next append makes the file unreadable |
| Budget.FillBook | scripts/monitor-pilot/live-runner.ts:761-781 | the loop over the journal fills the maps or meets a corrupt record |
| Budget.GlobalBudgetUsage | scripts/monitor-pilot/live-runner.ts:761-790 | refuses a corrupt ledger, or charges each reservation its settlement or else its limits |
| Budget.ReadableMeans | scripts/monitor-pilot/live-runner.ts:767-780 | the ledger is readable exactly when every reservation is the first of its attempt with safe limits and every settlement is the first of a reserved attempt and within its limits |
| Budget.UsageStep | scripts/monitor-pilot/live-runner.ts:782-789 | a reservation adds its limits, a settlement replaces the limits of its attempt by the amounts that it reports, other records change nothing |
| Budget.CapsStep | scripts/monitor-pilot/live-runner.ts:917-922 | an admitted reservation keeps the total within both caps |
| Budget.FitsExactly | scripts/monitor-pilot/live-runner.ts:918 | the admission test passes exactly when the reservation that follows stays within both caps |
| Budget.BookStaysNone | scripts/monitor-pilot/live-runner.ts:767-779 | a ledger that was refused once is refused for ever |
| Budget.OverrunRefusesForEver | scripts/monitor-pilot/live-runner.ts:778 | a settlement beyond its reservation makes every later reading of the ledger fail |
| Spend.BillIsCharged | scripts/monitor-pilot/live-runner.ts:761-790 | whatever was sent, completed, aborted or lost with its process: the provider has billed at most the ledger's total, if it bills no request beyond its size and cap |
| Spend.BillsAddUp | scripts/monitor-pilot/live-runner.ts:475-476 | the bill is the sum of the bills of the attempts |
| Spend.AttemptIsBounded | scripts/monitor-pilot/live-runner.ts:445-446 | under such a provider no attempt is billed more than it reserved |
| Spend.ReservedIsNew | scripts/monitor-pilot/live-runner.ts:770 | an attempt that a readable ledger has just reserved has sent nothing and settled nothing |
| Spend.TalliedSends | scripts/monitor-pilot/live-runner.ts:445-457 | one more request within what is left of the attempt's tokens keeps the account in order |
| Collector.World.constructor | scripts/monitor-pilot/live-runner.ts:870-876 | empty files satisfy the invariant |
| Collector.Put | scripts/monitor-pilot/live-runner.ts:922-924 | one append for an attempt, with its three outcomes |
| Collector.Log | scripts/monitor-pilot/live-runner.ts:399-455 | a record of the attempt under way keeps the invariant and is never refused as stale |
| Collector.Describe | scripts/monitor-pilot/live-runner.ts:399-413 | any number of descriptive records; the process may die after each, and nothing else but a failed append stops it |
| Collector.InterruptedIsNotActive | scripts/monitor-pilot/journal.ts:192-198 | an attempt is reported as active exactly while its last record says started or running, so not in the middle of a trajectory |
| Collector.Admit | scripts/monitor-pilot/live-runner.ts:451-455 | the admission record of a request, lost only if the disk fails or the process dies |
| Collector.AdmitAndSend | scripts/monitor-pilot/live-runner.ts:451-457 | a request is sent only after its admission is in the journal; what the provider bills for it joins the bill |
| Collector.Send | scripts/monitor-pilot/live-runner.ts:457 | a sent request is backed by its admission and its reservation and had room in what was left of the run's tokens |
| Collector.CheckReply | scripts/monitor-pilot/live-runner.ts:466-474 | a reply is accepted exactly when it is authentic, within the request's cap and within the run's tokens |
| Collector.Exchange | scripts/monitor-pilot/live-runner.ts:451-476 | a request and its reply: of one that goes through, everything billed is counted |
| Collector.Receive | scripts/monitor-pilot/live-runner.ts:458-476 | the reply is recorded, checked and counted |
| Collector.Turn | scripts/monitor-pilot/live-runner.ts:387-475 | one turn sends at most one request, within its caller's cap and what is left of the run's tokens; a request that goes through has an accepted reply, and all that the provider billed for it is added |
| Collector.CountedTurn | scripts/monitor-pilot/live-runner.ts:387-457 | the requests of an attempt are numbered by iteration without a gap, and the tokens are what the provider billed for them |
| Collector.FinishTrajectory | scripts/monitor-pilot/live-runner.ts:593-625 | the first reading of the clock is checked, the second is the result, so the measured time may exceed the limit |
| Collector.RunLiveTrajectory | scripts/monitor-pilot/live-runner.ts:387-625 | at most sixteen requests, numbered in order; the result is what the provider billed for them, within the run's tokens, and the reported time; no slot is completed and no other run's epoch moves |
| Collector.Reserve | scripts/monitor-pilot/live-runner.ts:917-922 | the reservation is durable before anything else, with an epoch above all earlier ones of its run |
| Collector.Start | scripts/monitor-pilot/live-runner.ts:924 | the attempt starts with a fresh epoch in the phase journal too |
| Collector.Settle | scripts/monitor-pilot/live-runner.ts:930 | the settlement charges the amounts that it is given, which are what the provider billed, and keeps the caps, whatever they are |
| Collector.CompleteAndSettle | scripts/monitor-pilot/live-runner.ts:929-930 | completion, then settlement; any failure leaves the attempt to the catch block |
| Collector.Complete | scripts/monitor-pilot/live-runner.ts:929 | the completion record; once it is durable nothing counts as active |
| Collector.AbortAttempt | scripts/monitor-pilot/live-runner.ts:933-938 | the catch block records the abort, unless the journal itself is in doubt |
| Collector.Catch | scripts/monitor-pilot/live-runner.ts:933-941 | after a recorded abort the slot is known to have an aborted attempt |
| Collector.CarryOut | scripts/monitor-pilot/live-runner.ts:927-932 | the try block: a finished attempt is settled with what the provider billed for its requests and the time that the clock reported |
| Collector.Carry | scripts/monitor-pilot/live-runner.ts:927-941 | a started attempt ends completed and settled, or aborted and stopped, or with the run |
| Collector.RunSlot | scripts/monitor-pilot/live-runner.ts:914-942 | a finished slot leaves a completion and a settlement of one attempt with the computed epoch, the tokens billed for its requests and the reported time; a refused or exhausted ledger sends nothing; a stop after a start is recorded as an abort; without trouble a slot that fits is finished |
| Collector.AbortInterrupted | scripts/monitor-pilot/live-runner.ts:885-886 | after opening no attempt counts as active, and no abort is refused as stale |
| Collector.CompletedSlots | scripts/monitor-pilot/live-runner.ts:792-798 | exactly the slots that have a completion record |
| Collector.LatestEpochs | scripts/monitor-pilot/live-runner.ts:800-808 | the latest epoch of every run |
| Collector.EpochIsAbove | scripts/monitor-pilot/live-runner.ts:914 | the computed epoch is above every earlier epoch of the run in both journals |
| Collector.AbortedBefore | scripts/monitor-pilot/live-runner.ts:907-908 | lists prior attempts of a slot with an abort record; there is one exactly when the slot has an aborted attempt |
| Collector.HasAbortRecord | scripts/monitor-pilot/live-runner.ts:908 | the inner search finds an abort record of an attempt exactly when there is one |
| Collector.PriorAttempts | scripts/monitor-pilot/live-runner.ts:907 | the started attempts of a slot, all of them and no others |
| Collector.SomeSlotAborted | scripts/monitor-pilot/live-runner.ts:1135-1138 | whether an open slot has an aborted attempt |
| Collector.VisitSlot | scripts/monitor-pilot/live-runner.ts:898-942 | one turn of the slot loop: a completed slot is skipped and an aborted one is not retried silently, both without a trace; otherwise it runs |
| Collector.RunSlots | scripts/monitor-pilot/live-runner.ts:892-942 | the slot loop; it ends well only with every slot completed, and without trouble it ends otherwise only for a refused or full ledger or an aborted slot |
| Collector.CountOpen | scripts/monitor-pilot/live-runner.ts:1132 | the number of slots without a completion record |
| Collector.Gate | scripts/monitor-pilot/live-runner.ts:1132-1142 | the held-out gate passes exactly when the ledger is readable, no retry is open and the reservations of all open slots fit together |
| Collector.AppendSummary | scripts/monitor-pilot/live-runner.ts:968-977 | one closing record, which belongs to no attempt |
| Collector.Summarize | scripts/monitor-pilot/live-runner.ts:968-977 | the closing records keep the invariant |
| Collector.CollectLocked | scripts/monitor-pilot/live-runner.ts:877-942 | the body of a run under the lock |
| Collector.Collect | scripts/monitor-pilot/live-runner.ts:870-983 | a run does nothing without the lock, sends nothing on a refused ledger, ends well only with every slot completed; the lock stays exactly if it was held, the process is killed, writing the lock file failed or its removal failed; if nothing goes wrong outside and both journals can be opened, it ends with every slot completed, or halted for one of the reasons of Halts, or held back by the held-out gate |
| Collector.AcquireLock | scripts/monitor-pilot/journal.ts:80-92 | an error after the lock file was created leaves it behind |
| Collector.ReleaseLock | scripts/monitor-pilot/journal.ts:94-98 | the lock stays exactly when its removal fails |
| Collector.AnyHistory | scripts/monitor-pilot/live-runner.ts:870-1194 | every sequence of runs of both collectors keeps the caps, settles each attempt with exactly what its requests were billed, bounds the whole bill of a bounded provider by the ledger's total, and keeps the backing of every request, one completion per slot, rising epochs, and a stale-epoch guard that has never refused an append |
| Collector.Audit | scripts/monitor-pilot/live-runner.ts:761-790 | a later reader is told totals within both caps, or is refused |
| BoardText.CommentHasItsMarker | src/campaigncontrol/repository-curl-private-board.ts:59-68 | the substring test finds a composed comment by its own key and by no other |
| BoardText.TailIsQuiet | src/campaigncontrol/repository-curl-private-delivery.ts:133-143 | no marker starts in the text after the comment's marker |
| BoardDelivery.FindBoardMarker | src/campaigncontrol/repository-curl-private-board.ts:17-40 | found exactly when one of the first ten readable pages has the marker; absent only after the whole history was read; an error otherwise |
| BoardDelivery.SearchSees | src/campaigncontrol/repository-curl-private-board.ts:17-40 | on pages that show the board, an answer of the bounded search is right, and up to ten readable pages always give one |
| BoardDelivery.StoredIsAccepted | src/campaigncontrol/repository-curl-private-records.ts:47-94 | what is stored under a key always passes the identity and receipt checks |
| BoardDelivery.ReadKeeps | src/campaigncontrol/repository-curl-private-records.ts:13-30 | reading or preparing the record keeps the invariant |
| BoardDelivery.WriteKeeps | src/campaigncontrol/repository-curl-private-delivery.ts:116-131 | a record write that fails before or after taking effect keeps the invariant |
| BoardDelivery.LookKeeps | src/campaigncontrol/repository-curl-private-delivery.ts:145-162 | after a bounded search of pages that show the board, the retry loop adds a comment only where there is none |
| BoardDelivery.CommentKeeps | src/campaigncontrol/repository-curl-private-delivery.ts:150-157 | a comment that is or is not applied keeps at most one per key |
| BoardDelivery.StepKeepsInv | src/campaigncontrol/repository-curl-private-delivery.ts:65-162 | every step of every process keeps the invariant |
| BoardDelivery.RunKeepsInv | src/campaigncontrol/repository-curl-private-delivery.ts:65-162 | every run satisfies the invariant |
| BoardDelivery.DeliveryIsExactlyOnce | src/campaigncontrol/repository-curl-private-delivery.ts:65-162 | for every interleaving with crashes: at most one comment per identity, exactly one once accepted, and one answer for all accepted calls |
| BoardDelivery.DeliveredIsAnswered | src/campaigncontrol/repository-curl-private-delivery.ts:119-122 | in any reachable state a call that reads a delivered record is accepted with the first record's evidence and the board reference, and changes nothing else |
| BoardDelivery.MarkedIsAnswered | src/campaigncontrol/repository-curl-private-delivery.ts:127-130 | once the comment was seen and the write returned, the call is accepted and the record is delivered |
| BoardDelivery.AnsweredExactly | src/campaigncontrol/repository-curl-private-delivery.ts:116-131 | no other step answers a call |
| BoardDelivery.NothingFailsIsAccepted | src/campaigncontrol/repository-curl-private-delivery.ts:65-162 | after any history a delivery whose lock is free and in which nothing fails is accepted; the comment is then on the board, the record is delivered, and nothing else changed |
| BoardDelivery.GivingUpLeavesNoTrace | src/campaigncontrol/repository-curl-private-delivery.ts:74-82 | a call that fails or dies leaves board, records and answers alone and frees its lock |
| BoardDelivery.RunKeepsLocks | src/campaigncontrol/repository-curl-private-delivery.ts:74-82 | no lock outlives its process, and no two processes are past the lock of one key |
| BoardDelivery.AnyRecordIsChecked | src/campaigncontrol/repository-curl-private-records.ts:47-94 | whatever the file holds, a call answers from it only if it is a well-formed, delivered record of the call's own key and identity |
| BoardDelivery.OnlyApproved | src/campaigncontrol/repository-curl-private-validation.ts:7-40 | only identities of the profile's advisory, source and evaluator are ever stored or answered |
| BoardDelivery.BoardRefIsValid | src/campaigncontrol/repository-coordinator.ts:340-343 | the board reference that a delivery answers passes the coordinator's own check |
| BoardDelivery.FirstIsKept | src/campaigncontrol/repository-curl-private-delivery.ts:85-89 | the first record's evidence is never replaced and digests the job and claim that wrote it |
| BoardDelivery.LateCommandAppearsTwice | src/campaigncontrol/repository-curl-private-board.ts:135-146 | a first command that takes effect after its timeout leaves two comments of an accepted identity |
| DraftDelivery.Context.SaveEntry | src/campaigncontrol/repository-curl-repair-delivery-reconcile-draft.ts:149-152 | the file holds the old state or the new one, and the new one if the write returned |
| DraftDelivery.Context.SaveBlocked | src/campaigncontrol/repository-curl-repair-delivery-state.ts:30-42 | stores a fresh entry with the state that it is passed |
| DraftDelivery.Context.RecordDraftReady | src/campaigncontrol/repository-curl-repair-delivery-reconcile-draft.ts:135-147 | stores the ready entry with the pull request's address |
| DraftDelivery.Context.RequestDraft | src/campaigncontrol/repository-curl-repair-delivery-reconcile-draft.ts:105-116 | asked at most once per key, after its intent is on disk |
| DraftDelivery.Context.VerifyDraft | src/campaigncontrol/repository-curl-repair-delivery-reconcile-draft.ts:105-133 | a failed request and anything but one exact read-back are stored as uncertain |
| DraftDelivery.Context.CreateDraftPullRequest | src/campaigncontrol/repository-curl-repair-delivery-reconcile-draft.ts:71-133 | asks exactly when the target has not moved, and only with a current claim; the receipt tells which of the four ends it was |
| DraftDelivery.Context.EnsureDraftPullRequest | src/campaigncontrol/repository-curl-repair-delivery-reconcile-draft.ts:23-51 | asks exactly when the list is empty, no earlier request may be out, the target has not moved and the claim is current; ready only for the one matching pull request that was seen; every other receipt by its cause |
| DraftDelivery.Context.EnsureRepairBranch | src/campaigncontrol/repository-curl-repair-delivery-reconcile.ts:133-190 | goes on exactly for a branch that was read as the candidate or that an earlier run has pushed; pushes exactly an absent branch with an unmoved target and a current claim; an occupied branch is blocked |
| DraftDelivery.Context.ReconcileRemoteBranch | src/campaigncontrol/repository-curl-repair-delivery-reconcile.ts:151-168 | occupied, absent or already the candidate: each with its receipt |
| DraftDelivery.Context.PushRepairBranch | src/campaigncontrol/repository-curl-repair-delivery-reconcile.ts:175-240 | pushes and reads back; goes on only if the candidate was read, and each refusal is stored by its cause |
| DraftDelivery.Context.RecordAlreadyFixed | src/campaigncontrol/repository-curl-repair-delivery-reconcile.ts:84-113 | an approved current base is recorded as fixed exactly if it has the fix and the claim is current |
| DraftDelivery.Context.ReconcileRepair | src/campaigncontrol/repository-curl-repair-delivery-reconcile.ts:115-121 | the branch, then the draft: a draft is asked for, and the branch pushed, exactly in the cases of Asks and Pushes |
| DraftDelivery.Context.ReconcileTarget | src/campaigncontrol/repository-curl-repair-delivery-reconcile.ts:40-114 | a draft is asked for only for the approved vulnerable base without the fix, on a branch that holds the candidate; every other target by its receipt |
| DraftDelivery.RunLockedDelivery | src/campaigncontrol/repository-curl-repair-delivery-service.ts:97-114 | one run: a receipt means that a draft was asked for exactly in the cases of Asks; nothing is asked after an intent; a ready draft is the one that was seen; a final entry is returned as it is; an entry of another claim is refused |
| DraftDelivery.AnyRuns | src/campaigncontrol/repository-curl-repair-delivery-service.ts:31-114 | over all runs and crashes at most one request per key, and only for a key whose branch some run has read as the candidate; no state goes back, and none follows a stored intent, uncertainty or final state |
| Coordinator.ValidStepsAreDistinct | src/campaigncontrol/repository-coordinator.ts:344-347 | an accepted step list repeats nothing, is ordered, and with six entries is the whole list |
| Coordinator.ValidStepsMeans | src/campaigncontrol/repository-coordinator.ts:344-347 | comparing neighbours is enough: the list is accepted exactly when every two of its steps are in order |
| Coordinator.AcceptedMeans | src/campaigncontrol/repository-coordinator.ts:314-353 | a result is accepted exactly when it is well formed and, if it succeeded, has all six steps, all four kinds of evidence by name and both amounts |
| Coordinator.SucceededIsComplete | src/campaigncontrol/repository-coordinator.ts:297-317 | an accepted result, failed or succeeded, finishes with its own status and amounts exactly when it has both and claims no ambiguity; a succeeded one is complete |
| Coordinator.RepositoryCoordinator.Start | src/campaigncontrol/repository-coordinator.ts:124-130 | the loop starts with its first status read |
| Coordinator.RepositoryCoordinator.Tick | src/campaigncontrol/repository-coordinator.ts:153-155 | a tick does nothing when stopped or full |
| Coordinator.RepositoryCoordinator.StatusRead | src/campaigncontrol/repository-coordinator.ts:155-157 | visits the first enabled campaign, or ends the tick |
| Coordinator.RepositoryCoordinator.VisitNext | src/campaigncontrol/repository-coordinator.ts:156-164 | goes on with the next enabled campaign while there is room |
| Coordinator.RepositoryCoordinator.EndTick | src/campaigncontrol/repository-coordinator.ts:164 | ends the run exactly when one is held and no worker is active |
| Coordinator.RepositoryCoordinator.FinishGlobalRun | src/campaigncontrol/repository-coordinator.ts:264-270 | lets go of the run before asking the lease service |
| Coordinator.RepositoryCoordinator.Visited | src/campaigncontrol/repository-coordinator.ts:228-236 | the awaits of one visit in their order |
| Coordinator.RepositoryCoordinator.EnsureRun | src/campaigncontrol/repository-coordinator.ts:246-251 | a live worker needs the run before the claim |
| Coordinator.RepositoryCoordinator.RunAnswered | src/campaigncontrol/repository-coordinator.ts:248-250 | holds the granted run, or skips the campaign |
| Coordinator.RepositoryCoordinator.ClaimAnswered | src/campaigncontrol/repository-coordinator.ts:234-235 | a claim becomes exactly one worker |
| Coordinator.RepositoryCoordinator.Launch | src/campaigncontrol/repository-coordinator.ts:253-262 | adds the worker to both maps, not aborted |
| Coordinator.RepositoryCoordinator.TickOver | src/campaigncontrol/repository-coordinator.ts:272-276 | after a tick the loop ends or sleeps |
| Coordinator.RepositoryCoordinator.ClaimChecked | src/campaigncontrol/repository-coordinator.ts:285-287 | a stale or aborted claim does not execute |
| Coordinator.RepositoryCoordinator.Executed | src/campaigncontrol/repository-coordinator.ts:289-290 | only an accepted result is saved |
| Coordinator.RepositoryCoordinator.Saved | src/campaigncontrol/repository-coordinator.ts:297-301 | the steps and the evidence are stored before the finish |
| Coordinator.RepositoryCoordinator.Finished | src/campaigncontrol/repository-coordinator.ts:302-306 | one finish call with the result's own status and amounts; a failed one falls back to ambiguous |
| Coordinator.RepositoryCoordinator.FailedOver | src/campaigncontrol/repository-coordinator.ts:309-312 | one ambiguous finish call whose failure is swallowed |
| Coordinator.RepositoryCoordinator.WorkerOver | src/campaigncontrol/repository-coordinator.ts:256-260 | removes the worker from both maps |
| Coordinator.RepositoryCoordinator.Stop | src/campaigncontrol/repository-coordinator.ts:132-135 | aborts every active worker and waits for the loop |
| Coordinator.RepositoryCoordinator.StopCampaign | src/campaigncontrol/repository-coordinator.ts:143-151 | aborts exactly the workers of one campaign |
| Coordinator.RepositoryCoordinator.StopSawJobs | src/campaigncontrol/repository-coordinator.ts:137-138 | ends the run as failed, with no worker left |
| Coordinator.RepositoryCoordinator.StopOver | src/campaigncontrol/repository-coordinator.ts:139-140 | when stop returns no worker runs and no run is held |
| Coordinator.RepositoryCoordinator.Step | src/campaigncontrol/repository-coordinator.ts:132-312 | any step of any task keeps the invariant |
| Coordinator.AnyInterleaving | src/campaigncontrol/repository-coordinator.ts:153-312 | every interleaving keeps the bound, the lease discipline and one returning finish per claim; at every succeeded finish the store holds all six steps and all four kinds of evidence |
| Coordinator.LaunchAfterStop | src/campaigncontrol/repository-coordinator.ts:228-236 | a claim in flight at stop becomes a worker that is not aborted |
| Coordinator.OverlappingLoops | src/campaigncontrol/repository-coordinator.ts:124-130 | with n loops from overlapping starts there are at most n + 1 workers |
| Coordinator.BoundIsReached | src/campaigncontrol/repository-coordinator.ts:153-155 | and n + 1 workers are reached, because the guard is passed before the claims are answered |
| Supervisor.DelayGrows | scripts/campaign_control_supervisor.py:126-129 | the delay never falls as failures mount and is at most 300 |
| Supervisor.DelayDoubles | scripts/campaign_control_supervisor.py:126-129 | no failure, no delay; then 5 seconds, doubled by every failure up to 300 |
| Supervisor.DelaySumValue | scripts/campaign_control_supervisor.py:126-129 | the sum of the first delays in closed form |
| Supervisor.SpawnsTakeTime | scripts/campaign_control_supervisor.py:200-242 | n spawns that are backed off take at least the sum of the first n - 1 delays |
| Supervisor.StepIsOneOf | scripts/campaign_control_supervisor.py:200-242 | of waiting, failing, adopting, checking and spawning a step does exactly one |
| Supervisor.CampaignSupervisor.Step | scripts/campaign_control_supervisor.py:200-242 | spawns at most one child, only when none is alive and the backoff is over; a healthy observation resets the backoff |
| Supervisor.CampaignSupervisor.Fail | scripts/campaign_control_supervisor.py:219-230 | a failure counts and sets the next try after its delay |
| Supervisor.AnyTrace | scripts/campaign_control_supervisor.py:200-242 | over every trace at most one child is alive and the spawns without a healthy observation between them are backed off |
| Detection.Area | scripts/monitor-pilot/analyze.ts:123-153 | the loops compute the mean over positive windows of the precision at their own score, or null without positives |
| Detection.Group | scripts/monitor-pilot/analyze.ts:140-147 | the inner loop takes exactly one group of equal scores |
| Detection.OrderDoesNotMatter | scripts/monitor-pilot/analyze.ts:135-151 | neither the area nor any precision depends on the order of the windows |
| Detection.AreaOverScores | scripts/monitor-pilot/analyze.ts:149-150 | the area is the sum over distinct scores of recall gain times precision |
| Detection.AreaInUnit | scripts/monitor-pilot/analyze.ts:149-152 | the area lies in the unit interval and is 1 exactly when every positive scores above every negative |
| JobBody.Parse | src/agent-executor.ts:19-65 | the scan of the lines and the checks of the sections |
| JobBody.AcceptedIsClean | src/agent-executor.ts:50-57 | an accepted submission is trimmed, within every limit and free of forbidden characters |
| JobBody.AcceptedExactly | src/agent-executor.ts:19-65 | a body is accepted exactly when it is within 128 KiB, the scan goes through and its three sections are within their limits |
| JobBody.ScanMeans | src/agent-executor.ts:26-49 | the scan is refused exactly for a section with two free headings or for text before the first; otherwise each section is its heading's text and the lines up to the next free heading |
| JobBody.HeadingMeans | src/agent-executor.ts:37 | a line is a heading exactly when it can be taken apart as the pattern says, indentation, hashes and letter case included, and in one way only |
| JobBody.FenceMeans | src/agent-executor.ts:27 | a line is a fence exactly when it can be taken apart as the pattern says, with the longest run |
| JobBody.OpenFenceMeans | src/agent-executor.ts:29-33 | a fence is open from the line that opens it up to the first fence of its marker that is at least as long |
| JobBody.SplitCrLf | src/agent-executor.ts:26 | a carriage return before the newline belongs to the separator |
| JobBody.SplitConcat | src/agent-executor.ts:26 | splitting lines distributes over a joined newline |
| JobBody.JoinSplit | src/agent-executor.ts:50 | joining the lines of a text gives it back |
| JobBody.ScanTask | src/agent-executor.ts:27-49 | the lines of a task without a free heading all stay in its section |
| JobBody.HeadingCuts | src/agent-executor.ts:36-46 | from its first free heading on nothing is added to the task |
| JobBody.PrintThenParse | src/agent-executor.ts:19-65 | the printed body parses back exactly when all fences close and no heading stands outside a fence |
| Migration.FileSystem.CopyLeaf | src/project-store.ts:487-494 | copies a link or a file, or stops with the source untouched; a size mismatch is an error |
| Migration.FileSystem.CopyVerified | src/project-store.ts:480-495 | a finished copy equals the source, special files apart; the source is untouched throughout |
| Migration.FileSystem.CopyChildren | src/project-store.ts:484-486 | the loop over the names of a directory |
| Migration.FileSystem.MakeParents | src/project-store.ts:466 | adds only missing parent directories, and succeeds on a directory that is there |
| Migration.FileSystem.Rename | src/project-store.ts:468 | moves the whole tree or nothing; a directory does not replace a link and nothing moves into itself |
| Migration.FileSystem.RemoveTree | src/project-store.ts:474 | stopped early, it has only removed entries of the source |
| Migration.FileSystem.MoveVerified | src/project-store.ts:465-477 | a guarded move: wherever it stops, the source is untouched or whole at its new place and no other entry changes but an overwritten link; a rename that nothing stands in the way of succeeds; a completed move leaves exactly the destination |
| Migration.FileSystem.MoveByCopy | src/project-store.ts:473-474 | across file systems: a verified copy, and then the removal of the source |
| Migration.FileSystem.CopyOntoLink | src/project-store.ts:480-495 | onto a link that leads nowhere only a file is copied, through the link |
| Migration.FileSystem.MoveBehindLink | src/project-store.ts:473-474 | across file systems onto such a link: the link stays and a file lands where it leads |
| Migration.TargetBesideSource | src/project-store.ts:434-440 | a target that passes the guard never contains its source |
| Migration.CopyIsComplete | src/project-store.ts:480-495 | a verified copy is complete exactly when the source holds no special file |
| LegacyMigration.MigrateEntry | src/project-store.ts:432-442 | one entry: nothing, a refused parent directory, or a guarded move |
| LegacyMigration.DropLegacy | src/project-store.ts:444-452 | only an empty legacy directory is removed, never a link or a file of that name |
| LegacyMigration.MigrateRoot | src/project-store.ts:427-453 | one root: its entries in order up to the first that fails, then the removal of the empty directory |
| LegacyMigration.MigrateLegacyProjectData | src/project-store.ts:414-454 | for any tree and any links: the whole run step by step; wherever it stops every file is whole at a place of its own; unless it fails every source that exists arrives at an absent target |
| LegacyMigration.RunRelocates | src/project-store.ts:456-464 | over any run entries keep places of their own, what is missing was taken away by a step, and what moved was put there by one |
| LegacyMigration.RunKeeps | src/project-store.ts:456-464 | no file is ever taken away |
| LegacyMigration.MoveRelocates | src/project-store.ts:465-477 | one move gives every entry a place of its own |
| LegacyMigration.OverwrittenExactly | src/project-store.ts:438-441 | an entry that is there is changed exactly when it is a link leading nowhere at the target, the source exists and is no directory, and the rename is taken (a source that is an equal link apart) |
| LegacyMigration.TakenMeans | src/project-store.ts:438-446 | a step takes away a link that leads nowhere or an empty legacy directory, nothing else |
| LegacyMigration.LandedWhere | src/project-store.ts:465-477 | a source lands at its target, or across file systems where the link at the target leads |
| LegacyMigration.DanglingIsAbsent | src/project-store.ts:466 | behind a link that leads nowhere there is nothing, so a target that is there can be reached |
| LegacyMigration.LinkIsOverwritten | src/project-store.ts:438-441 | a run in which the rename replaces a link that leads nowhere |
| LegacyMigration.LinkIsWrittenThrough | src/project-store.ts:473-474 | a run across file systems that writes the file outside the central store |
| Guardrails.RestrictedSimulator.Execute | scripts/monitor-pilot/simulator.ts:100-145 | every branch: error, report, what a read or a listing answers, what is recorded, files, revisions and milestone |
| Guardrails.HoldsLastWrite | scripts/monitor-pilot/simulator.ts:111-125 | after any run of operations a file holds the content of the last diff applied to it, or what it held at first |
| Guardrails.ReadAnswers | scripts/monitor-pilot/simulator.ts:111-114 | a read answers what the file holds |
| Guardrails.PassedStaysBelow | scripts/monitor-pilot/simulator.ts:102-106 | a path that passes the check leads nowhere but below the directory that it starts from |
| Guardrails.SegmentsJoin | scripts/monitor-pilot/simulator.ts:103 | the segments are the path split at its slashes |
| Guardrails.StreakIsLongest | scripts/monitor-pilot/simulator.ts:349-375 | a streak is the longest suffix of turns that match |
| Guardrails.CountersStep | scripts/monitor-pilot/simulator.ts:349-375 | the incremental updates compute the suffix lengths |
| Guardrails.RunFixture | scripts/monitor-pilot/simulator.ts:272-393 | the turns are what the simulator makes of the operations on the files left by those before; the run goes on to sixteen calls or the first completion; every count and every boundary means what it says; valid exactly when no operation attempted a forbidden effect |
| Guardrails.ValidMeans | scripts/monitor-pilot/simulator.ts:392-393 | for every run: valid exactly when all that was reported were unknown operations; valid and nothing reported differ exactly on runs with an unknown operation and no attempt |
| Guardrails.FlaggedMeans | scripts/monitor-pilot/simulator.ts:100-145 | what is reported depends on the operation alone: a forbidden effect or an unknown name |
| Guardrails.RecordedMeans | scripts/monitor-pilot/simulator.ts:100-145 | in a run exactly the forbidden effects are recorded |
| Guardrails.CountedStep | scripts/monitor-pilot/simulator.ts:344-389 | one more call keeps every count at its meaning |
| Guardrails.UnknownRunIsValid | scripts/monitor-pilot/simulator.ts:140-144 | a run that is told of a forbidden effect and is valid |
| Pricing.ParseEndpointPricing | src/budget/cost.ts:179-228 | without a preference every field is the largest that a priced endpoint exposes; with one, the first priced match or nothing |
| Pricing.ParsedMeans | src/budget/cost.ts:153-162 | a field is a million times its price per token; a negative price is dropped |
| Pricing.MergeStep | src/budget/cost.ts:210-218 | one more endpoint keeps the fields the largest |
| Pricing.OrderDoesNotMatter | src/budget/cost.ts:179-228 | the merged price depends only on which endpoints there are |
| Pricing.MillionCosts | src/budget/cost.ts:307-315 | a million tokens of one kind cost that kind's price |
| Pricing.CostsAddUp | src/budget/cost.ts:307-315 | the cost of two usages together is the sum of their costs |
| Pricing.MergedIsUpperBound | src/budget/cost.ts:307-315 | the merged price bounds every endpoint's cost for every usage exactly when CacheCovered holds |
| Pricing.MixedListUnderestimates | src/budget/cost.ts:210-218 | a mixed list for which the merged price is too low |
| BudgetClock.UnpausedGrows | src/budget/budget.ts:127-131 | unpaused time never decreases and stands still exactly while paused |
| BudgetClock.BudgetTracker.constructor | src/budget/budget.ts:96-102 | a new tracker runs and has recorded nothing |
| BudgetClock.BudgetTracker.PauseClock | src/budget/budget.ts:110-114 | idempotent; the fields go on telling the unpaused time |
| BudgetClock.BudgetTracker.ResumeClock | src/budget/budget.ts:120-125 | idempotent; the paused interval is added once |
| BudgetClock.BudgetTracker.ElapsedMs | src/budget/budget.ts:127-131 | the number of unpaused milliseconds, less the gap between its two reads while paused |
| BudgetClock.BudgetTracker.Tick | src/budget/budget.ts:146-149 | passes exactly within the limits on calls, cost and reported time, and otherwise throws the reason that comes first |
| BudgetClock.BudgetTracker.Record | src/budget/budget.ts:156-169 | adds the cost, or nothing when cost is not tracked, and throws exactly when a limit is then exceeded |
| BudgetClock.Session | src/budget/budget.ts:146-200 | at most maxIterations calls, and the recorded cost exceeds its cap by less than the last call's cost |
| BudgetClock.ReportedTimeGoesBack | src/budget/budget.ts:127-131 | two reads during a pause can report less time than before it |
| Crontab.LinesConcat | scripts/manage_campaign_control_supervisor.py:31-45 | text after a complete line starts a new line under all line boundaries |
| Crontab.InstallDecides | scripts/manage_campaign_control_supervisor.py:30-45 | which of the three refusals, the kept text or the new lines an install answers, for every crontab |
| Crontab.RemoveDecides | scripts/manage_campaign_control_supervisor.py:48-60 | which of the refusals, the unchanged text or the shortened text a remove answers |
| Crontab.InstallThenRemove | scripts/manage_campaign_control_supervisor.py:30-60 | install then remove gives the old text with at most its missing final newline added |
| Crontab.InstallTwice | scripts/manage_campaign_control_supervisor.py:30-45 | installing twice is installing once |
| Crontab.RemoveKeepsTheRest | scripts/manage_campaign_control_supervisor.py:48-60 | a successful remove takes out the two managed lines and keeps all other text |

## Left out

- The real file system, fsync, flock, git, the pull request service, the board command and the model calls: abstract steps that may fail before or after taking effect.
- SHA-256, random identifiers and clocks: an uninterpreted or injective digest, fresh identifiers, and a time that does not go back.
- Sparse arrays, accessors, symbols, toJSON and circular references in journal payloads: refused or normalised by the source before anything is stored.
- JavaScript numbers: whole numbers in records and claims are unbounded integers in the model, and costs, prices, scores and delays are reals.
- JournalText.LastHashFixesHistory: records with ill-typed top-level fields, which open would accept, have no counterpart; fields beyond the record's own belong to the payload type.
- JournalJson.JsonLinesAreLawful: the parser reads exactly the lines that the journal prints, so lines with other spacing or key order, which JSON.parse reads too, are refused in the model.
- LedgerCodec.LedgerLinesArePlain: of the payloads only the fields that the ledger reads are kept.
- Collector.Turn: prompts, tool results, guardrail streaks and costs in dollars of a live trajectory are arbitrary answers; a reply is its tokens and whether the identity and usage checks pass.
- Collector.Gate: qualification of the development run, manifests and the trained predictor are not modelled; the gate is the budget check alone.
- Collector.AnyHistory: both plans are fixed lists of distinct slots, and an operator may remove the lock of a killed run only between runs.
- BoardDelivery.DeliveryIsExactlyOnce: assumes that only deliveries write markers, that the pages of a search show every applied comment, and that a command which failed does not take effect later (`LateCommandAppearsTwice`).
- BoardDelivery.Step: file permissions and the shape of the stored JSON are not modelled; the processes are modelled on values, as steps of one state, because they interleave.
- DraftDelivery.AnyRuns: evaluation of the candidate is not modelled, and the answers of the claim store and the repository adapters are arbitrary; whether a pull request matches is part of the answer.
- Coordinator.AnyInterleaving: intake polling, readiness and heartbeats are arbitrary answers; one loop, as calls of start that overlap are only counted (`OverlappingLoops`); overlapping calls of stop, and tick called from outside the loop, are not modelled.
- Supervisor.AnyTrace: one supervisor that starts with no child; a new supervisor process does not know a child of an earlier one that is still starting.
- Detection.Area: precision and recall at the threshold, the Brier score and the bootstrap bound are simple sums or need the random generator.
- JobBody.PrintThenParse: texts with lone surrogates, and bodies whose executor or submitter stands on a line of its own.
- Migration.FileSystem.CopyLeaf: assumes that a copy of the right size holds the right bytes, because the source compares sizes alone; a copy that corrupts bytes and keeps the size would go unnoticed.
- Migration.FileSystem.Rename: one answer per pair of paths during a run, and no mount point inside an entry that is moved into itself.
- LegacyMigration.MigrateLegacyProjectData: nobody else changes the tree meanwhile, and the limit on links followed is counted along one chain; what a relative link means after it was moved is not promised.
- Guardrails.RunFixture: the scripted model, predictions and interventions are arbitrary operations; result hashes, token totals beyond their bound and names inherited from Object.prototype are not modelled.
- Pricing.ParseEndpointPricing: prices given as text are already numbers, and letter case is an uninterpreted function.
- BudgetClock.BudgetTracker.Tick: the elapsed time put into the error message is not modelled.
- Command lines, help text, environment parsing and option tables: wide but shallow branching.
