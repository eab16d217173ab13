# Verified models of jamye-server

Dafny models of the parts of jamye-server where many things happen at once or where bytes have to mean one
thing only, with proofs about them. `dafny verify dfyconfig.toml` checks every file.

| module | what it models |
|---|---|
| `LeaseQueue`, `QueueWorker`, `PushWorker`, `PurgeWorker` | leased work queues: the claiming and settling statements, any number of workers over one table, the polling rounds and their reports, the push backoff |
| `SendComposition`, `SendContent`, `SendAnswers` | the mounted message send: insert or find, bind media, record the event and its outbox row, fan out, commit; calls interleave statement by statement; what every call is answered |
| `MessageOrder` | room-locked timestamp allocation and event cursors under any interleaving and any clock |
| `TermList`, `ContentFilter`, `MaskStability` | the content filter: building the term vector, the masking loop, and what a second masking or an unchanged text means |
| `CanonicalJson`, `Sha256`, `Sha256Standard`, `Sha256Vector`, `Manifest` | the contract manifest: canonical text, digest, framed checksum stream, generation and verification |
| `RefreshRotation` | refresh-token rotation under row locks and statement snapshots |
| `AccountDeletion` | the re-authenticate, revoke, delete saga |
| `RealtimeTicket` | one-time tickets over a store with expiring keys |
| `DownloadHeader`, `Escaping` | the download header and the multi-pass escapers |
| `Ordering`, `Common` | stable sorting with its uniqueness theorem, and shared vocabulary |

## How the models are built

Protocols are transition systems: a `State`, a `Step` for everything that can happen (including faults, lost
acknowledgements, vanished connections and the passing of time), `Enabled` and `Apply`, and `Runs` over all step
sequences. A lemma shows that each step keeps an invariant, another that every run does, and the promises are read
off the invariant. Database statements act on committed tables; a transaction's writes stay in its own record until
it commits; locks are the row and index locks the statements take. Code that changes things step by step is a method
with loops, or a class whose methods update its fields, proved against a function that says what it computes.

Random identifiers, network answers and Unicode tables are parameters, quantified over all values. What is taken for
granted about them is stated where it is used: new identifiers and digests are new, `*` folds to itself (and, for
repeated masking, nothing else folds to it), the dot is not whitespace.

Clocks are read as the code reads them. `MessageOrder` allows any clock value at any moment. `LeaseQueue` has one clock
that only advances, the database server's, and measures provider calls by it. `RealtimeTicket` has two, the store's,
which only advances, and the server's, which may show anything; statements that need the two to agree say so by
`agree`.

## Where a promise needs a condition

Nine properties that documentation, comments or names suggest hold only under a condition. The code is modelled as it
is; each has a concrete counterexample and an exact condition.

- Two provider calls for one row overlap for some accepted configurations, because `validate` compares exact durations
  while the repository installs whole milliseconds (`QueueWorker.AcceptedConfigurationExcludes`). The shipped loaders
  only build durations of whole milliseconds (src/config/realtime.rs:95-111), so a server configured through them falls
  under the last clause of that lemma and never overlaps.
- A created-event carries its message's attachments unless a retry brings media to a message first sent without any
  (`SendComposition.CommitKeepsAgreementExactly` for one commit, `SendComposition.AgreementIsExact` for whole runs).
- Which error `from_terms` reports depends on the order of the list exactly when it has two kinds of defect
  (`TermList.BuildIgnoresOrderExactly`).
- Masking can leave a listed term behind exactly when the term begins or ends with `*` or contains `***`
  (`ContentFilter.ResistanceIsExact`).
- Masking twice differs from masking once, beside resistant terms, exactly for terms that are neither resistant nor
  `***` (`MaskStability.IdempotenceIsExact`).
- A text that masking leaves as it is can hold a listed term, for some text exactly when this happens to a run of
  stars shorter than twice the longest listed one (`MaskStability.UnchangedMeansCleanExactly`); six stars with `**` and
  `****` listed are an example (`MaskStability.StarsEvenOut`).
- A reuse answer means that the session family is over exactly when the revoking statement saw the family's newest
  session, which is when no rotation of the family committed after its snapshot, or the newest session ended otherwise
  (`RefreshRotation.ReuseEndsFamilyExactly`, `RefreshRotation.ReuseEndsFamilyUnlessOvertaken`).
- A ticket can open a session after its announced expiry, exactly when the store took it in so late that its own
  deadline comes after that (`RealtimeTicket.AnnouncedExpiryIsExact`, with the run `RealtimeTicket.LateOpening`).
- Sanitising a file name twice differs from once exactly for dots, blanks and another dot
  (`DownloadHeader.SanitisingTwiceExactly`).

Where code and documentation differ the model follows the code: the idempotency key of a message is (sender,
client_msg_id) without the chatroom, as in the unique index; a ticket's thirty seconds count from the moment the store
accepts it, not from the clock read before.

## Model

| member | source | states |
|---|---|---|
| `LeaseQueue.TakeClaims` | src/adapters/postgres/realtime/mod.rs:36-84 | the claiming statement takes exactly the claimable ones among the first candidates, each once, up to a full batch; a claimed row has the new owner, the next generation and the new lease, and keeps attempts, creation, deadline; the claim names it; no other row changes |
| `LeaseQueue.Queue.ClaimBatch` | src/adapters/postgres/account_deletion/cleanup.rs:58-105 | the same on the stored table: claims, the set taken and the table left behind |
| `LeaseQueue.Queue.MarkDone` | src/adapters/postgres/realtime/mod.rs:86-107 | a row is completed exactly when the claim still holds it, and nothing else changes |
| `LeaseQueue.Queue.RecordFailure` | src/adapters/postgres/realtime/mod.rs:109-176 | a failure reschedules or ends the row the claim still holds, by the delay and limit the worker passes; a stale claim changes nothing |
| `LeaseQueue.Queue.ProcessClaim` | src/application/realtime/outbox.rs:52-113 | every provider outcome ends in the settled row and the verdict that belongs to it |
| `LeaseQueue.VerdictsAreExact` | src/adapters/postgres/realtime/mod.rs:86-176 | each verdict if and only if its case: stale, delivered, permanently refused, retry that fits attempts and deadline, retry that does not; and the row each leaves |
| `LeaseQueue.StepKeepsInv` | src/application/realtime/outbox.rs:31-113 | each step of each worker, crash, timeout and lost reply keeps: a claim is current until its lease ran out, a call ends before it, a done row was delivered |
| `LeaseQueue.RunKeepsInv` | src/application/realtime/outbox.rs:31-113 | the invariant over every run |
| `LeaseQueue.ReachableKeepsInv` | src/application/realtime/outbox.rs:31-113 | the invariant in every state reachable from an empty queue |
| `LeaseQueue.InvExcludes` | src/application/realtime/outbox.rs:52-82 | with a fitting budget no two calls for one row are in flight |
| `LeaseQueue.OverlapWithoutBudget` | src/application/realtime/outbox.rs:132-150 | for every configuration without the budget, a run in which two calls overlap |
| `LeaseQueue.BudgetIsExact` | src/application/realtime/outbox.rs:132-150 | lease > timeout + margin if and only if no reachable state overlaps, for all runs of prompt starts |
| `LeaseQueue.OnlyTheHolderSettles` | src/application/account_deletion/cleanup.rs:82-177 | a row changes only by a claim that raises its generation, by the holder of the current generation within its lease, or by being stopped or removed |
| `LeaseQueue.TerminalRowsNeverChange` | src/adapters/postgres/account_deletion/cleanup.rs:107-221 | a finished row is the same at the end of every run, except that it may be removed |
| `LeaseQueue.RemovedRowsNeverChange` | src/adapters/postgres/push/delivery.rs:18-173 | a soft-deleted or deleted row is never claimed, finished or rescheduled again |
| `LeaseQueue.ScheduledRowWaits` | src/adapters/postgres/realtime/mod.rs:109-176 | a row scheduled for a retry, by whatever delay, is not claimed in any run until the retry is due, and does not change unless it is removed |
| `LeaseQueue.OvertakenOnlyReportsStale` | src/application/account_deletion/cleanup.rs:106-177 | a worker whose row moved on or was removed reports a stale claim or an error in every continuation |
| `LeaseQueue.EveryRunIsAccounted` | src/adapters/postgres/push/delivery.rs:18-173 | whatever delay and limit each worker passes with each failure, and whatever rows are stopped or removed meanwhile: done only after a delivered call of the last generation; failures at most one per claim and within the greatest limit; retries scheduled before the deadline |
| `LeaseQueue.InTimeSettles` | src/adapters/postgres/realtime/mod.rs:86-176 | a worker that settles before its lease ran out, on a row that was not removed, still holds it: its outcome is recorded, each status if and only if its case |
| `LeaseQueue.AttemptsCountFailures` | src/adapters/postgres/realtime/mod.rs:36-176 | over every run a row has as many attempts as failures of it were recorded in time and as many generations as claims were granted, and keeps creation time and deadline |
| `LeaseQueue.LimitEndsRow` | src/adapters/postgres/realtime/mod.rs:109-176 | over every run a row is given up no later than by the greatest limit passed, and without a deadline not before the least |
| `LeaseQueue.UnfinishedRowsComeDue` | src/adapters/postgres/realtime/mod.rs:36-84 | an unfinished row can be claimed from one moment on and not before: the end of its lease, its next attempt, or its creation |
| `QueueWorker.AcceptedConfigurationExcludes` | src/application/realtime/outbox.rs:132-150 | an accepted configuration excludes overlap if and only if the truncated lease still exceeds the budget |
| `QueueWorker.AcceptedExactly` | src/application/realtime/outbox.rs:132-150 | a configuration is accepted if and only if every value is in its range and the lease exceeds the budget |
| `QueueWorker.SubMillisecondLeaseCanOverlap` | src/adapters/postgres/realtime/mod.rs:36-84 | an accepted configuration that does not |
| `QueueWorker.EveryClaimIsCountedOnce` | src/application/realtime/outbox.rs:31-50 | the report's columns add up to the claims |
| `QueueWorker.ProcessClaim` | src/application/realtime/outbox.rs:52-113 | one claim with a repository that may lose the request or the answer |
| `QueueWorker.ProcessAll` | src/application/realtime/outbox.rs:31-50 | each claim of a batch is recorded whatever happens to the others, and no other row changes |
| `QueueWorker.MergeOutcomes` | src/application/realtime/outbox.rs:31-50 | an error exactly when some outcome is one, else each column counts the outcomes with its verdict |
| `QueueWorker.ClaimAndProcess` | src/application/account_deletion/cleanup.rs:82-104 | claiming and processing a batch: every claimed row is recorded, every other row kept |
| `QueueWorker.RunOnce` | src/application/realtime/outbox.rs:31-50 | Ok exactly when every repository call answered, and then each column counts the claims with its verdict |
| `PushWorker.RecordFailure` | src/application/push/mod.rs:447-478 | an error exactly when the repository gave no disposition; else one claim more in one column: retried, dead or stale, each if and only if that was the disposition |
| `PushWorker.Authorize` | src/application/push/mod.rs:333-385 | an authorization is used exactly when it was read, names the claim and its transaction ended |
| `PushWorker.FinishProviderOutcome` | src/application/push/mod.rs:279-331 | an error exactly when a statement after the provider call did not answer; each column if and only if its provider answer and what followed it, stale exactly when the claim was no longer current |
| `PushWorker.ProcessClaim` | src/application/push/mod.rs:207-257 | an error exactly when the authorization was unusable or a later statement did not answer; each column if and only if its answers on the whole path; the denial flag exactly for a denial |
| `PushWorker.ColumnsAreExact` | src/application/push/mod.rs:207-331 | each of the five columns if and only if its answers, told without the order of the checks |
| `PushWorker.FailuresAreSettled` | src/application/push/mod.rs:207-331 | worker and failure statement together: a denied or rejected push is given up at once; one that failed otherwise is retried if and only if an attempt is left and the retry comes before the deadline |
| `PushWorker.ColumnsPartition` | src/application/push/mod.rs:181-201 | five columns partition the claims; denials are retried, dead or stale |
| `PushWorker.RunOnce` | src/application/push/mod.rs:181-201 | Ok exactly when every claim was answered, and then each is counted once and denials are bounded |
| `PushWorker.AcceptedDelayNeverSaturates` | src/config/push/mod.rs:219-245 | with an accepted delay the multiplication stays within a duration |
| `PushWorker.DelayGrowsWithinBounds` | src/application/push/mod.rs:447-463 | the delay never shrinks with attempts and lies between d and 1024 d |
| `PushWorker.TotalDelayFactors` | src/application/push/mod.rs:447-463 | the sum of k delays is d times the sum of the factors |
| `PushWorker.TotalDelayClosedForm` | src/application/push/mod.rs:447-463 | k failures schedule d(2^k - 1) up to eleven, then d(2047 + 1024(k - 11)) |
| `PurgeWorker.ProcessClaim` | src/application/account_deletion/cleanup.rs:312-359 | a transaction error if and only if begin, commit or rollback failed; a repository error if and only if the release did not answer; else purged, released or stale, each if and only if its answers |
| `PurgeWorker.FatesPartition` | src/application/account_deletion/cleanup.rs:290-310 | purged, released and stale partition the claims |
| `PurgeWorker.RunOnce` | src/application/account_deletion/cleanup.rs:290-310 | Ok exactly when no claim broke, purged + failed = claimed, failed = released + stale; an error is the first one |
| `MessageOrder.Latest` | src/adapters/postgres/message_order.rs:16-29 | the largest timestamp of the room among the visible messages |
| `MessageOrder.NextTimestamp` | src/adapters/postgres/message_order.rs:8-29 | later than every visible message of the room, not before the clock, and no later than needed |
| `MessageOrder.StepKeepsInv` | src/adapters/postgres/message_order.rs:5-29 | lock, allocate, insert, record, commit and abort of any writer keep every open transaction ahead of its room |
| `MessageOrder.RunKeepsInv` | src/adapters/postgres/message_order.rs:5-29 | the invariant over every interleaving and every clock |
| `MessageOrder.CommittedHistoryIsOrdered` | src/adapters/postgres/message_order.rs:5-29 | committed messages of a room strictly increase in time and in event cursor, in commit order |
| `MessageOrder.LogOnlyGrows` | src/adapters/postgres/messaging/send.rs:248-278 | no run takes back a committed message |
| `MessageOrder.NothingAppearsBehindAReader` | src/adapters/postgres/messaging/send.rs:248-278 | what is committed after a read comes after everything that read saw of the room |
| `SendComposition.Database.SendMessageHttp` | src/application/transactions/mod.rs:157-251 | one call from preparation to commit or rollback leaves the database and gives the answer that the rows of `SendAnswers` below tell |
| `SendComposition.CommitKeepsInv` | src/application/transactions/mod.rs:343-365 | a commit, acknowledged, lost or not applied, keeps the index, the events, the media and every other open call |
| `SendComposition.StepKeepsInv` | src/application/transactions/mod.rs:157-251 | so does each other statement of each call, and each upload change |
| `SendComposition.RunKeepsInv` | src/application/transactions/mod.rs:157-251 | the invariant over every run |
| `SendComposition.ReachableKeepsInv` | src/application/transactions/mod.rs:157-251 | the invariant in every reachable state |
| `SendComposition.EveryMessageIsAnnouncedOnce` | src/adapters/postgres/messaging/send.rs:156-278 | at most one message per key; each has exactly one event, outbox row and fan-out, and nothing is announced without its message |
| `SendComposition.AnswersAreTruthful` | src/application/transactions/mod.rs:343-365 | created and existing answers name committed messages; another refusal inserted none; no call inserts twice |
| `SendComposition.RefusedCallLeavesNoTrace` | src/application/transactions/mod.rs:343-365 | a call refused with anything but an unavailable database can be taken out of the run: the other steps alone lead to the same database, answers and open calls |
| `SendContent.StepKeepsContent` | src/adapters/postgres/media/message_binding.rs:23-129 | each step of each call keeps messages well composed, open calls true to their requests and answers true |
| `SendContent.RunKeepsContent` | src/adapters/postgres/media/message_binding.rs:23-129 | over every run |
| `SendContent.CommittedMessagesAreWellComposed` | src/application/messaging/mod.rs:261-281 | every committed message has text or media, at most four uploads, all of its sender's own for its room, audio only alone and without text |
| `SendContent.AnswersNameTheRequest` | src/adapters/postgres/messaging/send.rs:194-246 | a created or existing answer names a message with the caller's room, key and body, and the media asked for, still attached unless there were none |
| `SendAnswers.CalmSendIsExact` | src/adapters/postgres/media/message_binding.rs:23-129 | an undisturbed call on any sound database, told from request and tables only: created if and only if the key is free and the media usable; existing, unchanged, if and only if the key has that room, body and media; existing with the media attached if and only if it had none and they are usable; each refusal if and only if its case; and what is stored |
| `SendAnswers.DisturbedSendIsExact` | src/application/transactions/mod.rs:157-251 | with faults: the first failing statement refuses and changes nothing; otherwise the calm outcome, its effect without the answer, or neither, by what becomes of the commit |
| `SendAnswers.BindsExisting` | src/adapters/postgres/media/message_binding.rs:66-129 | binding media to a known message: an exact repetition, media for a message without any, or a refusal |
| `SendAnswers.RetryFindsItsMessage` | src/application/transactions/mod.rs:343-365 | from every reachable state: after a lost acknowledgement the same request is answered with its message and media, and changes nothing |
| `SendComposition.CommitKeepsAgreementExactly` | src/adapters/postgres/media/message_binding.rs:23-129 | a commit keeps events and attachments equal if and only if it does not bring media to a message sent without |
| `SendComposition.AgreementIsExact` | src/adapters/postgres/media/message_binding.rs:23-129 | at the end of any run events and attachments agree if and only if no effective commit of it brought media to a message sent without |
| `SendComposition.FaithfulRetriesAgree` | src/adapters/postgres/media/message_binding.rs:370-398 | if every retry of a key repeats its uploads, events and attachments agree in every run |
| `SendComposition.CallIsARun` | src/application/transactions/mod.rs:157-251 | an undisturbed call is a run, so every run property covers it |
| `SendComposition.PlainSend` | src/application/messaging/mod.rs:111-148 | the database after one plain send |
| `SendComposition.LateMediaRun` | src/adapters/postgres/media/message_binding.rs:66-129 | a run whose event and message disagree |
| `TermList.TrimFindsCore` | src/domain/moderation/mod.rs:151-151 | trimming finds the part between the surrounding whitespace |
| `TermList.JudgeIsExact` | src/domain/moderation/mod.rs:150-166 | blank, control, too long, too short or a folded term, each if and only if its condition on that part |
| `TermList.FromTerms` | src/domain/moderation/mod.rs:146-178 | the loop, its early exits and the final sort compute `Build` |
| `TermList.ScanMeaning` | src/domain/moderation/mod.rs:146-178 | the loop succeeds exactly on lists without a bad entry whose terms fit, keeps each once, else reports a defect present |
| `TermList.BuildMeaning` | src/domain/moderation/mod.rs:146-178 | the outcome without the loop: a present defect, an empty list, or each folded term once, longest first |
| `TermList.TermLeqMeaning` | src/domain/moderation/mod.rs:176-176 | the stored order: longer terms first, equally long ones by their first differing code point |
| `TermList.BuildSuccessIgnoresOrder` | src/domain/moderation/mod.rs:146-178 | success and the stored vector do not depend on order or repetition |
| `TermList.AnyDefectCanBeReported` | src/domain/moderation/mod.rs:146-178 | for each defect present, an order in which it is the one reported |
| `TermList.ErrorKindDependsOnOrder` | src/domain/moderation/mod.rs:146-178 | a lone letter and a word with a bell character: the error changes when the list is turned around |
| `TermList.BuildIgnoresOrderExactly` | src/domain/moderation/mod.rs:146-178 | the whole outcome ignores order if and only if at most one kind of defect is present |
| `ContentFilter.BuiltTermsAreValid` | src/domain/moderation/mod.rs:146-178 | a built vector meets what the masking loop relies on |
| `ContentFilter.FirstMatchIsLongest` | src/domain/moderation/mod.rs:185-213 | in a stored vector the first match is the longest |
| `ContentFilter.MatchLength` | src/domain/moderation/mod.rs:195-199 | the search over the vector finds the longest listed prefix |
| `ContentFilter.MaskOnce` | src/domain/moderation/mod.rs:194-211 | one turn masks a whole term or copies one character, and what is left to do is unchanged |
| `ContentFilter.Mask` | src/domain/moderation/mod.rs:185-213 | the loop is leftmost-longest replacement, a function of the set of terms only |
| `ContentFilter.CleanTextIsKept` | src/domain/moderation/mod.rs:185-213 | a text without a listed term comes back unchanged |
| `ContentFilter.ResistantTermNeverRemains` | src/domain/moderation/mod.rs:185-213 | a resistant term occurs nowhere in any masked text, whatever else is listed |
| `ContentFilter.MaskingLeavesNoResidue` | src/domain/moderation/mod.rs:185-213 | with resistant terms the output holds none of them and masking again changes nothing |
| `ContentFilter.StarFreeTermsResist` | src/domain/moderation/mod.rs:185-213 | terms without a star are resistant |
| `ContentFilter.ResistanceIsExact` | src/domain/moderation/mod.rs:185-213 | a term is never left behind, in any list and text, if and only if it is resistant |
| `ContentFilter.StarTermIsNotIdempotent` | src/domain/moderation/mod.rs:185-213 | a term of stars for which masking twice differs from once |
| `ContentFilter.MaskedLength` | src/domain/moderation/mod.rs:185-213 | twice the output is at most three times the input |
| `MaskStability.UnchangedExactlyWhenClean` | src/domain/moderation/mod.rs:185-213 | for every list and text: a text without a listed term comes back unchanged, and an unchanged text is one, unless it holds a run of stars that comes back unchanged with a listed term in it |
| `MaskStability.CatchesUpInStars` | src/domain/moderation/mod.rs:185-213 | an output shorter than its input so far makes up for it only through stars, by as many as masking that run of stars alone adds |
| `MaskStability.FallsBackInStars` | src/domain/moderation/mod.rs:185-213 | an output ahead of its input in stars gets into step again only through stars, by as many as masking that run alone takes away |
| `MaskStability.UnchangedMeansCleanExactly` | src/domain/moderation/mod.rs:185-213 | for every list: unchanged means clean on every text if and only if it does on every run of stars shorter than twice the longest listed run |
| `MaskStability.KeptTextHoldsStars` | src/domain/moderation/mod.rs:185-213 | an unchanged text with a listed term in it: where its run of stars is that comes back unchanged with a listed term in it |
| `MaskStability.ShortRunDeceives` | src/domain/moderation/mod.rs:185-213 | if some run of stars comes back unchanged with a listed term in it, one shorter than twice the longest listed run does |
| `MaskStability.AcceptedListsAreDecided` | src/domain/moderation/mod.rs:146-213 | for every list that is accepted, runs of fewer than 128 stars decide |
| `MaskStability.OneSidedListsAreHonest` | src/domain/moderation/mod.rs:185-213 | without `***`, and without `**` beside a longer run, no run of stars comes back unchanged with a listed term in it |
| `MaskStability.StarsEvenOut` | src/domain/moderation/mod.rs:185-213 | `**` and `****` leave six stars as they are |
| `MaskStability.MaskOfMask` | src/domain/moderation/mod.rs:185-213 | with only `***` listed every text is kept |
| `MaskStability.IdempotenceIsExact` | src/domain/moderation/mod.rs:185-213 | masking twice is masking once, on every text and in every list of this term and resistant ones, if and only if the term is resistant or `***` |
| `CanonicalJson.StringIsRead` | src/contract_generation/manifest.rs:358-361 | an escaped string is read back, up to its closing quote, by the rules of section 7 of RFC 8259 |
| `CanonicalJson.ValueIsRead` | src/contract_generation/manifest.rs:356-398 | a JSON reader gives every printed value back, whatever follows it |
| `CanonicalJson.NormalIsStable` | src/contract_generation/manifest.rs:372-392 | sorting the keys again changes nothing |
| `CanonicalJson.CanonicalTextIsRead` | src/contract_generation/manifest.rs:356-398 | reading the canonical text gives the value back with its fields sorted, equal up to field order |
| `CanonicalJson.SameExactlyWhenNormalsAgree` | src/contract_generation/manifest.rs:373-392 | values are equal up to field order exactly when their sorted forms are equal |
| `CanonicalJson.CanonicalTextIsMeaning` | src/contract_generation/manifest.rs:356-398 | two values have one canonical text if and only if they are equal up to field order |
| `CanonicalJson.KeysAscend` | src/contract_generation/manifest.rs:372-392 | the keys of every printed object strictly ascend: one begins the other or is smaller at the first differing byte |
| `CanonicalJson.EscapesAreShortest` | src/contract_generation/manifest.rs:358-361 | exactly quotes, backslashes and controls are escaped, in two bytes where there is such a form and six lower-case ones else |
| `CanonicalJson.Append` | src/contract_generation/manifest.rs:357-395 | the recursive printer appends exactly the canonical text |
| `CanonicalJson.AppendItems` | src/contract_generation/manifest.rs:362-371 | the array loop does |
| `CanonicalJson.AppendFields` | src/contract_generation/manifest.rs:372-392 | the object loop over sorted keys does |
| `CanonicalJson.AppendField` | src/contract_generation/manifest.rs:376-390 | one key with the value looked up under it |
| `CanonicalJson.CanonicalJson` | src/contract_generation/manifest.rs:356-398 | the whole text |
| `Sha256.Padded` | src/contract_generation/sha256.rs:85-92 | the padding loop ends with the marker, the fewest zeros and the wrapped length |
| `Sha256.FillSchedule` | src/contract_generation/sha256.rs:96-117 | the array filled in place is the schedule |
| `Sha256.ScheduleRecurrence` | src/contract_generation/sha256.rs:96-117 | the schedule loads big-endian words and then obeys the recurrence of section 6.2.2 of FIPS 180-4 |
| `Sha256.CompressBlock` | src/contract_generation/sha256.rs:95-157 | the eight rotating registers compute the rounds, added to the state |
| `Sha256.RegistersAreTwoSequences` | src/contract_generation/sha256.rs:128-147 | for any word operations: the eight registers are the last four words of two sequences, given by a recurrence without shifting |
| `Sha256.RoundBalance` | src/contract_generation/sha256.rs:128-147 | for any commutative and associative addition: the words that enter differ by T2 and the word that leaves |
| `Sha256.CompressionIsTwoSequences` | src/contract_generation/sha256.rs:119-157 | the compression adds the last four words of each sequence to the chaining value |
| `Sha256.HashBlocks` | src/contract_generation/sha256.rs:94-158 | the block loop folds the compression over all blocks, dropping none |
| `Sha256.DigestHex` | src/contract_generation/sha256.rs:85-164 | the digest |
| `Sha256.HexState` | src/contract_generation/sha256.rs:160-163 | always 64 lower-case hexadecimal digits |
| `Sha256.HexStateIsInjective` | src/contract_generation/sha256.rs:160-163 | the digits lose nothing of the state |
| `Sha256Standard.SigmasAreRotations` | src/contract_generation/sha256.rs:108-140 | the four sigma functions as shifts, by the rotation of section 3.2 of FIPS 180-4 |
| `Sha256Standard.ChooseSelects` | src/contract_generation/sha256.rs:130-130 | the choice has the second word's bit where the first has a one, and the third's elsewhere |
| `Sha256Standard.MajorityCounts` | src/contract_generation/sha256.rs:137-137 | the majority has a bit exactly when two of the three words have it |
| `Sha256Standard.InitialStateIsSquareRoots` | src/contract_generation/sha256.rs:6-15 | the initial state: the fractions of the square roots of the first eight primes |
| `Sha256Standard.ConstantsFrom0` | src/contract_generation/sha256.rs:18-25 | round constants 0 to 7: the fractions of the cube roots of their primes |
| `Sha256Standard.ConstantsFrom8` | src/contract_generation/sha256.rs:26-33 | round constants 8 to 15: the fractions of the cube roots of their primes |
| `Sha256Standard.ConstantsFrom16` | src/contract_generation/sha256.rs:34-41 | round constants 16 to 23: the fractions of the cube roots of their primes |
| `Sha256Standard.ConstantsFrom24` | src/contract_generation/sha256.rs:42-49 | round constants 24 to 31: the fractions of the cube roots of their primes |
| `Sha256Standard.ConstantsFrom32` | src/contract_generation/sha256.rs:50-57 | round constants 32 to 39: the fractions of the cube roots of their primes |
| `Sha256Standard.ConstantsFrom40` | src/contract_generation/sha256.rs:58-65 | round constants 40 to 47: the fractions of the cube roots of their primes |
| `Sha256Standard.ConstantsFrom48` | src/contract_generation/sha256.rs:66-73 | round constants 48 to 55: the fractions of the cube roots of their primes |
| `Sha256Standard.ConstantsFrom56` | src/contract_generation/sha256.rs:74-81 | round constants 56 to 63: the fractions of the cube roots of their primes |
| `Sha256Standard.HexOfDigits` | src/contract_generation/sha256.rs:160-163 | a number is printed as the digits that write it, most significant first |
| `Sha256Standard.HexWordsAt` | src/contract_generation/sha256.rs:160-163 | the words of the state are printed in order, eight digits each |
| `Sha256Vector.AllRounds` | src/contract_generation/sha256.rs:95-147 | the schedule and the sixty-four rounds of "abc", word by word |
| `Sha256Vector.PublishedDigest` | src/contract_generation/sha256.rs:85-164 | the digest of "abc" is the published one |
| `Sha256.LengthFieldTellsLength` | src/contract_generation/sha256.rs:86-92 | the last eight bytes tell the length modulo 2^61 |
| `Sha256.PaddingIsInjective` | src/contract_generation/sha256.rs:86-92 | no two inputs of any lengths share a padded form |
| `Sha256.MeetingChainsCollide` | src/contract_generation/sha256.rs:94-158 | two different block sequences with one chaining value: their chains collide at two given blocks, or one came back to its start and then repeated the other |
| `Sha256.ChainsOfPaddedInputsCollide` | src/contract_generation/sha256.rs:85-158 | for any compression function: different inputs whose chains meet collide at two given blocks of these chains, or their lengths differ by a multiple of 2^61 and one chain came back to its start and then repeated the other |
| `Sha256.DigestCollisionsComeFromCompression` | src/contract_generation/sha256.rs:85-164 | two inputs with one printed digest: the blocks of their own padded forms at which SHA-256 collides, or that same return to the start |
| `Manifest.FrameAll` | src/contract_generation/manifest.rs:345-352 | the loop writes path, NUL, decimal length, NUL, bytes for each entry |
| `Manifest.ComputeChecksum` | src/contract_generation/manifest.rs:336-354 | the digest of the sorted, framed entries with the canonical core |
| `Manifest.FrameIsRead` | src/contract_generation/manifest.rs:345-352 | with a NUL-free path a frame is read back, whatever follows it |
| `Manifest.FramesAreRead` | src/contract_generation/manifest.rs:345-352 | with NUL-free paths the stream is read back as exactly the entries written |
| `Manifest.FramesAreReadExactly` | src/contract_generation/manifest.rs:345-352 | the stream is read back as the entries written if and only if no path holds a NUL |
| `Manifest.NulPathIsAmbiguous` | src/contract_generation/manifest.rs:345-352 | two lists of entries with one stream, one with a NUL in a path |
| `Manifest.StreamTellsEntries` | src/contract_generation/manifest.rs:336-354 | equal streams hold the same entries, each as often |
| `Manifest.StreamAscends` | src/contract_generation/manifest.rs:336-354 | the checksum covers the artifacts and the canonical core, each once, in ascending byte order of their paths |
| `Manifest.StreamForgetsOrder` | src/contract_generation/manifest.rs:343-343 | the sort removes the input order when a path has one content |
| `Manifest.OrderNeverMattersExactly` | src/contract_generation/manifest.rs:343-343 | the stream ignores order if and only if no path has two contents |
| `Manifest.StreamTellsManifest` | src/contract_generation/manifest.rs:336-354 | one stream if and only if the same artifacts and the same core up to order |
| `Manifest.ChecksumTellsManifest` | src/contract_generation/manifest.rs:336-354 | one checksum means the same manifest, or the two checksum streams expose a collision at two given blocks of their chains |
| `Manifest.CoreIsTold` | src/contract_generation/manifest.rs:21-90 | the JSON of a core determines every field of it |
| `Manifest.ChecksumTellsCore` | src/contract_generation/manifest.rs:336-354 | one checksum means the same core and the same artifacts, or the two checksum streams expose a collision at two given blocks of their chains |
| `Manifest.Build` | src/contract_generation/manifest.rs:99-176 | the manifest generated for provenance, artifacts and profile, field by field; its paths are those of the artifacts and its own, ascending |
| `Manifest.BuiltCoreIsExact` | src/contract_generation/manifest.rs:99-176 | the same of the core it is verified against: a stage exactly for a release candidate |
| `Manifest.BuildIgnoresOrder` | src/contract_generation/manifest.rs:99-176 | it does not depend on the order of the artifacts |
| `Manifest.VerifyCore` | src/contract_generation/manifest.rs:178-224 | the field checks accept exactly the built core, and an error names the first difference |
| `Manifest.Verify` | src/contract_generation/manifest.rs:178-305 | accepted if and only if the manifest equals the built one; a checksum error if and only if only the checksum differs |
| `Manifest.VerifiedManifestFixesArtifacts` | src/contract_generation/manifest.rs:178-305 | a manifest valid for two artifact sets: one set, or a collision at two given blocks of the chains of their streams |
| `RefreshRotation.AuthService.Refresh` | src/application/auth/service.rs:411-484 | one undisturbed call: each answer if and only if its verdict and environment; a rotation consumes the presented session and stores a live child of its user, family and identity with the requested token and expiry; a reuse revokes the whole family; nothing else changes |
| `RefreshRotation.OutcomeIsUnique` | src/application/auth/service.rs:411-484 | that tells answer and tables completely |
| `RefreshRotation.CallIsARun` | src/application/auth/service.rs:411-484 | an undisturbed call is a run with that outcome, so every run property covers it |
| `RefreshRotation.VerdictsAreExact` | src/adapters/postgres/auth/mod.rs:210-258 | suspended, reused and rotated if and only if their conditions on the presented session, without reference to the order of the checks |
| `RefreshRotation.StepKeepsInv` | src/adapters/postgres/auth/mod.rs:210-282 | each statement, commit, fault, login, withdrawal and suspension keeps one head per family, one child per consumed session, and every open call's footing |
| `RefreshRotation.RunKeepsInv` | src/application/auth/service.rs:411-484 | the invariant over every run |
| `RefreshRotation.ReachableKeepsInv` | src/application/auth/service.rs:411-484 | the invariant in every reachable state |
| `RefreshRotation.OneLiveSessionPerFamily` | src/adapters/postgres/auth/mod.rs:210-282 | no family has two live sessions; a session has at most one child, and one exactly when consumed |
| `RefreshRotation.AnswersAreTruthful` | src/application/auth/service.rs:455-484 | a pair is a committed child of the presented session; reused follows a committed revocation of the presented session and every other one the statement saw; another refusal left nothing |
| `RefreshRotation.StepExtends` | src/adapters/postgres/auth/mod.rs:243-304 | consumption, revocation and deletion are never undone |
| `RefreshRotation.RefusalsWriteNothing` | src/application/auth/service.rs:574-593 | only commits, logins, withdrawals and account changes write |
| `RefreshRotation.DeadStaysDead` | src/adapters/postgres/auth/mod.rs:243-282 | a family without a live session never gets one |
| `RefreshRotation.ReuseEndsFamilyExactly` | src/adapters/postgres/auth/mod.rs:243-254 | after a committed reuse the family is over in every continuation if and only if the statement saw its newest session |
| `RefreshRotation.NewestSeenThroughRun` | src/adapters/postgres/auth/mod.rs:243-254 | over every run that leaves the revoking call open, its snapshot holds the newest session at the end if and only if it did and no rotation of the family committed |
| `RefreshRotation.ReuseEndsFamilyUnlessOvertaken` | src/adapters/postgres/auth/mod.rs:243-254 | from the statement's snapshot to the commit of the reuse: the family is over in every continuation if and only if no rotation of it committed in between or its newest session ended otherwise |
| `RefreshRotation.OvertakenReuse` | src/adapters/postgres/auth/mod.rs:243-282 | a reachable state where a rotation overtook the statement |
| `AccountDeletion.AccountDeletionService.Finish` | src/application/account_deletion/mod.rs:244-268 | success commits, an error rolls back, and a failure of either is an unavailable database |
| `AccountDeletion.AccountDeletionService.FenceAll` | src/application/account_deletion/mod.rs:213-231 | the loop fences every live membership in order, or stops at the first failure |
| `AccountDeletion.AccountDeletionService.DeleteGrace` | src/application/account_deletion/mod.rs:172-234 | success if and only if begun, prepared, started, counted, every membership fenced and acknowledged; each error if and only if its answers; grace and all fences are committed together exactly when the commit applied, else nothing |
| `AccountDeletion.AccountDeletionService.CheckPreconditions` | src/application/account_deletion/mod.rs:143-161 | passes exactly when the look succeeded and was rolled back; each error if and only if its answers |
| `AccountDeletion.AccountDeletionService.VerifyAndRevoke` | src/application/account_deletion/mod.rs:112-141 | revokes only for a matching subject, with the proof's code; success and each error if and only if their answers |
| `AccountDeletion.AccountDeletionService.DeleteApple` | src/application/account_deletion/mod.rs:57-68 | check, verify, revoke, delete: order; success, each error and the effect if and only if their answers |
| `AccountDeletion.AccountDeletionService.DeleteAccount` | src/application/account_deletion/mod.rs:46-77 | on every schedule: success, each of its errors and the change of the database if and only if their answers; revoke only after everything before it went well |
| `AccountDeletion.AccountDeletionService.StartOperatorDeletion` | src/application/account_deletion/mod.rs:85-110 | never revokes; success, errors and effect if and only if their answers, and whether there was an authorization to revoke |
| `RealtimeTicket.StepKeepsInv` | src/adapters/redis/realtime/mod.rs:54-99 | a put on a free key, with the lifetime computed from an earlier clock, and a removing read keep stored and opened tickets apart and in time |
| `RealtimeTicket.RunKeepsInv` | src/adapters/redis/realtime/mod.rs:54-99 | over every run |
| `RealtimeTicket.TicketsOpenOnce` | src/application/realtime/ticket.rs:39-107 | in every run a stored ticket opens at most one session, within its lifetime and thirty seconds of being stored, and before the access token expires |
| `RealtimeTicket.LifetimeIsBounded` | src/application/realtime/ticket.rs:120-131 | a lifetime is at least a millisecond, at most thirty seconds and never past the announced expiry |
| `RealtimeTicket.AnnouncedExpiryIsExact` | src/application/realtime/ticket.rs:39-107 | in all continuations of a state that holds a ticket it opens before its announced expiry, if and only if its own deadline comes by then, the token's expiry was announced, or one of them has passed |
| `RealtimeTicket.LateOpening` | src/application/realtime/ticket.rs:39-107 | a run that opens a session one second after the announced expiry |
| `RealtimeTicket.OpeningsOnlyAdd` | src/application/realtime/ticket.rs:81-107 | no run takes back an opening, and new ones are not in the past |
| `RealtimeTicket.TicketService.Issue` | src/application/realtime/ticket.rs:39-79 | success if and only if supported, authenticated and one of three credentials is free after colliding ones; then exactly one ticket is stored under it; each refusal exactly in its case |
| `RealtimeTicket.TicketService.Consume` | src/application/realtime/ticket.rs:81-107 | a session exactly for a visible, live, supported ticket, which is gone either way |
| `DownloadHeader.Utf8RoundTrip` | src/domain/media/mod.rs:320-323 | the bytes of a name decode to the name |
| `DownloadHeader.EncodeRfc5987` | src/domain/media/mod.rs:320-338 | the loop writes attribute characters as they are and percent triplets for the rest |
| `DownloadHeader.EncodingRoundTrip` | src/domain/media/mod.rs:320-338 | the decoder of section 3.2.1 of RFC 5987 gives every byte sequence back |
| `DownloadHeader.EncodingIsPrintable` | src/domain/media/mod.rs:320-338 | the encoding is printable ASCII |
| `DownloadHeader.LeafIsLastPiece` | src/domain/media/mod.rs:294-296 | the leaf is the last non-empty piece between separators, and only separators follow it |
| `DownloadHeader.FilterConcat` | src/domain/media/mod.rs:297-300 | filtering acts on each character in place |
| `DownloadHeader.SanitizedIsSafe` | src/domain/media/mod.rs:293-303 | a sanitised name has no separator, control or quote and no blank at an end |
| `DownloadHeader.SanitisingDropsEnds` | src/domain/media/mod.rs:293-303 | what is dropped from the filtered leaf: all leading blanks, dots and blanks, all trailing blanks, and no more |
| `DownloadHeader.SafeNameIsKept` | src/domain/media/mod.rs:293-303 | a safe name is kept exactly when it does not begin with a dot |
| `DownloadHeader.SanitisingTwiceExactly` | src/domain/media/mod.rs:293-303 | twice is once if and only if the cleaned name is not dots, blanks and a dot |
| `DownloadHeader.SanitisingIsNotIdempotent` | src/domain/media/mod.rs:293-303 | a name for which it is not |
| `DownloadHeader.FallbackIsPlain` | src/domain/media/mod.rs:305-318 | the fallback has letters, digits, blanks and five marks only |
| `DownloadHeader.ExtensionTellsType` | src/domain/media/mod.rs:278-291 | the extension of a generated name has the media type, if the type has one |
| `DownloadHeader.ContentDisposition` | src/domain/media/mod.rs:258-276 | the header as assembled |
| `DownloadHeader.HeaderRoundTrip` | src/domain/media/mod.rs:258-338 | for every stored name a reader recovers the fallback and the exact name from one printable line: the sanitised stored name, or the generated one if there is none; the fallback is that name with marks for other characters, or the generated one |
| `Escaping.OrderedRulesAreOnePass` | src/application/topics/mod.rs:446-450 | successive replacement is one pass when no code holds a later rule's character |
| `Escaping.OnePassExactly` | src/transport/http/app_links.rs:173-184 | for lengthening rules, if and only if |
| `Escaping.EscapingRoundTrip` | src/transport/http/app_links.rs:173-184 | the decoder gives every text back |
| `Escaping.EscapeLabel` | src/application/topics/mod.rs:446-450 | the five-pass loop is one pass |
| `Escaping.HtmlEscapersAreExact` | src/transport/http/app_links.rs:173-184 | both replacement chains are one pass and are undone by their decoders |
| `Escaping.RulesAreReferences` | src/transport/http/app_links.rs:173-184 | each character is replaced by the reference that HTML reads as that character |
| `Escaping.LabelEndsAtTitle` | src/application/topics/mod.rs:446-452 | the first bracket that is not escaped is the end of the label, and the label reads back as the title |
| `Escaping.AnnouncementBody` | src/application/topics/mod.rs:446-452 | the announcement as assembled |

## Left out

- LeaseQueue.Queue.ClaimBatch: the order of the claiming statement and its skipping of locked rows enter as the given list of candidates.
- LeaseQueue.StepKeepsInv: one advancing clock stands for the database server's and for the timers of the workers; a server clock that is set back is not modelled.
- LeaseQueue.OnlyTheHolderSettles: disabling an invalid push destination is the failure statement with a permanent refusal on the row; the check of the installation before it, and its own row, are not modelled, so a mismatch there is a request that changes nothing.
- QueueWorker.ProcessAll: a round's claims name different rows, so processing them one after another stands for the concurrent futures; the database clock of each settling statement is a free value.
- PushWorker.ProcessClaim: what the authorization and preview queries read, and the time they take before the timed provider call, which the lease budget does not cover.
- PushWorker.Authorize: one flag stands for the end of the transaction, a commit for a usable authorization and a rollback otherwise.
- SendComposition.Database.SendMessageHttp: membership checks enter as a fault; posters, soft deletes and the standalone `send_message` and `create_topic` compositions are not modelled.
- MessageOrder.NextTimestamp: timestamps are whole microseconds without the range limit of the database type.
- TermList.FromTerms: Unicode trimming, control and fold tables are parameters; `from_lines` and the embedded list are not modelled.
- CanonicalJson.Append: numbers are their printed text; writer errors into a memory buffer cannot occur and have no path.
- Sha256.ChainsOfPaddedInputsCollide: for inputs whose lengths differ by a multiple of 2^61 bytes a chain that returns to its start takes the place of a collision; that the compression function resists either is not a statement about this code.
- Manifest.Verify: starts from the parsed manifest; pretty printing, JSON parsing and reading the provenance file are not modelled, and a manifest of the other profile's shape is one error.
- Sha256Vector.PublishedDigest: the digest is compared as the eight words of the state; how these are printed is told for all states, not on this one.
- RefreshRotation.AuthService.Refresh: token format, rate limits and access-token issuance enter as inputs; times of consumption and revocation are flags.
- RefreshRotation.StepExtends: the account purge, which removes the session rows of a deleted account (src/adapters/postgres/account_deletion/transition.rs:334), is not a step; rows are only ever marked deleted.
- RefreshRotation.StepKeepsInv: the locking read is one step at the moment the lock is granted; logout, suspension and account deletion are one kind of step that marks unlocked rows.
- AccountDeletion.AccountDeletionService.DeleteAccount: what preparation and grace start do inside the repository is their answer and one committed change.
- RealtimeTicket.AnnouncedExpiryIsExact: is about runs in which the server's and the store's clocks show one time line.
- RealtimeTicket.TicketService.Issue: overflow of the date type when thirty seconds are added is not modelled; a put whose reply is lost ends the call, applied or not.
- DownloadHeader.HeaderRoundTrip: the identifier in a generated name is any text of letters, digits and hyphens.
- Escaping.AnnouncementBody: the introductory sentence is a parameter, and the content filter applied to the finished text is not part of it.
- Retention sweeps, installations, read markers, topic tags, snapshots for reports and the remaining validators: single statements and single-field checks without state of their own.
- HTTP routing, OAuth and Apple clients, JWT handling, S3 signing and configuration loading: foreign or declarative code.
