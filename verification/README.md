# HeroBM core: a Dafny model

HeroBM is a business-management system (sales, purchasing, inventory, general ledger). This project models the
parts of it whose correctness cannot be seen from any one function, and proves what they promise:

1. **Outbox delivery.** `OutboxListener` is the sweep listener with its three flags; `OutboxRelay` is the protocol in
   which sweeps select rows, enqueue jobs and lock rows while workers dispatch and record outcomes; `EmailRelay` is
   the retry and backoff machine for emails. Everything between two awaits is one step, and the steps of sweeps,
   workers, clock and application interleave freely. The job queue is what it shows of itself: a set of jobs
   deduplicated by id, where completed jobs disappear, exhausted jobs stay, and a job has five attempts.
2. **The tamper-evident ledger and its audit.** `JsonText` and `LedgerHash` cover canonicalisation, the hashed text
   and the hash chain; `LedgerAudit`, `InvoiceSeries` and `LedgerIntegrity` cover the nightly audit, down to what it
   reports of given invoice numbers; `PostedLedger`, `LedgerNets`, `AcceptedLedger` and `InvoicedLedger` say what the
   audit finds in a ledger that only the posting routine, or only invoicing, has written, and when a stored row is edited. The hash is an arbitrary function with 64-character results: wherever a proof needs two hashes to
   differ, the lemma returns two texts with the same hash instead.
3. **Money.** `InvoiceAccounting` (invoice journals and reversals), `Currency` (conversion through the base
   currency) and `Accounting` (running balances, aged totals), over exact reals and whole cents with the rounding
   of `Rounding`: nearest, halves away from zero.
4. **Allocation and parsers.** `Inventory` (first-come-first-served shortages), `OrderQuantities` (how much can
   still be invoiced, over whole order histories), `PickBarcode` and `QueryGit` (printer, parser and tokenizer).

`Wrappers`, `Sequences`, `StableSort` and `Text` hold what several modules share. Code that changes state step by
step is a class or a method with a loop, proved against a function of its inputs; the theorems are about that
function, and for each operation some of them name nothing but the inputs and the result: what a hashed text tells apart,
which numbers are reported missing, what every account gets, how much of a line may still be invoiced.
`dafny verify dfyconfig.toml` checks everything. Every lemma carries `{:induction false}`: a proof rests on the calls it
makes and on no automatic induction hypothesis.

## What the proofs found

Where the code and its comments disagree, the model follows the code.

- Sorting the lines is meant to make identical transactions hash alike (`packages/shared/src/ledger-hash.ts:27-30`).
  The sort key leaves out cost centre, activity and party type, which are hashed. The hash ignores the line order
  exactly when no two different lines tie on the key (`OrderIndependence`); otherwise an untouched ledger can be
  reported as tampered with, depending on the order its rows are fetched in (`AmbiguousLinesRaiseFalseAlarms`). What the
  hash does keep it keeps exactly (`TextsAgreeExactly`): every edit of a stored line by a cent or more, or in a text, is
  reported (`EditedLineIsReported`), while an edit that keeps sign and nearest cent, turns an empty text into null or
  touches what follows the first T of a date is not.
- Invoice journals are described as balanced (`packages/shared/src/invoice-accounting.ts:55-57`). In document
  currency they are out by exactly the tax that is charged but credited nowhere (`DocumentImbalanceIsUnpostedTax`).
  In base currency, with every tax posted, all journals at a rate balance if and only if the rate is a whole number
  (`BaseBalancesAtWholeRates`); otherwise m credit lines can be out by m/2 cents, rounded down, and never by more
  (`BaseDriftIsBounded`, `BoundIsReached`).
- Deduplication by job id does not make delivery exactly-once: a stale snapshot can re-add an event that was
  delivered meanwhile. Two jobs and ten attempts are the exact maximum (`AtMostTwoJobs`, `BoundsAreReached`).
  An event only gets a second job if some poll selected it while its first job was live
  (`SecondJobNeedsALiveSelection`); when no poll fails between adding and locking, and no live job outlives its lock
  at a select, one job is enough (`TimelyRunsUseOneJob`).
- A batch failure that is an email's last marks the row failed, then reads who queued the email, and only then logs the
  failure (`apps/worker/src/email-relay.ts:60-113`). If that read throws, the email stays failed without its failed
  event for good: between polls a failed email lacks the event if and only if this happened (`MissingEventExactly`,
  `LostEventIsReachable`). The send loop reads before its try and cannot lose it.
- A wakeup flagged during a sweep is honoured if and only if that sweep resolves before a stop or an exception; a
  throwing sweep drops it (`WakeupIsHonouredExactly`).
- The gap check reports a number if and only if it is climbed over, whether it is absent or not
  (`GapDetectionIsExact`); so it reports only absent numbers if and only if no number of the series is climbed over
  (`OnlyAbsentNumbersAreReported`), which out-of-order visits such as 8, 10, 9 violate (`OutOfOrderReportsPresent`).
  The timestamp-inversion check compares invoices fetched by creation time, so it fires if and only if, in some
  series, an invoice without creation time, which is fetched last and read as 1970, follows one created after 1970
  (`InversionsNeedMissingTimes`; the column is nullable, `packages/db-schema/src/sales.schema.ts:306`).
- Posting compares debit and credit after rounding each line to cents but stores the amounts unrounded
  (`apps/api/src/gl/gl.service.ts:233-246, 362-363`), and the columns have no scale. On whole cents every accepted
  ledger passes the balance checks (`AcceptedCentLedgerIsClean`). With fractions the audit reports exactly the entries
  whose dropped fractions exceed half a cent, and the trial balance exactly when those of the whole ledger do not
  round to zero (`AcceptedLedgerIsReportedExactly`), so it can be reported without any entry
  (`TrialBalanceIsAloneExactly`, `FractionsCanFailAlone`).
- In the sales order view a refund is added to what is invoiced. A refund beyond what could still be invoiced leaves
  that excess (`RefundLeavesExcess`), and the excess withholds later shipments from invoicing until it is filled
  (`ShipmentsFillTheExcessFirst`). Invoiced plus refunded stays within what was shipped or ordered throughout a run if
  and only if every refund stays within the answer (`WithinBoundsExactly`).
- The views find one line per order line on each invoice, so an invoice is counted in full if and only if every
  further line for the order line is empty (`CountedInFull`). Sales invoices are written with one line per order line
  (`apps/api/src/invoices/sales-invoice-creation.service.ts:343-381`). Purchase drafts take the requested lines as they
  are (`apps/api/src/invoices/purchase-invoice-draft.service.ts:176-200`), and one that repeats an order line n times
  bills n times what it is counted for (`RepeatedLinesAreCountedOnce`).
- The total of an aged-balances page is the sum of its rounded buckets, and is what is owed when all amounts are whole
  cents (`CalculateAgedTotals`). Without credits it is what is owed, rounded, for all amounts if and only if at most one
  bucket may carry a fraction of a cent (`RoundedDebtIsShownExactly`), and for given sums exactly when as many buckets
  are rounded up as their fractions are worth together (`RoundedDebtByFractions`); with credits, if and only if no bucket
  may (`RoundedDebtWithCreditsExactly`). Two buckets of half a cent show two cents for a debt of one
  (`AgedTotalsCanExceedTheDebt`).
- An argument that is quoted but empty is lost by the git tool's tokenizer (`QuotedArgumentsAreRead`).
- The prefix of a pick barcode is not always optional: `PrefixIsOptional` says exactly when it is.

## Model

| member | source | states |
|---|---|---|
| OutboxListener.AtMostOneSweep | apps/worker/src/outbox-listener.ts:41-60 | in every reachable state at most one sweep is in flight, and `isSweeping` says whether one is |
| OutboxListener.NoLostWakeup | apps/worker/src/outbox-listener.ts:36-60 | after any accepted trigger, with no stop and no throwing sweep in between, a sweep has started since, or the running one will be followed by another; once the running one resolves it has started |
| OutboxListener.WakeupIsHonouredExactly | apps/worker/src/outbox-listener.ts:41-60 | over any run from a sweep with a flagged wakeup, with no trigger or start after the sweep ends or a stop comes, a further sweep starts if and only if the first of resolve, reject and stop is a resolve |
| OutboxListener.TriggersCoalesce | apps/worker/src/outbox-listener.ts:36-54 | any positive number of triggers during one sweep causes exactly one further sweep |
| OutboxListener.SweepsAreTriggered | apps/worker/src/outbox-listener.ts:41-60 | over any run, sweeps started never exceed triggers: none starts without a trigger of its own |
| OutboxListener.StoppedStartsNothing | apps/worker/src/outbox-listener.ts:42-54 | no sweep starts after a stop until the next start |
| OutboxListener.StartReopens | apps/worker/src/outbox-listener.ts:41-66 | after a start the next trigger is accepted: it starts a sweep, or flags the one in flight |
| OutboxListener.Listener.constructor | apps/worker/src/outbox-listener.ts:19-21 | a new listener is the protocol's initial state |
| OutboxListener.Listener.CallOnSweep | apps/worker/src/outbox-listener.ts:51-53 | the loop body clears the flag before it calls the sweep |
| OutboxListener.Listener.BeginStart | apps/worker/src/outbox-listener.ts:65-66 | starting up to its first await is the protocol's step |
| OutboxListener.Listener.BeginStop | apps/worker/src/outbox-listener.ts:117-118 | stopping up to its first await is the protocol's step: a running sweep goes on |
| OutboxListener.Listener.TriggerSweep | apps/worker/src/outbox-listener.ts:41-53 | the method up to its await is the trigger step of the protocol |
| OutboxListener.Listener.SweepResolved | apps/worker/src/outbox-listener.ts:54-60 | the continuation of a sweep that resolves is the protocol's step |
| OutboxListener.Listener.SweepRejected | apps/worker/src/outbox-listener.ts:55-60 | the continuation of a sweep that throws is the protocol's step: the pending flag stays set and nothing starts |
| OutboxRelay.StepKeepsInv | apps/worker/src/relay.service.ts:40-182 | every step of every actor keeps the invariant tying row, job, jobs created and attempts made |
| OutboxRelay.NoEventIsStranded | apps/worker/src/relay.service.ts:54-92 | in every reachable state a locked row has a live job or an outcome, and a row without outcome has a live job or qualifies for a poll starting now |
| OutboxRelay.AtMostTwoJobs | apps/worker/src/relay.service.ts:43-92 | in every reachable state an event has had at most two jobs and ten dispatch attempts |
| OutboxRelay.BoundsAreReached | apps/worker/src/relay.service.ts:43-92 | a run from the initial state in which one event gets two jobs and ten attempts |
| OutboxRelay.SecondJobIsARedelivery | apps/worker/src/relay.service.ts:63-85 | a sweep creates a second job exactly when it adds, from its snapshot, an event whose first job was delivered and removed |
| OutboxRelay.SecondJobNeedsALiveSelection | apps/worker/src/relay.service.ts:43-92 | over any run an event only gets a second job if some poll selected it while its first job was live |
| OutboxRelay.TimelyRunsUseOneJob | apps/worker/src/relay.service.ts:43-92 | over any run in which no poll fails between add and lock and no live job's lock has run out at a select, every event has at most one job and five dispatch attempts |
| OutboxRelay.OutcomesStay | apps/worker/src/relay.service.ts:169-178 | over any run `processedAt` and `lastError`, once set, stay set |
| OutboxRelay.ErrorIsLastFailure | apps/worker/src/relay.service.ts:174-178 | over any run the error of a row is the message of the last failure recorded for its event, or the fallback text when that is empty |
| OutboxRelay.ProcessedAtIsLastSuccess | apps/worker/src/relay.service.ts:169-172 | over any run its time of processing is the time of the last success recorded for it |
| OutboxRelay.UninterruptedPoll | apps/worker/src/relay.service.ts:63-92 | the poll loop with nothing between its awaits is a run of the protocol with the loop's result |
| OutboxRelay.PollReachesEveryEvent | apps/worker/src/relay.service.ts:43-92 | an uninterrupted poll below the limit leaves every row without outcome with a live job |
| OutboxRelay.AddAllAdds | apps/worker/src/relay.service.ts:65-85 | after the loop an event has a job if it had one, which is left alone, or if it was selected, then a new one |
| OutboxRelay.LockAllLocks | apps/worker/src/relay.service.ts:87-91 | exactly the selected rows are locked, for five minutes from the time read before the select |
| OutboxRelay.LockLastsFiveMinutes | apps/worker/src/relay.service.ts:54-91 | a row without outcome that a poll has locked qualifies for a later one if and only if more than five minutes have passed since the time that poll read |
| OutboxRelay.Relay.PollOutbox | apps/worker/src/relay.service.ts:63-92 | the loop enqueues and locks exactly the selected rows |
| OutboxRelay.Errors | apps/worker/src/relay.service.ts:134-158 | there are no errors if and only if every webhook took the event |
| OutboxRelay.ErrorsDescribeFailures | apps/worker/src/relay.service.ts:136-158 | there is exactly one message for each webhook that answered badly or threw, in order, with its id and its status or message |
| OutboxRelay.ThrownNamesFailures | apps/worker/src/relay.service.ts:151-161 | the message thrown holds, for every such webhook, its id with its status or message |
| OutboxRelay.Relay.Dispatch | apps/worker/src/relay.service.ts:136-158 | one message per webhook that answered badly or threw, in order |
| OutboxRelay.Relay.ProcessEvent | apps/worker/src/relay.service.ts:101-182 | throws exactly when the lookup failed or some webhook did not take the event, the message naming each that did not; after a success the row has the clock as its time of processing and its old error, after a failure the message thrown as its error (or the fallback text for an empty one) and its old time; the lock is gone either way and no other row changes |
| EmailRelay.StepKeepsInv | apps/worker/src/email-relay.ts:10-328 | every step, a poll abandoned at a read included, between emails or between marking and logging a failure, keeps the invariant tying status, retries, next retry time, failure times and logged events |
| EmailRelay.UninterruptedFailure | apps/worker/src/email-relay.ts:55-117 | the failing loop with nothing else between its awaits is a run of the protocol with the loop's result, whichever of its reads throw |
| EmailRelay.UninterruptedSending | apps/worker/src/email-relay.ts:179-320 | the sending loop, whatever each send answers, is a run of the protocol with the loop's result |
| EmailRelay.PollAttemptsEveryDueEmail | apps/worker/src/email-relay.ts:10-320 | an uninterrupted poll below the limit whose reads do not throw attempts every email that was due, whether the checks pass or not: each is then sent or has one retry more |
| EmailRelay.RetriesAndEvents | apps/worker/src/email-relay.ts:55-117 | over any run: at most four retries unless failed, five when failed; one failed event and, with an entity, one `email.failed` outbox row exactly for failed emails whose logging is neither pending nor lost; one sent event exactly for sent ones |
| EmailRelay.LostIsReadThrew | apps/worker/src/email-relay.ts:60-113 | an email is lost exactly when in the run a batch had marked it failed and the read before its events threw |
| EmailRelay.MissingEventExactly | apps/worker/src/email-relay.ts:60-113 | over any run and between polls a failed email lacks its failed event if and only if such a read threw, and never has more than one |
| EmailRelay.LostEventIsReachable | apps/worker/src/email-relay.ts:60-113 | a run from the start that leaves a failed email without its event |
| EmailRelay.AttemptsBackOff | apps/worker/src/email-relay.ts:264-277 | failed attempts k and k+1 are at least 1, 2, 4 and 8 minutes apart for k from 1 to 4, and there are as many as retries, at most five |
| EmailRelay.NextRetryIsBackedOff | apps/worker/src/email-relay.ts:59-66 | over any run an email that has failed is due 1, 2, 4, 8 or 16 minutes after its last failure, by the number of failures |
| EmailRelay.AttemptsMakeProgress | apps/worker/src/email-relay.ts:10-22 | every attempt is on an email pending and due, which is then sent or has one retry more; no step touches another email |
| EmailRelay.Relay.FailInBatch | apps/worker/src/email-relay.ts:56-115 | the batch failure of one email is the failure transition, or only its marking when the read before the events throws, and it says which |
| EmailRelay.Relay.CatchRefusal | apps/worker/src/email-relay.ts:261-318 | the catch of the send loop is the same failure transition |
| EmailRelay.Relay.HandleEmailBatchFailure | apps/worker/src/email-relay.ts:55-117 | every email of the batch takes its transition, in order, up to the first read that throws |
| EmailRelay.Relay.Deliver | apps/worker/src/email-relay.ts:210-259 | a delivered email becomes sent, with its events |
| EmailRelay.Relay.SendBatch | apps/worker/src/email-relay.ts:179-320 | each email of the batch takes the transition of its own outcome |
| JsonText.EscapeIsUnambiguous | packages/shared/src/ledger-hash.ts:64 | escaped characters can be read back whatever follows them |
| JsonText.DigitsRoundTrip | packages/shared/src/ledger-hash.ts:64 | the decimal text of a number reads back as the number |
| JsonText.StringifyReadsBack | packages/shared/src/ledger-hash.ts:64 | a reader written from RFC 8259 reads the printed text of every value as that value |
| JsonText.ValuesAreUnambiguous | packages/shared/src/ledger-hash.ts:64 | equal JSON texts come from equal values and equal continuations |
| JsonText.StringifyIsInjective | packages/shared/src/ledger-hash.ts:64 | two different values never have the same JSON text |
| LedgerHash.FixedTextIsInjective | packages/shared/src/ledger-hash.ts:37-38 | the two-decimal texts of two amounts are equal only for equal cents and sign |
| LedgerHash.AmountTextIsAmountText | packages/shared/src/ledger-hash.ts:37-38 | an amount is hashed and sorted as a minus if it is negative, digits without a leading zero, a point and two digits, which read as the cents nearest to its magnitude, halves up |
| LedgerHash.DatePart | packages/shared/src/ledger-hash.ts:57 | the date is the text before the first T, or the whole text |
| LedgerHash.TextsAgreeExactly | packages/shared/src/ledger-hash.ts:31-66 | two payloads have the same hashed text if and only if they agree in sequence number, entry number, date before the first T, source type, source id and memo (empty as null) and, line by line in sorted order, in every field, amounts in sign and nearest cent |
| LedgerHash.HashedTextReads | packages/shared/src/ledger-hash.ts:54-65 | read as JSON, the hashed text is an object naming every field of the payload and of its sorted lines, amounts as two-decimal texts, absent and empty texts as null |
| LedgerHash.LineEditShows | packages/shared/src/ledger-hash.ts:34-62 | replacing one line by one that differs in any field changes the payload, whatever order the lines are then given in |
| LedgerHash.OrderIndependence | packages/shared/src/ledger-hash.ts:27-52 | permuting the lines never changes the hashed text if and only if any two lines that compare equal in account, two-decimal debit and credit texts and party agree in every field |
| LedgerHash.ReorderedLinesHashAlike | packages/shared/src/ledger-hash.ts:34-52 | without such lines every permutation has the same text |
| LedgerHash.AmbiguousLinesHashApart | packages/shared/src/ledger-hash.ts:44-52 | swapping two different lines that tie always changes the text |
| LedgerHash.AmbiguityShows | packages/shared/src/ledger-hash.ts:34-52 | with two different lines that tie, some permutation of the lines has another text, and the lemma returns it |
| LedgerHash.CostCentresDefeatTheSort | packages/shared/src/ledger-hash.ts:39-51 | two lines that differ only in cost centre: the text depends on their order |
| LedgerHash.VerifyJournalChain | packages/shared/src/ledger-hash.ts:92-163 | `verifiedCount` is the length of the longest valid prefix, `isValid` holds exactly for valid chains, and the error names the first failing condition of the first bad entry |
| LedgerHash.AppendingKeepsTheChain | apps/api/src/gl/gl.service.ts:335-381 | appending an entry keeps a chain valid if and only if the entry is numbered, linked and hashed as posting does it |
| LedgerHash.EqualHashesAgree | packages/shared/src/ledger-hash.ts:71-79 | entries with the same correct hash have the same previous hash and agree in every field, or a collision is returned |
| LedgerHash.HeadCommitsToHistory | packages/shared/src/ledger-hash.ts:71-163 | two valid chains with the same last hash have the same length and agree in every field of every entry, amounts to the cent, or a collision is returned |
| LedgerHash.EditIsPinpointed | packages/shared/src/ledger-hash.ts:131-154 | an edit of entry k in any field breaks the chain exactly at k, or a collision is returned |
| LedgerHash.LineEditIsPinpointed | packages/shared/src/ledger-hash.ts:34-154 | so does changing an amount of one line by a cent or more, or its account or any other text |
| StableSort.SortKeepsTies | packages/shared/src/ledger-hash.ts:44-52 | the sort is stable: elements that tie keep their order |
| StableSort.SortForgetsOrder | packages/shared/src/ledger-hash.ts:44-52 | inputs with the same elements sort alike when ties are equal |
| LedgerAudit.SplitNumber | apps/worker/src/verify-ledger-integrity.service.ts:135-137 | an invoice number is read if and only if it ends in a digit and holds no line terminator, and then as all its trailing digits and the prefix before them |
| LedgerAudit.GroupBy | apps/worker/src/verify-ledger-integrity.service.ts:132-143 | the map of lists holds, for every key that occurs, exactly the rows with that key, in order |
| LedgerAudit.CheckSeries | apps/worker/src/verify-ledger-integrity.service.ts:153-192 | the findings of a series are those of each invoice against the one visited before it |
| LedgerAudit.CheckNumbering | apps/worker/src/verify-ledger-integrity.service.ts:131-193 | the findings are those of the series of all prefixes that occur, historical invoices left out |
| LedgerAudit.GapDetectionIsExact | apps/worker/src/verify-ledger-integrity.service.ts:157-192 | for any visiting order, any number, present or absent, lies in a reported interval if and only if it is climbed over: a smaller one is visited before a larger one and it is not visited in between |
| LedgerAudit.AbsentNumbersAreFound | apps/worker/src/verify-ledger-integrity.service.ts:157-192 | an absent number is reported if and only if some smaller number was visited before some larger one |
| LedgerAudit.OnlyAbsentNumbersAreReported | apps/worker/src/verify-ledger-integrity.service.ts:157-192 | only absent numbers are reported if and only if no number of the series is climbed over |
| LedgerAudit.IncreasingSeriesReportsAbsentOnly | apps/worker/src/verify-ledger-integrity.service.ts:163-176 | on an increasing series the reported intervals hold only absent numbers |
| LedgerAudit.IncreasingSeriesCountsAbsences | apps/worker/src/verify-ledger-integrity.service.ts:163-176 | on an increasing series the missing counts add up to (last - first + 1) - count |
| LedgerAudit.OutOfOrderReportsPresent | apps/worker/src/verify-ledger-integrity.service.ts:163-176 | an input that violates the condition: visited as 8, 10, 9 the number 9 is reported although it exists |
| LedgerAudit.InversionsMeanUnsorted | apps/worker/src/verify-ledger-integrity.service.ts:178-190 | a timestamp inversion is reported if and only if the times compared are not in ascending order |
| LedgerAudit.CheckPosting | apps/worker/src/verify-ledger-integrity.service.ts:215-248 | one invoice is reported exactly when it is not a draft and has no posting, and when it is cancelled and has no reversal |
| LedgerAudit.CheckPostings | apps/worker/src/verify-ledger-integrity.service.ts:195-249 | the report names exactly the operational invoices without posting, and the cancelled ones without reversal |
| LedgerAudit.AccumulateTotals | apps/worker/src/verify-ledger-integrity.service.ts:265-275 | the map filled in one pass holds, for exactly the entries with lines, the direct sums of their debits and credits |
| LedgerAudit.CheckDoubleEntry | apps/worker/src/verify-ledger-integrity.service.ts:265-294 | the findings are the entries with lines whose totals differ by more than half a cent, with those totals |
| LedgerAudit.UnbalancedIsFlagged | apps/worker/src/verify-ledger-integrity.service.ts:277-294 | an id is reported if and only if it is an entry's and its lines are out by more than half a cent, and with the sums of its debits and credits |
| LedgerAudit.FlaggedMeansUnequal | apps/worker/src/verify-ledger-integrity.service.ts:280-281 | on whole cents an entry with lines is flagged exactly when debit and credit differ |
| LedgerAudit.NetsAddUp | packages/db-schema/src/gl.schema.ts:233-235 | when every line belongs to an entry, the entries' nets add up to the net of all lines |
| LedgerAudit.UnflaggedLedgerIsNearlyBalanced | apps/worker/src/verify-ledger-integrity.service.ts:277-377 | with no entry flagged the ledger is out by at most half a cent per entry |
| LedgerAudit.TrialBalanceIsExact | apps/worker/src/verify-ledger-integrity.service.ts:360-377 | for any lines the trial balance passes if and only if -0.005 <= debit - credit < 0.005 |
| LedgerAudit.ReportedDriftIsNearest | apps/worker/src/verify-ledger-integrity.service.ts:360-377 | the drift it reports is debit less credit to the nearest cent, halves up |
| LedgerAudit.TrialBalanceAloneExactly | apps/worker/src/verify-ledger-integrity.service.ts:277-377 | when every line belongs to an entry, the trial balance fails with no entry flagged if and only if no entry is out by more than half a cent and together they do not round to zero |
| LedgerAudit.SingleEntryTrialBalance | apps/worker/src/verify-ledger-integrity.service.ts:277-377 | with a single entry that is exactly the case of it being out by half a cent on the debit side |
| LedgerAudit.TrialBalanceNeverFailsAlone | apps/worker/src/verify-ledger-integrity.service.ts:360-377 | on whole cents, with no entry flagged, the trial balance is exactly zero and not reported |
| InvoiceSeries.SplitIsExact | apps/worker/src/verify-ledger-integrity.service.ts:135-137 | a number is read as a prefix and digits if and only if it consists of them, the prefix being on one line and not ending in a digit |
| InvoiceSeries.NumbersAreRead | apps/worker/src/verify-ledger-integrity.service.ts:135-161 | for every such prefix, any leading zeros and any n, the prefix followed by n is read as that prefix and that number |
| InvoiceSeries.ContinuityIsFound | apps/worker/src/verify-ledger-integrity.service.ts:131-192 | the findings on a series, read off the invoices: between one that is not historical and the next of the same prefix, a gap with the next number expected and the one met, or an inversion with both times |
| InvoiceSeries.ClimbedOverIsPassed | apps/worker/src/verify-ledger-integrity.service.ts:131-176 | a number is climbed over in the series of a prefix if and only if, in fetch order, an invoice that is not historical and has a smaller number of that prefix precedes one with a larger number, none of that number standing between |
| InvoiceSeries.UnsortedMeansTimeless | apps/worker/src/verify-ledger-integrity.service.ts:67-161 | in fetch order, the times compared in a series are out of order exactly when an invoice without creation time follows one created after 1970 |
| InvoiceSeries.InversionsAreTimeless | apps/worker/src/verify-ledger-integrity.service.ts:161-190 | and exactly then the series has an inversion |
| PostedLedger.BuildChain | apps/worker/src/verify-ledger-integrity.service.ts:302-326 | each sequenced entry is handed to the verifier with exactly its own lines, in fetch order |
| PostedLedger.CheckChain | apps/worker/src/verify-ledger-integrity.service.ts:296-340 | a violation is reported if and only if the chain does not hold, and it says where and why |
| PostedLedger.SealedHolds | apps/api/src/gl/gl.service.ts:335-381 | any sequence of postings, sealed one after the other, is a valid chain numbered from one |
| PostedLedger.SortingRecoversEntries | apps/worker/src/verify-ledger-integrity.service.ts:298-300 | filtering and sorting recovers the posting order from any fetch order |
| PostedLedger.FetchedLinesAreThePosted | apps/worker/src/verify-ledger-integrity.service.ts:303-308 | each entry gets back exactly the lines it was posted with, in some order |
| PostedLedger.PostedLedgerPasses | apps/worker/src/verify-ledger-integrity.service.ts:296-340 | a ledger only the posting routine has written passes the chain check in every fetch order, if no entry has ambiguous lines |
| PostedLedger.AmbiguousLinesRaiseFalseAlarms | apps/worker/src/verify-ledger-integrity.service.ts:296-340 | if some entry has ambiguous lines there is a fetch order of the untouched rows that is reported as tampering, or a collision |
| PostedLedger.EditedLineIsReported | apps/worker/src/verify-ledger-integrity.service.ts:296-340 | changing an amount of one stored line by a cent or more, or its account or any other text, is reported in every fetch order of the rows, or a collision is returned |
| LedgerIntegrity.NumberingIsFound | apps/worker/src/verify-ledger-integrity.service.ts:131-192 | the gaps and inversions of all series are exactly the findings between neighbouring invoices of a prefix |
| LedgerIntegrity.MissingNumbersAreReported | apps/worker/src/verify-ledger-integrity.service.ts:131-193 | within the whole report any number is missing under a prefix if and only if the invoices that are not historical and are numbered with that prefix pass it, in fetch order |
| LedgerIntegrity.InversionsNeedMissingTimes | apps/worker/src/verify-ledger-integrity.service.ts:66-190 | on invoices in fetch order the report has an inversion if and only if in some series an invoice without creation time follows one created after 1970 |
| LedgerIntegrity.TrialBalanceIsNeverAlone | apps/worker/src/verify-ledger-integrity.service.ts:277-377 | on whole cents, whenever the trial balance fails some entry is flagged, and the lemma returns it |
| LedgerIntegrity.TrialBalanceIsAloneExactly | apps/worker/src/verify-ledger-integrity.service.ts:277-377 | on any amounts it fails alone if and only if drifts of at most half a cent per entry add up to one that does not round to zero |
| LedgerIntegrity.VerifyLedgerIntegrity | apps/worker/src/verify-ledger-integrity.service.ts:131-377 | the report of all checks, read off the fetched rows: exactly the gaps and inversions between neighbouring invoices of a prefix, so as missing exactly the numbers passed over; in fetch order an inversion if and only if in some series an invoice without creation time follows one created after 1970; exactly the missing postings and reversals and the unbalanced entries; a broken chain and a failing trial balance exactly when they are; and exactly when the last stands alone, never on whole cents |
| LedgerNets.NetPermutes | apps/worker/src/verify-ledger-integrity.service.ts:269-275 | an entry's net does not depend on the fetch order of the lines |
| LedgerNets.FlaggedExactly | apps/worker/src/verify-ledger-integrity.service.ts:265-294 | in every fetch order a posted entry is flagged if and only if its lines are out by more than half a cent |
| LedgerNets.FetchedTrialBalance | apps/worker/src/verify-ledger-integrity.service.ts:360-370 | in every fetch order the trial balance is what all posted entries are out by together |
| LedgerNets.BalancedLedgerIsClean | apps/worker/src/verify-ledger-integrity.service.ts:265-377 | a ledger whose postings all balance passes both balance checks in every fetch order |
| AcceptedLedger.Validate | apps/api/src/gl/gl.service.ts:195-246 | a posting is accepted if and only if it has two lines or more, each with one positive side and one zero and no negative foreign amount, and equal sums of rounded debits and credits; a refusal names the first line at fault and the first check it fails, or the two sums |
| AcceptedLedger.AcceptedNet | apps/api/src/gl/gl.service.ts:233-246 | an accepted posting is out by exactly the fractions of a cent its rounding dropped |
| AcceptedLedger.AcceptedLedgerIsReportedExactly | apps/api/src/gl/gl.service.ts:353-369 | which accepted entries are flagged, and when the trial balance is reported, in terms of the dropped fractions, for every ledger and fetch order |
| AcceptedLedger.AcceptedCentLedgerIsClean | apps/api/src/gl/gl.service.ts:195-246 | on whole cents every ledger of accepted postings passes both balance checks in every fetch order |
| AcceptedLedger.FractionsCanFailAlone | apps/api/src/gl/gl.service.ts:233-246 | an accepted ledger with the trial balance reported alone: two entries of 1.004 against 1.00 |
| InvoicedLedger.PostingsBalance | apps/api/src/gl/gl.service.ts:353-369 | every entry posted from an invoice at a whole rate with postable taxes, or from its reversal, balances as it is stored |
| InvoicedLedger.InvoicedLedgerIsClean | apps/worker/src/verify-ledger-integrity.service.ts:265-377 | a ledger grown only from such entries, accounts and defaults being resolved anew for each, raises no unbalanced entry and no trial balance finding and, without ambiguous lines, no chain violation |
| InvoiceAccounting.CalculateSalesInvoiceFinancials | packages/shared/src/invoice-accounting.ts:58-136 | in both currencies the net of every account over the returned lines is the total, if it is the receivable account, less the net amounts of the lines whose revenue account it is and the positive taxes of those whose tax account it is, each converted and rounded on its own; the receivable line alone carries the customer, every other line takes memo and dimensions from an invoice line or the header, and all carry currency and rate |
| InvoiceAccounting.DocumentImbalanceIsUnpostedTax | packages/shared/src/invoice-accounting.ts:67-127 | in document currency the journal is out by exactly the tax that is in the header and credited nowhere |
| InvoiceAccounting.DocumentBalances | packages/shared/src/invoice-accounting.ts:58-136 | if every nonzero tax is positive and has an account, the journal balances in document currency |
| InvoiceAccounting.TaxWithoutAccountUnbalances | packages/shared/src/invoice-accounting.ts:90-105 | a tax of 1.00 without account leaves the journal out by 100 cents |
| InvoiceAccounting.BaseImbalanceIsBounded | packages/shared/src/invoice-accounting.ts:74-111 | in base currency the imbalance is the unposted tax at the rate, give or take half a cent per journal line |
| InvoiceAccounting.BaseDriftIsBounded | packages/shared/src/invoice-accounting.ts:74-111 | with postable taxes base debit and credit differ by at most m/2 cents for m credit lines |
| InvoiceAccounting.BoundIsReached | packages/shared/src/invoice-accounting.ts:74-111 | for every m an invoice of m lines at rate 0.5 is out by m/2 cents, rounded down |
| InvoiceAccounting.WholeRateNeverDrifts | packages/shared/src/invoice-accounting.ts:65-111 | at a whole rate the base imbalance is exactly the unposted tax at the rate |
| InvoiceAccounting.PenniesDrift | packages/shared/src/invoice-accounting.ts:65-111 | at any rate that is not whole some number of one-cent lines drifts, and the lemma returns it |
| InvoiceAccounting.BaseBalancesAtWholeRates | packages/shared/src/invoice-accounting.ts:65-111 | all journals at a rate with postable taxes balance in base currency if and only if the rate is a whole number |
| InvoiceAccounting.UnitRateNeverDrifts | packages/shared/src/invoice-accounting.ts:65-111 | at rate 1 the base imbalance is exactly the unposted tax |
| InvoiceAccounting.ReversalNegatesSum | packages/shared/src/invoice-accounting.ts:141-160 | the reversal's base imbalance is the negative of the journal's |
| InvoiceAccounting.ReversalNetsToZero | packages/shared/src/invoice-accounting.ts:141-160 | lines followed by their reversal net to zero on every account in both currencies, drift or not |
| InvoiceAccounting.ReversalIsAnInvolution | packages/shared/src/invoice-accounting.ts:141-160 | reversing twice gives the lines back, but for the memo, which carries both prefixes |
| Rounding.RoundHalfAway | packages/shared/src/invoice-accounting.ts:68-74 | the rounded value is a nearest integer, and a tie goes away from zero |
| Rounding.NearestIsUnique | packages/shared/src/invoice-accounting.ts:68-74 | nearest, halves away from zero, determines the rounding |
| Rounding.RoundingIsOdd | packages/shared/src/invoice-accounting.ts:68-74 | rounding an amount and its negative always agree |
| Currency.Decimals | packages/shared/src/currency.ts:34-70 | exactly IDR, JPY and KRW have no decimals; every other code, listed or not, has two |
| Currency.ConversionFailsForMissingRates | packages/shared/src/currency.ts:138-151 | conversion fails exactly for a missing, zero or non-numeric rate of a currency other than the base, the source's being named first |
| Currency.ConversionByRates | packages/shared/src/currency.ts:126-161 | the result is the amount over the source's rate times the target's, to the target's decimals, a tie going away from zero; an amount in its own currency is unchanged; the base has rate 1 and every other code the rate of the table |
| Currency.ConversionIgnoresCase | packages/shared/src/currency.ts:133-135 | codes that differ in case alone convert alike |
| Currency.ConversionIsNear | packages/shared/src/currency.ts:126-161 | for positive rates the result lies within half a unit of the target's decimals of the exact value |
| Currency.ConversionIsMonotone | packages/shared/src/currency.ts:126-161 | converting more never gives less |
| Currency.RoundTripIsNear | packages/shared/src/currency.ts:126-161 | there and back misses by at most half a target unit divided by the cross rate plus half a source unit |
| Currency.FineTargetsAreLossless | packages/shared/src/currency.ts:126-161 | an amount at its currency's decimals comes back unchanged when half a target unit is worth less than half a source unit |
| Inventory.RollUp | packages/shared/src/inventory.ts:184-194 | the map filled in place holds the summed availability of every product and location |
| Inventory.ServeLine | packages/shared/src/inventory.ts:205-228 | one line is compared with what is left for its key, which it then reduces; no other key changes |
| Inventory.CalculateInventoryGaps | packages/shared/src/inventory.ts:177-232 | the in-place loop reports, in order, the shortage of each line against what the lines before it left |
| Inventory.GapByLine | packages/shared/src/inventory.ts:184-229 | a stocked line adds nothing if it does not order more than is left under its product and location (its own, or else the header's), and otherwise one gap with what it ordered, what is left, the difference and the location; what is left is the sum of the levels less what earlier lines took, or less what they took since a line without a number left nothing |
| Inventory.OthersHaveNoGap | packages/shared/src/inventory.ts:140-203 | a line that is not stocked, or is a kit parent, adds nothing |
| Inventory.FirstComeFirstServed | packages/shared/src/inventory.ts:205-228 | a line gets the smaller of its order and the stock not yet ordered away, and is short of the rest |
| Inventory.ReportedGapsAreTheShortages | packages/shared/src/inventory.ts:215-225 | the shortages in the returned list, added up per key, are those of the lines of the key |
| Inventory.ReportedGapsAreExcessDemand | packages/shared/src/inventory.ts:196-231 | per key the shortages in the returned list sum to max(0, ordered - max(0, available)) |
| Inventory.ShortagesAreExcessDemand | packages/shared/src/inventory.ts:196-229 | the same sum taken line by line |
| Inventory.AfterAShortageNothingIsServed | packages/shared/src/inventory.ts:209-228 | after a line of a key falls short, every later line of the key is short of its whole order |
| Inventory.AtMostOneLineIsPartlyServed | packages/shared/src/inventory.ts:209-228 | two lines of a key that are both served in part are the same line |
| Inventory.ReorderingKeepsTotalShortage | packages/shared/src/inventory.ts:196-231 | the total shortage of a key in the returned list does not depend on the order of the lines |
| Inventory.SkippedLinesChangeNothing | packages/shared/src/inventory.ts:198-203 | non-stocked and kit-parent lines change neither the gaps nor the stock left |
| Inventory.KeysAreSharedExactly | packages/shared/src/inventory.ts:188 | two pairs of product and location share a key if and only if they are equal or an underscore can be read either way |
| Inventory.KeysTellProductsApart | packages/shared/src/inventory.ts:188 | a key determines product and location when product ids hold no underscore, as UUIDs do not |
| PickBarcode.BarcodeRoundTrip | packages/shared/src/inventory.ts:256-287 | parsing a formatted payload returns it if and only if its fields are non-empty and colon-free and its quantity does not end in white space |
| PickBarcode.CodeReads | packages/shared/src/inventory.ts:256-287 | the code is "PICK:" and the order, line, bin and quantity with colons between them and is read as those; without quantity it counts as one, and with two fields it is refused |
| PickBarcode.ParsingFormatted | packages/shared/src/inventory.ts:264-287 | what is read back from any formatted payload, malformed ones included |
| PickBarcode.PrefixIsOptional | packages/shared/src/inventory.ts:260-287 | for any text: with and without the prefix the same is read if and only if the raw form has neither prefix nor leading white space, or the prefixed form reads as nothing, or the raw form is prefixed and its first five parts are the same |
| QueryGit.TokenizeCommandLine | tools/query_git.ts:31-78 | the scanning loop computes the character-by-character reading |
| QueryGit.RenderedArgumentsAreRead | tools/query_git.ts:31-78 | tokenizing the backslash-escaped, space-joined rendering of non-empty arguments returns them |
| QueryGit.QuotedArgumentsAreRead | tools/query_git.ts:31-78 | arguments written in any mixture of backslashes, single quotes and double quotes, with any white space between them, are read as their texts; an argument without text, quoted or not, is lost |
| QueryGit.TokensAreNeverEmpty | tools/query_git.ts:62-75 | no token is ever empty |
| QueryGit.TokenizerImage | tools/query_git.ts:31-78 | a list is the reading of some command line if and only if none of its arguments is empty |
| QueryGit.SpaceSeparatesExactly | tools/query_git.ts:41-68 | a space separates a command line from whatever follows if and only if it ends outside quotes and escapes |
| OrderQuantities.SalesLimit | apps/ops-portal/lib/sales-order-utils.ts:38-86 | the limit of a line with a catalogue product and no type, an empty one or "inventory" is what the first picking line for it says was shipped, and that of any other line what was ordered, less the first line for it on each invoice that is not cancelled and the first refunded line for it on each processed return, never below zero |
| OrderQuantities.PickingLeavesOthersAlone | apps/ops-portal/lib/sales-order-utils.ts:63-76 | picking never changes the limit of a line that is not stocked |
| OrderQuantities.OrderingLeavesStockedAlone | apps/ops-portal/lib/sales-order-utils.ts:63-76 | the quantity ordered never changes the limit of a stocked line |
| OrderQuantities.OtherReturnsChangeNothing | apps/ops-portal/lib/sales-order-utils.ts:50-56 | a return that is not processed, or has no line resolved by refund, changes nothing in the answer |
| OrderQuantities.CountedInFull | apps/ops-portal/lib/sales-order-utils.ts:43-46 | an invoice is counted in full if and only if every line after the first for an order line is empty |
| OrderQuantities.CountedIsBilled | apps/ops-portal/lib/sales-order-utils.ts:41-47 | all that is billed is counted if and only if no invoice in force repeats the order line in earnest |
| OrderQuantities.ExcessGrowsOnlyByRefunds | apps/ops-portal/lib/sales-order-utils.ts:32-87 | over any run of shipping, invoicing within the answer, cancelling and refunding, a line's excess grows by at most what was refunded |
| OrderQuantities.LimitOrExcess | apps/ops-portal/lib/sales-order-utils.ts:78 | limit less excess is shipped or ordered less billed and refunded, and one of the two is zero |
| OrderQuantities.RefundLeavesExcess | apps/ops-portal/lib/sales-order-utils.ts:50-78 | a refund on a line within bounds leaves exactly what it takes beyond the limit as excess, none if and only if it stays within the limit |
| OrderQuantities.ShipmentsFillTheExcessFirst | apps/ops-portal/lib/sales-order-utils.ts:63-78 | an excess withholds later shipments from invoicing: only what is shipped beyond it can be invoiced |
| OrderQuantities.WithinBoundsExactly | apps/ops-portal/lib/sales-order-utils.ts:32-87 | a line within bounds stays within them at every point of a run if and only if every refund of the run stays within the answer of its moment |
| OrderQuantities.NeverBeyondBase | apps/ops-portal/lib/sales-order-utils.ts:32-87 | with refunds within the answer, or none, invoiced plus refunded never exceeds what the first picking line says was shipped (stocked) or what was ordered (other), if it did not at the start |
| OrderQuantities.CancellingGivesBack | apps/ops-portal/lib/sales-order-utils.ts:41-47 | cancelling lowers the counted and the billed quantity by exactly what the invoice counted and billed; on the purchase side by nothing |
| OrderQuantities.CancellingFreesWhatItTook | apps/ops-portal/lib/sales-order-utils.ts:41-78 | in an order within bounds cancelling raises every line's limit by exactly what the invoice took, and only once |
| OrderQuantities.BillThenCancel | apps/ops-portal/lib/sales-order-utils.ts:41-47 | invoicing and cancelling leaves the whole answer as it was |
| OrderQuantities.PurchaseLimit | apps/ops-portal/lib/purchase-order-utils.ts:54-75 | the limit is the quantity received less the first line for it on every invoice, cancelled ones too, never below zero |
| OrderQuantities.NeverCountedBeyondReceived | apps/ops-portal/lib/purchase-order-utils.ts:50-76 | over any run of receiving, invoicing within the answer and cancelling, what is counted never exceeds what was received, repeated lines or not |
| OrderQuantities.NeverBilledBeyondReceived | apps/ops-portal/lib/purchase-order-utils.ts:50-76 | nor does what is billed, on a line that no invoice in force repeats |
| OrderQuantities.RepeatedLinesAreCountedOnce | apps/ops-portal/lib/purchase-order-utils.ts:57-62 | a draft that repeats an order line n times within the answer is allowed, counted once and billed n times |
| OrderQuantities.PurchaseCancelGivesNothingBack | apps/ops-portal/lib/purchase-order-utils.ts:57-62 | cancelling a purchase invoice leaves the answer as it was |
| Accounting.ComputeRunningBalances | packages/shared/src/accounting.ts:204-244 | row i is the rounded opening balance plus the rounded movements up to it; the last row is the closing balance; the period totals are the sums of the rounded amounts |
| Accounting.StatementsContinue | packages/shared/src/accounting.ts:204-244 | processing xs ++ ys gives the rows of xs and then those of ys opened at the closing balance of xs |
| Accounting.RowsMoveByNetBalance | packages/shared/src/accounting.ts:176-183 | from row to row the balance moves by `computeAccountNetBalance` of the line |
| Accounting.NetBalanceIs | packages/shared/src/accounting.ts:176-183 | which is debit less credit, absent amounts being zero, to whole cents: exact on whole cents, within a cent otherwise |
| Accounting.ClosingIgnoresOrder | packages/shared/src/accounting.ts:204-244 | the closing balance does not depend on the order of the lines |
| Accounting.MirroredStatement | packages/shared/src/accounting.ts:204-244 | the same statement with debits and credits exchanged is the negative, ties included |
| Accounting.BalanceIsNearExact | packages/shared/src/accounting.ts:199-224 | the balance is within half a cent per rounded amount of the unrounded one |
| Accounting.CalculateAgedTotals | packages/shared/src/accounting.ts:123-161 | each bucket is the sum of that bucket over all rows, rounded; the total is the sum of the buckets as shown, within 2.5 cents of what is owed, and exactly that when all amounts are whole cents |
| Accounting.RoundedDebtByFractions | packages/shared/src/accounting.ts:138-151 | for non-negative bucket sums the total shown is what is owed, rounded, if and only if the number of buckets with half a cent or more equals the sum of all their fractions, rounded |
| Accounting.RoundedDebtIsShownExactly | packages/shared/src/accounting.ts:138-151 | for a set of buckets that may carry fractions: all non-negative sums are shown as what is owed, rounded, if and only if the set has at most one bucket |
| Accounting.RoundedDebtWithCreditsExactly | packages/shared/src/accounting.ts:138-151 | with credits allowed, if and only if the set is empty |
| Accounting.HalfCentsAreShownTwice | packages/shared/src/accounting.ts:138-151 | for every pair of buckets, half a cent in each is shown wrongly |
| Accounting.CreditsTurnTies | packages/shared/src/accounting.ts:138-151 | for every pair of buckets, half a cent in one and a credit of 1.00 in the other is shown wrongly |
| Accounting.AgedTotalsCanExceedTheDebt | packages/shared/src/accounting.ts:123-151 | from the rows on: two buckets of half a cent show 0.02 for a debt of 0.01 |

## Left out

- Numbers: JavaScript's binary floating point and decimal.js's 20 significant digits are not modelled; amounts and quantities are exact reals, cents exact integers, and `parseInt` is exact beyond 2^53.
- Amount texts: a debit or credit is modelled as the number its text denotes; text that is no number is modelled only in `Inventory` (NaN) and `Currency` (missing rate).
- Strings: lone surrogates (which JSON.stringify escapes) and `toUpperCase` outside ASCII.
- Hashing and collation: SHA-256 is any function with 64-character results, `localeCompare` any total preorder.
- Subledger parity queries (apps/worker/src/verify-ledger-integrity.service.ts:379-559) and alerting: database text and notification plumbing; the trial balance sums are taken over the fetched lines.
- LedgerAudit.CheckNumbering: the historical-import filter (creator names, take-on date) is a flag of the invoice; it reads nothing the other checks use.
- InvoicedLedger.InvoicedLedgerIsClean: account resolution, default cost centres and the texts of a posted line are an arbitrary function of the journal line, another one for each posting; only the amounts are fixed.
- AcceptedLedger.Validate: the account lookups and the period check that follow, which refuse further postings.
- PostedLedger.PostedLedgerPasses: entry dates and source ids are read back as posted; the `date` and `uuid` columns rewrite other spellings, so the result is for normalised texts.
- PostedLedger.SealedHolds: two postings reading the same latest entry concurrently; postings are taken one after the other, as the unique index on the sequence number enforces.
- OutboxRelay.NoEventIsStranded: a worker process that dies (stalled jobs), failing writes of outcomes, and rows or jobs deleted by hand.
- OutboxListener.Listener.TriggerSweep: subscriptions, the heartbeat timer and the awaits inside `start` and `stop`; they enter as triggers, starts and stops at arbitrary moments.
- EmailRelay.StepKeepsInv: a single poller is assumed and writes succeed, so the writes for one email that no read separates are one step; the retry and dismiss endpoints and the purge are not modelled.
- Webhook selection, signing, and mail contents: only whether each delivery succeeded and its message enter.
- OrderQuantities.NeverBeyondBase: `defaultQty` is only the text of the limit; shippable and pick-and-ship quantities are the same find-and-subtract pattern on other columns.
- Inventory.CalculateInventoryGaps: the key text of an absent location is "null"; JavaScript writes "undefined" when the header location is undefined, which changes no key that levels can have.
- `validateGitCommand`: an allow list that one reading settles.
- Bin number collation, quantity and currency formatting, dates, permissions, pricing, tax and unit-of-measure modules, user interface and API routes.
