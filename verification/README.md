# Verified model of the RuralPay backend core

A Dafny model of the parts of the payment backend that have the most state,
interleaving or arithmetic, with proofs of what they guarantee. `dafny verify
dfyconfig.toml` checks the whole project.

| files | what they cover |
|---|---|
| `Ledger`, `LedgerRuns`, `LedgerUndo` | the double-entry ledger service statement by statement, with a database failure possible at every statement; invariants of every run; what a reversal undoes |
| `LedgerStatements`, `LedgerConcurrency`, `LedgerLocking` | any number of concurrent transfers and reversals as a state machine over single statements with row locks held to commit or rollback, and what locking keeps |
| `LedgerConservation` | what holds of every such run without any condition: conservation, double entry, balances that agree with the log |
| `LedgerSerializability`, `LedgerAlone`, `LedgerSerialExactly` | exactly when they are serializable in commit order |
| `LedgerDeadlock`, `LedgerReverseLocks` | when they cannot deadlock, and exactly when one reversal can |
| `Rendezvous` | the request/callback rendezvous of funds transfer and name enquiry: pending maps, one-slot channels, timeouts, early, late and duplicate callbacks |
| `RateLimit`, `Ussd`, `Sums` | counters with expiring keys; one-time USSD codes over one table with two consumers and a cleanup |
| `Crc`, `Tlv`, `QrPayload` | the CRC loop as polynomial division, the tag-length-value walk of both QR parsers, the payload that is built and its checksum |
| `Padding`, `NibssCipher` | PKCS padding, CBC, ISO 9797 padding and the CBC-MAC over an arbitrary invertible block cipher |
| `Soap`, `SoapQuery` | the streaming scan for the return element on every document, and exactly when it finds what a query on the document tree finds |
| `FanOut` | the parallel balance enquiry: workers, buffered channel, collector, response |
| `Query` | paging parameters, filters compiled to placeholders, pages and the walk over them |
| `Common`, `AccountOrder` | results and options; the order of account ids |

Code that changes state step by step is a class or a method here, proved
against functions on values; the laws are lemmas about those functions, over
every input, every run or every reachable state.

## What the proofs brought out

- `Reverse` has no already-reversed guard: after n committed reversals of a
  transfer its effect is present 1 - n times. A transfer is undone exactly when
  it was reversed exactly once (`LedgerUndo.UndoneExactlyOnce`).
- `Reverse` reads its entries before it takes any lock. Concurrent operations end
  in the state of their commit order under every schedule exactly when no
  reversed id can be written by two of them (`LedgerSerialExactly.SerialExactly`):
  if two can, a reversal that reads between their commits negates only what it
  read. Transfers alone always meet the condition.
- Whatever ids they share, no schedule creates or destroys money, every id keeps
  cancelling out, and the cached balances keep agreeing with the log
  (`LedgerConservation`).
- Transfers lock in id order and cannot deadlock. `Reverse` locks in the order of
  the entries it read, the debit account first. Reversals of transfers whose
  debit account is the smaller id are still free of deadlock
  (`LedgerDeadlock.NoDeadlock`); the reversal of any accepted transfer whose debit
  account is the larger id can deadlock with another transfer between the two
  accounts (`LedgerReverseLocks.DeadlocksExactlyDescending`).
- A transfer whose resolved credit account is its debit account always fails,
  at the second version check; between different accounts that check never
  fails (`LedgerConservation.VersionCheckOnlyOnSelfTransfer`). An unknown
  destination resolves to the system account, so a transfer from the system
  account to an unknown destination is such a transfer.
- `parseTag26` compares a slice of seven characters with the six of `token=`,
  so neither QR parser ever finds a token (`Tlv.TokenNeverFound`). The parsers
  take the slice width as a parameter: seven is the code, six the repair, for
  which recovery is characterised (`QrPayload.RepairedParserRecovers`).
- `Sscanf` reads the column "-1" as minus one, and the parsers then slice
  backwards. They do so exactly when the input, well-formed so far, comes to a
  negative length column, its own or that of a field 26 (`Tlv.ParserPanics`);
  "26-1000000" is such an input (`Tlv.PanickingInput`). The outer parser does
  not visit a last element with an empty value (`Tlv.OuterSeesAll`).
- The limiter's comment speaks of a fixed window with a TTL set on first access;
  the code restarts the TTL on every hit, which is why the bound holds in every
  window (`RateLimit.RollingBound`) and a refused client that keeps calling
  stays refused (`RateLimit.RefusedUntilGap`).
- A callback whose id was registered when it looked it up can be lost exactly
  when two requests to one service share a message id
  (`Rendezvous.LostExactlyOnSharedId`).
- An admi.002 can reach two waiters exactly when one id is waited for in both
  services (`Rendezvous.OneWaiterPerCallback`). Whatever the ids, no notifier
  blocks and nothing is left pending.
- The issue limiter ignores an error of its increment. The limit holds despite
  lost increments exactly when there are none or nothing can be issued; otherwise
  each adds one to what can be issued in a window (`RateLimit.BoundExactly`).
- The USSD provider hashes with a fixed 10000 rounds and the service with a
  configured number; the two agree exactly at 10000 (`Ussd.HashesAgree`). A
  USSD payment conserves the wallets' total exactly when the beneficiary is a
  local account (`Ussd.PaymentConserves`).
- The query's documentation promises a default page size of 10; the code's is 20.
  `total` is reported as 0 on a page past the end (`Query.FetchRecent`).
- An element named body nested in Body ends the SOAP scan early
  (`SoapQuery.NestedBodyEndsScan`) or lets it take a return element one level too
  deep (`SoapQuery.NestedBodyMisread`). `SoapQuery.SameElementExactly` says on
  which documents the scan and a query of the tree come to the same element.
- The fan-out gives the sequential response exactly when accounts that share an
  id share their answer (`FanOut.ArrivalOrderIrrelevant`).

## Model

| member | source | states |
|---|---|---|
| `AccountOrder.Trichotomy` | internal/services/ledger_service.go:145-149 | of any two account ids exactly one comes first, or they are equal: the order in which the two locks are taken is defined for every pair |
| `AccountOrder.Transitive` | internal/services/ledger_service.go:145-149 | the comparison is transitive, so with the row above it is a strict total order |
| `AccountOrder.FirstDifference` | internal/services/ledger_service.go:145-149 | it is the order of the first byte in which two ids differ, a proper prefix coming first |
| `Ledger.DoubleLedgerService.AppendPaymentState` | internal/services/ledger_service.go:188-194 | adds one row to the open transaction or fails with the database |
| `Ledger.DoubleLedgerService.LockAccount` | internal/services/ledger_service.go:196-206 | reads the row as the transaction sees it; a missing row is an error |
| `Ledger.DoubleLedgerService.CreateLedgerEntry` | internal/services/ledger_service.go:208-214 | appends one ledger row to the open transaction |
| `Ledger.DoubleLedgerService.UpdateAccountBalance` | internal/services/ledger_service.go:216-237 | writes balance and version + 1 exactly when the version still matches, otherwise reports the optimistic lock and changes nothing |
| `Ledger.DoubleLedgerService.TransferTx` | internal/services/ledger_service.go:134-186 | with a healthy database succeeds exactly for two different known sides, the destination itself if it is known and else the system account; then that account has gained the amount, the debit account has lost it, both versions are one higher and nobody else has changed; equal sides fail at the version check, missing ones with no rows |
| `Ledger.DoubleLedgerService.Transfer` | internal/services/ledger_service.go:45-66 | commits exactly that, with a DEBIT and a CREDIT row that carry the new balances and PENDING and SUCCESS after them, or leaves every committed table as it was, wherever the database fails |
| `Ledger.DoubleLedgerService.ReverseEntry` | internal/services/ledger_service.go:105-124 | posts the opposite amount with the other entry type on the row as it is now |
| `Ledger.DoubleLedgerService.ReverseEntries` | internal/services/ledger_service.go:105-125 | the loop re-reads updated rows and adds, row by row, the same account, the opposite amount and the other entry type |
| `Ledger.DoubleLedgerService.Reverse` | internal/services/ledger_service.go:68-132 | commits those rows under the id with the suffix _REVERSAL and one REVERSED row, or changes nothing; no entries is an error |
| `Ledger.TransferableExactly` | internal/services/ledger_service.go:134-163 | which transfers are accepted: between two different known accounts, the second being the destination if known and else the system account |
| `LedgerRuns.AppliedTransfer` | internal/services/ledger_service.go:134-186 | what an accepted transfer does to every account, the two logs and their order, for a known and for an unknown destination |
| `LedgerRuns.AppliedReversal` | internal/services/ledger_service.go:68-132 | what an accepted reversal adds: the mirror image of the entries under its id, row by row, and one REVERSED row |
| `LedgerRuns.RunKeepsTyped` | internal/services/ledger_service.go:105-125 | over every run in which transfers move positive amounts, a row is a DEBIT exactly if its amount is negative |
| `LedgerRuns.ApplyKeepsAgreement` | internal/services/ledger_service.go:105-125 | one operation keeps balance = opening + sum of amounts, version = opening + number of entries, and each entry's balance column = its prefix sum |
| `LedgerRuns.RunKeepsAgreement` | internal/services/ledger_service.go:169-183 | the same for every run of transfers and reversals |
| `LedgerRuns.ApplyKeepsBalanced` | internal/services/ledger_service.go:118-124 | one operation keeps the amounts under every transaction id, reversal ids included, summing to zero |
| `LedgerRuns.ApplyKeepsTotal` | internal/services/ledger_service.go:135-183 | one operation keeps the total over all accounts, also when the credit lands on the system account |
| `LedgerRuns.RunConserves` | internal/services/ledger_service.go:135-183 | double entry and the constant total over every run |
| `LedgerRuns.ApplyKeepsStates` | internal/services/ledger_service.go:45-66 | one operation keeps: no FAILED row, PENDING and SUCCESS adjacent, REVERSED only after a SUCCESS of that id or a REVERSED of the id it reverses |
| `LedgerRuns.RunKeepsStates` | internal/services/ledger_service.go:127-131 | the same for every run |
| `LedgerRuns.EveryRun` | internal/services/ledger_service.go:45-186 | from any opening balances and empty logs, every run has all of these properties at once |
| `LedgerUndo.ReversalsScaleEffect` | internal/services/ledger_service.go:68-132 | whatever unrelated transfers and reversals and whatever refused operations surround them, retries under the same id included, n reversals of one transfer leave each balance 1 - n times the transfer's effect away from the run of the unrelated operations alone |
| `LedgerUndo.UndoneExactlyOnce` | internal/services/ledger_service.go:68-132 | in such a run a committed non-zero transfer is undone in every balance if and only if it was reversed exactly once |
| `LedgerUndo.ReverseUndoes` | internal/services/ledger_service.go:68-132 | a transfer and one later reversal, anywhere in any such run, leave every balance as in the run of the unrelated operations alone |
| `LedgerStatements.TransferIsPosted` | internal/services/ledger_service.go:151-183 | a session whose two locks, two inserts and two updates all succeed has read, written and inserted what the serial transfer does |
| `LedgerStatements.ReversalSucceeds` | internal/services/ledger_service.go:105-125 | the statements of a reversal succeed exactly when every account of its entries is known, and otherwise fail on a missing row, never on the version check |
| `LedgerStatements.ReversalIsNegated` | internal/services/ledger_service.go:105-125 | a session that issues lock, insert and update for each entry, repeated accounts included, does what the serial negation does |
| `LedgerStatements.VersionCheckOnSelf` | internal/services/ledger_service.go:216-237 | whichever of its statements fails the version check, the transfer has one row on both sides |
| `LedgerLocking.StepKeeps` | internal/services/ledger_service.go:68-237 | whatever the operations and their ids, one statement, commit, rollback or fault keeps: each session has done what its statements do alone, the lock table, each account's committed rows in commit order, and that the committed rows under every id cancel out |
| `LedgerConservation.ConcurrentRunsConserve` | internal/services/ledger_service.go:68-237 | no schedule of any transfers and reversals, with any ids and faults, creates or destroys money |
| `LedgerConservation.ConcurrentIdsCancel` | internal/services/ledger_service.go:68-237 | in every reachable concurrent state the committed rows under every transaction id, reversal ids included, sum to zero |
| `LedgerConservation.ConcurrentBalancesAgree` | internal/services/ledger_service.go:68-237 | in every such state the balance and version of each account are the opening ones plus the sum and the number of its committed rows |
| `LedgerConservation.ConcurrentTypesAgree` | internal/services/ledger_service.go:68-186 | the same of every committed row under every schedule |
| `LedgerConservation.VersionCheckOnlyOnSelfTransfer` | internal/services/ledger_service.go:232-234 | in any concurrent run, a session rolled back by the version check is a transfer with equal debit and resolved credit account, never a reversal, and such a transfer never commits |
| `LedgerSerializability.Reachable` | internal/services/ledger_service.go:68-237 | in every state reachable under any schedule and faults the serial run of the commits has these accounts and, account by account, these committed rows, and each running reversal negates what the serial one would negate now; provided no reversed id can be written by two operations |
| `LedgerSerializability.Serializable` | internal/services/ledger_service.go:68-237 | under that condition the committed balances, versions and per-account ledger sequences are those of running the committed transfers and reversals serially in commit order |
| `LedgerAlone.RunsAlone` | internal/services/ledger_service.go:68-186 | an accepted transfer or reversal that begins when nobody holds a lock and is left alone commits, and does what it does serially |
| `LedgerSerialExactly.SerialExactly` | internal/services/ledger_service.go:68-186 | for every list of operations: the committed balances and versions are those of the commit order under every schedule, if and only if no id that is reversed can be written by two of the operations, where an accepted transfer can write its id and a reversal can if the id it reverses can be written |
| `LedgerDeadlock.WaitingIncreases` | internal/services/ledger_service.go:145-163 | a session that is waited for and waits itself waits for a larger account id |
| `LedgerDeadlock.NoWaitCycle` | internal/services/ledger_service.go:145-163 | the waits-for relation has no cycle |
| `LedgerDeadlock.SomeoneCanStep` | internal/services/ledger_service.go:145-163 | while someone is unfinished, someone unfinished is not waiting |
| `LedgerDeadlock.RunsInOrder` | internal/services/ledger_service.go:105-163 | when no reversed id can be written twice, and each only by a transfer whose debit account is the smaller id, every running transfer and reversal takes its locks in increasing order of id |
| `LedgerDeadlock.TransfersOrdered` | internal/services/ledger_service.go:145-163 | any list of transfers alone, in any direction and with any ids, meets that condition |
| `LedgerDeadlock.NoDeadlock` | internal/services/ledger_service.go:145-163 | in every reachable state of operations that meet the condition: no cycle, progress, and a fault-free way for everyone to finish |
| `LedgerDeadlock.FairSchedulesFinish` | internal/services/ledger_service.go:134-186 | after any beginning and with any faults, every schedule of eight rounds per operation, each giving every session a turn, finishes everyone |
| `LedgerDeadlock.BoundedMoves` | internal/services/ledger_service.go:134-186 | every effective step uses up a decreasing measure |
| `LedgerDeadlock.EightStepsEach` | internal/services/ledger_service.go:134-186 | no schedule makes more than eight effective steps per operation |
| `LedgerReverseLocks.DeadlocksExactlyDescending` | internal/services/ledger_service.go:105-163 | a transfer and its reversal, among any other transfers under other ids, can come to a deadlock under some schedule if and only if the transfer is acceptable and its debit account is the larger id |
| `LedgerReverseLocks.NothingMoves` | internal/services/ledger_service.go:105-163 | from a deadlock no schedule without a fault changes anything |
| `Rendezvous.PendingTable.Register` | internal/services/funds_transfer.go:238-240 | stores a fresh, empty, one-slot channel under the message id |
| `Rendezvous.PendingTable.LoadAndDelete` | internal/services/funds_transfer.go:202-206 | atomically takes the entry out and returns its channel |
| `Rendezvous.PendingTable.Send` | internal/services/name_enquiry.go:159-163 | sends exactly when the channel is empty, which is when the source does not block |
| `Rendezvous.PendingTable.TryReceive` | internal/services/funds_transfer.go:253-258 | the receiving arm of the select takes the buffered callback |
| `Rendezvous.PendingTable.Delete` | internal/services/name_enquiry.go:185 | the deferred removal |
| `Rendezvous.StepKeeps` | internal/services/funds_transfer.go:238-262 | with distinct ids, every atomic step of a waiter or notifier keeps the protocol invariant |
| `Rendezvous.Reachable` | internal/services/name_enquiry.go:159-214 | the invariant in every interleaving of waiters with distinct keys and arbitrary notifications |
| `Rendezvous.NotifiersNeverBlock` | internal/services/funds_transfer.go:202-206 | whatever the message ids, no notifier ever blocks on its send and no two hold one channel |
| `Rendezvous.GotTheFirst` | internal/services/funds_transfer.go:253-261 | whatever the message ids, a waiter that returns a callback returns the first one looked up for its id after it registered |
| `Rendezvous.EarlyCallbackKept` | internal/services/funds_transfer.go:239-254 | with distinct ids, a callback that arrives before the wait starts is kept and ready at the select |
| `Rendezvous.NothingLeftPending` | internal/services/name_enquiry.go:185 | whatever the message ids, once all started waiters have returned the pending maps are empty |
| `Rendezvous.OneWaiterPerCallback` | internal/handlers/iso20022_callback_handler.go:275-281 | no callback that notifies each service at most once reaches two waiters, under any interleaving, if and only if no message id is waited for in both services |
| `Rendezvous.WaiterAlwaysReturns` | internal/services/name_enquiry.go:202-214 | in any interleaving with other waiters and callbacks, a waiter has returned once it was given the steps it had left, at most four, even if no step of its own finds a callback; with which outcome, the next two rows say |
| `Rendezvous.FailedSendEnds` | internal/services/funds_transfer.go:244-247 | in any interleaving a waiter leaves with the send error if and only if its second own action, the send, failed; it then never comes to the select and no callback reaches it |
| `Rendezvous.SelectDecides` | internal/services/funds_transfer.go:253-261 | a waiter ends with a timeout if and only if the timer won at its select, and with a callback if and only if it took that callback out of its channel there |
| `Rendezvous.NotificationFinishes` | internal/handlers/iso20022_callback_handler.go:275-281 | a notification looks its id up in the services of its plan, once each and in order, and is over after two turns for each, with no channel in its hands |
| `Rendezvous.LostExactlyOnSharedId` | internal/services/funds_transfer.go:238-241 | no callback that found its id registered is ever lost, under any callbacks and interleaving, if and only if no two waiters of a service share a message id |
| `RateLimit.RateLimiter.Increment` | internal/middleware/ratelimit.go:85-93 | counts the hit, restarts the key's time to live, returns the new count |
| `RateLimit.RateLimiter.Admit` | internal/middleware/ratelimit.go:47-80 | admits up to the limit, reports what remains, lets everything pass when Redis is down |
| `RateLimit.CounterIsBurstPlace` | internal/middleware/ratelimit.go:85-93 | the stored counter is the request's place in its burst of requests less than a window apart |
| `RateLimit.AdmittedIffEarly` | internal/middleware/ratelimit.go:72-80 | a request is admitted if and only if it is among the first `limit` of its burst |
| `RateLimit.RollingBound` | internal/middleware/ratelimit.go:49-93 | at most `limit` admissions in every half-open interval of the window's length |
| `RateLimit.RefusedUntilGap` | internal/middleware/ratelimit.go:49-93 | after a refusal, a request is admitted exactly when a gap of at least the window precedes it |
| `RateLimit.KeysAreIndependent` | internal/middleware/ratelimit.go:50-53 | a key's counter depends on that key's requests only |
| `RateLimit.IssueLimiter.GenerateCode` | internal/services/ussd_service.go:55-78 | issues exactly when the counter could be read, is below the limit and the row was stored; counts issued codes only, and not those whose increment failed |
| `RateLimit.IssueLimiter.CheckRateLimit` | internal/services/ussd_service.go:158-170 | refuses exactly when the unexpired count has reached the limit or could not be read |
| `RateLimit.IssueLimiter.IncrementRateLimit` | internal/services/ussd_service.go:172-178 | counts and restarts the time to live, or changes nothing when Redis fails, an error the source ignores |
| `RateLimit.IssuesAreAdmitted` | internal/services/ussd_service.go:158-178 | whatever Redis and the database refuse, check-then-increment behaves like the request limiter on the instants of the counted issues |
| `RateLimit.IssueBound` | internal/services/ussd_service.go:55-78 | in every interval of the window's length a user is issued at most `limit` codes plus one for every increment lost in it |
| `RateLimit.BoundExactly` | internal/services/ussd_service.go:55-78 | despite `lost` lost increments in a window every run issues at most `limit` codes in it, if and only if `lost` is zero or none can be issued at all; otherwise some run issues `limit + lost` |
| `RateLimit.BlockEndsAfterLastIssue` | internal/services/ussd_service.go:158-170 | refused calls do not extend the block: one window after the last counted issue a code is issued again |
| `Ussd.HashCode` | internal/services/ussd_service.go:150-156 | the loop iterates the hash the configured number of times, and once for counts below one |
| `Ussd.HashesAgree` | internal/providers/ussd_provider.go:216-222 | service and provider digests agree for every hash function and code if and only if the service is configured for 10000 rounds |
| `Ussd.CodeStore.StoreCode` | internal/services/ussd_service.go:61-73 | stores an unused row with its expiry exactly when the digest is new, the amount positive, the type PUSH or PULL and the database accepts the insert, and otherwise changes nothing |
| `Ussd.CodeStore.ValidateAndConsume` | internal/services/ussd_service.go:80-129 | which of the three refusals is given for what, and success exactly for an unused row of that type up to its expiry; then that row is marked used and nothing else changes |
| `Ussd.CodeStore.ValidatePayment` | internal/providers/ussd_provider.go:53-138 | which of the nine refusals is given for what, in order: the code is spent exactly when owner and amount match too, and the account checks that come after can still refuse |
| `Ussd.CodeStore.MoveMoney` | internal/providers/ussd_provider.go:155-203 | between different accounts a known payer loses the amount, a known payee gains it, and nothing else changes |
| `Ussd.CodeStore.CleanupExpiredCodes` | internal/services/ussd_service.go:180-186 | keeps, unchanged, exactly the rows that have not expired and were not used more than 86400 seconds ago |
| `Ussd.OneTimeCodes` | internal/services/ussd_service.go:80-129 | over every run of issue, both consumers and cleanup: a row is consumed at most once, after its issue, not past its expiry, and a digest at most as often as it was issued |
| `Ussd.UsedStaysUsed` | internal/services/ussd_service.go:108-112 | a used row never becomes unused again over any further run |
| `Ussd.UnspentStays` | internal/services/ussd_service.go:180-186 | an unused code stays as it was issued, over any run that does not spend it, until it has expired |
| `Ussd.PaidAtMostIssued` | internal/providers/ussd_provider.go:140-203 | money moved by completed payments is at most the amount of consumed codes, which is at most that of issued codes |
| `Ussd.WalletsAddUp` | internal/providers/ussd_provider.go:155-203 | over every run each wallet is its opening balance, plus what was paid to it, minus what it has paid |
| `Ussd.PaidAsValidated` | internal/providers/ussd_provider.go:53-138 | whatever was paid was validated, with the same payer, payee and amount |
| `Ussd.CodeSpentAtMostIssued` | internal/providers/ussd_provider.go:53-111 | with equal iteration counts and no colliding digest, a code is spent by both paths together at most as often as it was issued |
| `Ussd.PaymentConserves` | internal/providers/ussd_provider.go:162-175 | a payment conserves the wallets' total if and only if the beneficiary is a local account |
| `Crc.ShiftIsStep` | internal/services/qr_service.go:306-310 | one turn of the inner loop is one step of long division: the register, read as a polynomial whose highest power is the most significant bit, is multiplied by x and reduced by the generator |
| `Crc.CalculateCRC16` | internal/services/qr_service.go:301-314 | the two nested loops compute the byte-wise fold `Crc` |
| `Crc.CheckValue` | internal/services/qr_service.go:301-314 | the digits 1 to 9 have the published check value 0x29B1 of the CRC with this polynomial and preset |
| `Crc.AbsorbedFeedsBits` | internal/services/qr_service.go:303-312 | the byte loop is feeding the message bit by bit into the register |
| `Crc.LongDivision` | internal/services/qr_service.go:301-314 | after every prefix the register is the remainder of the message fed so far |
| `Crc.RemainderUnique` | internal/services/qr_service.go:301-314 | division by x^16 + x^12 + x^5 + 1 has one quotient and one remainder |
| `Crc.CrcIsRemainder` | internal/services/qr_service.go:301-314 | a word is the loop's result if and only if it is the polynomial remainder of the message preset with ones |
| `Crc.Affine` | internal/services/qr_service.go:301-314 | on inputs of one length, the CRC of an exclusive or of three is the exclusive or of the three CRCs |
| `Crc.BurstDetected` | internal/services/qr_service.go:301-314 | data altered only within sixteen consecutive bits always has another CRC |
| `Tlv.ParseTag26` | internal/services/qr_service.go:349-384 | the inner loop returns the first token among the fields of the walk, in order |
| `Tlv.ParseEMVCoQR` | internal/services/qr_service.go:316-347 | the outer loop returns the first conclusive field 26 of its walk; too short input is an error |
| `Tlv.FindMarker` | internal/services/qr_service.go:367-373 | the loop over `j` finds the first marker |
| `Tlv.WalkCovers` | internal/services/qr_service.go:321-344 | on any input the index strictly grows, stays in bounds, and the visited fields are exactly the text walked over |
| `Tlv.WalkInvertsText` | internal/services/qr_service.go:350-381 | the inner walk visits a list of fields to the end if and only if the input is the text of that well-formed list |
| `Tlv.OuterSeesAll` | internal/services/qr_service.go:321-344 | the outer walk sees all fields if and only if the last value is not empty |
| `Tlv.PanicsExactlyOnNegative` | internal/services/qr_service.go:321-364 | either walk slices backwards if and only if the input is the text of well-formed fields followed by one whose length column reads as negative |
| `Tlv.ParserPanics` | internal/services/qr_service.go:316-384 | with the source's slice width, the whole parser panics if and only if its own walk comes to such a column or a field 26 on its way does inside |
| `Tlv.PanickingInput` | internal/services/qr_service.go:325-331 | the input "26-1000000" makes it panic |
| `Tlv.RoundTrip` | internal/services/qr_service.go:275-298 | any list of two-character tags with values up to 99 characters is walked back exactly |
| `Tlv.TwoReads` | internal/services/qr_service.go:275-294 | a length is written in decimal digits that denote it, at least two, and without a leading zero beyond two |
| `Tlv.Hex4Reads` | internal/services/qr_service.go:297-298 | the checksum is written as four upper-case hexadecimal digits that denote it, the most significant first |
| `Tlv.EncodingInjective` | internal/services/qr_service.go:275-298 | such lists with the same text are equal |
| `Tlv.TokenNeverFound` | internal/services/qr_service.go:368-373 | with any slice width but six, the seven of the code included, no input yields a token |
| `Tlv.TokenExactly` | internal/services/qr_service.go:363-377 | with a slice of six, a field yields a token if and only if it is field 01, an https link with a "token=", and the token is the text after the first one, not empty |
| `Tlv.FirstTokenExactly` | internal/services/qr_service.go:350-381 | the first field that yields a token decides |
| `QrPayload.BuildIsText` | internal/services/qr_service.go:254-299 | the concatenation that is returned is the text of fields 00, 01, 26, 53, 58, 59, 60, 63 |
| `QrPayload.DefaultPayload` | internal/services/qr_service.go:254-299 | the payload with nothing configured, written out up to its checksum |
| `QrPayload.ConfiguredPayload` | internal/services/qr_service.go:254-299 | the payload with everything configured: each value in its place, behind its length |
| `QrPayload.BuildVisited` | internal/services/qr_service.go:316-347 | the outer walk visits exactly these fields if and only if every value fits its two-digit length |
| `QrPayload.InnerVisited` | internal/services/qr_service.go:275-278 | the inner walk of field 26 visits merchant id and deep link |
| `QrPayload.RepairedParserRecovers` | internal/services/qr_service.go:349-384 | with a slice of six characters the token comes back if and only if it is not empty and the link has no earlier marker |
| `QrPayload.BuildSealed` | internal/services/qr_service.go:297-298 | the last four characters are upper-case hexadecimal digits that denote the CRC of everything before them |
| `QrPayload.AlterationBreaksSeal` | internal/services/qr_service.go:297-314 | altering a sealed payload within sixteen consecutive bits breaks the seal |
| `Padding.Unpad` | internal/services/nibss_client.go:365-384 | the checking loop with its four errors and the reported position |
| `Padding.UnpadRefuses` | internal/services/nibss_client.go:365-384 | which input gives which of the four errors; a wrong byte is reported at the last place where one stands |
| `Padding.UnpadThenPad` | internal/services/nibss_client.go:359-384 | whatever unpads to `data` is the padding of `data` |
| `Padding.PadShape` | internal/services/nibss_client.go:359-363 | one byte to a whole block is added, to whole blocks, and each added byte says how many |
| `Padding.PaddingBijection` | internal/services/nibss_client.go:359-384 | for every block size, unpadding `x` gives `data` if and only if `x` is the padding of `data` and the padding length fits a byte (section 6.3 of RFC 5652) |
| `NibssCipher.CryptBlocks` | internal/services/nibss_client.go:394-398 | filling the buffer block by block gives the recursive CBC of section 6.2 of NIST SP 800-38A |
| `NibssCipher.CbcChains` | internal/services/nibss_client.go:386-401 | with the zero IV the first block is enciphered as it is, and each later one combined with the cipher block before it |
| `NibssCipher.Encrypt3DESCBC` | internal/services/nibss_client.go:386-401 | pads to whole blocks and chains them from a zero IV; a key of another length than 24 is the only error |
| `NibssCipher.Decrypt3DESCBC` | internal/services/nibss_client.go:403-427 | decrypts and unpads; a wrong key length, a partial block and a padding error are told apart, the last with the raw bytes |
| `NibssCipher.DecryptInvertsEncrypt` | internal/services/nibss_client.go:386-427 | for every invertible block cipher, key, data and ciphertext: decryption yields `data` if and only if the ciphertext is its encryption |
| `NibssCipher.Iso9797Pad` | internal/services/nibss_client.go:429-436 | the appending loop adds one marker byte and the fewest zeros to a positive multiple of 8 |
| `NibssCipher.Iso9797Injective` | internal/services/nibss_client.go:429-436 | the padding determines the data (padding method 2, section 6.3.3 of ISO/IEC 9797-1:2011) |
| `NibssCipher.LastBlockIsMac` | internal/services/nibss_client.go:446-454 | the last block of the whole CBC output is the fold that keeps one block of state |
| `NibssCipher.ComputeMAC` | internal/services/nibss_client.go:438-455 | returns the last block of that chain over the padded data, which is the fold that keeps one block |
| `NibssCipher.OneBlockMatters` | internal/services/nibss_client.go:438-455 | two padded messages that differ in exactly one block never share a MAC |
| `Soap.DecodeElement` | internal/services/nibss_nip_service.go:189-195 | decoding reads exactly up to the matching end tag |
| `Soap.ExtractSoapBodyInnerText` | internal/services/nibss_nip_service.go:169-207 | the token loop computes the recursive scan |
| `Soap.NamesByLetter` | internal/services/nibss_nip_service.go:180-186 | which element names count as body and as return, letter by letter in either case |
| `Soap.DepthIsOpenElements` | internal/services/nibss_nip_service.go:184-203 | inside Body, after any tokens that are passed over, the counter is the number of elements still open |
| `Soap.ScanDeep` | internal/services/nibss_nip_service.go:184-203 | complete deeper elements leave the scan where it was |
| `Soap.ScanIsSeen` | internal/services/nibss_nip_service.go:169-207 | on every document, nested bodies included, the token scan yields what the tree function says that looks through a nested body at the same depth and stops at its end |
| `SoapQuery.SameElementExactly` | internal/services/nibss_nip_service.go:169-207 | scan and query come to the same element, or both to none, if and only if no body nested in the first Body comes before the answer, unless there is none and nothing in it is misread |
| `SoapQuery.ScanIsQuery` | internal/services/nibss_nip_service.go:169-207 | on every such document the scan yields the first return element that is a child of a child of Body, or nothing |
| `SoapQuery.ScanIsQueryUnnested` | internal/services/nibss_nip_service.go:169-207 | in particular on every document whose first Body contains no element named body |
| `SoapQuery.NestedBodyEndsScan` | internal/services/nibss_nip_service.go:197-200 | an empty body before the answer: the scan yields nothing, the query whatever comes after it |
| `SoapQuery.NestedBodyMisread` | internal/services/nibss_nip_service.go:182-195 | a return element in a body one level down: the scan takes it although the query has no answer, since a body tag does not count towards the depth |
| `FanOut.Drain` | internal/services/account_service.go:450-454 | the map holds exactly the ids that arrived, each with the last result for it |
| `FanOut.BuildResponse` | internal/services/account_service.go:457-479 | one entry for each account with all its columns: the stored balance of a wallet, the arrived one of an external account, or that it is unavailable |
| `FanOut.StepKeepsInv` | internal/services/account_service.go:427-454 | every step of spawner, worker or collector keeps the channel and bookkeeping invariant |
| `FanOut.NoSenderBlocks` | internal/services/account_service.go:427-444 | in every reachable state the channel has room for every worker that has not sent |
| `FanOut.CollectorTakesAll` | internal/services/account_service.go:450-454 | when the collector leaves its loop no worker or result is left, and it took one result per external account |
| `FanOut.BoundedRun` | internal/services/account_service.go:427-454 | every run has at most three steps per account |
| `FanOut.CanFinish` | internal/services/account_service.go:427-454 | from every reachable state the collector can finish |
| `FanOut.ArrivalOrderIrrelevant` | internal/services/account_service.go:427-479 | every completed run gives the response of asking one account at a time if and only if external accounts with equal ids have equal answers |
| `Query.ParsePagination` | internal/services/transaction_query_service.go:38-51 | page at least 1, limit 1 to 100, defaults 1 and 20, and which input gives which value |
| `Query.BuildFilterClauses` | internal/services/transaction_query_service.go:236-262 | one numbered clause and one argument for every filter that is present and readable |
| `Query.PlaceholdersMatchArguments` | internal/services/transaction_query_service.go:264-281 | the placeholders are exactly $1 to $n, one per argument in order, LIMIT and OFFSET included |
| `Query.ConditionIsFilter` | internal/services/transaction_query_service.go:236-281 | for every filter set the compiled condition selects exactly the rows of the direct predicate |
| `Query.MatchesExactly` | internal/services/transaction_query_service.go:231-262 | the direct predicate: the owner, one of the five statuses, and both dates inclusive |
| `Query.SelectedConcat` | internal/services/transaction_query_service.go:264-281 | selecting keeps the order of the table and every repetition |
| `Query.SelectedOne` | internal/services/transaction_query_service.go:264-281 | of a single row, it is selected exactly if it matches |
| `Query.FetchRecent` | internal/services/transaction_query_service.go:264-318 | the page is the window of the selected rows, and more is reported exactly when rows remain after it |
| `Query.FetchAll` | internal/services/transaction_query_service.go:264-318 | fetching pages from 1 while more is reported collects every selected row exactly once, in order, and ends |
| `Query.WalkVisitsAll` | internal/services/transaction_query_service.go:312-318 | the pages 1 to n that such a walk visits make up the list they are cut from |

## Left out

- Integer width: amounts, balances, versions and page numbers are mathematical integers; int64 overflow is not modelled.
- Commit errors: a commit that fails after taking effect, and connection errors that leave its outcome unknown.
- Equal timestamps: both ledger logs are kept in insertion order, which stands for `created_at` order.
- Row visibility: the concurrent ledger model has row locks, uncommitted writes and rollback, but no other multi-version detail; payment states are not part of it.
- LedgerDeadlock.NoDeadlock: reversals of reversals, and ids that two operations can write and a third reverses, are outside its condition. The abort by which a database ends a deadlock is a fault in the model.
- Non-negative balances: the check in `TransferTx` is commented out in the source.
- Direct `UPDATE accounts` statements of the QR, USSD, voice, airtime and data providers: they write neither ledger rows nor versions, so the agreement invariant is about the ledger service alone.
- Delivery of pacs.002 from the handler: it notifies with another id than the waiter registered; the rendezvous theorems are about the id passed to the notification.
- Caching of name enquiries, idempotency keys, and key rotation in the HSM.
- Two limiter tiers on one key: the bounds are for one tier per key.
- RateLimit.IssueLimiter.GenerateCode: the calls of one user come one after another; an increment whose expiry alone was lost is not an outcome.
- Tlv.ParseTag26: reading of a length column by `Sscanf` is a parameter; the round trips need only that it reads two digits as their number.
- Crc.CalculateCRC16: the model works on bytes; strings are byte strings, one character each, of which the low eight bits count.
- NibssCipher.CryptBlocks: triple DES is an arbitrary family of block functions; the aliasing of Go's `append` on the caller's slice is not modelled.
- Soap.ExtractSoapBodyInnerText: XML tokenizing, trimming and unescaping of the result; a content of no tokens and no return element are both the empty text in the source.
- FanOut.BuildResponse: the bank logo and the user's limits in the response.
- Query.ConditionIsFilter: clauses are structured values and the SQL text is not parsed; upper-casing and time parsing are parameters.
- Query.FetchRecent: decrypting and parsing of the columns of a row, and the extra columns of the merchant variant, whose filters and paging are the same code.
- HTTP handlers, JSON and XML marshalling, SQL drivers, the Redis client, sockets, notifications, logging, configuration, real cryptography and the circuit breaker.
- Masking helpers, validators, expiry conversion, fixed retry backoff and the NIP response-code table: only easy members.
