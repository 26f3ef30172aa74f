# Verified model of the warehouse back end

A warehouse management back end keeps stock quants with a physical and a reserved quantity, outbound orders
whose lines reserve that stock, refresh-token sessions, cycle counts that freeze and adjust stock, third-party
billing of the stock owners, ownership links between resources and clients, and an audit trail with a hash
chain. This project models the parts of it that carry state, concurrency or arithmetic, and proves what they
keep: over every interleaving where the code takes row locks, over every serial run where it does not, and
over every input where a function is pure.

`dafny verify dfyconfig.toml` checks the whole project.

## Shape

- Operations that change rows or buffers are methods, on a class where the state is a table: `StockDatabase`,
  `BillingService`, `CycleCountService`, `OwnerScopeService`, `RateLimitStore`. Each is proved equal to a
  specification function of the old state; the properties are lemmas about that function and its runs.
- Concurrent behaviour is a transition system. `AllocationRuns` and `RefreshFamilies` take one database
  statement per step: a read of committed rows, a row lock, a re-read, a write that stays private, a commit or
  a rollback. `Next` is deterministic and every scheduling choice is in the action, so a run is a sequence of
  actions and "for every run" is a quantifier over sequences.
- Cycle-count plans, invoices and ownership links are changed without a lock on their own rows. They are
  modelled as whole transactions, and what is proved about them is a claim about serial runs.
- The modules named `...Outcomes`, `InvoiceLifecycle`, `RateLimitPolicies` and `BillingExports` say on rows, fields
  and printed text what the operations of the module they import come to: what is refused, what is written, and
  what a reader finds.
- Some loop bodies that the source writes inline are methods of their own here (`WriteSymbols`, `ReadSymbol`,
  `FillDemand`, `ChainRows`).
- Table contents, random identifiers, clocks, query answers, collation, rendering and cryptography are
  parameters. Hashes are not assumed injective: a theorem that needs it produces a collision instead.

## What turned out differently from what the code suggests

Each of these is exhibited by a lemma on concrete or arbitrary inputs, and where the expected property can hold,
a lemma says exactly when it does.

- A count's freeze names quant, location and SKU together, and the lookup only matches freezes that leave the
  other two empty, so a cycle-count freeze never blocks an allocation (`StockFreezes.BlocksExactlyWhen`).
- A session created by a login between a password change's session update and its commit survives the change,
  and nothing else does (`RefreshFamilies.LoginSurvivesPasswordChange`, `RefreshFamilies.PasswordChangeSurvivors`).
- Voiding a billing event is never final. A draft that already references it can be finalized
  (`InvoiceLedger.FinalizingBillsVoided`), and an invoice can ask for voided events by status
  (`InvoiceLedger.AskingForVoidedBillsIt`); it stays voided exactly until one of these happens
  (`InvoiceLedger.VoidedBilledExactlyBy`, `InvoiceLedger.VoidingHoldsExactlyUntilBilled`).
- Approving a count writes the counted quantity but records the difference from the quantity at release, so
  two overlapping counts break the balance (`CycleCounts.ApprovalKeepsLedgerExactlyWhen`,
  `CycleCounts.OverlapBreaksLedger`).
- The canonical form of metadata depends on insertion order exactly where the collation ties two different
  keys of one object (`AuditChain.OrderIgnoredExactlyWhenTieFree`).
- Padding is removed before white space, so a base32 secret with anything but padding after its first `=` is
  refused (`Base32.SpaceAfterPaddingFails`); what is typed decodes exactly when every character short of the
  padding at its very end is readable (`Base32.DecodesExactlyWhen`, `Base32.PaddedDecodesExactlyWhen`).
- Verification accepts only six digits as input but generates codes of the configured length, so with any
  other length nothing verifies (`Totp.OtherDigitsNeverAccepted`, `Totp.AcceptedExactlyWithinWindow`).
- A window of the rate limiter can admit `2 * max - 1` requests in an interval of its own length, and no more
  (`RateLimit.WindowBound`, `RateLimit.WindowBoundIsReached`).

## Model

| member | source | states |
|---|---|---|
| `StockAllocation.CompareTotalPreorder` | backend/src/allocation/allocation.service.ts:734-770 | for each strategy the comparator is a total preorder, and negative exactly for the row that comes first: with FIFO the one created earlier, with LIFO later, with FEFO the one that expires earlier, any expiry before none, and the one created earlier among equal or missing expiries |
| `StockAllocation.FindCandidatesCorrect` | backend/src/allocation/allocation.service.ts:341-374 | the candidates of a line are exactly the available rows of its SKU, and of the asked owner, whose quantity is above what is reserved: each once, and none after a row that the strategy puts behind it |
| `StockAllocation.FillLineDrains` | backend/src/allocation/allocation.service.ts:115-193 | filling row by row, each reload seeing the writes before it, equals one drain of the list fixed in advance, and fails only when a used row is frozen |
| `StockAllocation.AllocateLineCorrect` | backend/src/allocation/allocation.service.ts:94-206 | a line fails for stock exactly when the candidates' total is short; otherwise it reserves exactly what is required, in positive active reservations that fit each row |
| `StockAllocation.FrozenExactlyWhen` | backend/src/allocation/allocation.service.ts:490-500 | a line with stock enough is refused exactly when its drain comes to a quant that some freeze in force blocks |
| `StockAllocation.PreferredStockFirst` | backend/src/allocation/allocation.service.ts:115-193 | while a line uses a row, no matching row that comes first by creation time or expiry keeps stock, and of two used rows at least one is emptied |
| `StockAllocation.AllocateLinesReport` | backend/src/allocation/allocation.service.ts:196-205 | the report of a committed order names, per line, what was reserved before, what was allocated, and nothing remaining |
| `StockAllocation.AllocateOrderOutcome` | backend/src/allocation/allocation.service.ts:47-220 | an order is refused when unknown, when its status is one of the four closed ones, or without lines; otherwise its lines are allocated in turn, each under the asked owner and strategy on what the one before left, until one fails, and the order is marked ALLOCATED when none does |
| `StockAllocation.AllocateOrderFills` | backend/src/allocation/allocation.service.ts:94-206 | after a committed allocation picked plus active reservations is the larger of ordered and what it was before, for each line; other orders' lines keep theirs |
| `StockAllocation.AllocateOrderConserves` | backend/src/allocation/allocation.service.ts:484-524 | every quant keeps 0 <= reserved <= quantity, its quantity, and reserved grows by exactly the new reservations on it |
| `StockAllocation.SecondAllocationReservesNothing` | backend/src/allocation/allocation.service.ts:47-220 | allocating the order again, under any owner and strategy, succeeds and changes no table |
| `StockFreezes.BlocksExactlyWhen` | backend/src/inventory/stock-freeze.helpers.ts:34-61 | an active freeze covering a quant blocks it only in the listed scopes; a freeze made for a count covers its quant and blocks none |
| `AllocationService.StockDatabase.ReserveStockQuant` | backend/src/allocation/allocation.service.ts:484-524 | refuses a frozen row, then a too small one, with the quantities asked and found; otherwise raises that row's reserved quantity and nothing else |
| `AllocationService.StockDatabase.FillFrom` | backend/src/allocation/allocation.service.ts:115-193 | the candidate loop computes the specified filling, and the amount it returns is what the line's active reservations gained |
| `AllocationService.StockDatabase.AllocateOneLine` | backend/src/allocation/allocation.service.ts:94-205 | one pass of the line loop computes the specified allocation and its report entry |
| `AllocationService.StockDatabase.AllocateOrderInTransaction` | backend/src/allocation/allocation.service.ts:72-220 | refuses an order without lines, otherwise allocates every line in turn and marks the order allocated |
| `AllocationService.StockDatabase.AllocateOutboundOrder` | backend/src/allocation/allocation.service.ts:47-70 | the transaction commits the specified allocation or leaves every table as it was |
| `AllocationRuns.StepKeepsInv` | backend/src/allocation/allocation.service.ts:466-524 | every statement of every transaction keeps the invariant: stock bounds, the ledger, staged reservations covered by held row locks |
| `AllocationRuns.RunKeepsInv` | backend/src/allocation/allocation.service.ts:47-220 | so does every run, from any state that satisfies it |
| `AllocationRuns.AllRunsConserveStock` | backend/src/cycle-counts/cycle-counts.service.ts:295-312 | in every interleaving of allocations and count approvals each quant keeps 0 <= reserved <= quantity, and reserved is its initial value plus the committed reservations on it |
| `AllocationRuns.StepsRefineAtomicTransactions` | backend/src/allocation/allocation.service.ts:53-69 | a step leaves the committed tables alone unless it is a commit, which is one atomic allocation of the whole order, or an approval's write, which is one atomic approval |
| `AllocationRuns.SerialOrderIsAtomic` | backend/src/allocation/allocation.service.ts:72-220 | the serial allocation is an instance of the same atomic allocation |
| `AllocationRuns.CommitReachesTargets` | backend/src/allocation/allocation.service.ts:94-206 | whatever ran beside it, a commit leaves each line of its order at the larger of ordered and picked plus reserved before |
| `AllocationRuns.EveryCommitReachesTargets` | backend/src/allocation/allocation.service.ts:53-69 | in any run, a commit step leaves every line of its order at the larger of ordered and picked plus reserved before |
| `AllocationRuns.FilledOrderTakesNothing` | backend/src/allocation/allocation.service.ts:99-105 | an atomic allocation of an order that is already filled reserves nothing |
| `AllocationRuns.LaterCommitsReserveNothing` | backend/src/allocation/allocation.service.ts:53-69 | a filled order stays filled over every later run, and any later commit of it changes neither reservations nor quants |
| `AllocationRuns.DrainEmptiesEarlier` | backend/src/allocation/allocation.service.ts:115-193 | in a drain of a list, using a row means every row listed before it gave all it had, so all used rows but the last are emptied |
| `AllocationRuns.DrainPrefers` | backend/src/allocation/allocation.service.ts:368-374 | in a drain of a sorted list, using a row means every row that the strategy takes before it gave everything |
| `AllocationRuns.LineDrainsItsSnapshot` | backend/src/allocation/allocation.service.ts:115-193 | a line that finished among concurrent transactions has reserved exactly what it required, and drained the candidates it read in their order: a used one leaves nothing on any listed before it, tied or first by creation time or expiry |
| `AllocationOutcomes.CommitsAreProper` | backend/src/allocation/allocation.service.ts:53-193 | in every interleaving a commit is of an order with lines and an open status, and each reservation it adds is for one of the lines, on an available quant of its SKU, of the asked owner and under no blocking freeze; no allocation is tried more than three times |
| `AllocationOutcomes.AbortThenRetry` | backend/src/database/transaction-retry.helpers.ts:40-62 | an allocation that the database aborts has written nothing and holds nothing, and starts over from its order until its third attempt |
| `AllocationOutcomes.EndedStays` | backend/src/database/transaction-retry.helpers.ts:40-62 | an allocation that has committed, was refused, or failed its third attempt is never run again |
| `AllocationOutcomes.ApprovalDecides` | backend/src/cycle-counts/cycle-counts.service.ts:295-312 | a count approval that holds its quant's row writes the count, whatever runs beside it, exactly when the count is not below what is reserved, and otherwise ends with nothing written |
| `AllocationOutcomes.AloneIsSerial` | backend/src/allocation/allocation.service.ts:47-220 | an allocation whose statements run with nothing beside them commits exactly the tables of the serial allocation, and is rolled back for good with nothing written when that one fails |
| `ReservationSnapshots.AttemptOutcome` | backend/src/database/concurrency.helpers.ts:41-76 | an attempt is refused for a quantity that is not positive, then for a version that is known on both sides and differs, then for want of stock, and changes nothing; otherwise what is available falls by its quantity and the version rises by one |
| `ReservationSnapshots.AttemptsConserve` | backend/src/database/concurrency.helpers.ts:30-76 | over any attempts the quantity stays, reserved grows by the successful ones, the version counts them, and reserved never passes the quantity |
| `ReservationSnapshots.OneWinnerPerVersion` | backend/src/database/concurrency.helpers.ts:41-76 | of all attempts made against one version at most one succeeds, and none once the version has moved on |
| `ReservationSnapshots.LockedStepRefinesSnapshot` | backend/src/allocation/allocation.service.ts:484-524 | the locked reservation step succeeds exactly when the snapshot attempt does, with the same row, and otherwise rolls back |
| `TransactionRetry.WithTransactionRetry` | backend/src/database/transaction-retry.helpers.ts:26-62 | the loop gives the outcome, final state and sleeps of the specified attempts, and rejects a non-positive attempt count without running anything |
| `TransactionRetry.RetryCommitsAtMostOnce` | backend/src/database/transaction-retry.helpers.ts:40-77 | if a throwing attempt rolls back, the whole retry is its last attempt on the original state: one commit or no change, every earlier attempt retryable, every delay the capped exponential |
| `TransactionRetry.SleepsDouble` | backend/src/database/transaction-retry.helpers.ts:52-77 | the sleeps of one call begin with the base delay and double from one to the next, capped by the maximum, and there are fewer than attempts |
| `RefreshFamilies.StepKeepsInv` | backend/src/auth/auth.service.ts:184-265 | every statement keeps the chains and each transaction's hold on what it has read |
| `RefreshFamilies.RunKeepsInv` | backend/src/auth/auth.service.ts:177-318 | so does every run of logins, rotations, logouts, password changes and aborts |
| `RefreshFamilies.AllRunsKeepChains` | backend/src/auth/auth.service.ts:184-265 | in every interleaving each family is one acyclic chain through its replacements, and two ACTIVE sessions of a family are the same session |
| `RefreshFamilies.RotationExtendsChain` | backend/src/auth/auth.service.ts:233-262 | a rotation's two writes append its successor to the end of the family's chain |
| `RefreshFamilies.DeadFamilyStaysDead` | backend/src/auth/auth.service.ts:186-231 | a family without an ACTIVE session never has one again, and a compromised family stays compromised |
| `RefreshFamilies.RevocationBeatsRotation` | backend/src/auth/auth.service.ts:297-314 | once a logout, with any token of the family, commits, the family has no ACTIVE session, in either order with a rotation |
| `RefreshFamilies.ReuseCompromisesFamily` | backend/src/auth/auth.service.ts:184-231 | a refresh that begins with a token that is not ACTIVE never rotates, whatever runs beside it; while its user stays active it can only end, if the database does not abort it, with every session of the family COMPROMISED |
| `RefreshFamilies.LoginSurvivesPasswordChange` | backend/src/auth/auth.service.ts:449-463 | a run in which a login between a password change's update and its commit leaves an ACTIVE session |
| `RefreshFamilies.LockedRowsStay` | backend/src/auth/auth.service.ts:184-265 | while a transaction holds a user's row, no step of another one but a login of that user adds to or changes the user's sessions |
| `RefreshFamilies.PasswordChangeSurvivors` | backend/src/auth/auth.service.ts:449-463 | over any schedule, when a password change commits a session of the user is ACTIVE exactly when a login created it after the UPDATE and before the commit; there is none exactly when nobody logged in then |
| `RefreshOutcomes.RefreshEndsAsRead` | backend/src/auth/auth.service.ts:184-265 | in any schedule a refresh ends rotated only if the row it read under the lock was ACTIVE with an expiry after that moment, and compromises a family only if it was not |
| `RefreshOutcomes.LiveRefreshRotates` | backend/src/auth/auth.service.ts:218-265 | a refresh that holds its user's row and presents an ACTIVE token rotates it whatever runs beside it, unless it is aborted or runs after the expiry: its fourth statement commits, the token is ROTATED and names the successor, and the successor is ACTIVE with the new expiry |
| `RefreshOutcomes.RefreshRows` | backend/src/auth/auth.service.ts:218-262 | the statement that ends a refresh changes two rows for a rotation, marks exactly the rows of the family COMPROMISED for a detected reuse, and changes none otherwise |
| `RefreshOutcomes.RefreshAlone` | backend/src/auth/auth.service.ts:177-268 | a refresh with nothing beside it, exactly: refused for an unknown token or an inactive user, a rotation of an ACTIVE token before its expiry, and otherwise its whole family compromised |
| `RefreshOutcomes.RevokeRows` | backend/src/auth/auth.service.ts:296-314 | the commit of a logout or password change marks the user's ACTIVE rows of the selected families REVOKED and changes nothing else |
| `RefreshOutcomes.LogoutRevokesFamily` | backend/src/auth/auth.service.ts:304-312 | whatever runs between, a logout with a known token marks exactly the ACTIVE sessions of that token's family REVOKED when it commits, and none when the token is somebody else's |
| `RefreshOutcomes.AbortOutcome` | backend/src/auth/auth.service.ts:184-265 | an aborted transaction ends with no row changed and holds no row any more; one that has ended is left alone |
| `RefreshOutcomes.AccountChange` | backend/src/auth/auth.service.ts:196-199 | an account changes exactly when no transaction holds its row |
| `RefreshOutcomes.LockedAccountStays` | backend/src/auth/auth.service.ts:196-199 | and so stays as a refresh found it while it holds the row |
| `CrossDock.CandidatesCorrect` | backend/src/enterprise-ops/enterprise-ops.helpers.ts:207-214 | the candidates are exactly the supplies with stock left of the demand's SKU and, if it names one, its lot, each once: earliest expiry first, undated last, in input order among equals |
| `CrossDock.RankingCorrect` | backend/src/enterprise-ops/enterprise-ops.helpers.ts:200-202 | the demands served are exactly the positive ones, each once: highest priority first, an absent one counting as 0, in input order among equals |
| `CrossDock.FillCorrect` | backend/src/enterprise-ops/enterprise-ops.helpers.ts:216-231 | the inner loop moves what it records, no more than the need and the stock, and stops short only when the list is empty of stock |
| `CrossDock.ServeCorrect` | backend/src/enterprise-ops/enterprise-ops.helpers.ts:205-232 | one demand draws only on compatible supplies, and ends unserved only when they are exhausted |
| `CrossDock.MatchDemandsCorrect` | backend/src/enterprise-ops/enterprise-ops.helpers.ts:205-232 | over all demands what is drawn from each supply is its recorded decrease, and no compatible pair keeps both stock and need |
| `CrossDock.DetectFeasible` | backend/src/enterprise-ops/enterprise-ops.helpers.ts:193-235 | the reported plan respects SKU, lot, supply and demand, and leaves no supply with stock beside an unmet demand of its SKU whose lot, if it names one, is the supply's |
| `CrossDock.ExpiryRespected` | backend/src/enterprise-ops/enterprise-ops.helpers.ts:307-317 | a supply is used for a demand only when every compatible supply that expires earlier, or on the same day and is listed before it, is used up; dated stock counts as earlier than undated |
| `CrossDock.PriorityRespected` | backend/src/enterprise-ops/enterprise-ops.helpers.ts:200-232 | a demand is served from a supply only when every compatible demand of higher priority, or of the same and listed before it, is fully served |
| `CrossDock.MaximalIsHalfOptimal` | backend/src/enterprise-ops/enterprise-ops.helpers.ts:193-235 | any maximal feasible plan moves at least half of any feasible plan |
| `CrossDock.TwoApproximation` | backend/src/enterprise-ops/enterprise-ops.helpers.ts:193-235 | every feasible plan moves at most twice what the detector matches |
| `CrossDock.TwoIsTight` | backend/src/enterprise-ops/enterprise-ops.helpers.ts:193-235 | for every n, inputs where the best plan moves 2n and the detector n |
| `CrossDock.ExactWithoutLots` | backend/src/enterprise-ops/enterprise-ops.helpers.ts:205-232 | for a SKU whose demands name no lot the match is exactly the smaller of total supply and total demand |
| `CrossDock.FillDemand` | backend/src/enterprise-ops/enterprise-ops.helpers.ts:216-231 | the inner loop draws the shared stock down in place exactly as specified and records each match with its supply's and demand's own fields |
| `CrossDock.DetectCrossDockOpportunities` | backend/src/enterprise-ops/enterprise-ops.helpers.ts:193-235 | the loops report exactly the specified plan |
| `CrossDock.ReportIsSound` | backend/src/enterprise-ops/enterprise-ops.helpers.ts:220-227 | each reported opportunity names lines of one SKU, the supply's lot, which is the demand's if that names one, a positive quantity within both, and the demand's priority or 0 |
| `Base32.ShiftInByte` | backend/src/auth/mfa-totp.helpers.ts:118-119 | shifting a byte into the 32-bit accumulator appends its eight bits to the pending ones, whatever stale bits lie above |
| `Base32.TakeSymbol` | backend/src/auth/mfa-totp.helpers.ts:121-124 | five bits taken from the top of the pending ones are exactly their first five, and the rest remain pending |
| `Base32.LastSymbol` | backend/src/auth/mfa-totp.helpers.ts:127-129 | the last group is its pending bits followed by zeros |
| `Base32.ShiftInSymbol` | backend/src/auth/mfa-totp.helpers.ts:142-144 | shifting a symbol into the accumulator appends its five bits |
| `Base32.TakeByte` | backend/src/auth/mfa-totp.helpers.ts:145-148 | eight bits taken from the pending ones are exactly their first eight |
| `Base32.SymbolForIsPosition` | backend/src/auth/mfa-totp.helpers.ts:140-141 | the value found for a character is its position in the alphabet |
| `Base32.NoSymbolOutside` | backend/src/auth/mfa-totp.helpers.ts:140-141 | a character without a value is not in the alphabet |
| `Base32.AlphabetCharacters` | backend/src/auth/mfa-totp.helpers.ts:10 | the character of a value is the letter so many places after A below 26, and after that a digit from 2 on |
| `Base32.RoundTrip` | backend/src/auth/mfa-totp.helpers.ts:113-152 | decoding the encoding of any bytes gives them back (section 6 of RFC 4648) |
| `Base32.FailsExactlyWhen` | backend/src/auth/mfa-totp.helpers.ts:134-152 | decoding fails exactly when some character is outside the alphabet |
| `Base32.ReencodesExactlyWhen` | backend/src/auth/mfa-totp.helpers.ts:113-152 | a text is the encoding of its decoding exactly when its length is one an encoding can have and its spare bits are zero |
| `Base32.DecodesAsTyped` | backend/src/auth/mfa-totp.helpers.ts:134-136 | an encoding decodes to its bytes however it is spaced, in either case, with any padding at the end |
| `Base32.DecodesExactlyWhen` | backend/src/auth/mfa-totp.helpers.ts:134-152 | what is typed decodes exactly when, after the padding at its very end is removed, every character is white space or has its upper case in the alphabet |
| `Base32.PaddedDecodesExactlyWhen` | backend/src/auth/mfa-totp.helpers.ts:134-136 | a value whose other characters are readable decodes exactly when all of its padding is at the very end |
| `Base32.SpaceAfterPaddingFails` | backend/src/auth/mfa-totp.helpers.ts:134-136 | anything but padding after padding is refused, whatever comes before: one space or several, or padding in two groups |
| `Base32.ReadableExactly` | backend/src/auth/mfa-totp.helpers.ts:134-141 | what may be typed in a secret is letters in either case, the digits from 2 to 7, white space, and the few other letters that are written in capitals with these |
| `Base32.ForeignLetters` | backend/src/auth/mfa-totp.helpers.ts:135 | which capitals those letters stand for |
| `Base32.CaseDoesNotMatter` | backend/src/auth/mfa-totp.helpers.ts:135 | whatever is typed decodes alike with its capitals made small |
| `Base32.Base32Encode` | backend/src/auth/mfa-totp.helpers.ts:113-132 | the accumulator loop produces the bit-level encoding |
| `Base32.WriteSymbols` | backend/src/auth/mfa-totp.helpers.ts:121-124 | the inner loop keeps the output and the pending bits together equal to the bits read, leaving fewer than five |
| `Base32.ReadSymbol` | backend/src/auth/mfa-totp.helpers.ts:140-149 | one character's symbol is shifted in and a whole byte taken out, keeping bytes and pending bits together equal to the symbols read |
| `Base32.Base32Decode` | backend/src/auth/mfa-totp.helpers.ts:134-152 | the accumulator loop produces the bit-level decoding or the failure |
| `Totp.CodeShape` | backend/src/auth/mfa-totp.helpers.ts:100-111 | a code has the asked number of decimal digits, and at least one |
| `Totp.CodeIsLastPlaces` | backend/src/auth/mfa-totp.helpers.ts:105-110 | a six-digit code reads as the truncated word modulo a million |
| `Totp.TruncatedBytes` | backend/src/auth/mfa-totp.helpers.ts:105-109 | the truncated word is not negative and holds the digest's four bytes from the place that its last byte gives modulo 16, most significant first (section 5.3 of RFC 4226) |
| `Totp.TryOffsets` | backend/src/auth/mfa-totp.helpers.ts:50-57 | the loop tries the offsets from minus to plus the window and stops at the first acceptance or failure |
| `Totp.VerifyTotpCode` | backend/src/auth/mfa-totp.helpers.ts:41-60 | checks the shape of the code before the secret, then the window |
| `Totp.RefusedUnread` | backend/src/auth/mfa-totp.helpers.ts:42-51 | anything but six digits is turned down before the secret is read; six digits with an unusable secret, or in a window that begins before step 0, throw |
| `Totp.StepHoldsMoment` | backend/src/auth/mfa-totp.helpers.ts:48 | a moment belongs to a step exactly when it is not before that step's first millisecond and before the next one's |
| `Totp.VerifiedExactly` | backend/src/auth/mfa-totp.helpers.ts:50-60 | six digits with a usable secret are accepted exactly for the code of a step of the window that fits in 64 bits; otherwise they are turned down, or throw when the window runs past the last such step |
| `Totp.AcceptedExactlyWithinWindow` | backend/src/auth/mfa-totp.helpers.ts:41-60 | given a usable secret and time, a code is accepted exactly when codes have six digits and it is the code of a step at most `window` away |
| `Totp.OtherDigitsNeverAccepted` | backend/src/auth/mfa-totp.helpers.ts:41-60 | with any number of digits other than six no code is accepted, whatever the secret and the time |
| `Totp.ClocksMayDrift` | backend/src/auth/mfa-totp.helpers.ts:41-60 | a code shown by a clock at most `window` periods off is accepted |
| `RateLimit.ClampInteger` | backend/src/common/rate-limit.middleware.ts:306-309 | any configured number becomes an integer within its bounds: the truncation of itself when it lies between them, the nearer bound when it does not, and the fallback when it is not finite |
| `RateLimit.EveryPolicyIsUsable` | backend/src/common/rate-limit.middleware.ts:274-288 | whatever the options, the window is at least a second and every limit at least one |
| `RateLimitPolicies.RouteOfKey` | backend/src/common/rate-limit.middleware.ts:275 | the route of a key is what precedes its first colon |
| `RateLimitPolicies.LimitByRoute` | backend/src/common/rate-limit.middleware.ts:274-288 | the limit of a key is that of its route: the number configured for logins, refreshes or webhooks, otherwise the general one, capped at 20 for logins and 120 for refreshes |
| `RateLimitPolicies.DefaultLimits` | backend/src/common/rate-limit.middleware.ts:117-124 | by default, and for numbers that are not finite, a minute admits 20 logins, 120 refreshes and 600 of anything else, under keys that begin with wms: |
| `RateLimitPolicies.WindowLength` | backend/src/common/rate-limit.middleware.ts:117 | a window is what was configured in whole milliseconds, brought between a second and a day, and a minute when that is not finite |
| `RateLimitPolicies.MissingKey` | backend/src/common/rate-limit.middleware.ts:122-124 | a request without a key shares bucket and general limit with the key unknown |
| `RateLimitPolicies.StoreAfterRequest` | backend/src/common/rate-limit.middleware.ts:126-136 | a request raises its own live bucket by one or opens one for a whole window and leaves the others, unless more than 10,000 are then stored and exactly the expired ones go |
| `RateLimit.RateLimitStore.Decide` | backend/src/common/rate-limit.middleware.ts:121-139 | one request's decision and new buckets are those of the specified step |
| `RateLimit.RateLimitStore.Prune` | backend/src/common/rate-limit.middleware.ts:131-135 | deletes exactly the buckets that have expired |
| `RateLimit.PruningIsInvisible` | backend/src/common/rate-limit.middleware.ts:116-140 | with a clock that never goes back, the pruning store and one that never prunes make the same decisions |
| `RateLimit.WindowBound` | backend/src/common/rate-limit.middleware.ts:116-140 | any half-open interval one window long holds at most 2 * max - 1 allowed decisions of a key |
| `RateLimit.WindowBoundIsReached` | backend/src/common/rate-limit.middleware.ts:116-140 | for every policy and key some requests reach that bound |
| `RateLimit.DecisionMeaning` | backend/src/common/rate-limit.middleware.ts:121-139 | a decision counts the key's requests since its window opened: allowed while they are within the limit, with what is left and when it resets |
| `RateLimitPolicies.RefusedBeyondRouteLimit` | backend/src/common/rate-limit.middleware.ts:121-139 | the n-th request with a raw key since the one that opened its window is refused exactly when n exceeds what the options give its route, whatever other keys are used between |
| `RateLimit.SelectMostRestrictiveDecision` | backend/src/common/rate-limit.middleware.ts:296-304 | picks the first of the strictest decisions, so the request is allowed exactly when every decision allows it; nothing can be picked from none |
| `InvoiceLedger.NextKeepsInv` | backend/src/clients/clients.service.ts:541-560 | every operation, successful or refused, keeps the link between event statuses and invoice lines |
| `InvoiceLedger.RunKeepsInv` | backend/src/clients/clients.service.ts:790-966 | so does every serial run |
| `InvoiceLedger.InvoicedExactlyWhenBilled` | backend/src/clients/clients.service.ts:800-856 | in every run an event is INVOICED exactly when a line of a finalized invoice references it, no event is referenced twice, and a voided invoice references none |
| `InvoiceLedger.VoidingReleases` | backend/src/clients/clients.service.ts:933-952 | voiding a finalized invoice makes exactly its events billable and unreferenced |
| `InvoiceLedger.ReinvoicedOnce` | backend/src/clients/clients.service.ts:800-856 | however long after its invoice was voided, while a released event is still billable, the next invoice of its account over its time leaves it on exactly one line at its own amount: a line of that invoice, unless a draft made meanwhile already has it |
| `InvoiceLedger.RunKeepsPrices` | backend/src/clients/clients.service.ts:541-572 | no run changes anything of an event but its status, and every line bills its event's amount |
| `InvoiceLedger.VoidedBilledExactlyBy` | backend/src/clients/billing-invoice.helpers.ts:449-455 | a step turns a voided event INVOICED exactly when it finalizes a draft that references it, or creates a finalized invoice that asks for voided events of its account over its time and finds it unreferenced; any other step leaves its row as it is |
| `InvoiceLedger.VoidedUntilBilled` | backend/src/clients/clients.service.ts:541-561 | a run keeps a voided event voided in every state exactly when none of its steps bills a voided event |
| `InvoiceLedger.VoidingHoldsExactlyUntilBilled` | backend/src/clients/clients.service.ts:541-561 | the same from the moment an event is voided, for every later run |
| `InvoiceLedger.FinalizingBillsVoided` | backend/src/clients/clients.service.ts:903-914 | in any ledger, voiding an event that a draft references and finalizing the draft leaves the event INVOICED |
| `InvoiceLedger.AskingForVoidedBillsIt` | backend/src/clients/clients.service.ts:799-856 | an unreferenced event that is voided and then asked for by status is INVOICED |
| `InvoiceLedger.BillingService.CreateBillingInvoice` | backend/src/clients/clients.service.ts:790-880 | creates the specified invoice and event statuses, or refuses and changes nothing |
| `InvoiceLedger.BillingService.FinalizeBillingInvoice` | backend/src/clients/clients.service.ts:893-921 | finalizes a draft and invoices its events, or refuses and changes nothing |
| `InvoiceLedger.BillingService.VoidBillingInvoice` | backend/src/clients/clients.service.ts:923-966 | releases the invoice's events, returns an already voided one unchanged, or refuses |
| `InvoiceLedger.BillingService.VoidBillingEvent` | backend/src/clients/clients.service.ts:541-572 | voids an event that is not invoiced, or refuses and changes nothing |
| `InvoiceLifecycle.CreationOutcome` | backend/src/clients/clients.service.ts:790-856 | an invoice is refused for an empty period, when no event qualifies, and for a number its client has used; otherwise its lines reference exactly the unreferenced events of its account and time in the asked statuses, by default BILLABLE, and they become INVOICED exactly when it is created final |
| `InvoiceLifecycle.PeriodsPartition` | backend/src/clients/clients.service.ts:800-806 | an event qualifies for a period exactly when it does for one of the two parts the period is cut into, and never for both |
| `InvoiceLifecycle.FinalizingOutcome` | backend/src/clients/clients.service.ts:893-914 | only a draft can be finalized; its events become INVOICED and no other row changes |
| `InvoiceLifecycle.VoidingOutcome` | backend/src/clients/clients.service.ts:923-952 | voiding leaves the invoice VOIDED with its account, number and amounts and no references, every other invoice as it was, and just the INVOICED events of its lines BILLABLE again |
| `InvoiceLifecycle.EventVoidingOutcome` | backend/src/clients/clients.service.ts:541-561 | an INVOICED event cannot be voided; any other becomes VOIDED and nothing else changes |
| `InvoiceLifecycle.InvoiceChangedExactlyBy` | backend/src/clients/clients.service.ts:903-952 | in any state, a recorded invoice is changed only by its own finalization while it is a draft and by its own voiding |
| `InvoiceLifecycle.InvoicesOnlyAge` | backend/src/clients/clients.service.ts:790-966 | over every run an invoice goes from draft to finalized to voided and never back, and keeps its account, number and amounts |
| `InvoiceLifecycle.VoidingIsForGood` | backend/src/clients/clients.service.ts:903-931 | whatever is done after an invoice is voided, it stays as the voiding left it, cannot be finalized, and voiding it again changes nothing |
| `InvoiceMath.TaxIsNearest` | backend/src/clients/billing-invoice.helpers.ts:457-476 | a line's tax is the whole unit nearest to the exact share, the higher of two equally near; a rate counts as the nearest one in 0..10,000 basis points, a negative amount as nothing, no rate as no tax, and gross is net plus tax |
| `InvoiceMath.TaxTotalNearExact` | backend/src/clients/billing-invoice.helpers.ts:169-198 | an invoice's gross is net plus tax, and its tax is within half a unit per line of the exact tax |
| `InvoiceMath.ExactTaxAtOneRate` | backend/src/clients/billing-invoice.helpers.ts:169-198 | at one rate the exact tax is the rate times the subtotal |
| `InvoiceMath.OneRateInvoice` | backend/src/clients/billing-invoice.helpers.ts:145-198 | for n events at one rate, total = subtotal + tax and the scaled tax error is at most 5000 n |
| `InvoiceMath.InvoiceLinesComplete` | backend/src/clients/billing-invoice.helpers.ts:145-167 | the lines are a permutation of the events in order of occurrence and reference, numbered from one, and their net is the events' net |
| `InvoiceMath.InvoiceTellsOfEvents` | backend/src/clients/billing-invoice.helpers.ts:145-198 | the lines, numbered from one, tell of the events oldest first and by reference among those of one time: each its event's id, type, currency, text, quantity, amount and tax; the summary takes the first line's currency, or euros |
| `InvoiceMath.ChosenAndOmitted` | backend/src/clients/billing-invoice.helpers.ts:268-276 | what a credit note selects and what it leaves out add up to the invoice |
| `InvoiceMath.CreditWithinInvoice` | backend/src/clients/billing-invoice.helpers.ts:268-323 | a credit note fails exactly when it selects no line; its totals are at most the invoice's, equal exactly when what is left out is worth nothing |
| `InvoiceMath.CreditNoteCorrect` | backend/src/clients/billing-invoice.helpers.ts:268-309 | a credit note has one line, numbered from one, for each invoice line whose positive number is asked for, or for all when no positive number is, in order of invoice line number and repeating its fields; it fails exactly when there is none |
| `InvoiceMath.DaysAreOverlap` | backend/src/clients/billing-invoice.helpers.ts:433-447 | the chargeable days are the days the period and the ownership have in common |
| `InvoiceMath.DaysAdd` | backend/src/clients/billing-invoice.helpers.ts:433-447 | cutting a period anywhere splits its chargeable days |
| `InvoiceMath.PeriodIsWholeDays` | backend/src/clients/billing-invoice.helpers.ts:112-126 | a period begins and ends with the UTC days of its dates, and is refused for an invalid date or when the days are not in order |
| `InvoiceMath.StorageBillsOverlap` | backend/src/clients/billing-invoice.helpers.ts:376-431 | a quant is billed its units on each whole day that the period and its ownership share, at the unit price, and not at all when that is nothing |
| `InvoiceMath.SplitPeriodsBillTheSame` | backend/src/clients/billing-invoice.helpers.ts:376-447 | for any cutting of a period the parts charge each snapshot the same days, and bill each stock quant the same units and amount, as the whole |
| `InvoiceCsv.ReadsField` | backend/src/clients/billing-invoice.helpers.ts:596-598 | a reader of section 2 of RFC 4180 recovers any escaped field and stops after it |
| `InvoiceCsv.ReadsRow` | backend/src/clients/billing-invoice.helpers.ts:251 | and any row |
| `InvoiceCsv.ReadsBack` | backend/src/clients/billing-invoice.helpers.ts:200-252 | and any table, whatever the fields contain |
| `InvoiceCsv.ExportDetermines` | backend/src/clients/billing-invoice.helpers.ts:200-252 | an exported file determines its kind, its heading fields and every line's printed fields |
| `BillingExports.InvoiceColumns` | backend/src/clients/billing-invoice.helpers.ts:200-252 | a reader of an invoice's CSV finds the five named columns of the invoice and the nine of its lines, with each line's own values under them, its amount standing in for a missing net or gross |
| `BillingExports.CreditNoteColumns` | backend/src/clients/billing-invoice.helpers.ts:325-374 | the same of a credit note with its four columns |
| `Decimal.PrintInjective` | backend/src/clients/billing-invoice.helpers.ts:241-248 | different integers print differently |
| `Decimal.PadReadsBack` | backend/src/clients/billing-pdf.helpers.ts:92-94 | an offset padded with zeros is all digits and reads back as itself |
| `Decimal.DigitsFit` | backend/src/clients/billing-pdf.helpers.ts:92-94 | a number fits in k digits exactly when it is below ten to the k |
| `BillingPdf.CutAt` | backend/src/clients/billing-pdf.helpers.ts:124-125 | a long line is cut at the last space within the width, or at the width when there is none, never at its start |
| `BillingPdf.WrapCorrect` | backend/src/clients/billing-pdf.helpers.ts:114-131 | every wrapped line fits in 92 characters and no character other than a space is lost or moved |
| `BillingPdf.WrapPdfLine` | backend/src/clients/billing-pdf.helpers.ts:114-131 | the cursor loop terminates with that wrapping |
| `BillingPdf.PdfEscapeIsEscaped` | backend/src/clients/billing-pdf.helpers.ts:133-135 | the three successive replacements escape each character once |
| `BillingPdf.LiteralReadsBack` | backend/src/clients/billing-pdf.helpers.ts:133-135 | a PDF reader of literal strings recovers the text and the closing parenthesis (section 7.3.4.2 of ISO 32000-1) |
| `BillingPdf.BuildPageContent` | backend/src/clients/billing-pdf.helpers.ts:102-112 | the content loop shows the title and at most 69 further lines |
| `BillingPdf.WriteObjects` | backend/src/clients/billing-pdf.helpers.ts:83-88 | the recorded offset of each object is the length of all that was written before it |
| `BillingPdf.WriteEntries` | backend/src/clients/billing-pdf.helpers.ts:92-94 | the cross-reference entries list those offsets in order |
| `BillingPdf.WriteFile` | backend/src/clients/billing-pdf.helpers.ts:83-99 | the chunks joined are the specified file |
| `BillingPdf.BuildPdfBuffer` | backend/src/clients/billing-pdf.helpers.ts:73-100 | for any lines, the file of the five objects around their content |
| `BillingPdf.PdfIsWellFormed` | backend/src/clients/billing-pdf.helpers.ts:83-97 | for any objects under the size limit, entry i is 20 bytes and decodes to where object i starts, and startxref decodes to where the table starts (section 7.5.4 of ISO 32000-1) |
| `BillingPdf.BuildBillingPdfLines` | backend/src/clients/billing-pdf.helpers.ts:35-71 | the document's lines, at most 32 items with a notice of the rest, all wrapped |
| `BillingPdf.BuildBillingPdf` | backend/src/clients/billing-pdf.helpers.ts:28-33 | the file of a document |
| `BillingPdf.ContentSize` | backend/src/clients/billing-pdf.helpers.ts:102-112 | the content of fitting lines is below 20,000 bytes, however much is escaped |
| `BillingPdf.EveryDocumentIsWellFormed` | backend/src/clients/billing-pdf.helpers.ts:73-131 | every invoice and credit note, with no size condition, gives a file whose offsets decode to its objects and whose stream has the declared length |
| `BillingExports.AmountReadsBack` | backend/src/clients/billing-pdf.helpers.ts:146-148 | an amount is shown as units and two decimals whose digits read back as its minor units, with a minus sign exactly when it is negative |
| `BillingExports.PageShows` | backend/src/clients/billing-pdf.helpers.ts:102-112 | the page shows the first line as its title and the next sixty-nine below it, each read back as its own text, and nothing more |
| `BillingExports.HeadingSays` | backend/src/clients/billing-pdf.helpers.ts:35-60 | the heading says what the document is, its number, status, parties and currency, its source and period if it has them, and its three totals |
| `BillingExports.DocumentSays` | backend/src/clients/billing-pdf.helpers.ts:62-70 | below it stand two texts for each of the first thirty-two lines, and how many there are beyond those if any |
| `BillingExports.FileFrame` | backend/src/clients/billing-pdf.helpers.ts:73-100 | the file begins as PDF 1.4, has its table for five objects where its last lines say, and names the first as its root |
| `BillingExports.ObjectsAreNumbered` | backend/src/clients/billing-pdf.helpers.ts:75-94 | where the table's entry for a number points, a reader finds the object of that number: the catalog, the pages, the page with its font and contents, the font, the contents |
| `ResourceCodes.NormalizeGivesCode` | backend/src/clients/clients.helpers.ts:185-188 | a normalised resource type contains only capitals, digits and single inner underscores |
| `ResourceCodes.NormalizeKeepsCode` | backend/src/clients/clients.helpers.ts:185-188 | such a code is left alone |
| `ResourceCodes.NormalizeIdempotent` | backend/src/clients/clients.helpers.ts:185-188 | normalising twice changes nothing, so a stored type is found again |
| `ResourceCodes.NormalizeIsWords` | backend/src/clients/clients.helpers.ts:185-188 | a normalised type is the runs of letters and digits of what was given, in capitals and joined by underscores; there is none exactly when there are none |
| `ResourceCodes.ResourceKeyInjective` | backend/src/clients/ownership-integrity.helpers.ts:148-150 | the joined key of a normalised type and an id determines both |
| `OwnerLinks.GroupByResource` | backend/src/clients/ownership-integrity.helpers.ts:115-124 | the groups hold exactly the rows of each key, in order |
| `OwnerLinks.FindDuplicates` | backend/src/clients/ownership-integrity.helpers.ts:44-59 | a duplicate is reported exactly for the resources with two different owners |
| `OwnerLinks.FindInheritanceIssues` | backend/src/clients/ownership-integrity.helpers.ts:61-95 | an inheritance issue is reported exactly for the rows whose recorded parent is missing or has another owner |
| `OwnerLinks.EvaluateOwnershipIntegrity` | backend/src/clients/ownership-integrity.helpers.ts:39-99 | the checker reports an issue exactly when the rows justify it |
| `OwnerLinks.PlainKeepsParent` | backend/src/clients/owner-linking.helpers.ts:241-250 | metadata without inheritance keys keeps a link's recorded parent |
| `OwnerLinks.InheritedParent` | backend/src/clients/owner-scope.service.ts:235-245 | an inherited link records a parent that reads back as the source's own key |
| `OwnerLinks.EnsureKeepsInv` | backend/src/clients/owner-linking.helpers.ts:169-210 | linking without transfer keeps the invariant and every owner |
| `OwnerLinks.InheritKeepsInv` | backend/src/clients/owner-scope.service.ts:218-248 | so does inheriting |
| `OwnerLinks.RunKeepsInv` | backend/src/clients/owner-linking.helpers.ts:169-230 | so does every run of both |
| `OwnerLinks.RunsStayClean` | backend/src/clients/ownership-integrity.helpers.ts:39-99 | after every such run nothing is justified as an issue on the links of any warehouse, listed in any order, and no owner ever changed |
| `OwnerLinks.CheckOwnershipIntegrity` | backend/src/clients/clients.service.ts:611-630 | run on the links that any such run leaves in a warehouse, the checker reports no issue |
| `OwnerLinks.OwnerScopeService.EnsureOwnedResourceLink` | backend/src/clients/owner-linking.helpers.ts:169-210 | creates or refreshes the link, or refuses another owner and changes nothing |
| `OwnerLinks.OwnerScopeService.EnsureOwnedResourceLinks` | backend/src/clients/owner-linking.helpers.ts:212-230 | one link after another, stopping at the first refusal with the earlier ones kept |
| `OwnerLinks.OwnerScopeService.InheritOwnerFromResource` | backend/src/clients/owner-scope.service.ts:218-248 | links the target to the source's owner, does nothing without one, or refuses |
| `OwnerLinkOutcomes.LinkOutcome` | backend/src/clients/owner-linking.helpers.ts:169-250 | linking needs a type and an id, is refused for another client's resource unless a transfer is allowed, and otherwise leaves the one link of the resource with the client, the trimmed reference and the given metadata over what was there, and no other link changed |
| `OwnerLinkOutcomes.InheritOutcome` | backend/src/clients/owner-scope.service.ts:218-248 | inheriting does nothing without both ids or from an unlinked resource, is refused when the owner is gone, and otherwise links the target to the source's owner without a transfer, recording where it came from |
| `OwnerLinkOutcomes.CountedRows` | backend/src/clients/ownership-integrity.helpers.ts:101-113 | the checker counts the rows whose type, id and client say something, with those normalised |
| `OwnerLinkOutcomes.IssueMeaning` | backend/src/clients/ownership-integrity.helpers.ts:44-95 | what justifies each kind of issue, on the rows' own fields: two owners of one resource, a recorded parent without a row, and, where each resource has one owner, a parent that belongs to another client |
| `OwnerLinkOutcomes.ParentIsRead` | backend/src/clients/ownership-integrity.helpers.ts:126-136 | a parent is read from the two flat fields when both say something, and otherwise from the nested record |
| `CycleCounts.ReleaseKeepsInv` | backend/src/cycle-counts/cycle-counts.service.ts:76-150 | releasing a plan leaves every quant in scope with exactly one task of the plan, open and expecting the quantity that is there, and exactly one freeze, active, and keeps the invariant |
| `CycleCounts.NextKeepsInv` | backend/src/cycle-counts/cycle-counts.service.ts:201-381 | so does every other operation |
| `CycleCounts.RunKeepsInv` | backend/src/cycle-counts/cycle-counts.service.ts:76-381 | and every run |
| `CycleCounts.FreezesFollowTasks` | backend/src/cycle-counts/cycle-counts.service.ts:337-381 | in every reachable state a task's freeze is active exactly when it is not approved, and a released plan is approved exactly when all its tasks are |
| `CycleCounts.ApprovalKeepsLedgerExactlyWhen` | backend/src/cycle-counts/cycle-counts.service.ts:283-335 | an approval keeps quantity minus adjustments exactly when there is no variance or the quantity is still the expected one |
| `CycleCounts.LedgerBalances` | backend/src/cycle-counts/cycle-counts.service.ts:288-335 | for each quant that is never under two unapproved tasks, whatever happens to others, the quantity is its initial one plus the sum of its adjustments |
| `CycleCounts.OverlapBreaksLedger` | backend/src/cycle-counts/cycle-counts.service.ts:288-335 | two overlapping counts of the same difference record it twice and change the quantity once |
| `CycleCounts.CycleCountService.ReleaseCountPlan` | backend/src/cycle-counts/cycle-counts.service.ts:68-177 | the loop over the quants creates the specified tasks and freezes, or refuses and changes nothing |
| `CycleCounts.CycleCountService.SubmitCountTask` | backend/src/cycle-counts/cycle-counts.service.ts:193-266 | records the count and its variance on an open task, or refuses |
| `CycleCounts.CycleCountService.ApproveCountTask` | backend/src/cycle-counts/cycle-counts.service.ts:268-403 | adjusts the stock, releases the freeze and completes the plan, or refuses a count below what is reserved |
| `CycleCountOutcomes.ReleaseOutcome` | backend/src/cycle-counts/cycle-counts.service.ts:76-150 | only a draft with something in scope can be released: it becomes RELEASED, tasks and freezes are added to those there were, and stock is not touched |
| `CycleCountOutcomes.SubmitOutcome` | backend/src/cycle-counts/cycle-counts.service.ts:193-245 | an open task takes the count and its difference from what was expected, and its plan is COUNTING after a count that agrees and RECONCILING after one that differs |
| `CycleCountOutcomes.ApproveOutcome` | backend/src/cycle-counts/cycle-counts.service.ts:268-381 | only a submitted task can be approved, and not with a count that differs and is below what is reserved; a count that differs becomes the quantity with one movement of the difference, the task's freeze ends, and the plan and all its freezes end with its last task |
| `CycleCountOutcomes.ApproveAnyRow` | backend/src/cycle-counts/cycle-counts.service.ts:283-381 | the same of rows in any state: an unrecorded difference is worked out from the count or from 0, booking one takes a count and a quant, and the plan ends when no other task of it is open, in progress or submitted |
| `CycleCountOutcomes.PlanFollowsCounts` | backend/src/cycle-counts/cycle-counts.service.ts:68-381 | in every run a plan is DRAFT while it has no task, RELEASED while all are open, APPROVED once all are approved, and between those COUNTING or RECONCILING as the last count submitted for it agreed or differed |
| `AuditChain.NormalizeForgetsOrder` | backend/src/audit/audit.service.ts:143-156 | reordering keys at any depth does not change the canonical form of metadata without tied keys |
| `AuditChain.TiesAreConfusable` | backend/src/audit/audit.service.ts:143-156 | wherever two keys of an object tie, two arrangements of the same value have different canonical forms |
| `AuditChain.OrderIgnoredExactlyWhenTieFree` | backend/src/audit/audit.service.ts:143-156 | the canonical form ignores key order exactly when no object has two tied keys |
| `AuditChain.NormalizeArranges` | backend/src/audit/audit.service.ts:143-156 | the canonical form holds the same values under the same keys at every depth, with the named keys of each object ascending |
| `AuditChain.ChainRows` | backend/src/audit/audit.service.ts:84-93 | the loop gives each entry its row hash and the running hash |
| `AuditChain.BuildHashManifest` | backend/src/audit/audit.service.ts:77-103 | the manifest is that of the rows sorted by time and id |
| `AuditChain.ManifestCorrect` | backend/src/audit/audit.service.ts:77-103 | the entries are every row once, oldest first and by id among those of one time, each with the hash of its canonical row and of that onto the entry before or sixty-four zeros; the manifest names their number, the last hash, and the least and greatest times |
| `AuditChain.ManifestForgetsOrder` | backend/src/audit/audit.service.ts:77-103 | any permutation of entries with separate ids gives the same manifest |
| `AuditChain.ManifestForgetsArrangement` | backend/src/audit/audit.service.ts:77-156 | so does reordering the keys inside every entry's metadata, at any depth, and then permuting the entries, when ids are distinct and no keys of one object are tied |
| `AuditChain.FinalHashDeterminesRows` | backend/src/audit/audit.service.ts:84-93 | two chains with the same final hash have the same rows in the same order, or two different texts with one hash are found |
| `AuditChain.DigestDeterminesExport` | backend/src/audit/audit.service.ts:77-156 | the same for two exports, without assuming equal counts |

## Left out

- Stock tables of one warehouse only; resolving warehouse, SKU and owner references to the rows a line matches is an input.
- The allocation path for a schema without a reserved field, which splits a quant (allocation.service.ts:526-548), and pick tasks, stock movements, audit and outbox rows.
- Availability and active reservations follow backend/src/reservations/reservation-mappers.ts:99-116; a schema without a reservation status, where every reservation counts as active, is not modelled.
- Picks and releases that change a line or a reservation while an allocation runs.
- The refresh-session operations are modelled as statements of interleaved transactions on values rather than as class methods, because what is proved is about their interleavings; the removal of expired sessions, bearer tokens and the audit writes are not modelled, and a session's id stands for its unique token hash.
- Cycle-count plan and task operations, invoice operations and ownership operations running concurrently: the code takes no lock on those rows, and only serial runs are covered.
- Cycle-count tasks and freezes with a status the code never writes, tasks that name no quant, and the query that selects the quants of a plan, whose answer is an input.
- Billing event creation and generation, which overwrite status by design, credit-note persistence, and the allocation of invoice numbers.
- The selection of events for an invoice and the selection of audit rows are inputs constrained to be correct answers of the query.
- Rounding beyond 2^53: tax, timestamps, amounts and quantities are exact integers, and a non-integer maximum number of attempts is not modelled.
- Calendar years 0 to 99, which the JavaScript date constructor moves to 1900 to 1999.
- Trimming of descriptions on invoice lines; printed dates are inputs to the CSV and PDF exports.
- Text is a sequence of code points, not of UTF-16 units; upper-casing of a base32 secret is modelled exactly for what can reach the alphabet.
- `localeCompare`, NFKD normalisation, JSON rendering, SHA-256 and HMAC are parameters; NFKD is assumed to leave ASCII text unchanged, and a digest to contain no colon.
- A non-integer TOTP window, secret encryption, and the rest of multi-factor enrolment.
- `PostgresRateLimitStore`, which mixes two clocks, and the middleware's headers, responses and key construction.
- Mirrored owner columns, `resolveSingleOwnerFromResources`, `resolveOperationalOwner`, explicit owner references, and the sort order and messages of ownership issues.
- `OwnerLinks.RunsStayClean`: runs without owner transfer and without inheritance keys in caller metadata, since a transfer of a parent leaves its children behind by design.
- Kit demand, yard, automation, webhook and analytics helpers, controllers and the front end.
