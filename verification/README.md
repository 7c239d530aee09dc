# HubAssist: models and proofs

This project models the algorithms and state machines of HubAssist, a coworking platform with a
NestJS backend and Soroban contracts, and proves what they are for. Every module stands for one
component; `Common.dfy` holds the shared types, intervals instant by instant, a few laws of floor division, and a
token ledger.

| module | component |
|---|---|
| ConflictDetection | the event sweep behind booking conflicts, and the coarse capacity count |
| BookingsService | booking admission over a table: create, series, confirm, cancel, update |
| PaymentEscrow | the escrow contract: payouts, disputes, votes, expiry |
| Rewards, Staking | reward formulas, stakes, and the maturing withdrawal queue |
| JsInt32, Base32 | the TOTP secret codec over 32-bit JavaScript arithmetic, and HOTP truncation |
| Pricing | hourly slicing, rule lookup, and the rule-set invariant |
| TrendLine | the least-squares line, over the reals |
| AccessControl | roles, multi-signature proposals, two-step admin transfer |
| MembershipIndex | membership tokens and the expiry buckets |
| OtpWindow | the sliding-window resend limit over an expiring cache |
| WorkspaceBooking | on-chain bookings and their id lists |
| Pagination | keyset pagination of attendance records |
| AttendanceChain | the attendance hash chain and session pairing |

Each contract or service has one function per call (`DoX`, or `Next` for bookings) from state to new
state or error, a `Run` over sequences of calls, and theorems about every run. A class with the
source's fields and loops is proved equal to those functions call by call: a failed call, which the
host rolls back, leaves the state unchanged. The caller of a call is the one whose authorisation the
host checked. Beside the theorems about runs, a lemma `XDoes` says of each call exactly when it succeeds
and what it changes, in instants, balances, roles and dates rather than through the call's own guards. Times, ids, hashes and tokens are numbers.

## Where the code does less than it promises

These are properties the code's own comments or tests suggest, which fail on the inputs named. Each
has an exact condition and a witness: a run from a new contract or an empty table, or a concrete input.

- A booking series checks its instances only against the old table (`SeriesSafeIffDisjoint`,
  `SeriesOverfillsFromEmpty`), and `update` writes a status without a check (`UpdateSafeIffGuard`,
  `RevivalOverfillsFromEmpty`).
- Reactivating a price rule, or moving it to another workspace, skips the overlap check
  (`UpdateSafeIffRechecked`, `Reactivate`).
- Attendance timestamps are stored with microseconds (`TIMESTAMP DEFAULT now()` in
  `backend/src/migrations/1748358278000-InitialSchema.ts`, line 118) but the page cursor carries
  milliseconds, so records can be skipped at a page boundary (`PagesAreCompleteIff`,
  `RecordIsSkipped`).
- `confirm_booking` revives a cancelled booking whose slot was given away (`ConfirmSafeIff`,
  `DoubleBookingIsReachable`); `batch_confirm` can also revive two bookings that meet each other
  (`BatchConfirmSafeIff`, `BatchDoubleBookingIsReachable`).
- `verify_chain` from a position other than 0 rejects good histories (`ReachableVerifiesLaterIff`,
  `GoodHistoryRejectedLater`).
- Batch-issued membership tokens are missing from the expiry index until renewed
  (`ExpiringIsCompleteIff`, `BatchTokenIsMissed`).
- A nomination for Admin outlives the Admin who made it (`NominatorInOfficeIff`,
  `StaleNominationSucceeds`).
- An even arbitrator panel can vote in full and leave a dispute undecided (`FullVoteDecidesIffOdd`,
  `EvenPanelCanStayUndecided`); `expire_dispute` still settles such an escrow (`OpenEscrowSettles`),
  and so can its depositor or the admin through `refund`.
- `unstake` pays for the whole time since staking and ignores what was claimed in between
  (`LifetimeWithinIff`, `YearPaidTwice`). Claims apart, payments stay within that formula exactly in
  tiers with a multiplier of at least one, or no rate: `partial_unstake` pays the rate without the multiplier
  (`LifetimeBounded`, `UnclaimedWithinIff`, `HalfOverpaid`).
- Staking rewards come out of the balance that holds the principals, which covers what is owed only
  while rewards stay within other funds (`CoveredIff`, `PrincipalOutOfReach`).
- The staking token can be stored by no entry point, only by the test set-up
  (`contracts/manage_hub/src/test.rs`, line 41); until it is stored nobody can stake
  (`NoTokenNoStakes`). The other staking results hold from the moment it is.
- The dispute window runs to `release_time + dispute_window`, but from `release_time` on anyone's
  `try_auto_release` closes it (`DisputeSurvivesIff`, `WindowIsCutShort`).

One input is left out of the escrow runs (`Permitted`), an escrow whose depositor is the contract, and
one out of the staking cover results (`Accounted`), a staker who is the contract. The `require_auth` of
either would need the contract to call itself, and the Soroban host does not let a contract be
re-entered, so they cannot occur. `SelfDepositSolventIffSurplus` says what the first would do to
solvency, which is why the exclusion matters.

Where the repository's tests are stale the code is followed: `contracts/membership_token/src/test.rs`
line 84 expects Expired inside the 30-day grace period, and `contracts/payment_escrow/src/test.rs`
lines 255-263 expect a depositor refund to fail, which the code allows.

## Model

| member | source | states |
|---|---|---|
| ConflictDetection.PeakBoundsEveryInstant | backend/src/bookings/conflict-detection.service.ts:94-105 | In an ordered event list the maximum the sweep keeps is at least the number of open intervals at every instant. |
| ConflictDetection.PeakIsReached | backend/src/bookings/conflict-detection.service.ts:94-105 | That maximum is attained at the time of some start event, so the sweep never over-counts; the end-before-start tie rule is what this needs. |
| ConflictDetection.EventsCount | backend/src/bookings/conflict-detection.service.ts:70-84 | Clipping bookings to the request and turning them into start/end events loses nothing: inside the request the events count the request itself and every overlapping booking. |
| ConflictDetection.QueryCount | backend/src/bookings/conflict-detection.service.ts:54-63 | Counting coverage over the queried overlapping rows equals counting it over the whole table, and the row count bounds it from above. |
| ConflictDetection.SortCounts | backend/src/bookings/conflict-detection.service.ts:88-92 | Sorting events leaves the count at every instant unchanged. |
| ConflictDetection.SweepIsPointwise | backend/src/bookings/conflict-detection.service.ts:70-105 | The sorted sweep computes exactly one more than the largest number of active bookings over any instant of the request: an upper bound at every instant, reached at one. |
| ConflictDetection.SweepDecides | backend/src/bookings/conflict-detection.service.ts:94-110 | Comparing the peak with the capacity decides whether some instant is already full. |
| ConflictDetection.ConflictIffFullInstant | backend/src/bookings/conflict-detection.service.ts:65-110 | With at least one seat a request is refused (some overlapping row, and a peak above capacity) exactly when some instant of it is already full: the shortcut for no overlapping rows changes nothing. |
| ConflictDetection.NoSeatsShortcut | backend/src/bookings/conflict-detection.service.ts:65-110 | Below one seat every instant is full, yet a request is refused exactly when some row overlaps it: the shortcut lets a first booking in. |
| ConflictDetection.MaxConcurrent | backend/src/bookings/conflict-detection.service.ts:94-105 | The counting loop returns the peak of the event list. |
| ConflictDetection.BuildEvents | backend/src/bookings/conflict-detection.service.ts:70-84 | The loop builds the request pair followed by each clipped overlapping booking. |
| ConflictDetection.FindMaintenance | backend/src/bookings/conflict-detection.service.ts:36-51 | Returns a blocking maintenance window if there is one, and none only if none blocks; for windows that last, one is found exactly when some instant of the request is under maintenance in the workspace. |
| ConflictDetection.HasConflict | backend/src/bookings/conflict-detection.service.ts:19-127 | Errors exactly on an unknown workspace; answers maintenance exactly when some instant of the request lies in a window of the workspace; otherwise, with at least one seat, a conflict exactly when at some instant as many rows as seats hold one; the reported row holds a seat at some instant of the request and the reported availability is 0. |
| ConflictDetection.AvailableImpliesNoConflict | backend/src/bookings/capacity-check.service.ts:35-52 | What the coarse count calls available (for a range or an hourly slot containing the request) the sweep admits, with that many seats to spare at every instant. |
| ConflictDetection.AvailableIsNotExact | backend/src/bookings/capacity-check.service.ts:35-52 | The coarse count is only a bound: a concrete table has availability 0 and no conflict. |
| ConflictDetection.HasCapacity | backend/src/bookings/capacity-check.service.ts:19-53 | Returns capacity less the overlapping rows, never negative, and the capacity. |
| ConflictDetection.GetHourlyAvailability | backend/src/bookings/capacity-check.service.ts:59-107 | 24 slots aligned to the UTC day, each with the coarse availability of its own hour. |
| ConflictDetection.BlocksIffSharesInstant | backend/src/bookings/conflict-detection.service.ts:36-39 | A maintenance window blocks a request exactly when it is of the workspace and the two share an instant. |
| ConflictDetection.HitsIffSharesInstant | backend/src/bookings/conflict-detection.service.ts:54-63 | A row is found by the query exactly when it is of the workspace, Pending or Confirmed, and shares an instant with the request. |
| ConflictDetection.CoveredCountsSeats | backend/src/bookings/conflict-detection.service.ts:54-63 | The count at an instant is the number of distinct Pending or Confirmed rows of the workspace that contain it. |
| ConflictDetection.OverlappingCountsSeats | backend/src/bookings/conflict-detection.service.ts:54-63 | The query finds each row that holds a seat at some instant of the request once, and no other. |
| ConflictDetection.AvailableIs | backend/src/bookings/capacity-check.service.ts:35-52 | Availability is the capacity less the number of rows that hold a seat at some instant, floored at zero. |
| ConflictDetection.SlotsTileTheDay | backend/src/bookings/capacity-check.service.ts:59-107 | The 24 hours start at UTC midnight of the day of the date, which they cover. |
| BookingsService.StepSafe | backend/src/bookings/bookings.service.ts:44-405 | Every disciplined create, series create, confirm, cancel, series cancel or update keeps every workspace within capacity at every instant. |
| BookingsService.RunSafe | backend/src/bookings/bookings.service.ts:44-405 | So does every disciplined run, from any safe table. |
| BookingsService.CapacityNeverExceeded | backend/src/bookings/bookings.service.ts:44-405 | From the empty table, with at least one seat, the Pending and Confirmed bookings covering any instant never exceed capacity, although series instances are checked only against the table before the series. |
| BookingsService.SeatsAreNeeded | backend/src/bookings/bookings.service.ts:118-130 | With less than one seat the first booking already breaks the bound. |
| BookingsService.SeriesSafeIffDisjoint | backend/src/bookings/bookings.service.ts:63-109 | For every environment: checking series instances only against the old table is safe for every safe table exactly when the instances are pairwise disjoint, or the series is refused whatever the table (bad request, or an instance under maintenance). |
| BookingsService.SeriesOverfillsFromEmpty | backend/src/bookings/bookings.service.ts:63-109 | The unsafe case is reached from the empty table of a one-seat workspace: two overlapping instances are both let in. |
| BookingsService.UpdateSafeIffGuard | backend/src/bookings/bookings.service.ts:352-405 | `update` checks conflicts only when times are given: for every table it is safe exactly when it reschedules, or the row was active, or it stays inactive. |
| BookingsService.RevivalOverfillsFromEmpty | backend/src/bookings/bookings.service.ts:352-405 | Its unsafe case is reached too: book, cancel, book the slot again, then set the cancelled booking back to Confirmed. |
| BookingsService.Service.CreateBooking | backend/src/bookings/bookings.service.ts:44-131 | Inserts a Pending row exactly when the request is accepted, else leaves the table alone; which error is which. |
| BookingsService.Service.CreateRecurring | backend/src/bookings/bookings.service.ts:63-109 | Inserts all instances or none, after checking each against the table. |
| BookingsService.Service.ConfirmBooking | backend/src/bookings/bookings.service.ts:234-279 | Confirms exactly a Pending row whose payment, if any, verified. |
| BookingsService.Service.CancelBooking | backend/src/bookings/bookings.service.ts:284-311 | Cancels exactly a row of the caller. |
| BookingsService.Service.SeriesOwner | backend/src/bookings/bookings.service.ts:314-325 | The owner checked is that of the first row of the series. |
| BookingsService.Service.CancelBookingSeries | backend/src/bookings/bookings.service.ts:314-349 | Cancels exactly the future, not yet cancelled instances; cancelled and preserved add up to the series. |
| BookingsService.Service.UpdateBooking | backend/src/bookings/bookings.service.ts:352-405 | Merges the changes exactly when the re-check, if it ran, admits them. |
| BookingsService.AdmitsIffFree | backend/src/bookings/bookings.service.ts:63-130 | A slot is admitted exactly when no instant of it is under maintenance and either no row holds a seat during it or a seat is left at each instant. |
| BookingsService.CreateDoes | backend/src/bookings/bookings.service.ts:44-131 | A Pending row is appended exactly for a slot in order that is free in this sense. |
| BookingsService.CreateSeriesDoes | backend/src/bookings/bookings.service.ts:63-109 | A series of 1 to 52 instances is appended whole, exactly if each instance is free in the table before it. |
| BookingsService.ConfirmDoes | backend/src/bookings/bookings.service.ts:234-279 | Pending becomes Confirmed exactly without a payment reference or with a verified one. |
| BookingsService.CancelDoes | backend/src/bookings/bookings.service.ts:284-311 | Exactly the owner cancels a row. |
| BookingsService.CancelSeriesDoes | backend/src/bookings/bookings.service.ts:314-349 | The owner of the first row cancels exactly the rows of the series that start after now. |
| BookingsService.SeriesCounts | backend/src/bookings/bookings.service.ts:314-349 | The two counts answered are the number of rows of the series and of those that are future and not yet cancelled. |
| BookingsService.UpdateDoes | backend/src/bookings/bookings.service.ts:352-405 | An update writes exactly the fields it names; new times must be in order and free but for the row itself. |
| BookingsService.RunKeepsClear | backend/src/bookings/bookings.service.ts:44-405 | In every run every row lasts some time and shares no instant with a maintenance window of its workspace. |
| BookingsService.EveryRunFits | backend/src/bookings/bookings.service.ts:44-405 | From the empty table: no row and window of a workspace share an instant, and, disciplined and with a seat, the distinct rows holding one at an instant never pass the capacity. |
| PaymentEscrow.PayOutKeepsInv | contracts/payment_escrow/src/lib.rs:140-200 | In a consistent state a payout always has the funds, and keeps records, payout log and solvency consistent. |
| PaymentEscrow.CreateKeeps | contracts/payment_escrow/src/lib.rs:81-138 | Opening an escrow keeps the contract solvent (the depositor is not the contract). |
| PaymentEscrow.ReleaseKeeps | contracts/payment_escrow/src/lib.rs:140-173 | Release keeps the invariant and changes records only legally. |
| PaymentEscrow.RefundKeeps | contracts/payment_escrow/src/lib.rs:175-200 | Refund does. |
| PaymentEscrow.DisputeKeeps | contracts/payment_escrow/src/lib.rs:202-228 | Dispute does. |
| PaymentEscrow.VoteKeeps | contracts/payment_escrow/src/lib.rs:259-338 | A vote does, whether or not it settles the escrow. |
| PaymentEscrow.ExpireKeeps | contracts/payment_escrow/src/lib.rs:340-368 | Expiry does. |
| PaymentEscrow.AutoReleaseKeeps | contracts/payment_escrow/src/lib.rs:370-399 | Auto-release does. |
| PaymentEscrow.RunKeepsInv | contracts/payment_escrow/src/lib.rs:38-399 | Every permitted run keeps sound records, an exact payout log and solvency. |
| PaymentEscrow.EveryRunSolvent | contracts/payment_escrow/src/lib.rs:81-399 | From deployment on, for every token the contract holds at least the sum of its Active and Disputed escrows. |
| PaymentEscrow.PaidAtMostOnce | contracts/payment_escrow/src/lib.rs:140-399 | Every payout is its escrow's exact amount and token, to the beneficiary of a Released and the depositor of a Refunded escrow, and no escrow is paid twice. |
| PaymentEscrow.ClosedIsPaid | contracts/payment_escrow/src/lib.rs:140-399 | Conversely every Released escrow has been paid to its beneficiary and every Refunded one to its depositor. |
| PaymentEscrow.RunKeepsIndexes | contracts/payment_escrow/src/lib.rs:443-449 | The depositor and beneficiary lists are exactly that party's escrow ids, in creation order. |
| PaymentEscrow.SettledIsFinal | contracts/payment_escrow/src/lib.rs:140-399 | A settled escrow never changes again, and no call changes any terms. |
| PaymentEscrow.SelfDepositSolventIffSurplus | contracts/payment_escrow/src/lib.rs:81-138 | A self-deposit keeps the contract solvent exactly when its surplus covers the amount. |
| PaymentEscrow.OpenEscrowSettles | contracts/payment_escrow/src/lib.rs:340-399 | One permissionless call settles an open escrow exactly from its release time (Active) or timeout (Disputed, unpaused, within the 64-bit clock) on. |
| PaymentEscrow.DisputeSurvivesIff | contracts/payment_escrow/src/lib.rs:202-399 | Inside the window of an active escrow: the depositor's dispute succeeds now, and after every run of calls by others (no change of settings, no refund or dispute of this escrow) exactly before release_time. |
| PaymentEscrow.WindowIsCutShort | contracts/payment_escrow/src/lib.rs:202-399 | From deployment: at the middle of the window a dispute would succeed, and fails after a bystander's try_auto_release. |
| PaymentEscrow.RunKeepsVotes | contracts/payment_escrow/src/lib.rs:259-338 | While the panel is fixed, voters stay members and an undecided dispute has both tallies at most half the panel. |
| PaymentEscrow.NoTwoMajorities | contracts/payment_escrow/src/lib.rs:302-331 | Recorded voters are distinct members, so both sides never hold a majority (pigeonhole). |
| PaymentEscrow.OddPanelDecides | contracts/payment_escrow/src/lib.rs:259-338 | An odd duplicate-free panel that has fully voted on a record has settled it. |
| PaymentEscrow.OddPanelRunDecides | contracts/payment_escrow/src/lib.rs:259-338 | Over every permitted run under an odd duplicate-free panel: once every member has voted on an escrow, it is settled. |
| PaymentEscrow.EvenPanelCanStayUndecided | contracts/payment_escrow/src/lib.rs:38-338 | For every even duplicate-free panel a run from deployment (initialize, set panel, create, dispute, all votes) ends with every vote in and the escrow still Disputed. |
| PaymentEscrow.FullVoteDecidesIffOdd | contracts/payment_escrow/src/lib.rs:259-338 | That a full vote settles the escrow, on every run under the panel, holds exactly for odd panels. |
| PaymentEscrow.ListIsComplete | contracts/payment_escrow/src/lib.rs:408-414 | A party's list view contains exactly its escrows. |
| PaymentEscrow.ListInOrder | contracts/payment_escrow/src/lib.rs:451-463 | Each of them once, in creation order. |
| PaymentEscrow.Contract.InitializeContract | contracts/payment_escrow/src/lib.rs:38-46 | Sets admin, token and window; clears pause and panel. |
| PaymentEscrow.Contract.ConfigureContract | contracts/payment_escrow/src/lib.rs:48-79 | Panel, window and pause changes by the admin only. |
| PaymentEscrow.Contract.CreateEscrowFor | contracts/payment_escrow/src/lib.rs:81-138 | The whole new state and answer of create_escrow, including the window snapshot and the trap on an uncovered amount. |
| PaymentEscrow.Contract.ReleaseEscrow | contracts/payment_escrow/src/lib.rs:140-173 | The whole new state and answer of release. |
| PaymentEscrow.Contract.RefundEscrow | contracts/payment_escrow/src/lib.rs:175-200 | The whole new state and answer of refund. |
| PaymentEscrow.Contract.DisputeEscrow | contracts/payment_escrow/src/lib.rs:202-228 | The whole new state and answer of dispute. |
| PaymentEscrow.Contract.SubmitEvidenceFor | contracts/payment_escrow/src/lib.rs:230-257 | The whole new state and answer of submit_evidence. |
| PaymentEscrow.Contract.CountVotes | contracts/payment_escrow/src/lib.rs:305-313 | The tally loop counts each side's votes. |
| PaymentEscrow.Contract.VoteOn | contracts/payment_escrow/src/lib.rs:259-338 | The whole new state and answer of vote_resolution. |
| PaymentEscrow.Contract.ExpireDisputeOf | contracts/payment_escrow/src/lib.rs:340-368 | The whole new state and answer of expire_dispute. |
| PaymentEscrow.Contract.TryAutoReleaseOf | contracts/payment_escrow/src/lib.rs:370-399 | The whole new state and answer of try_auto_release. |
| PaymentEscrow.Contract.Load | contracts/payment_escrow/src/lib.rs:451-463 | The listing loop returns the stored escrows of a list of ids. |
| PaymentEscrow.CreateDoes | contracts/payment_escrow/src/lib.rs:81-138 | Exactly when create_escrow succeeds; the amount moves from the depositor to the contract and no other balance changes; the record, with the window in force or a day. |
| PaymentEscrow.ReleaseDoes | contracts/payment_escrow/src/lib.rs:140-173 | Exactly who can release and from when (the end of the window); the beneficiary's balance grows by the amount, the contract's falls by it, and no other changes. |
| PaymentEscrow.RefundDoes | contracts/payment_escrow/src/lib.rs:175-200 | Exactly who can refund (depositor or admin, Active or Disputed); the depositor is paid. |
| PaymentEscrow.DisputeDoes | contracts/payment_escrow/src/lib.rs:202-228 | Exactly when the depositor can dispute; the record's change. |
| PaymentEscrow.EvidenceDoes | contracts/payment_escrow/src/lib.rs:230-257 | Each party replaces its own hash, exactly while disputed. |
| PaymentEscrow.TallyCountsBallots | contracts/payment_escrow/src/lib.rs:305-313 | A side's tally is the number of its recorded votes. |
| PaymentEscrow.VoteDoes | contracts/payment_escrow/src/lib.rs:259-338 | Exactly who can vote; more than half of the panel for the beneficiary releases to it, more than half for the depositor refunds it, anything less is only recorded. |
| PaymentEscrow.ExpireDoes | contracts/payment_escrow/src/lib.rs:340-368 | Exactly from 30 days into a dispute on; the depositor is paid. |
| PaymentEscrow.AutoReleaseDoes | contracts/payment_escrow/src/lib.rs:370-399 | Exactly from the release time on; the beneficiary is paid. |
| PaymentEscrow.ConfigureDoes | contracts/payment_escrow/src/lib.rs:48-79 | Exactly the admin changes a setting, and only that one. |
| PaymentEscrow.ErrorsExplain | contracts/payment_escrow/src/lib.rs:48-399 | Every error answered in a consistent state is true of the call; a payout never traps. |
| Rewards.CalculateRewardsClosedForm | contracts/manage_hub/src/staking.rs:487-503 | The fixed-point factor cancels exactly: one division, one truncation. |
| Rewards.CalcRewardsClosedForm | contracts/manage_hub/src/staking.rs:505-516 | Four successive truncating divisions equal one by the product. |
| Rewards.SteppedTotalIsClose | contracts/manage_hub/src/rewards.rs:52-69 | With T the step-truncated total, C the closed form, e elapsed, m the multiplier and Y a year: T <= C < T + (e/Y + 1)m/10^4 + 1. |
| Rewards.ClaimLeavesGrowth | contracts/manage_hub/src/rewards.rs:34-137 | After a claim at e, what is pending at a later f is exactly what the stepped total grew by from e to f: nothing at once, nothing lost, nothing twice; and if f does not overflow, e does not. |
| Rewards.RepeatedClaimsTelescope | contracts/manage_hub/src/rewards.rs:80-137 | However often one claims, lifetime payment never passes the stepped total at the latest claim, and a claim at the end reaches it. |
| Rewards.SplitEarnsNoMore | contracts/manage_hub/src/staking.rs:487-503 | Splitting a period, keeping less principal afterwards, never earns more (floors are superadditive). |
| Rewards.MoveWithinDue | contracts/manage_hub/src/staking.rs:397-564 | One claim or partial unstake: what it grants plus the most the rest can still earn is within what was due. |
| Rewards.GrantsBoundedByClosedForm | contracts/manage_hub/src/staking.rs:397-564 | Over any timely sequence of claims and partial unstakes the total granted is at most the single closed-form reward on the initial principal. |
| Rewards.AccumulatedIsNeverPaid | contracts/manage_hub/src/staking.rs:397-564 | What a partial unstake sets aside in accumulated_rewards changes no later grant of any sequence of claims and partial unstakes. |
| Rewards.CalcRewardsSuperadditive | contracts/manage_hub/src/staking.rs:505-516 | The unstake formula on two amounts never exceeds it on their sum. |
| Rewards.MoveWithinFormula | contracts/manage_hub/src/staking.rs:397-564 | At a multiplier of at least one, what a claim or partial unstake grants, plus the unstake formula on the principal it leaves, passes the formula on the principal before by no more than claimed_rewards grew. |
| Rewards.MoveLeaves | contracts/manage_hub/src/staking.rs:397-564 | What a claim or partial unstake leaves of a stake: nothing moves when nothing was earned; otherwise it starts afresh, with the rest of the reward set aside. |
| Rewards.PartialGrantIs | contracts/manage_hub/src/staking.rs:418-420 | A partial unstake pays the part's share of what was earned, in millionths, rounded down twice. |
| Rewards.PendingIs | contracts/manage_hub/src/rewards.rs:34-77 | Nothing after an emergency exit; an overflow exactly beyond 128 bits at one of the three products; else the stepped total less claims, never negative. |
| Staking.RunConserves | contracts/manage_hub/src/staking.rs:236-471 | Every run keeps, per staker: locked = received + pending, each entry settled at most once and never before its claimable time, the rest in order. |
| Staking.EveryRunConserves | contracts/manage_hub/src/staking.rs:236-471 | The same from deployment on, with the totals and per-entry counts written out. |
| Staking.ClaimSplits | contracts/manage_hub/src/staking.rs:302-355 | A claim splits the queue into matured and remaining entries without loss or duplication, and pays exactly the matured total. |
| Staking.RemainingSubsequence | contracts/manage_hub/src/staking.rs:302-355 | What stays pending keeps its order. |
| Staking.ClaimTimes | contracts/manage_hub/src/staking.rs:302-355 | Nothing is settled early and nothing matured is kept. |
| Staking.EveryCallIsAQueueStep | contracts/manage_hub/src/staking.rs:172-564 | Every call leaves a staker's queue alone, locks one entry, or claims from it. |
| Staking.StakeMoves | contracts/manage_hub/src/staking.rs:172-564 | Every call other than the staker's own stake, unstake and emergency_unstake and a redefinition of the stake's tier leaves a stake alone, moves it by exactly one reward move, or (a partial unstake of all of it) removes it. |
| Staking.RunRewardsBounded | contracts/manage_hub/src/staking.rs:397-564 | Until the stake is closed, and whatever other stakers and the admin ask (but for its tier), the rewards it is granted through claims and partial unstakes stay within the closed-form reward on its principal. |
| Staking.RunKeepsStake | contracts/manage_hub/src/staking.rs:397-564 | Over such a run a stake that is kept keeps its tier and staking time, its principal only shrinks, and if no principal left, the rewards granted are exactly the growth of claimed_rewards. |
| Staking.RunWithinFormula | contracts/manage_hub/src/staking.rs:397-564 | The bound of one move over every timely run that keeps a stake. |
| Staking.LifetimeBounded | contracts/manage_hub/src/staking.rs:236-564 | The rewards of a whole life, the final unstake included, with any claims and partial unstakes: at a multiplier of at least one at most the unstake formula on the initial principal plus what claims paid; at any multiplier at most the unstake formula plus the claim formula; nothing at rate zero. |
| Staking.LifetimeWithinIff | contracts/manage_hub/src/staking.rs:236-564 | If no principal was taken out early the total is exactly the formula plus what claims paid, so within the formula exactly when nothing was claimed. |
| Staking.UnclaimedWithinIff | contracts/manage_hub/src/staking.rs:236-564 | That every life without a paid claim, partial unstakes included, stays within the formula holds exactly for tiers with a multiplier of at least one, or no rate. |
| Staking.HalfOverpaid | contracts/manage_hub/src/staking.rs:397-473 | For every tier with a rate and a multiplier below one, a run from deployment that claims nothing: half out after a year, the rest closed, and the payments pass the formula. |
| Staking.YearPaidTwice | contracts/manage_hub/src/staking.rs:236-300 | From deployment: claiming after a year and then unstaking pays that year twice, 200000 for a formula of 100000. |
| Staking.SurplusStep | contracts/manage_hub/src/staking.rs:172-564 | Every call moves the balance less all principals and waiting withdrawals by exactly the penalty it keeps or tokens it is sent, less the reward it gives. |
| Staking.CoveredIff | contracts/manage_hub/src/staking.rs:172-564 | From deployment, with one token and any bound on the addresses: balance + rewards given = owed + funds, so the balance covers all principals and waiting withdrawals exactly when the rewards given do not pass the funds (start, receipts, penalties). |
| Staking.CoveredPaysOut | contracts/manage_hub/src/staking.rs:302-395 | A covered contract pays every matured withdrawal and every emergency exit with a penalty of at most all. |
| Staking.PrincipalOutOfReach | contracts/manage_hub/src/staking.rs:236-355 | The uncovered case from deployment: one claim leaves 900000 against a principal of 1000000, and the matured unstake cannot be paid. |
| Staking.NoTokenNoStakes | contracts/manage_hub/src/staking.rs:198-207 | Without a write of the staking token, for which there is no entry point, no run ever holds a stake or a withdrawal. |
| Staking.StakingModule.SetUp | contracts/manage_hub/src/staking.rs:83-123 | Configuration, tiers and cooldown by the admin. |
| Staking.StakingModule.StakeTokens | contracts/manage_hub/src/staking.rs:172-234 | The whole new state and answer of stake. |
| Staking.StakingModule.Unstake | contracts/manage_hub/src/staking.rs:236-300 | The whole new state and answer of unstake. |
| Staking.StakingModule.PartialUnstake | contracts/manage_hub/src/staking.rs:397-473 | The whole new state and answer of partial_unstake. |
| Staking.StakingModule.ClaimStakingRewards | contracts/manage_hub/src/staking.rs:518-564 | The whole new state and answer of claim_staking_rewards. |
| Staking.StakingModule.EmergencyUnstake | contracts/manage_hub/src/staking.rs:359-395 | The whole new state and answer of emergency_unstake. |
| Staking.StakingModule.ClaimUnstaked | contracts/manage_hub/src/staking.rs:302-355 | The whole new state and answer of claim_unstaked, with its loop over withdrawals. |
| Staking.StakeDoes | contracts/manage_hub/src/staking.rs:172-234 | Exactly when stake succeeds; the amount moves from the staker to the contract; the new stake. |
| Staking.UnstakeDoes | contracts/manage_hub/src/staking.rs:236-300 | Exactly from the end of the lock period on; principal and reward are locked until the cooldown (a week unless set) has passed, and the stake is gone. |
| Staking.PartialUnstakeDoes | contracts/manage_hub/src/staking.rs:397-473 | Exactly for a part of the principal; what is locked and what remains, in figures. |
| Staking.ClaimRewardsDoes | contracts/manage_hub/src/staking.rs:518-564 | What was earned since the last claim moves from the contract to the staker and is recorded, if the contract holds it; nothing happens when nothing was earned. |
| Staking.EmergencyUnstakeDoes | contracts/manage_hub/src/staking.rs:359-395 | The principal less the penalty moves to the staker, if the contract holds it, and the stake is gone. |
| Staking.ClaimSettlesMatured | contracts/manage_hub/src/staking.rs:302-355 | A claim settles every entry whose time has come as often as it is there, and leaves every other. |
| Staking.ClaimUnstakedDoes | contracts/manage_hub/src/staking.rs:302-355 | The sum of the settled entries moves to the staker, exactly when it is positive and the contract holds it. |
| Staking.SetupDoes | contracts/manage_hub/src/staking.rs:83-123 | Anyone sets the configuration and becomes the admin; tiers and cooldown in days are the admin's. |
| Base32.GroupsStream | backend/src/auth/totp.service.ts:92-112 | The RFC 4648 grouping carries the input bits, then fewer than five zero bits, and nothing else. |
| Base32.GroupsUnique | backend/src/auth/totp.service.ts:92-112 | It is the only list of 5-bit values that does. |
| Base32.RoundTrip | backend/src/auth/totp.service.ts:92-141 | Decoding undoes encoding for every byte sequence. |
| Base32.EncodingInjective | backend/src/auth/totp.service.ts:92-112 | Different byte sequences have different encodings. |
| Base32.EncodedLength | backend/src/auth/totp.service.ts:92-112 | One letter for every started group of five bits. |
| Base32.EncodedSpellsGroups | backend/src/auth/totp.service.ts:93-112 | The k-th letter is the one RFC 4648 names for the k-th group of five bits. |
| Base32.LettersAreUpper | backend/src/auth/totp.service.ts:119-127 | Every letter of the alphabet decodes to its own index. |
| Base32.CharactersFor | backend/src/auth/totp.service.ts:119-127 | Exactly the characters that decode to index k: the k-th letter, its lower case, and the few others that JavaScript upper-cases to a stretch of the alphabet starting there. |
| Base32.ShiftIn | backend/src/auth/totp.service.ts:98-100 | One turn of the accumulator appends the new bits to the pending ones although the value wraps at 32 bits. |
| Base32.TakeTop | backend/src/auth/totp.service.ts:102-105 | The unsigned shift and mask take exactly the oldest pending bits. |
| Base32.PadTop | backend/src/auth/totp.service.ts:108-110 | The final shift fills the last group with zero bits. |
| Base32.Base32Encode | backend/src/auth/totp.service.ts:92-113 | The two nested loops compute exactly the unpadded encoding of section 6 of RFC 4648. |
| Base32.Base32Decode | backend/src/auth/totp.service.ts:119-141 | The loop computes the octets of the concatenated indices, or fails at the first character whose upper case is nowhere in the alphabet. |
| Base32.Truncate | backend/src/auth/totp.service.ts:77-85 | The low 31 bits of the four bytes selected by the last nibble, as a big-endian number, modulo 10^6 (section 5.3 of RFC 4226). |
| Base32.BitAt | backend/src/auth/totp.service.ts:92-112 | Bits are taken most significant first. |
| Base32.TestVector | backend/src/auth/totp.service.ts:92-113 | The encoding of the byte 0x66 is MY, as in section 10 of RFC 4648. |
| Pricing.BuildSegments | backend/src/pricing/pricing-engine.service.ts:147-184 | The slicing loop terminates and returns the specified slices. |
| Pricing.SlicesTile | backend/src/pricing/pricing-engine.service.ts:156-184 | The slices are non-empty, consecutive, and cover [start, end) exactly. |
| Pricing.SlicesAreUniform | backend/src/pricing/pricing-engine.service.ts:156-184 | Each slice lies within one clock hour and one rate holds at each of its milliseconds. |
| Pricing.SliceCount | backend/src/pricing/pricing-engine.service.ts:156-184 | There are as many slices as clock hours touched. |
| Pricing.SameHourSameRule | backend/src/pricing/pricing-engine.service.ts:190-201 | The matching rule depends on the clock hour only. |
| Pricing.FindMatchingRule | backend/src/pricing/pricing-engine.service.ts:190-201 | Returns a listed rule that applies, and none only if none does. |
| Pricing.FirstMatchWins | backend/src/pricing/pricing-engine.service.ts:190-201 | When several apply, the first in list order is taken. |
| Pricing.GrossIsAccurate | backend/src/pricing/pricing-engine.service.ts:126-168 | The gross cost differs from the millisecond integral of the rate by at most 5*10^-7 per segment. |
| Pricing.PriceIsAccurate | backend/src/pricing/pricing-engine.service.ts:109-138 | The amount charged is the discounted integral to within half a cent plus 5*10^-7 per clock hour touched; it is refused exactly when the end is not after the start. |
| Pricing.OrderIsIrrelevant | backend/src/pricing/pricing-engine.service.ts:122-126 | With non-overlapping active rules the order in which they are listed does not matter to segments or price. |
| Pricing.CalculatePrice | backend/src/pricing/pricing-engine.service.ts:109-138 | The whole snapshot: segments, total, tier and discount, or the error. |
| Pricing.PricingEngine.AssertNoOverlap | backend/src/pricing/pricing-engine.service.ts:213-236 | Finds a clashing active rule of the workspace and day other than the excluded one, or there is none. |
| Pricing.PricingEngine.Create | backend/src/pricing/pricing-engine.service.ts:47-52 | Creates exactly when the hours are in order and nothing clashes; keeps the rule-set invariant. |
| Pricing.PricingEngine.Update | backend/src/pricing/pricing-engine.service.ts:67-90 | Merges exactly when its checks pass; keeps the invariant when the overlap scan ran or no new slot is claimed. |
| Pricing.Reactivate | backend/src/pricing/pricing-engine.service.ts:67-90 | From an empty rule set: switching a rule off, giving its hours to another, and switching it on again leaves two active rules for the same hours. |
| Pricing.PricingEngine.Delete | backend/src/pricing/pricing-engine.service.ts:92-95 | Removes exactly the rule; keeps the invariant. |
| Pricing.UpdateSafeIffRechecked | backend/src/pricing/pricing-engine.service.ts:67-90 | An update is safe for every valid rule set exactly when day or hours were given, or the result is inactive, or the rule was active and stays in its workspace: reactivating or moving a rule skips the scan. |
| Pricing.Calendar | backend/src/pricing/pricing-engine.service.ts:156-201 | The epoch began on a Thursday, weekdays follow each other, each day has its 24 hours in order, and the next hour starts where this one ends. |
| Pricing.AppliesIffInForce | backend/src/pricing/pricing-engine.service.ts:190-201 | At hour h of day k since the epoch a rule applies exactly when it is active, of weekday (k + 4) mod 7, and h is from its first hour up to its last, excluded. |
| Pricing.ChargedAt | backend/src/pricing/pricing-engine.service.ts:190-201 | At such a moment the rule charged is the first one in force, or none and the workspace's own rate. |
| Pricing.SliceIsCharged | backend/src/pricing/pricing-engine.service.ts:156-184 | Every slice ends with its clock hour or the booking, names the rule and rate of its start, and has hours and cost rounded to six digits. |
| Pricing.RoundToRounds | backend/src/pricing/pricing-engine.service.ts:126-168 | Rounding gives the nearest multiple, the one further from zero of two as near. |
| Pricing.Figures | backend/src/pricing/pricing-engine.service.ts:109-168 | Hours, cost and discounts in plain figures: 3600000 ms an hour, 15 percent for Staff, 10 for Members. |
| Pricing.PricedIs | backend/src/pricing/pricing-engine.service.ts:109-138 | Refused exactly when the end is not after the start; else the slices, the tier and its discount, and the discounted sum rounded to cents. |
| Pricing.MergeDoes | backend/src/pricing/pricing-engine.service.ts:67-90 | An update replaces exactly the fields it names. |
| Pricing.OverlapsIffShareHour | backend/src/pricing/pricing-engine.service.ts:213-236 | Two rules overlap exactly when they share an hour. |
| Pricing.RuleSetOkIff | backend/src/pricing/pricing-engine.service.ts:213-236 | The rule-set invariant is that no two active rules of a workspace and weekday share an hour. |
| Pricing.OneRuleAtATime | backend/src/pricing/pricing-engine.service.ts:190-236 | Under it at most one rule of a workspace is in force at any moment. |
| TrendLine.ResidualsExpand | backend/src/analytics/analytics.service.ts:241-245 | The residual sum in terms of deviations about any centre. |
| TrendLine.DenominatorPositive | backend/src/analytics/analytics.service.ts:238-240 | The zero-denominator branch is dead: two samples already make it positive. |
| TrendLine.ResidualsOf | backend/src/analytics/analytics.service.ts:234-244 | Every line misses by the best line's residuals plus two squares. |
| TrendLine.LeastSquares | backend/src/analytics/analytics.service.ts:226-249 | For two or more samples no line has a smaller sum of squared residuals, and only the returned one has an equal one. |
| TrendLine.R2IsFraction | backend/src/analytics/analytics.service.ts:243-248 | 0 <= r2 <= 1 for every series, and r2 = 1 exactly for a perfect non-constant line. |
| TrendLine.R2IsSquaredCorrelation | backend/src/analytics/analytics.service.ts:243-248 | r2 is the squared correlation of the samples with their positions, 0 for a constant series. |
| TrendLine.NoTrend | backend/src/analytics/analytics.service.ts:226-229 | Fewer than two samples give the zero line. |
| AccessControl.ApprovalsAreEndorsements | contracts/access_control/src/access_control.rs:200-246 | An open proposal's approvals are, without repetition, exactly the callers who created or approved it while Staff or above and unpaused. |
| AccessControl.ExecutionIsBacked | contracts/access_control/src/access_control.rs:248-306 | Whatever takes effect was created earlier in the run, waited out the lock of its creation, has at least the threshold in force of endorsers, never took effect before, and has exactly its action's effect. |
| AccessControl.TakesEffectAtMostOnce | contracts/access_control/src/access_control.rs:248-306 | No proposal takes effect twice. |
| AccessControl.IdsAreNew | contracts/access_control/src/access_control.rs:87-96 | Open proposals have ids above the count a run starts from and up to its current count. |
| AccessControl.IdsAreNeverReused | contracts/access_control/src/access_control.rs:87-224 | A successful create stores its proposal under an id that was free, and no two creates of a run get the same id. |
| AccessControl.PendingIsLatestNomination | contracts/access_control/src/access_control.rs:335-400 | The pending transfer is the latest nomination not withdrawn or accepted since. |
| AccessControl.NominatedByThenAdmin | contracts/access_control/src/access_control.rs:335-349 | That nomination was made by the Admin of that moment. |
| AccessControl.AdminChangesOnlyTheseWays | contracts/access_control/src/access_control.rs:248-387 | The Admin changes only by a backed SetAdmin at the critical threshold, or by the nominee accepting at least 48 hours after the latest nomination. |
| AccessControl.AdminsAfterDeployment | contracts/access_control/src/access_control.rs:100-387 | From initialization of a new contract: every later Admin was put in by such a proposal, or nominated in the run by the Admin of that moment and accepted at least 48 hours later. |
| AccessControl.RolesChangeOnlyTheseWays | contracts/access_control/src/access_control.rs:112-387 | A role changes only by the Admin's own call, an accepted nomination, or a backed proposal for exactly that change. |
| AccessControl.ExecutionGrants | contracts/access_control/src/access_control.rs:248-306 | After an execution a user whose role changed has exactly the role the action grants. |
| AccessControl.OfficeKeptIff | contracts/access_control/src/access_control.rs:248-387 | While a nomination is pending, a successful call that neither makes nor clears one leaves the Admin in office exactly when it does not execute a SetAdmin for somebody else. |
| AccessControl.InOfficeIffNobodyDisplaced | contracts/access_control/src/access_control.rs:248-387 | Lifted to runs: the Admin stays in office after every call exactly when no such execution happens. |
| AccessControl.NominatorInOfficeIff | contracts/access_control/src/access_control.rs:248-387 | A nomination just made stays the latest while no call touches it, its maker is the Admin of that moment, and stays Admin all along exactly when no SetAdmin for somebody else is executed. |
| AccessControl.StaleNominationSucceeds | contracts/access_control/src/access_control.rs:248-387 | The other case is reachable from deployment: the Admin nominates, a proposal replaces the Admin, and the former Admin's nominee still accepts. |
| AccessControl.Contract.Initialize | contracts/access_control/src/access_control.rs:100-110 | Sets admin, configuration and role. |
| AccessControl.Contract.AssignRole | contracts/access_control/src/access_control.rs:112-126 | The whole new state and answer of set_role. |
| AccessControl.Contract.DropRole | contracts/access_control/src/access_control.rs:161-170 | The whole new state and answer of remove_role. |
| AccessControl.Contract.UpdateConfig | contracts/access_control/src/access_control.rs:172-180 | The whole new state and answer of update_config. |
| AccessControl.Contract.SetPaused | contracts/access_control/src/access_control.rs:182-198 | The whole new state and answer of pause and unpause. |
| AccessControl.Contract.CreateProposal | contracts/access_control/src/access_control.rs:200-224 | The whole new state and answer of create_proposal. |
| AccessControl.Contract.ApproveProposal | contracts/access_control/src/access_control.rs:226-246 | The whole new state and answer of approve_proposal. |
| AccessControl.Contract.ExecuteProposal | contracts/access_control/src/access_control.rs:248-306 | The whole new state and answer of execute_proposal. |
| AccessControl.Contract.ProposeAdminTransfer | contracts/access_control/src/access_control.rs:335-350 | The whole new state and answer of propose_admin_transfer. |
| AccessControl.Contract.AcceptAdminTransfer | contracts/access_control/src/access_control.rs:355-386 | The whole new state and answer of accept_admin_transfer. |
| AccessControl.Contract.CancelAdminTransfer | contracts/access_control/src/access_control.rs:389-400 | The whole new state and answer of cancel_admin_transfer. |
| AccessControl.ApproversWereOfficers | contracts/access_control/src/access_control.rs:200-246 | Whoever is among the approvals of an open proposal created or approved it, in an unpaused contract, while holding the role Staff or Admin. |
| AccessControl.AccessIs | contracts/access_control/src/access_control.rs:135-141 | What each level of access takes: Guest nothing, Member any other role, Staff the roles Staff or Admin, Admin that role. |
| AccessControl.OfficersAreStaffOrAbove | contracts/access_control/src/access_control.rs:135-141 | The access check for Staff passes exactly for holders of Staff or Admin, not for Members or Guests. |
| AccessControl.CreateDoes | contracts/access_control/src/access_control.rs:200-224 | Unauthorized exactly when unpaused and not such an officer; exactly when it succeeds, and the stored proposal. |
| AccessControl.ApproveDoes | contracts/access_control/src/access_control.rs:226-246 | Unauthorized exactly when unpaused and not such an officer; exactly when it succeeds; the approver is appended. |
| AccessControl.ExecuteDoes | contracts/access_control/src/access_control.rs:248-306 | Exactly when execution succeeds, with the critical number for SetAdmin and Upgrade and the plain one for roles; the effect of each action. |
| AccessControl.InitializeDoes | contracts/access_control/src/access_control.rs:100-110 | Admin, role and configuration, unpaused. |
| AccessControl.AdminCallsDo | contracts/access_control/src/access_control.rs:112-400 | Exactly when each of the Admin's calls succeeds, which of them a pause stops, and their effects. |
| AccessControl.AcceptDoes | contracts/access_control/src/access_control.rs:355-386 | Exactly the nominee, exactly from 172800 seconds after the nomination on, becomes Admin. |
| AccessControl.ErrorsExplain | contracts/access_control/src/access_control.rs:112-400 | Every error answered is true of the call. |
| MembershipIndex.StepKeepsIndex | contracts/membership_token/src/lib.rs:80-295 | Every call keeps every bucket exact for every id. |
| MembershipIndex.RunIsIndexed | contracts/membership_token/src/lib.rs:80-295 | In every run each bucket holds, once each, exactly the tokens expiring that day, except batch-issued ones never renewed since. |
| MembershipIndex.ExpiringIsScan | contracts/membership_token/src/lib.rs:219-243 | The query lists a token once exactly when it is indexed and expires within [today, today + min(k, 365)]. |
| MembershipIndex.ExpiringIsCompleteIff | contracts/membership_token/src/lib.rs:219-295 | It is complete exactly when no token of the window is an un-renewed batch token. |
| MembershipIndex.BatchTokenIsMissed | contracts/membership_token/src/lib.rs:247-295 | The incomplete case is reached by the first batch of a new contract: its token expires inside the window and is not listed. |
| MembershipIndex.TokenChangesOnlyTheseWays | contracts/membership_token/src/lib.rs:119-208 | A token changes only by its owner transferring it while active, a renewal in the grace period, or a revocation while active. |
| MembershipIndex.TerminalIsForever | contracts/membership_token/src/lib.rs:373-422 | Once revoked, or expired beyond the grace period, a token never changes again. |
| MembershipIndex.TransfersKeep | contracts/membership_token/src/lib.rs:297-317 | A batch of transfers changes owners only, of active tokens whose owner signed. |
| MembershipIndex.IssuedAt | contracts/membership_token/src/lib.rs:269-294 | A batch issues its tokens under consecutive ids and touches no other. |
| MembershipIndex.Contract.IssueToken | contracts/membership_token/src/lib.rs:80-117 | The whole new state and answer of issue_token. |
| MembershipIndex.Contract.TransferTokens | contracts/membership_token/src/lib.rs:119-134 | All transfers or none, with the first failing check's error (also the batch form). |
| MembershipIndex.Contract.RenewToken | contracts/membership_token/src/lib.rs:136-191 | The whole new state and answer of renew_token, with its loop over the old bucket. |
| MembershipIndex.Contract.RevokeToken | contracts/membership_token/src/lib.rs:193-208 | The whole new state and answer of revoke_token. |
| MembershipIndex.Contract.BatchIssueTokens | contracts/membership_token/src/lib.rs:247-295 | The whole new state and answer of batch_issue_tokens, including the ids. |
| MembershipIndex.Contract.GetExpiringTokens | contracts/membership_token/src/lib.rs:219-243 | The loop concatenates the buckets of the window in day order. |
| MembershipIndex.Contract.SetPaused | contracts/membership_token/src/lib.rs:64-76 | Pause and unpause by the admin only. |
| MembershipIndex.WindowInSeconds | contracts/membership_token/src/lib.rs:219-243 | A token is in the window exactly when it expires from today's UTC midnight up to the end of the last day, at most 365 days on. |
| MembershipIndex.IssueDoes | contracts/membership_token/src/lib.rs:80-117 | Exactly when issue_token succeeds; the token under the next id, listed last in the bucket of its day. |
| MembershipIndex.BatchIssueDoes | contracts/membership_token/src/lib.rs:247-295 | Exactly when a batch of at most 50 succeeds; each token under its id, no bucket changed. |
| MembershipIndex.RenewDoes | contracts/membership_token/src/lib.rs:136-191 | The admin renews exactly an unrevoked token within the 30 days after its expiry; only its date changes. |
| MembershipIndex.RevokeDoes | contracts/membership_token/src/lib.rs:193-208 | The admin revokes exactly an unrevoked token up to its expiry date. |
| MembershipIndex.TransferDoes | contracts/membership_token/src/lib.rs:119-134 | A transfer succeeds exactly for an unrevoked, unexpired token signed for by its owner, and changes the owner only. |
| MembershipIndex.TransfersDo | contracts/membership_token/src/lib.rs:297-317 | Transfers are made in turn, all or none, and not while paused. |
| MembershipIndex.AdminCallsDo | contracts/membership_token/src/lib.rs:64-76 | Initialization and pausing. |
| MembershipIndex.ErrorsExplain | contracts/membership_token/src/lib.rs:64-317 | Every error answered is true of the call. |
| MembershipIndex.TransferErrorExplains | contracts/membership_token/src/lib.rs:119-134 | So is every error of a transfer. |
| OtpWindow.LoadIsHistory | backend/src/auth/otp-rate-limit.service.ts:47-63 | Neither evicting old entries on load nor the key's time to live can be observed. |
| OtpWindow.RunRemembers | backend/src/auth/otp-rate-limit.service.ts:47-89 | The cache always holds exactly the part of the history that was in the window at the last save. |
| OtpWindow.AnswersFollowHistory | backend/src/auth/otp-rate-limit.service.ts:47-89 | Every answer is the one the complete history of allowed requests gives. |
| OtpWindow.FourSpanTheWindow | backend/src/auth/otp-rate-limit.service.ts:58-82 | Any four allowed requests with no clear in between span at least five minutes. |
| OtpWindow.WindowHoldsThree | backend/src/auth/otp-rate-limit.service.ts:62-79 | A window never holds more than three. |
| OtpWindow.WaitingIsEnough | backend/src/auth/otp-rate-limit.service.ts:64-75 | After a refusal and no other request for the email, a request is allowed exactly from the moment the oldest leaves the window; retryAfterSeconds is positive and the least whole number of seconds that reaches it. |
| OtpWindow.OtpRateLimit.CheckAndRecordResend | backend/src/auth/otp-rate-limit.service.ts:47-86 | The answer and the new cache, including the fallback without a cache. |
| OtpWindow.OtpRateLimit.ClearResendWindow | backend/src/auth/otp-rate-limit.service.ts:91-98 | Clearing forgets exactly that email. |
| OtpWindow.LaterSelects | backend/src/auth/otp-rate-limit.service.ts:47-63 | The window keeps each time after its start as often as it is there, and no other. |
| OtpWindow.OldestIsLeast | backend/src/auth/otp-rate-limit.service.ts:64-75 | The oldest time is the least. |
| OtpWindow.AnswerIs | backend/src/auth/otp-rate-limit.service.ts:58-82 | Allowed exactly while fewer than three allowed requests lie in the last five minutes, with the number left; otherwise the whole seconds until the oldest of the three is five minutes old. |
| WorkspaceBooking.RunListsExact | contracts/workspace_booking/src/lib.rs:252-266 | In every run the per-workspace and per-member lists hold exactly their owner's booking ids, once each, in id order. |
| WorkspaceBooking.ScanMissesNothing | contracts/workspace_booking/src/lib.rs:221-235 | So the overlap scan sees every live booking of the workspace. |
| WorkspaceBooking.NoDoubleBooking | contracts/workspace_booking/src/lib.rs:186-370 | While no confirmation hits a cancelled booking, live bookings of a workspace are pairwise disjoint in every run. |
| WorkspaceBooking.ConfirmSafeIff | contracts/workspace_booking/src/lib.rs:274-297 | Confirming keeps them disjoint exactly when the booking is not cancelled or its slot was not taken since. |
| WorkspaceBooking.BatchConfirmSafeIff | contracts/workspace_booking/src/lib.rs:299-343 | Confirming a batch keeps them disjoint exactly when every slot it brings back misses every other booking of its workspace that is live or brought back with it. |
| WorkspaceBooking.DoubleBookingIsReachable | contracts/workspace_booking/src/lib.rs:274-297 | The unsafe case is reachable: cancel, rebook the slot, confirm the cancelled booking. |
| WorkspaceBooking.BatchDoubleBookingIsReachable | contracts/workspace_booking/src/lib.rs:299-343 | So is the batch's own unsafe case: two cancelled bookings that could each be confirmed alone double-book together. |
| WorkspaceBooking.StatusChangesOnlyTheseWays | contracts/workspace_booking/src/lib.rs:186-395 | A booking keeps its slot for good; only its member or the admin cancels it and only the admin confirms it. |
| WorkspaceBooking.BilledHours | contracts/workspace_booking/src/lib.rs:215-218 | The least number of whole hours covering the slot. |
| WorkspaceBooking.Contract.Book | contracts/workspace_booking/src/lib.rs:186-272 | The whole new state and answer of book, with its overlap loop. |
| WorkspaceBooking.Contract.ConfirmBooking | contracts/workspace_booking/src/lib.rs:274-297 | The whole new state and answer of confirm_booking. |
| WorkspaceBooking.Contract.BatchConfirm | contracts/workspace_booking/src/lib.rs:299-343 | All confirmed or none, with the first failing check's error. |
| WorkspaceBooking.Contract.Cancel | contracts/workspace_booking/src/lib.rs:345-370 | The whole new state and answer of cancel. |
| WorkspaceBooking.Contract.SetBookingEscrow | contracts/workspace_booking/src/lib.rs:372-395 | The whole new state and answer of set_booking_escrow. |
| WorkspaceBooking.Contract.ListMemberBookings | contracts/workspace_booking/src/lib.rs:425-437 | With exact lists, returns the member's bookings in id order. |
| WorkspaceBooking.Contract.RegisterWorkspace | contracts/workspace_booking/src/lib.rs:130-166 | The whole new state and answer of register_workspace. |
| WorkspaceBooking.Contract.UpdateAvailability | contracts/workspace_booking/src/lib.rs:168-184 | The whole new state and answer of update_workspace_availability. |
| WorkspaceBooking.Contract.TransitionState | contracts/workspace_booking/src/lib.rs:439-473 | Exactly the listed state transitions. |
| WorkspaceBooking.NoInstantBookedTwice | contracts/workspace_booking/src/lib.rs:186-370 | In every orderly run no instant belongs to two Pending or Confirmed bookings of one workspace. |
| WorkspaceBooking.TakenIffOccupied | contracts/workspace_booking/src/lib.rs:221-235 | In every run the scan refuses a slot exactly when a Pending or Confirmed booking of the workspace shares an instant with it. |
| WorkspaceBooking.BookDoes | contracts/workspace_booking/src/lib.rs:186-272 | OverlappingBooking exactly for a slot that fits but is occupied; success exactly for one that fits and is not; the amount must cover the least number of whole hours; the new booking and both lists. |
| WorkspaceBooking.ConfirmDoes | contracts/workspace_booking/src/lib.rs:274-297 | Exactly the admin confirms exactly a booking that is not Confirmed. |
| WorkspaceBooking.BatchConfirmDoes | contracts/workspace_booking/src/lib.rs:299-343 | Exactly when a batch of at most 20 succeeds; each named booking is Confirmed and no other changes. |
| WorkspaceBooking.CancelDoes | contracts/workspace_booking/src/lib.rs:345-370 | Exactly the member or the admin cancels a booking that is not Cancelled. |
| WorkspaceBooking.SetEscrowDoes | contracts/workspace_booking/src/lib.rs:372-395 | Exactly the admin sets the escrow id. |
| WorkspaceBooking.RegisterDoes | contracts/workspace_booking/src/lib.rs:130-166 | Exactly the admin registers a workspace of a known type, open and available. |
| WorkspaceBooking.SetAvailabilityDoes | contracts/workspace_booking/src/lib.rs:168-184 | Exactly the admin opens or closes a workspace. |
| WorkspaceBooking.InitializeDoes | contracts/workspace_booking/src/lib.rs:46-70 | Sets the admin and the four built-in workspace types. |
| WorkspaceBooking.TransitionDoes | contracts/workspace_booking/src/lib.rs:439-473 | The state machine of the condition, written out, with its waiting time out of maintenance. |
| WorkspaceBooking.ErrorsExplain | contracts/workspace_booking/src/lib.rs:130-395 | Every error answered in a state of a run is true of the call. |
| Pagination.QueryIsFilter | backend/src/attendance/attendance.service.ts:147-157 | Restricting the query by a cursor is filtering the unrestricted ordered answer. |
| Pagination.QueryShrinks | backend/src/attendance/attendance.service.ts:135-180 | The next page asks for strictly fewer records, so following nextCursor ends. |
| Pagination.ListingIsExact | backend/src/attendance/attendance.service.ts:167-171 | The ordered answer holds each of the user's records once, strictly descending by timestamp then id. |
| Pagination.PagesAreWalk | backend/src/attendance/attendance.service.ts:135-180 | Following nextCursor from any cursor until hasMore is false walks the ordered listing page by page. |
| Pagination.PagesAreCompleteIff | backend/src/attendance/attendance.service.ts:135-180 | The pages add up to the listing for every page size exactly when no two of the user's records share a millisecond, other than a later one on the tick with a smaller id: the column has microseconds, the cursor only milliseconds. |
| Pagination.PairIsSkipped | backend/src/attendance/attendance.service.ts:135-180 | For any two records the cursor cannot tell apart, pages of one record show the first and skip the other. |
| Pagination.RecordIsSkipped | backend/src/attendance/attendance.service.ts:135-180 | Two such records, 300 microseconds apart. |
| Pagination.MillisecondsSuffice | backend/src/attendance/attendance.service.ts:135-180 | With timestamps no finer than the cursor's every page size yields every record exactly once. |
| Pagination.PageIs | backend/src/attendance/attendance.service.ts:135-180 | One page: the first records below the cursor, hasMore exactly when more are left, and then a cursor to the last record shown. |
| AttendanceChain.VerdictIff | contracts/manage_hub/src/attendance_log.rs:290-330 | Verification from 0 accepts exactly the histories in which every log names the hash of what came before it. |
| AttendanceChain.LaterVerdictIff | contracts/manage_hub/src/attendance_log.rs:303-307 | Verification of a good history from a later position accepts exactly when the hash maps the preceding log to its own previous hash. |
| AttendanceChain.ReachableVerifies | contracts/manage_hub/src/attendance_log.rs:80-330 | With fresh log ids every reachable history verifies from 0, whatever the hash. |
| AttendanceChain.ReachableVerifiesLaterIff | contracts/manage_hub/src/attendance_log.rs:290-330 | And from a later position exactly in that degenerate case, so a good history is rejected there. |
| AttendanceChain.GoodHistoryRejectedLater | contracts/manage_hub/src/attendance_log.rs:290-330 | A clock-in and a clock-out whose logs verify from 0 and not from 1, for any hash that is not zero on the first. |
| AttendanceChain.ReusedIdVerifiesIff | contracts/manage_hub/src/attendance_log.rs:116-120 | A second log under a used id overwrites the first: the history then verifies only if the hash hit zero. |
| AttendanceChain.LastHashPinsHistory | contracts/manage_hub/src/attendance_log.rs:313-327 | Two equally long verifying histories of one user that agree on the last previous hash agree on every earlier timestamp, if the hash does not collide on the inputs that occur. |
| AttendanceChain.ActionsAndLastTimestampAreFree | contracts/manage_hub/src/attendance_log.rs:109-115 | Two histories with the same previous hashes, and the same timestamps except for the last, verify alike: no action and not the last timestamp is covered. |
| AttendanceChain.ReachableInOrder | contracts/manage_hub/src/attendance_log.rs:80-183 | With fresh ids and a clock that never goes back, every reachable history is in time order. |
| AttendanceChain.SessionsFit | contracts/manage_hub/src/attendance_log.rs:225-245 | In such a history paired sessions do not overlap: their total fits between the first and the last log. |
| AttendanceChain.AttendanceLog.LogAttendance | contracts/manage_hub/src/attendance_log.rs:80-183 | The whole new state and the log returned. |
| AttendanceChain.AttendanceLog.GetUserAttendance | contracts/manage_hub/src/attendance_log.rs:194-208 | The stored logs of the user's list, in order. |
| AttendanceChain.AttendanceLog.VerifyChain | contracts/manage_hub/src/attendance_log.rs:290-330 | The loop decides the chain predicate from any position. |
| AttendanceChain.InRangeSelects | contracts/manage_hub/src/attendance_log.rs:218-223 | The range filter keeps each log inside [start, end] as often as it was, and no other. |
| AttendanceChain.InRangeKeepsOrder | contracts/manage_hub/src/attendance_log.rs:218-223 | What it selects from a first part comes before what it selects from the rest. |
| AttendanceChain.FilterRange | contracts/manage_hub/src/attendance_log.rs:218-223 | The filter loop computes that selection. |
| AttendanceChain.SummarizeSessions | contracts/manage_hub/src/attendance_log.rs:225-258 | For every list: the skipping loop counts every adjacent clock-in/clock-out pair, adds up their lengths and averages them, and traps exactly when some pair ends before it begins. |
| AttendanceChain.LogDoes | contracts/manage_hub/src/attendance_log.rs:80-183 | Refused exactly beyond 50 details; else stored, listed last, and hashed onto the user's chain. |
| AttendanceChain.PairsCountSessions | contracts/manage_hub/src/attendance_log.rs:225-245 | The session count is the number of clock-ins followed at once by a clock-out. |
| AttendanceChain.PairedTimeCountsSeconds | contracts/manage_hub/src/attendance_log.rs:225-245 | In an ordered list the total paired time is the number of seconds spent inside sessions. |

## Left out

- HTTP controllers, guards, DTO validation, mail, websockets, caches other than the OTP window, and the frontend: wiring.
- SQL and TypeORM: a table is a sequence or a map, a query its filter and order, and a transaction under the workspace lock one atomic step.
- Row identifiers of tables: a booking row is named by its index, attendance ids are numbers ordered as the database orders uuids.
- RRULE expansion, HMAC, SHA-256 and the cursor's text encoding: a given list of instances, a given digest, an arbitrary function, and a token that decodes or does not.
- Prices, refunds, notifications and outbox events of bookings: they do not influence admission.
- Lone surrogates in a Base32 secret: a supplementary character is one character here and two code units there; the decoder refuses both.
- `verifyToken`: the three-step time window around the truncated code; it adds one disjunction to `Base32.Truncate`.
- Floating point in prices and in the trend line: reals with the decimal rounding written out.
- Soroban time-to-live, events, migrations and WASM upgrades: after an executed upgrade a run continues under the same code.
- Integer widths: 64-bit overflow is modelled where it decides a branch (escrow windows, dispute timeout, proposal locks, nomination lock) and 128-bit overflow in `Rewards.PendingRewards`; elsewhere integers are unbounded.
- A second `initialize` of the access-control contract, which anyone may call: runs start after the first.
- `register_workspace_type`, waitlist and tier discounts of the on-chain bookings; pausing there, which no function switches on.
- Merkle claims, fractionalization, allowance and royalty: placeholders or easy members.
- The storage and transfers of `RewardsModule.claim_rewards`: its claimed total is modelled, its class is not, and the staking runs do not call it.
- `getAttendanceSummary` buckets, peak hours and `aggregate_peak_hours`: easy counters over the same logs.
- `BookingSeriesService`, which repeats the series paths of `BookingsService`.
- Cache failures of the OTP limiter: a load or save that throws is swallowed there and would only lose history.
