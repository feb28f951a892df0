# MentorMinds contracts: a verified model

This project models the money-holding and rate-limiting contracts of the MentorMinds suite in Dafny and
proves what they promise over whole runs. It covers:

- the **escrow contract** (`escrow/src/lib.rs`): creation, the many ways out (full, partial, batch, admin,
  automatic, manual, emergency), disputes, refunds, milestone escrows, fees, the transition log, the
  indexes and their paging, the retry machine, the emergency multisig and the admin handover;
- the **bounty contract** (`contracts/bounty/src/lib.rs`);
- the **multisig and timelock pair** that the stateful fuzz harness drives
  (`fuzz/fuzz_targets/fuzz_stateful_harness.rs`), and the production **multisig wallet** (`multisig/src/lib.rs`);
- the **anomaly detector** and the **recurring allowance** (`contracts/anomaly_detector`, `contracts/allowance`);
- the **cycle search** of the call-graph tool (`tools/security_analysis/call_graph.py`).

## How it is built

A contract call is atomic: a panic reverts everything. Each entry point is therefore a specification
function from storage to an optional storage (`None` is a panic), and a method of a class that rewrites
the stored fields step by step and is proved to commit exactly that storage or nothing. The theorems are
about the specification functions: one invariant per contract, kept by every entry point, and what it
says of `Run`, an arbitrary sequence of calls.

| file | content |
|---|---|
| `Common.dfy` | optional results, sums, distinct and spaced lists, the token ledger |
| `FixedWindows.dfy` | what a limit per fixed window admits in an arbitrary period |
| `Fees.dfy` | fee arithmetic |
| `EscrowModel.dfy` | the escrow storage and its entry points as functions; calls and runs |
| `EscrowFrames.dfy` | what each group of entry points leaves alone; every release as one payout |
| `EscrowFunds.dfy` | solvency, accounting, milestone escrows, terminal states, the monitor |
| `EscrowAuthority.dfy` | who may move money, what deposits and divisions amount to |
| `EscrowLog.dfy`, `EscrowIndex.dfy`, `EscrowBatch.dfy`, `EscrowRecovery.dfy` | the log, the indexes, batch against partial release, retries, emergencies and their breaker |
| `EscrowGenesis.dfy` | all run theorems of the escrow contract from initialisation on |
| `EscrowContract.dfy` | the escrow contract as a class |
| `AdminHandover.dfy`, `Bounty.dfy`, `Governance.dfy`, `MultisigWallet.dfy`, `AnomalyDetector.dfy`, `Allowance.dfy`, `CallGraph.dfy` | the other components, each with its class or loops |

Storage fields marked as history are written by the model and read by no entry point; they only record
what happened (payouts, votes, executions) so that theorems can speak of it. Token contracts are one map
of balances, and address 0 stands for the contract under study. `Outside` calls let anybody else move
tokens, gifts to the contract included; a payout addressed to the contract itself counts as a gift.

Inputs that come from elsewhere are parameters of a call: the mentor's tier and the token price, the oracle
reading, the answers of reputation, insurance and staking prechecks, the verification of a mentor, the
pause guardian, the success of a token's `transfer_from`, and who signed.

## Where code and documentation disagree

The model follows the code. The differences it makes visible:

- `dispute_milestone` is documented to lead to an arbitrated split (`escrow/src/lib.rs:4219-4222`), but no entry
  point takes a milestone escrow out of Disputed: `DisputedMilestonesStayLocked`.
- Isolated escrows "cannot be released" (`escrow/src/lib.rs:5560-5562`), but only two exits look at the flag:
  `IsolationClosesTwoExits`, `IsolationIsIgnored`.
- `monitor_escrow_invariants` compares what was paid with what is left instead of with the quoted amount:
  `MonitorPassesIff` says exactly when it passes.
- Session ids are never reusable, and the dollar and path-payment constructors use one constant id each, so
  each of them succeeds at most once in the life of a contract: `SessionIdsAreSpentForever`.
- Standard and milestone escrows number their records separately but share the log's keys: `LogIsHistoryIff`.
- The cooling-off period between administrators (`contracts/shared/src/admin.rs:24-25`) does not cover
  emergency revocations, and the administrator in office names the multisig that revokes:
  `ChangesSpaced`, `RevocationsSkipCoolingOff`, `AppointingSkipsAllDelays`.
- The breaker's window is called rolling (`contracts/shared/src/emergency.rs:19-24`) but starts anew at the first release
  after it has run out, so a day that cuts two windows is bounded by twice a tenth of the pool: `EmergencyReleasesPerDay`.
- A bounty may be posted with milestones already completed; their share can never leave the contract:
  `LockedForever`, `LockedShares`. A reward whose 128-bit product with a milestone's basis points overflows can be
  neither completed nor refunded while that milestone is open: `CompletionSucceedsIff`, `RefundSucceedsIff`.
- The harness asserts `approval_count <= signers.len()` after every step. From a state where that holds, exactly two
  steps break it: a signature on a proposal that already has as many approvals as there are signers, and the
  removal of a signer while there is such a proposal: `StepKeepsCountsIff`, `AssertionHoldsIff`. Both occur:
  `CountOutgrowsSigners`, `SigningOutgrowsSigners`.
- Approvals in the wallet outlive signers (`ApproversMayHaveLeft`): a payment rests on present signers if and only if
  no approver of its transaction was removed and not added back, `PaymentRestsOnSignersIff`.
- The wallet counts repeated initial signers twice: `SignersOnEveryRun`. With a threshold above the number of distinct
  signers it can pay nothing until it is reconfigured, and with one up to that number it can: `PaymentPossibleIff`.
- The detector never lists a monitored user: `NobodyIsIndexed`. Its dispute limit vanishes at the largest
  32-bit threshold: `LargestThresholdNeverHolds`.

## Model

| member | source | states |
|---|---|---|
| `Fees.FeeWithinCap` | escrow/src/lib.rs:1421-1473 | No configuration, staking tier or price makes a fee negative or more than a tenth of the amount. |
| `Fees.NetMonotone` | escrow/src/lib.rs:1421-1473 | A mentor never nets less from a larger gross, even where the volume discount sets in. |
| `Fees.FeeFallsWithPrice` | escrow/src/lib.rs:974-992 | A dearer token never raises a fee; without dynamic pricing or a schedule the price has no effect. |
| `Fees.FeeMonotoneIff` | escrow/src/lib.rs:1463-1473 | The fee itself is monotone in the amount if and only if, at threshold t, rate b and discount d <= b in basis points, (t + 1) d <= b + (t b mod 10000), or, for d > b, t b < 10000. |
| `Fees.FeeDropsAtThreshold` | escrow/src/lib.rs:1463-1473 | A concrete schedule under which 1001 pays less fee than 1000. |
| `Fees.FlatFeeSuperadditive` | escrow/src/lib.rs:1553-1566 | Splitting an amount in two loses at most one unit of flat fee, and never gains any. |
| `EscrowFunds.SolvencyOnEveryRun` | escrow/src/lib.rs:1755-1968 | In every run from any initial ledger the balance in each token is the sum of live escrow amounts and uncompleted milestones plus what the contract owns outright, and no live escrow is uncovered. |
| `EscrowFunds.AttemptKeeps` | escrow/src/lib.rs:1622-4621 | Every entry point that commits keeps the whole invariant: solvency in all tokens, accounting of every escrow, soundness of every milestone escrow. |
| `EscrowFunds.GenesisOk` | escrow/src/lib.rs:685-752 | The storage that initialisation leaves behind satisfies the invariant on any ledger. |
| `EscrowFunds.LifetimePayouts` | escrow/src/lib.rs:1787-1847 | Lifetime payouts of an escrow equal the quoted amount exactly when it is terminal; before that they and the remaining amount make up the quoted amount. |
| `EscrowFunds.NothingGetsStuck` | escrow/src/lib.rs:1971-2540 | In every reachable state the admin can release or refund an Active escrow and refund a Disputed one, and can split the Disputed one if and only if it is not isolated. |
| `EscrowFunds.IsolationClosesTwoExits` | escrow/src/lib.rs:5560-5609 | Isolation refuses ordinary release and dispute resolution; in every reachable state the admin still releases an isolated escrow whole, by session or in any batch that fits, and refunds it. |
| `EscrowFunds.IsolationIsIgnored` | escrow/src/lib.rs:5560-5609 | Every other call, automatic, manual and emergency release included, succeeds or fails with the same effect whatever escrows are isolated. |
| `EscrowFunds.MonitorPassesIff` | escrow/src/lib.rs:3564-3571 | The monitor reports funds as conserved exactly on resolved escrows and on unreleased ones with at least half of the quote left. |
| `EscrowAuthority.PayoutsAreAuthorised` | escrow/src/lib.rs:1681-3110 | Money leaves an escrow only by the learner or admin releasing, the admin splitting, refunding or recovering, an automatic release that is due and cleared, or a fully approved and timely emergency action; never by the mentor alone. |
| `EscrowAuthority.CallsSucceedIff` | escrow/src/lib.rs:1681-2540 | In every reachable state a release or settlement commits if and only if its own checks pass: no token trap, underflow, illegal transition or missing session can refuse it. An emergency execution may commit as a recorded failure; see the next row. |
| `EscrowAuthority.EmergencyReleasesIff` | escrow/src/lib.rs:2941-3050 | In every reachable state an emergency execution releases if and only if the action is open, its parameters never failed, four distinct registered signers approved it, a day has passed, the caller holds the unexpired role, the escrow is Active with the proposed amount, and ten times the window's total with it stays within the Active pool; otherwise it commits nothing but the failure. |
| `EscrowAuthority.CreationSucceedsIff` | escrow/src/lib.rs:3842-4508 | In every reachable state a plain, dollar, path-payment or milestone creation succeeds if and only if its terms are in range, its tokens approved, the learner can pay, the session end is not stale, the price is positive and fresh, and no escrow has its session id. |
| `EscrowAuthority.MilestonePayoutsAreAuthorised` | escrow/src/lib.rs:4091-4195 | A milestone is paid only by its learner, and only while pending in an Active milestone escrow. |
| `EscrowAuthority.MilestonePaysTheRightHands` | escrow/src/lib.rs:4150-4182 | A completed milestone moves its recorded fee to the treasury and its recorded net to the mentor, together its amount. |
| `EscrowAuthority.CreationTakesTheDeposit` | escrow/src/lib.rs:4519-4562 | A plain or path-payment creation adds one record with the parties, token, amount and session plan it was called with, moves exactly that amount from the learner to the contract, and changes no other record or balance. |
| `EscrowAuthority.DollarsAreConverted` | escrow/src/lib.rs:3864-3890 | A creation in dollars deposits the oracle amount, rounded down by less than one token unit, in the same way. |
| `EscrowAuthority.ResolutionPaysByPercentage` | escrow/src/lib.rs:2395-2417 | The mentor gets the percentage of what is left rounded down by less than a unit, all at 100 and nothing at 0; the learner gets the rest; no fee. |
| `EscrowAuthority.RefundPaysTheLearner` | escrow/src/lib.rs:2505-2515 | In every reachable state a refund moves the quoted amount less everything paid out before to the learner, after which payouts come to the quoted amount. |
| `EscrowAuthority.LowFeeReleasesOnEveryRun` | escrow/src/lib.rs:1728-1750 | In every run a mentor and a learner get at most five ordinary releases below the low-fee threshold, and the stored counter counts them. |
| `EscrowFunds.TerminalForever` | escrow/src/lib.rs:2483-2520 | A Released, Refunded or Resolved escrow record never changes again in any run. |
| `EscrowFunds.AttemptEvolves` | escrow/src/lib.rs:5654-5683 | No call changes the parties, token, quote or session plan of an escrow; its status moves along legal edges only; its session count never falls. |
| `EscrowFunds.UnpaidCoversSessions` | escrow/src/lib.rs:1787-1795 | The sessions still to be paid never exceed what is left, so no partial subtraction underflows. |
| `EscrowFunds.PayEscrowKeeps` | escrow/src/lib.rs:4293-4322 | A legal payout never traps on a short balance and keeps the vault sound. |
| `EscrowFunds.PaySessionsKeeps` | escrow/src/lib.rs:1787-1847 | Any number of remaining sessions can be paid, and the invariant is kept. |
| `EscrowFunds.ReleaseRestKeeps` | escrow/src/lib.rs:4293-4322 | The rest of an Active escrow can always be released, at the configured and at the flat fee. |
| `EscrowFunds.ResolveKeeps` | escrow/src/lib.rs:2371-2420 | The admin can split a Disputed escrow that is not isolated at any percentage, and the split keeps the invariant. |
| `EscrowFunds.RefundKeeps` | escrow/src/lib.rs:2481-2520 | The admin can refund any live escrow, and the refund keeps the invariant. |
| `EscrowFunds.PayoutReachesTheRightHands` | escrow/src/lib.rs:4302-4321 | A release moves the recorded fee to the treasury, the recorded net to the mentor, and changes no other balance of any token. |
| `EscrowFunds.SplitReachesTheRightHands` | escrow/src/lib.rs:2399-2417 | A split gives the mentor the floored percentage and the learner the rest, and nobody else anything. |
| `EscrowFunds.MilestonesOnEveryRun` | escrow/src/lib.rs:4103-4189 | Fees and nets of a milestone escrow add up to its completed amounts; Released means all completed, Disputed means exactly one disputed; each milestone has been paid its amount once or nothing. |
| `EscrowFunds.CompleteMilestoneKeeps` | escrow/src/lib.rs:4091-4195 | The learner can always complete a pending milestone of an Active escrow, and the invariant is kept. |
| `EscrowFunds.DisputedMilestonesStayLocked` | escrow/src/lib.rs:4223-4265 | A disputed milestone escrow stays as it is in every run, and a positive amount stays owed and covered for ever. |
| `EscrowLog.LogsOnEveryRun` | escrow/src/lib.rs:5654-5683 | Every transition log is an interleaving of at most two histories of legal edges that start Pending and end in the stored statuses, in order of time. |
| `EscrowLog.LogIsHistoryIff` | escrow/src/lib.rs:4046 | A log is one unbroken chain ending in the stored status if and only if its key is not shared by a standard and a milestone escrow. |
| `EscrowIndex.IndexesOnEveryRun` | escrow/src/lib.rs:4563-4588 | Each mentor and learner index is exactly the ascending list of the ids whose record names that party. |
| `EscrowIndex.SessionIdsAreSpentForever` | escrow/src/lib.rs:4486-4508 | No two escrows of a run carry the same session id; so the constructors with a constant id succeed once at most. |
| `EscrowIndex.PagesArePrefixes` | escrow/src/lib.rs:3722-3764 | The first k pages of any size are the first k times min(size, 50) records of an index, in order. |
| `EscrowIndex.RecordsOfParty` | escrow/src/lib.rs:3735-3741 | The records behind an index are the records of its ids, one for each and none missing. |
| `EscrowIndex.PagesListTheParty` | escrow/src/lib.rs:3722-3764 | In every run, enough pages of any positive size list every escrow of a party exactly once, oldest first. |
| `EscrowIndex.SizeZeroShowsNothing` | escrow/src/lib.rs:3722-3742 | Page size 0 shows nothing however many pages are read. |
| `EscrowBatch.PartialsEffect` | escrow/src/lib.rs:1755-1848 | n partial releases by the admin all succeed and together have the effect of n sessions, each charged its own fee. |
| `EscrowBatch.PaySessionsEffect` | escrow/src/lib.rs:1895-1960 | One payout of n sessions changes one record, one payout total, the balances by the recorded fee and net, what the contract owns outright by the part addressed to it, and, on closing, the log and the session key, and nothing else. |
| `EscrowBatch.BatchRefinesPartials` | escrow/src/lib.rs:1859-1968 | A batch of n sessions ends in the storage of n partial releases except that the difference in fee is with the treasury instead of the mentor: balances in other tokens and of everybody else are equal. Under a flat rate that difference is 0 to n - 1 units. |
| `EscrowBatch.FeeGapIsReached` | escrow/src/lib.rs:1895-1912 | The bound on the fee difference is attained. |
| `EscrowRecovery.RetriesOnEveryRun` | escrow/src/lib.rs:2061-2122 | An escrow sees at most ten failed automatic releases in any run, no attempt before the previous backoff has ended. |
| `EscrowRecovery.BackoffValues` | contracts/shared/src/failure_tracking.rs:85-106 | The backoff is one, two and four hours, then eight hours for every later attempt. |
| `EscrowRecovery.EmergencyTakesFiftyFiveHours` | escrow/src/lib.rs:2758-2771 | An escrow becomes open to an emergency proposal no sooner than 55 hours after its first failure. |
| `EscrowRecovery.RecoveryPhases` | escrow/src/lib.rs:3293-3313 | Manual recovery is open exactly at five to nine failures and an emergency proposal exactly at ten, so the two exclude each other and automatic release. |
| `EscrowRecovery.ApproveKeeps` | escrow/src/lib.rs:2873-2925 | An approval adds one new distinct approver and keeps the voting record sound. |
| `EscrowRecovery.EmergencyOnEveryRun` | escrow/src/lib.rs:2741-3050 | Counts are counts of distinct approvers and at most four, no action both ran and failed, an executed one has all four, and no escrow is released by two actions. |
| `EscrowRecovery.ExecutionIsAuthorised` | escrow/src/lib.rs:2941-3050 | A successful execution had four distinct registered approvers, a day of delay, parameters that never failed, paid out exactly the proposed amount, and leaves the breaker's window, this amount included, within a tenth of the Active pool. |
| `EscrowRecovery.EmergencyReleasesPerDay` | contracts/shared/src/emergency.rs:222-264 | In every run the breaker's total is the sum of the emergency releases of its window, at most a tenth of the largest Active pool at any of them, and any half-open 24 hours see at most twice that. |
| `EscrowRecovery.FailedParametersStayBlocked` | escrow/src/lib.rs:3202-3219 | Once a set of parameters has failed, no action with these parameters is executed later in any run. |
| `EscrowGenesis.GenesisReady` | escrow/src/lib.rs:685-752 | The storage that initialisation leaves behind meets the premises of every run theorem above, on any ledger. |
| `EscrowGenesis.EverythingOnEveryRun` | escrow/src/lib.rs:685-5683 | In every run of an initialised contract funds, indexes, session ids, logs, retries, emergency votes, breaker and low-fee counter are all sound together. |
| `AdminHandover.HandoversSpaced` | escrow/src/lib.rs:755-833 | In every run the i-th and j-th accepted handover are at least (j - i) times 72 hours apart, whoever appoints a multisig and revokes in between, and every acceptable proposal stems from the admin in office. |
| `AdminHandover.ChangesSpaced` | escrow/src/lib.rs:755-849 | In every run with a clock that never runs backwards, successive changes are 72 hours apart between handovers, 48 when a handover follows a revocation, 0 before a revocation. |
| `AdminHandover.ChangesAreAuthorised` | escrow/src/lib.rs:755-849 | In every run each change rests on an administrator's word: a handover on a proposal by the administrator it replaces, a revocation on a multisig that was appointed by somebody in office at the time. |
| `AdminHandover.AppointingSkipsAllDelays` | escrow/src/lib.rs:2651-2674 | In any state the admin in office can hand the office to anybody at once, by appointing a multisig that revokes it. |
| `AdminHandover.RevocationsSkipCoolingOff` | contracts/shared/src/admin.rs:21-25 | A run with a revocation at the moment of a handover and a handover 48 hours after a revocation. |
| `AdminHandover.AdminRole.ProposeAdminChange` | escrow/src/lib.rs:755-793 | The stored role is the specified one: the admin alone, 24 hours or more after the last handover, replaces whatever was pending by a transfer due in 48 hours; a refusal changes nothing. |
| `AdminHandover.AdminRole.AcceptAdminRole` | escrow/src/lib.rs:796-833 | The stored role is the specified one: the nominee alone, once due, becomes admin and restarts the cooling-off period; a refusal changes nothing. |
| `AdminHandover.AdminRole.RevokeAdminEmergency` | escrow/src/lib.rs:838-849 | The stored role is the specified one: the multisig alone replaces the admin at once, drops what is pending and leaves the cooling-off period as it was. |
| `AdminHandover.AdminRole.SetMultisigAdmin` | escrow/src/lib.rs:2651-2674 | The stored role is the specified one: the admin alone names the multisig, at once; a refusal changes nothing. |
| `EscrowContract.CalculateBackoffDelay` | contracts/shared/src/failure_tracking.rs:85-106 | The doubling loop with its early exit computes the capped closed form. |
| `EscrowContract.ValidateEmergencySignatures` | contracts/shared/src/emergency.rs:172-192 | The nested loops accept exactly four distinct registered signers. |
| `EscrowContract.IsValidEmergencyConfig` | contracts/shared/src/emergency.rs:145-162 | The pairwise comparison accepts exactly seven distinct addresses. |
| `EscrowContract.IsEmergencySigner` | contracts/shared/src/emergency.rs:165-167 | Membership in the registered list. |
| `EscrowContract.CheckMilestones` | escrow/src/lib.rs:3997-4011 | Accepts exactly the amounts that are positive and bounded one by one and in total, and returns their sum. |
| `EscrowContract.Contract.constructor` | escrow/src/lib.rs:685-752 | Leaves the specified genesis storage. |
| `EscrowContract.Contract.TransitionStatus` | escrow/src/lib.rs:5654-5683 | Appends the transition if its edge is legal, and panics otherwise. |
| `EscrowContract.Contract.DoRelease` | escrow/src/lib.rs:4293-4322 | The storage is that of a payout of everything left at the configured fee, logged as Released; a short balance or an illegal edge leaves no trace. |
| `EscrowContract.Contract.DoReleaseSimple` | escrow/src/lib.rs:3361-3405 | The same payout, always at the flat rate, whatever schedule is set. |
| `EscrowContract.Contract.CreateEscrowInternal` | escrow/src/lib.rs:4440-4621 | The storage is that of one new Active escrow under the next id with its deposit, log entry, spent session id and both index entries; any failed check leaves no trace. |
| `EscrowContract.Contract.CreateEscrow` | escrow/src/lib.rs:1622-1646 | A plain creation: quoted and deposited amount coincide. |
| `EscrowContract.Contract.CreateEscrowUsd` | escrow/src/lib.rs:3842-3888 | A creation at a fresh positive oracle price under the constant dollar session id. |
| `EscrowContract.Contract.CreateEscrowPathPayment` | escrow/src/lib.rs:3890-3940 | A creation in the destination asset under the constant path session id, both assets approved. |
| `EscrowContract.Contract.ReleaseFunds` | escrow/src/lib.rs:1681-1752 | The storage is that of the full release by learner or admin with the low-fee counter advanced; a refused payout restores the counter. |
| `EscrowContract.Contract.ReleasePartial` | escrow/src/lib.rs:1755-1848 | The storage is that of one floored session share, the last one with the dust, which also closes the escrow and frees its session key. |
| `EscrowContract.Contract.BatchRelease` | escrow/src/lib.rs:1859-1968 | The storage is that of n session shares paid at once, closing with the dust when they are the last. |
| `EscrowContract.Contract.AdminRelease` | escrow/src/lib.rs:1971-1987 | The storage is that of a full release of an Active escrow by the admin, isolated or not. |
| `EscrowContract.Contract.TryAutoRelease` | escrow/src/lib.rs:2036-2125 | The storage is that of a due release with its failure record cleared, or of one more failure with the next backoff; a refused precheck commits. |
| `EscrowContract.Contract.ManualRecoveryRelease` | escrow/src/lib.rs:3283-3358 | The storage is that of a flat-rate release with the failure record marked recovered, open at five to nine failures only. |
| `EscrowContract.Contract.Dispute` | escrow/src/lib.rs:2278-2301 | The storage is that of an Active escrow frozen by one of its parties, with the reason and a log entry. |
| `EscrowContract.Contract.ResolveDispute` | escrow/src/lib.rs:2371-2420 | The storage is that of the split with its two optional transfers; a trap in the second undoes the first. |
| `EscrowContract.Contract.Refund` | escrow/src/lib.rs:2481-2520 | The storage is that of everything left returned to the learner. |
| `EscrowContract.Contract.SetIsolation` | escrow/src/lib.rs:5566-5609 | The flag of one escrow is set or cleared, by the admin alone. |
| `EscrowContract.Contract.ProposeEmergencyAction` | escrow/src/lib.rs:2741-2866 | The storage is that of a new action on an Active escrow with ten failures, approved by its proposer, unless these parameters ever failed. |
| `EscrowContract.Contract.ApproveEmergencyAction` | escrow/src/lib.rs:2873-2925 | The storage is that of one more approver of an open action with fewer than four. |
| `EscrowContract.Contract.ActivePoolTotal` | escrow/src/lib.rs:3256-3272 | The loop over all ids sums exactly the positive amounts of Active escrows. |
| `EscrowContract.Contract.ExecuteEmergencyAction` | escrow/src/lib.rs:2941-3050 | The storage is that of the release with its breaker and marks, or, on any refused check, of the permanent failure; a payout that traps leaves no trace. |
| `EscrowContract.Contract.CreateMilestoneEscrow` | escrow/src/lib.rs:3976-4065 | The storage is that of a milestone escrow under the next id with all milestones pending and the learner debited their sum. |
| `EscrowContract.Contract.CompleteMilestone` | escrow/src/lib.rs:4091-4195 | The storage is that of one milestone paid, the escrow Released and logged exactly when it was the last. |
| `EscrowContract.Contract.DisputeMilestone` | escrow/src/lib.rs:4223-4265 | The storage is that of one milestone and its escrow Disputed, both parties having signed. |
| `EscrowContract.Contract.UpdateFee` | escrow/src/lib.rs:874-893 | Sets a flat fee within the cap for the admin. |
| `EscrowContract.Contract.SetFeeSchedule` | escrow/src/lib.rs:1148-1187 | Sets a valid schedule for the admin. |
| `EscrowContract.Contract.SetEmergencySigners` | escrow/src/lib.rs:4668-4692 | Registers exactly seven distinct signers for the admin. |
| `EscrowContract.Contract.GrantEmergencyAdmin` | escrow/src/lib.rs:2700-2738 | Grants the emergency role for 72 hours. |
| `EscrowContract.Contract.GetEscrowsByMentor` | escrow/src/lib.rs:3722-3742 | Reads one page of the mentor index record by record, or aborts beyond 32 bits. |
| `EscrowContract.Contract.GetEscrowsByLearner` | escrow/src/lib.rs:3744-3764 | Reads one page of the learner index record by record, or aborts beyond 32 bits. |
| `BountyFunds.DustBound` | contracts/bounty/src/lib.rs:248-257 | Shares of a full set of milestones add up to the reward less dust of under one unit per milestone. |
| `BountyFunds.DustIsReached` | contracts/bounty/src/lib.rs:502 | The dust bound is attained: a reward of 1 in two halves pays nothing. |
| `BountyFunds.Conservation` | contracts/bounty/src/lib.rs:495-535 | Paid plus refunded plus outstanding is what the milestones open at posting were worth. |
| `BountyFunds.ConservationOnEveryRun` | contracts/bounty/src/lib.rs:427-815 | In every run and any order of payment: conservation, the dust bound, each milestone paid its share once or nothing, and Verified exactly when all are completed unless all were posted so. |
| `BountyFunds.BalanceOnEveryRun` | contracts/bounty/src/lib.rs:265-267 | In every run the balance is exactly the unspent rewards and gifts, and covers all outstanding bounties. |
| `BountyFunds.CompletionSucceedsIff` | contracts/bounty/src/lib.rs:495-517 | An admissible completion succeeds if and only if something is left to pay and its products fit in 128 bits. |
| `BountyFunds.RefundSucceedsIff` | contracts/bounty/src/lib.rs:772-803 | The poster of an open bounty is refunded if and only if the deadline has passed and the products fit in 128 bits. |
| `BountyFunds.PaymentsReachTheRightHands` | contracts/bounty/src/lib.rs:427-815 | Each payment is one transfer of the worth of the milestones it closes, to a learner with an undisputed claim or back to the poster after the deadline; no other entry point moves tokens out. |
| `BountyFunds.LockedForever` | contracts/bounty/src/lib.rs:229-815 | From any reachable state on, whatever is called, what the contract holds of a bounty is what is outstanding and an amount fixed at posting, which never leaves and which the balance covers. |
| `BountyFunds.LockedShares` | contracts/bounty/src/lib.rs:248-310 | That amount is the shares of the milestones posted as completed, and dust of less than one unit per milestone. |
| `BountyFunds.PostedCompletedIsLost` | contracts/bounty/src/lib.rs:229-290 | A bounty posted with all milestones completed never pays or refunds anything. |
| `BountyFunds.AttemptKeeps` | contracts/bounty/src/lib.rs:225-815 | Every entry point keeps books and balance. |
| `BountyContract.FullySplit` | contracts/bounty/src/lib.rs:251-258 | The loop decides whether the basis points add up to 10000. |
| `BountyContract.SettleAll` | contracts/bounty/src/lib.rs:495-510 | The loop sums and completes all open milestones, or aborts on a product beyond 128 bits. |
| `BountyContract.SumOpen` | contracts/bounty/src/lib.rs:785-790 | The loop sums all open milestones, or aborts on a product beyond 128 bits. |
| `BountyContract.Contract.PostBounty` | contracts/bounty/src/lib.rs:229-325 | The storage is that of a new Open bounty with its reward debited, for milestones that split it fully and have descriptions. |
| `BountyContract.Contract.ClaimBounty` | contracts/bounty/src/lib.rs:337-408 | The storage is that of a first pending claim of a learner before the deadline; an Open bounty becomes Claimed. |
| `BountyContract.Contract.VerifyCompletion` | contracts/bounty/src/lib.rs:427-548 | The storage is that of everything open paid to the claimant and completed, the bounty Verified. |
| `BountyContract.Contract.VerifyMilestone` | contracts/bounty/src/lib.rs:555-688 | The storage is that of one open milestone paid, the bounty Verified exactly when it was the last open one. |
| `BountyContract.Contract.DisputeCompletion` | contracts/bounty/src/lib.rs:693-760 | The storage is that of a pending claim disputed by the poster within 48 hours. |
| `BountyContract.Contract.RefundBounty` | contracts/bounty/src/lib.rs:765-815 | The storage is that of everything open returned to the poster after the deadline, milestones left as they are. |
| `MultisigModel.CountOutgrowsSigners` | fuzz/fuzz_targets/fuzz_stateful_harness.rs:192-194 | A run in which a proposal has two approvals and the multisig one signer. |
| `MultisigModel.SigningOutgrowsSigners` | fuzz/fuzz_targets/fuzz_stateful_harness.rs:131-142 | A run in which a removal does no harm and a later signature breaks the asserted inequality. |
| `MultisigModel.BreakingSignFollowsDeparture` | fuzz/fuzz_targets/fuzz_stateful_harness.rs:131-142 | A signature breaks the inequality only if some approver of the proposal is no signer any more. |
| `GovernanceSystem.StepKeepsCountsIff` | fuzz/fuzz_targets/fuzz_stateful_harness.rs:187-195 | From a state where every approval count is within the signer count, a step keeps that if and only if it is no accepted signature on a proposal with as many approvals as signers and no accepted removal while there is such a proposal. |
| `GovernanceSystem.AssertionHoldsIff` | fuzz/fuzz_targets/fuzz_stateful_harness.rs:187-195 | The harness assertion holds throughout a run if and only if no step of the run is of these two kinds. |
| `TimelockModel.IdRoundTrip` | fuzz/fuzz_targets/fuzz_stateful_harness.rs:230-234 | Under a salt of one repeated byte an operation id determines caller, ready time and nonce. |
| `TimelockModel.SameIdIff` | fuzz/fuzz_targets/fuzz_stateful_harness.rs:230-235 | Two schedules by one caller at one ready time get the same id if and only if, byte by byte, the salts agree off the nonce and nonce plus salt agree modulo 256 on it. |
| `TimelockModel.IdsDifferWhenSaltsAgree` | fuzz/fuzz_targets/fuzz_stateful_harness.rs:230-235 | Different nonces get different ids, whoever schedules and whenever, if the salts agree on the nonce bytes. |
| `TimelockModel.SaltsCollide` | fuzz/fuzz_targets/fuzz_stateful_harness.rs:230-235 | Under arbitrary salts a second operation can replace the first one under the same id. |
| `GovernanceSystem.RunKeeps` | fuzz/fuzz_targets/fuzz_stateful_harness.rs:187-195 | In every run the threshold is between one and the signer count, which counts the signers; approval counts are numbers of approvers; no proposal is both executed and cancelled. |
| `GovernanceSystem.ExecutionsAreGoverned` | fuzz/fuzz_targets/fuzz_stateful_harness.rs:342-412 | Every timelock execution of every run is the only one of its operation, inside its window; if it stems from a proposal it comes 48 hours and 60 seconds after that execution at the earliest, and the proposal had the threshold of its moment in distinct approvers, each a signer when approving. |
| `GovernanceSystem.OneRunPerProposal` | fuzz/fuzz_targets/fuzz_stateful_harness.rs:376-385 | No two timelock executions stem from the same proposal. |
| `GovernanceSystem.OnlyAuthorisedSteps` | fuzz/fuzz_targets/fuzz_stateful_harness.rs:15-28 | Only a current signer adds an approval, and only its own; only the proposer or admin removes an operation, and not once it has run; an operation becomes done only inside its window. |
| `GovernanceSystem.MembershipIsGoverned` | fuzz/fuzz_targets/fuzz_stateful_harness.rs:143-175 | Once initialised, a step changes signers or threshold if and only if it executes an open, unexpired proposal with the threshold in distinct approvers whose action changes them, and then exactly as that action says. |
| `GovernanceSystem.ClosedStaysClosed` | fuzz/fuzz_targets/fuzz_stateful_harness.rs:19-23 | Counters never fall, executed and cancelled proposals are frozen, approvers are only gained. |
| `GovernanceObjects.Multisig.Init` | fuzz/fuzz_targets/fuzz_stateful_harness.rs:105-117 | The duplicate check by insertion accepts exactly lists of distinct signers. |
| `GovernanceObjects.Multisig.Propose` | fuzz/fuzz_targets/fuzz_stateful_harness.rs:118-130 | Leaves the specified state and result, the id spent on a late overflow. |
| `GovernanceObjects.Multisig.Sign` | fuzz/fuzz_targets/fuzz_stateful_harness.rs:131-142 | State and result are the specified ones: one more approver of an open proposal, a signer who has not approved, and otherwise the error of the first failed check. |
| `GovernanceObjects.Multisig.Execute` | fuzz/fuzz_targets/fuzz_stateful_harness.rs:143-175 | Leaves the specified state and result, the executed mark included when the action fails. |
| `GovernanceObjects.Multisig.Cancel` | fuzz/fuzz_targets/fuzz_stateful_harness.rs:176-186 | State and result are the specified ones: an open proposal cancelled by its proposer or a signer, and otherwise the error of the first failed check. |
| `GovernanceObjects.BuildId` | fuzz/fuzz_targets/fuzz_stateful_harness.rs:230-234 | The byte loops build the specified operation id. |
| `GovernanceObjects.Timelock.Schedule` | fuzz/fuzz_targets/fuzz_stateful_harness.rs:222-237 | Leaves the specified state and result, the nonce spent on a late overflow. |
| `GovernanceObjects.Timelock.Execute` | fuzz/fuzz_targets/fuzz_stateful_harness.rs:238-248 | Runs an operation once, inside its window, as specified. |
| `GovernanceObjects.Timelock.Cancel` | fuzz/fuzz_targets/fuzz_stateful_harness.rs:249-255 | Removes an operation that has not run, for its proposer or the admin. |
| `GovernanceObjects.System.Apply` | fuzz/fuzz_targets/fuzz_stateful_harness.rs:342-412 | One iteration of the harness loop does the specified step of the linked machines. |
| `GovernanceObjects.System.Replay` | fuzz/fuzz_targets/fuzz_stateful_harness.rs:342-416 | The harness loop reaches the specified state of the whole run. |
| `WalletSafety.SignersOnEveryRun` | multisig/src/lib.rs:47-73 | The threshold stays between one and the signer count, which exceeds the number of signers by the repetitions in the initial list: they agree if and only if it has none. |
| `WalletSafety.PaymentsOnEveryRun` | multisig/src/lib.rs:113-193 | A transaction is paid at most once, after its time-lock, with the threshold of its moment in distinct approvals by signers of their moment; the balance is what was received less the executed amounts. |
| `WalletSafety.OnlyExecutionsPay` | multisig/src/lib.rs:144-171 | Only an execution lowers the balance of the wallet, and it sends the proposed amount to the proposed recipient, approved and unlocked. |
| `WalletSafety.ApproversMayHaveLeft` | multisig/src/lib.rs:144-180 | A payment can rest on the approval of a signer who has since been removed. |
| `WalletSafety.PaymentRestsOnSignersIff` | multisig/src/lib.rs:144-238 | In every run from initialisation, the approvers recorded with a payment are all signers at that moment if and only if none of them was removed after approving without being added back. |
| `WalletSafety.KeepsApproversIff` | multisig/src/lib.rs:215-238 | Where all approvers of pending transactions are signers, a call keeps that if and only if it is not a successful removal of an approver of a pending transaction. |
| `WalletSafety.PresentThroughoutIff` | multisig/src/lib.rs:113-238 | Throughout a run every pending transaction rests on present signers if and only if no call of the run is such a removal. |
| `WalletSafety.TooFewSignersBlock` | multisig/src/lib.rs:144-172 | Any wallet whose threshold exceeds the number of addresses that are signers or have approved something pending pays nothing while nobody is added and the threshold stays. |
| `WalletSafety.PaymentPossibleIff` | multisig/src/lib.rs:47-73 | A funded wallet can pay anything at all without being reconfigured if and only if its threshold is at most the number of distinct addresses it was initialised with. |
| `WalletContract.Contract.constructor` | multisig/src/lib.rs:47-73 | The flag loop leaves the specified wallet. |
| `WalletContract.Contract.ProposeTransaction` | multisig/src/lib.rs:75-110 | The wallet is the specified one: a pending transaction under the next id, by anyone, of a positive amount. |
| `WalletContract.Contract.ApproveTransaction` | multisig/src/lib.rs:113-142 | The wallet is the specified one: one more approval flag and count for a pending transaction, by a signer who had not approved. |
| `WalletContract.Contract.ExecuteTransaction` | multisig/src/lib.rs:144-172 | The wallet is the specified one: the transaction paid and Executed, with enough approvals and after its time-lock; a short balance leaves no trace. |
| `WalletContract.Contract.CancelTransaction` | multisig/src/lib.rs:173-193 | The wallet is the specified one: a pending transaction cancelled by the admin or its proposer. |
| `WalletContract.Contract.AddSigner` | multisig/src/lib.rs:195-213 | The wallet is the specified one: flag and count together, for an address that was no signer. |
| `WalletContract.Contract.RemoveSigner` | multisig/src/lib.rs:215-238 | Commits the specified removal, or restores the flag. |
| `WalletContract.Contract.UpdateThreshold` | multisig/src/lib.rs:240-254 | Commits a threshold between one and the count. |
| `DetectorBounds.DisputesPerDay` | contracts/anomaly_detector/src/lib.rs:272-286 | Any half-open 24 hours of any run see at most twice the largest dispute threshold in disputes let through for a user, holds cleared and thresholds changed included. |
| `FixedWindows.TwiceTheLimit` | contracts/anomaly_detector/src/lib.rs:272-278 | A limit per fixed window admits at most twice the limit in any period of a window's length: its entries belong to two windows at most and are numbered or summed within each. Used for disputes per day and for emergency releases per day. |
| `DetectorBounds.LargestThresholdNeverHolds` | contracts/anomaly_detector/src/lib.rs:277-281 | At the largest 32-bit threshold any number of disputes at one moment is let through. |
| `DetectorBounds.BoundIsReached` | contracts/anomaly_detector/src/lib.rs:272-286 | With a threshold of one, two disputes a second apart pass. |
| `DetectorBounds.NobodyIsIndexed` | contracts/anomaly_detector/src/lib.rs:307-320 | The list of monitored users stays empty in every run. |
| `DetectorContract.Contract.CheckAnomaly` | contracts/anomaly_detector/src/lib.rs:250-338 | Metrics, hold and verdict are the specified ones: a held user is refused without counting, an expired window restarts, the saturating count is judged. |
| `DetectorContract.Contract.ClearHold` | contracts/anomaly_detector/src/lib.rs:342-357 | Clears a hold for the admin. |
| `DetectorContract.Contract.SetThresholds` | contracts/anomaly_detector/src/lib.rs:224-233 | Replaces the thresholds for the admin. |
| `AllowanceBounds.AllowanceOnEveryRun` | contracts/allowance/src/lib.rs:79-168 | Under one authorisation: at most max_periods pulls, together at most periods used times the amount per period, and any run of them spans a period for every step. |
| `AllowanceBounds.ReauthorisingResets` | contracts/allowance/src/lib.rs:95-103 | A new authorisation starts over: the next pull need not wait. |
| `AllowanceContract.Contract.Authorize` | contracts/allowance/src/lib.rs:70-110 | The storage is that of a fresh authorisation with positive terms, its usage at zero. |
| `AllowanceContract.Contract.PullPayment` | contracts/allowance/src/lib.rs:112-175 | The storage is that of one more pull at the current time, within amount, number and spacing; a refused transfer leaves no trace. |
| `AllowanceContract.Contract.Revoke` | contracts/allowance/src/lib.rs:177-187 | Removes the authorisation. |
| `CallGraph.FindCircularDependencies` | tools/security_analysis/call_graph.py:97-117 | Returns exactly the simple cycles from every key of the graph, none twice. |
| `CallGraph.CyclesThrough` | tools/security_analysis/call_graph.py:101-116 | The breadth-first search from one node ends, and finds exactly the simple cycles through it. |
| `CallGraph.Expand` | tools/security_analysis/call_graph.py:104-116 | Expanding a path loses no cycle through it, records no walk that is not one, and lowers the weight of the queue. |
| `CallGraph.EntryOutweighs` | tools/security_analysis/call_graph.py:103-116 | A queued path outweighs all paths it can push, so the search terminates. |
| `CallGraph.CoverStep` | tools/security_analysis/call_graph.py:105-116 | After looking at an edge every cycle through the path is recorded, queued, or uses a later edge. |

## Left out

- EscrowFunds.SolvencyOnEveryRun: does not cover `emergency_rollback` and the other disaster-recovery entry points, which put old records back after money has moved.
- EscrowFunds.AttemptKeeps: 64-bit timestamps are unbounded numbers here, so a deadline that would overflow and panic never arrives instead.
- EscrowRecovery.FailedParametersStayBlocked: the SHA-256 hash of the parameters is replaced by the parameters themselves, and so is the hash of a session id.
- GovernanceSystem.ExecutionsAreGoverned: salts repeat one byte, as in every step of the harness; `SameIdIff` says exactly when other salts collide, and `SaltsCollide` gives a pair that does.
- DetectorBounds.DisputesPerDay: requires thresholds below the largest 32-bit number; `LargestThresholdNeverHolds` shows that the limit does not exist there.
- AllowanceBounds.AllowanceOnEveryRun: speaks of one authorisation at a time, because `authorize` forgets earlier pulls.
- Token contracts, signatures, events and storage lifetimes: a balance map, caller parameters, nothing, and entries that never expire.
- 32-bit and 64-bit id counters and approval counts are unbounded except where an overflow is a modelled error.
- `get_dynamic_fee` and the per-ledger price cache: the price is an arbitrary input of each fee.
- `update_fee_schedule`: the fields of a schedule are set at once.
- Records of the old escrow layout, gas estimation, the stuck-escrow watchlist, reviews, status listings, payment audits and `resolve_dispute_secure`: they move no money or wrap an entry point that is modelled.
- The reentrancy guard and the per-bounty lock: within one atomic call they are taken and given back.
- The state-lock helpers at the end of the escrow contract: nothing calls them.
- The admin of the escrow model may change at any moment; how it may change is the subject of `AdminHandover`.
- Escrow-creation warnings and the volume limit of the detector: counters of the same shape, the latter fed with amounts of either sign.
- `find_attack_paths` and the extraction of calls from source text: the search starts from a built graph.
- The bridge receiver, certificates, badges, insurance, the other fuzz targets, the SDK and the deployment tools.
