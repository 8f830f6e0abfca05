# CosmosVote protocol model

A Dafny model of the three on-chain contracts (governance, token, treasury), of the notification
watcher that follows their events, and of the token-amount printer of the frontend, with proofs of what
they promise.

How it is laid out:

- `Host.dfy`: addresses, 64- and 128-bit integers, the ledger clock, and the three ways a call ends (success,
  error code, panic). A call that does not succeed leaves the state as it was.
- `TokenSpec.dfy`, `GovernanceSpec.dfy`, `SystemSpec.dfy`: what each call does, without the running counters the
  contracts keep. A motion is its terms and its ballots; tallies, supply, active count and last-proposal times are
  computed from the maps they summarise. `SystemSpec` composes the contracts into one ledger and defines runs:
  arbitrary interleavings of transactions, failed ones included.
- `GovernanceCalls.dfy`, `TokenCalls.dfy`: for every call, exactly when it succeeds and every field it changes, written out
  in stored values, clock and arguments; that each error code is true, and what a call can panic at.
- `GovernanceLaws.dfy`, `SystemLaws.dfy`: invariants and the shape of one step. `Lifecycle`, `QuorumUpdates`, `Payouts`,
  `SupplyBound`, `VotePeak`, `PeakAttained`, `TransferPeak`, `Cooldown`, `Handover`, `Allowances`, `Delegation`: theorems
  over whole runs.
- `TokenContract.dfy`, `GovernanceContract.dfy`, `TreasuryContract.dfy`: the contracts as written, as classes whose
  fields are the storage entries and counters. Each entry point is proved to end as the specification says, with
  the counters equal to what they summarise (`GovernanceStorage.dfy`). `System.dfy` drives the three objects with
  any list of transactions and proves that they pass through exactly the worlds of the specified run, so the
  theorems over runs are theorems about the stored state.
- `Paging.dfy`: the two proposal listings. `Watcher.dfy`, `Subscriptions.dfy`: the notification service, with
  crashes between any two steps. `Formatter.dfy`: padding, slicing and the comma-inserting regular expression.

`dafny verify dfyconfig.toml` checks everything.

Where the code and its comments disagree the model follows the code:

- `balance_at` (contracts/token/src/lib.rs:79-81) ignores the ledger it is asked about, so the claim that votes
  cannot exceed the supply (contracts/governance/src/lib.rs:410-422) is false once tokens move during a vote.
  `SupplyBound` proves the claim for balances that stand still and gives a run from deployment that breaks it.
  `PeakAttained` gives the condition: a voter can take a vote back and cast it again at the live balance, so an open
  tally can be carried beyond the supply by votes alone exactly when its peak, the sum of everybody's larger of recorded
  weight and castable balance, exceeds it; near the end of the u32 voter count, when the peak of few enough casters does.
  `TransferPeak` says exactly when one transfer followed by votes can, and when votes and transfers in any order can:
  unless the token is paused, when the tally plus one counting of all signers' tokens for every cast left in the voter
  count exceeds the supply.
- `retract_vote` does not decrement `voter_count`; `VoterCountCountsCasts` says what it counts instead.
- `update_quorum` is documented as allowed only before any votes (docs/api/governance.md:301). The code follows
  docs/adr/ADR-007-update-quorum-timelock.md instead: it asks for the first tenth of the voting period, looks at no
  vote, and does not check the basis-point floor again. `QuorumUpdates` gives a run from deployment with both effects,
  says exactly when a proposal with votes can have its quorum changed and when the floor can be undercut, and what the
  quorum is along any run.
- Token `initialize` accepts a negative supply; theorems about non-negative balances name that case.
- The cursor is described as resuming without replaying (notification-service/src/types.ts:44-45). That holds of a run
  exactly when no crash strikes after a dispatch of its page; `ReplaysExactlyTheForgotten` counts the repeats otherwise.
  `StuckForeverIffBlocked` says when polling never advances again, `PollsCatchUp` how far it gets otherwise.

Two hypotheses recur. `Genesis` is the state right after deployment. `SoundIssue` says that no token is
initialized with a negative supply. The exact conditions of `PeakAttained` and `TransferPeak` speak of an open vote whose
votes on record are by addresses that sign, which `RunKeepsSigned` proves of every run from deployment.

## Model

| member | source | states |
|---|---|---|
| Lifecycle.DecisionsAreSound | contracts/governance/src/lib.rs:573-669 | After any run from deployment the state of a proposal tells its history: it is Passed or Executed if and only if it has been finalised and its live records reach the quorum with more yes than no, Rejected if and only if it has been finalised and they do not, Cancelled if and only if it has been cancelled, Executed if and only if it has been executed, Active otherwise. |
| Lifecycle.LeavesActiveBy | contracts/governance/src/lib.rs:567-669 | A proposal leaves Active by a finalise call after its end, Passed or Rejected as the ballots decide and otherwise unchanged but for a winner, or by a cancel call of the admin; it is Cancelled in the second case only. |
| Lifecycle.EventsAreCalls | contracts/governance/src/lib.rs:306-742 | Something happens to a proposal exactly when a call addressed to it succeeds, and it is what that call, its caller and its arguments say. |
| Lifecycle.BornFromDraft | contracts/governance/src/lib.rs:228-247 | Every proposal of a run from deployment was created by a successful call, as that call's draft says. |
| Lifecycle.StaysAsDrafted | contracts/governance/src/lib.rs:228-247 | In every later state proposer, link, payout action, start and end are those of the creating call. |
| Lifecycle.ClosedIsFinal | contracts/governance/src/lib.rs:628-630 | Once a proposal has left Active, no later transaction changes its tallies, records, quorum, text or winner; the only further change is Passed to Executed. |
| Lifecycle.StatesDescend | contracts/governance/src/lib.rs:567-672 | Lifecycle measure over a run: states only descend Active > Passed > {Executed, Rejected, Cancelled}, so a proposal changes state at most twice. |
| Lifecycle.FinalisedAtMostOnce | contracts/governance/src/lib.rs:557-566 | The idempotency guarantee: along any run a proposal is finalised at most once, and never if it starts out closed or is still Active at the end. |
| Lifecycle.FinalisedOnlyAfterEnd | contracts/governance/src/lib.rs:577-580 | If a step takes a proposal from Active to Passed or Rejected, it is a finalise call on that proposal, strictly after its end time. |
| Lifecycle.FinaliseEnabled | contracts/governance/src/lib.rs:567-585 | Finalise succeeds if and only if the contract is ready and unpaused, the proposal exists, is Active and expired, and its tally sum fits i128. |
| Lifecycle.OverfullLeavesOnlyByCancel | contracts/governance/src/lib.rs:582-585 | An expired Active proposal whose tallies exceed i128 in sum can never be finalised: in any later state it is unchanged, or has been cancelled. |
| Lifecycle.OverfullBlocksTokenUpdate | contracts/governance/src/lib.rs:783-786 | Until that cancellation every attempt to replace the voting token fails. |
| Lifecycle.QuorumIsFixed | contracts/governance/src/lib.rs:725-735 | With a monotone clock, the quorum of a proposal never changes again once ten times the time since its start exceeds its period. |
| QuorumUpdates.UpdateSucceedsIff | contracts/governance/src/lib.rs:703-742 | Exactly when an update succeeds (caller, state, the first tenth of the period in the proposal's own times, supply), and that it changes the quorum and nothing else; votes and the floor play no part. |
| QuorumUpdates.UpdatableIff | contracts/governance/src/lib.rs:703-742 | Some update of a proposal succeeds if and only if the caller is the admin, the proposal is Active, the first tenth of its period is not over and the token has a supply. Votes on record play no part, so the documented rule is broken exactly where there are votes and this holds. |
| QuorumUpdates.FloorCanBeUndercutIff | contracts/governance/src/lib.rs:712-717 | An update below the quorum floor succeeds for some value if and only if an update is possible at all and the floor exceeds one. |
| QuorumUpdates.QuorumAlongRun | contracts/governance/src/lib.rs:185-199 | In any state of a run the quorum is the drafted one, which met the floor of its creation, or the argument of the latest update; it lies below that floor if and only if that update went below it. |
| QuorumUpdates.LatestUpdateIsCall | contracts/governance/src/lib.rs:703-742 | That latest update is a successful call by the admin of its time, within the window and the supply of its time. |
| QuorumUpdates.VotedQuorumLowered | contracts/governance/src/lib.rs:725-735 | A run from deployment in which a proposal with a vote on record has its quorum lowered from the floor of five to one. |
| Lifecycle.IdentityIsFixed | contracts/governance/src/lib.rs:219-244 | Proposer, payout action, link and voting period are those of creation in every later state of any run. |
| Lifecycle.VotesBindText | contracts/governance/src/lib.rs:323-347 | As long as a voter stays on record, the proposal keeps the title and description it had when the vote was cast. |
| Lifecycle.VotingTokenIsFixed | contracts/governance/src/lib.rs:783-789 | One token per vote: the voting token is the same from a proposal's creation to the end of its Active life. |
| Lifecycle.VoterCountCountsCasts | contracts/governance/src/lib.rs:440-493 | In every reachable state voter_count equals the number of live records plus the number of retractions so far; the code does not decrement it. |
| Lifecycle.RetractUndoesCast | contracts/governance/src/lib.rs:430-493 | Retracting after a cast restores every field of the proposal and its records, voter_count excepted. |
| Lifecycle.ChangeIsCastOtherwise | contracts/governance/src/lib.rs:516-546 | Changing a vote leaves exactly what casting the new vote in the first place would have left. |
| GovernanceLaws.EventMovesTally | contracts/governance/src/lib.rs:423-534 | Every vote event moves each tally by exactly its own weight: casts add, retractions subtract, changes move over, everything else leaves tallies alone. |
| GovernanceLaws.StepShape | contracts/governance/src/lib.rs:143-895 | Every successful governance call moves each existing proposal by at most one allowed event, touches no other proposal, and only a creation adds one. |
| GovernanceLaws.TotalZeroIffNoBallot | contracts/governance/src/lib.rs:329-336 | The tally test of amend_proposal is a test for live records: the total is zero if and only if nobody is on record. |
| GovernanceLaws.StepKeepsGovOk | contracts/governance/src/lib.rs:143-895 | Invariant of every call: recorded weights are positive, tallies fit i128, decisions match the records, at most 50 proposals are Active, and admin and token are set exactly when the contract is ready. |
| GovernanceCalls.CreateSucceedsIff | contracts/governance/src/lib.rs:143-227 | Exactly when a proposal is accepted: lengths, quorum, duration, fewer than fifty Active proposals, supply, floor, balance, and the cooldown since the proposer's newest proposal. |
| GovernanceCalls.CreationIsAsDrafted | contracts/governance/src/lib.rs:228-250 | An accepted proposal is the caller's draft field by field, open from now for its duration at this ledger, with no votes, choices or winner; nothing else changes. |
| GovernanceCalls.AmendRewritesText | contracts/governance/src/lib.rs:306-356 | Exactly when the text can be amended: the proposer, an Active proposal with nobody on record, lengths in range; title and description change and nothing else. |
| GovernanceCalls.CastRecordsBalance | contracts/governance/src/lib.rs:366-446 | Exactly when a cast succeeds, and that it records the option with the caller's live balance, adds one to the voter count and changes nothing else. |
| GovernanceCalls.RetractRemovesRecord | contracts/governance/src/lib.rs:464-497 | Exactly when a vote can be retracted, and that only its record goes. |
| GovernanceCalls.ChangeMovesRecord | contracts/governance/src/lib.rs:500-550 | Exactly when a vote can be changed, and that the record keeps its weight under the new option and nothing else changes. |
| GovernanceCalls.FinaliseDecides | contracts/governance/src/lib.rs:567-615 | Exactly when a proposal can be finalised, by anybody, and what it becomes: Passed if the three tallies reach the quorum with more yes than no, else Rejected; with choices, Passed with a first-past-the-post winner if the yes tally reaches the quorum, else Rejected; nothing else changes. |
| GovernanceCalls.CancelIsTheAdmins | contracts/governance/src/lib.rs:647-669 | Exactly the admin cancels, exactly Active proposals; the reason is stored and nothing else changes. |
| GovernanceCalls.UpdateSetsQuorum | contracts/governance/src/lib.rs:703-742 | Exactly when a quorum update succeeds, with the tenth of the period in the proposal's own times. |
| GovernanceCalls.ExecuteMarks | contracts/governance/src/lib.rs:621-644 | Exactly the admin executes, exactly Passed proposals, and where a treasury and an action are set only if the payout went through; the proposal is Executed and nothing else of it changes. |
| GovernanceCalls.SettingsTakeEffect | contracts/governance/src/lib.rs:92-122 | Exactly when initialize and each administrative call (lines 747-895) succeed, and the configuration fields each sets, all others unchanged. |
| GovernanceCalls.RefusalsAreTrue | contracts/governance/src/lib.rs:143-895 | Every error code any call returns names a condition of that call that really failed. |
| GovernanceCalls.PanicsAreAccountedFor | contracts/governance/src/lib.rs:143-895 | A call panics only over a missing voting token or admin, a sum of times or a count past its type, or a payout that failed. |
| GovernanceCalls.ActiveCountIs | contracts/governance/src/storage.rs:123-128 | The active count is the number of Active proposals. |
| GovernanceCalls.LatestStartIs | contracts/governance/src/storage.rs:229-239 | The last-proposal time is the start of the last proposal by that address. |
| GovernanceSpec.Winner | contracts/governance/src/lib.rs:590-602 | First past the post: the result is the lowest index holding the largest weight, for every non-empty weight vector. |
| GovernanceSpec.WinnerIsUnique | contracts/governance/src/lib.rs:590-602 | No other index qualifies as the lowest with the largest weight. |
| SystemLaws.RunKeepsWorldOk | contracts/governance/src/lib.rs:143-895 | The composed invariant holds in every state of every run. |
| SystemLaws.SubmitToGovernance | contracts/governance/src/lib.rs:143-895 | A signed transaction to the governance contract, executions aside, succeeds exactly as that contract's call does and changes that contract only; contracts do not sign. |
| SystemLaws.SubmitToToken | contracts/token/src/lib.rs:36-403 | A signed transaction to a token contract succeeds exactly as that contract's call does and changes that contract only. |
| SystemLaws.RunConservesTokens | contracts/token/src/lib.rs:36-281 | In every run of the composed system the balances of a token sum to what was issued; with non-negative initial supplies every balance lies between zero and that sum. |
| SystemLaws.DisburseShape | contracts/treasury/src/lib.rs:68-88 | A disbursement changes only the named token, by one conserving transfer, and announces recipient and amount. |
| SupplyBound.VotesWithinSupply | contracts/governance/src/lib.rs:418-422 | If no balance of the voting token changes while a proposal is Active, then over any interleaving its three tallies together never exceed the token's supply. |
| SupplyBound.CoveredNeverOverflows | contracts/governance/src/lib.rs:423-437 | Under that cover no checked addition in casting, changing, amending or finalising can fail. |
| SupplyBound.NoOverflowWhileFrozen | contracts/governance/src/lib.rs:418-437 | The same for whole runs: while no balance of the voting token changes during a proposal's Active life, no call addressed to it ever ends in an arithmetic overflow. |
| PeakAttained.TallyStaysWithinSupplyIff | contracts/governance/src/lib.rs:366-550 | Exact condition: no run of casts, retractions and changes, by whomever and whenever, carries an open tally beyond the supply if and only if no set of addresses small enough for what the u32 voter count still admits has a peak beyond it (in the peak of a set its members count with the larger of recorded weight and castable live balance, the others with their recorded weight); where the count has room for everybody, if and only if the peak of all is within the supply. |
| VotePeak.VotesStayWithinPeak | contracts/governance/src/lib.rs:366-550 | Over any run of votes the tally stays within the peak it started with. |
| VotePeak.VotesStayWithinPeakOf | contracts/governance/src/lib.rs:366-550 | More closely: every record a run of votes leaves is within what its owner reached at the start if it cast on the way and within its old record if not, and the voter count has risen by at least the number of those who cast. |
| PeakAttained.PeakIsAttained | contracts/governance/src/lib.rs:366-497 | For any set of addresses the voter count has room for, where one tally can hold its peak, some run of retractions and casts brings the total exactly to it. |
| PeakAttained.RunKeepsSigned | contracts/governance/src/lib.rs:366-374 | In every run from deployment each vote on record is by an address that signs, so its owner can retract or change it. |
| VotePeak.CoveredMeansSafe | contracts/governance/src/lib.rs:418-422 | Where current balances back every record the peak is within the supply, so no run of votes exceeds it. |
| PeakAttained.RecastCountsLiveBalance | contracts/governance/src/lib.rs:411-497 | Retracting and casting again, for any option, replaces the recorded weight in the total by the live balance if that tally can hold it, and by nothing otherwise, with no token moving in between. |
| TransferPeak.TransferBreaksIff | contracts/token/src/lib.rs:119-143 | After one transfer votes can carry the tally beyond the supply if and only if, for some set of addresses the voter count has room for, its peak plus what the transfer adds to it exceeds the supply; where there is room for everybody, if and only if the peak of all plus the transfer's gain does. |
| TransferPeak.GainAtMostAmount | contracts/token/src/lib.rs:119-143 | A transfer raises the peak by at most its amount, and by all of it exactly when the sender's reach does not rest on the tokens and the recipient may cast them on top of its record. |
| VotePeak.TallyWithinPeakAndRises | contracts/governance/src/lib.rs:414-422 | Over any transactions at all, while a proposal is Active its tally stays within the peak it started with plus the castable weight the transactions create: tokens received or minted, delegations withdrawn, restrictions lifted. |
| TransferPeak.TransfersAddAtMostTheirAmounts | contracts/token/src/lib.rs:119-143 | Over any run of votes and transfers the tally stays within the starting peak plus the amounts sent. |
| TransferPeak.VotesAndTransfersStayWithinIff | contracts/token/src/lib.rs:119-143 | Exact condition with transfers: while the token is not paused, no run of votes and transfers, in any order, carries an open tally beyond the supply if and only if the tally plus (2^32 - 1 - voter_count) times what signers hold together is within it; while it is paused, if and only if votes alone never do. |
| SupplyBound.TransferredTokensVoteTwice | contracts/token/src/lib.rs:79-81 | Because balance_at ignores the ledger it is given and reads the live balance, a voter who has voted can hand the tokens to a fresh address whose vote counts them again. |
| SupplyBound.TwentyVotesFromTenTokens | contracts/governance/src/lib.rs:410-415 | A run from deployment in which a supply of ten tokens casts twenty votes, against the comment that later balance changes cannot affect the tally. |
| Payouts.PaidExactlyOnce | contracts/governance/src/lib.rs:628-641 | After any run from deployment the payout log holds exactly one entry per Executed proposal with an action when a treasury is configured, none otherwise; each entry is the action in the draft of the call that created its proposal; and the treasury has announced exactly that log. |
| Payouts.ExecuteSucceedsIff | contracts/governance/src/lib.rs:621-644 | Exact condition for an execution to succeed, down to the treasury's obedience and the token transfer. |
| Payouts.DisburseSucceedsIff | contracts/treasury/src/lib.rs:68-82 | Exactly when the treasury pays: the invoker is the stored governance address, and the native client accepts or the named token is unpaused, holds a positive amount for it and the recipient's balance can take it. |
| Payouts.VaultCallsTakeEffect | contracts/treasury/src/lib.rs:60-68 | The treasury is told once whom to obey, by whoever calls first, and a signer makes it pay only if it is that address. |
| Payouts.PassedUntilExecuted | contracts/governance/src/lib.rs:628-641 | Over any run a Passed proposal stays exactly as it is, through any number of failing payouts and whatever else happens, until an execution of it succeeds, and is then Executed and otherwise unchanged. |
| Payouts.ExecuteMovesExactly | contracts/treasury/src/lib.rs:72-82 | A payout moves exactly its amount from the treasury to the recipient (net zero if that is the treasury), conserves the token and touches no other token. |
| Payouts.TreasuryBalanceIsExact | contracts/treasury/src/lib.rs:68-88 | Over any run, once the treasury obeys governance, its balance of a token is what it was plus what came in, less exactly the logged payouts in that token, less what the token admin burned from it. |
| Payouts.FundsLeaveOnlyByPayout | contracts/treasury/src/lib.rs:68-88 | Over any run the treasury's balance of a token drops by no more than the logged payouts in it, unless the token admin burns from the treasury. |
| Cooldown.RateBound | contracts/governance/src/lib.rs:211-220 | While the cooldown is a constant c > 0, no window of length t holds more than t/c + 1 of a proposer's new proposals. |
| Handover.PendingIsOpenOffer | contracts/governance/src/lib.rs:747-771 | In every reachable state the pending admin is the addressee of the latest offer not yet accepted, cancelled or replaced, and that offer was made by today's admin. |
| Handover.AdminChangesOnlyByAcceptance | contracts/governance/src/lib.rs:795-811 | Once set, the admin changes only by accept_admin from the addressee of the open offer. |
| Handover.AcceptanceMakesAdmin | contracts/governance/src/lib.rs:795-811 | In any run an acceptance succeeds if and only if the caller is the addressee of the open offer; it makes the caller admin, clears the offer and changes nothing else. |
| Allowances.ApprovalIsBudget | contracts/token/src/lib.rs:147-208 | From a successful approve call until the next for that pair, whatever else happens: amounts spent plus the stored remainder equal the approved amount, so no more than that is ever spent on it, and the expiry stays. |
| Allowances.SpentPlusRestIsApproved | contracts/token/src/lib.rs:147-184 | The same from any stored record, wherever in a run it is met, to any state before the next approval. |
| Allowances.NothingSpentAfterExpiry | contracts/token/src/storage.rs:154-170 | A transfer_from at a ledger later than the expiry changes nothing. |
| Allowances.SpendingSucceedsIffEffective | contracts/token/src/lib.rs:147-184 | A transfer_from succeeds if and only if it changes the world: failed or paused calls consume nothing. |
| Delegation.WeightIsExact | contracts/token/src/lib.rs:329-339 | The saturating loop computes the exact sum of the balances of the voter and its genuine delegators. |
| Delegation.WeightIsExactIff | contracts/token/src/lib.rs:329-339 | For any voter and any delegator list the loop gives exactly what the voter and its genuine delegators hold if and only if no holder with a positive balance is counted twice, or they hold the largest i128. |
| Delegation.ClaimsAreExactIff | contracts/token/src/lib.rs:323-339 | Any claims together weigh exactly what all holders behind them hold if and only if no holder with a positive balance is counted twice, within one list or across two claims, or those holders hold the largest i128 and at most one claim weighs anything. |
| Delegation.DelegationNeverMultiplies | contracts/token/src/lib.rs:323-339 | The weights of any set of distinct voters who have not delegated, each with a duplicate-free delegator list, sum to what the holders behind them hold, which is within the supply. |
| Delegation.ImproperClaimsMultiply | contracts/token/src/lib.rs:329-339 | Neither hypothesis can be dropped: duplicated delegators and voters who have delegated are counted twice. |
| TokenSpec.StepConserves | contracts/token/src/lib.rs:36-400 | Every call changes the sum of balances by exactly what it issues or destroys; both transfers conserve it. |
| TokenSpec.MoveConserves | contracts/token/src/lib.rs:177-182 | A move gives the recipient what it takes from the sender and nothing else, also when both are the same address, because the second balance is read after the first write. |
| TokenSpec.StepKeepsNonNegative | contracts/token/src/lib.rs:45-51 | Non-negative balances survive a call if and only if it is not an initialization with a negative supply, which the code accepts. |
| TokenSpec.PanicsExactlyWhen | contracts/token/src/lib.rs:119-281 | With non-negative balances no transfer, approval or burn overflows and a mint overflows exactly when the supply would; the only other panic is an admin call before initialization. |
| TokenCalls.TransferMoves | contracts/token/src/lib.rs:119-143 | Exactly when a transfer succeeds, and that it moves the amount and changes nothing else. |
| TokenCalls.TransferFromSpendsAllowance | contracts/token/src/lib.rs:147-184 | Exactly when a transfer_from succeeds (the record covers the amount at this ledger, expiry included), and that it moves the amount and takes it from the allowance, which keeps its expiry. |
| TokenCalls.ApproveStoresRecord | contracts/token/src/lib.rs:190-208 | Exactly when an approval succeeds, and the record it stores under owner and spender. |
| TokenCalls.MintIssues | contracts/token/src/lib.rs:215-233 | Exactly the admin mints, on an unpaused token, a positive amount that supply and balance can hold; only that balance changes. |
| TokenCalls.BurnIsTheAdmins | contracts/token/src/lib.rs:236-258 | Exactly the admin burns what others hold, on an unpaused token, within the balance; only that balance changes. |
| TokenCalls.BurnSelfDestroys | contracts/token/src/lib.rs:261-281 | Every holder burns its own within its balance, paused or not. |
| TokenCalls.RolesTakeEffect | contracts/token/src/lib.rs:36-59 | Exactly when initialize and the administrative calls (lines 346-403) succeed, and the fields each sets, all others unchanged. |
| TokenCalls.DelegateNamesAnother | contracts/token/src/lib.rs:290-305 | A delegation succeeds if and only if it names another address and the owner has none; the owner's entry is then that address and nothing else changes. |
| TokenCalls.UndelegateUndoesDelegate | contracts/token/src/lib.rs:290-316 | Undelegating after a delegation restores the state before it. |
| TokenCalls.DelegateGainsWeight | contracts/token/src/lib.rs:290-339 | After a delegation the delegate, listing the owner, weighs its own balance plus the owner's. |
| TokenCalls.DelegatorCannotCast | contracts/governance/src/lib.rs:408-412 | And the owner's cast on any proposal voted on with this token fails. |
| TokenCalls.RefusalsAreTrue | contracts/token/src/lib.rs:36-403 | Every error code any call returns names a condition of that call that really failed. |
| GovernanceStorage.StorageIsConsistent | contracts/governance/src/storage.rs:184-239 | Read off the storage alone: has-voted flags mark exactly the stored records, every recorded weight is positive, votes_yes, votes_no and votes_abstain equal the sums of the stored weights for their option, the active count counts the Active proposals, the last-proposal time is the start of the proposer's latest proposal, ids are 0..count-1. |
| GovernanceStorage.RetractReplaces | contracts/governance/src/lib.rs:485-489 | The unchecked subtraction of a retraction never makes its tally negative, and the entry it writes stands for the ballots without that record. |
| GovernanceStorage.ChangeReplaces | contracts/governance/src/lib.rs:523-546 | The subtraction and checked addition of a vote change are in range and the written entry stands for the changed records. |
| GovernanceStorage.CloseProposal | contracts/governance/src/lib.rs:612-615 | When an Active proposal closes the stored active count is positive, so its guard never suppresses a needed decrement, and the decremented count is right. |
| GovernanceContract.GovernanceContract.Initialize | contracts/governance/src/lib.rs:92-122 | The one-time set-up leaves the state the specification prescribes, or an error and no change. |
| GovernanceContract.GovernanceContract.CreateProposal | contracts/governance/src/lib.rs:143-253 | Checks in source order with the source's errors; on success appends exactly the drafted proposal and returns its id; counters stay exact. |
| GovernanceContract.GovernanceContract.AmendProposal | contracts/governance/src/lib.rs:306-358 | Replaces title and description exactly when the caller is the proposer, the proposal is Active and nobody is on record. |
| GovernanceContract.GovernanceContract.CastVote | contracts/governance/src/lib.rs:366-446 | Adds one positive-weight record of the voter's live balance to one tally, or fails with the source's error and no change. |
| GovernanceContract.GovernanceContract.RetractVote | contracts/governance/src/lib.rs:464-497 | Removes the voter's record and exactly its weight. |
| GovernanceContract.GovernanceContract.ChangeVote | contracts/governance/src/lib.rs:500-550 | Moves the record's weight from one tally to another. |
| GovernanceContract.GovernanceContract.BestChoice | contracts/governance/src/lib.rs:591-602 | The loop over stored choice weights finds the lowest index with the largest weight. |
| GovernanceContract.GovernanceContract.Finalise | contracts/governance/src/lib.rs:567-618 | Decides an expired proposal by its records (or by participation and first past the post when it has choices) and decrements the active count. |
| GovernanceContract.GovernanceContract.Execute | contracts/governance/src/lib.rs:621-644 | Across three contracts: pays what is due, logs it and marks the proposal, or changes nothing anywhere. |
| GovernanceContract.GovernanceContract.Cancel | contracts/governance/src/lib.rs:647-672 | Cancels an Active proposal, stores the reason and keeps the active count exact. |
| GovernanceContract.GovernanceContract.UpdateQuorum | contracts/governance/src/lib.rs:703-742 | Changes an Active proposal's quorum within the first tenth of its period; start plus window never overflows. |
| GovernanceContract.GovernanceContract.ProposeAdmin | contracts/governance/src/lib.rs:747-771 | Replaces the open offer of the admin role; admin only, and never to the all-zeros address. |
| GovernanceContract.GovernanceContract.AcceptAdmin | contracts/governance/src/lib.rs:795-811 | Hands the role to the pending admin and clears the offer. |
| GovernanceContract.GovernanceContract.CancelAdminTransfer | contracts/governance/src/lib.rs:814-824 | Clears an open offer; errors when there is none. |
| GovernanceContract.GovernanceContract.UpdateVotingToken | contracts/governance/src/lib.rs:775-792 | Replaces the voting token only while no proposal is Active; the stored counter decides that correctly. |
| GovernanceContract.GovernanceContract.Pause | contracts/governance/src/lib.rs:827-837 | Stops proposal and vote calls; errors when already paused. |
| GovernanceContract.GovernanceContract.Unpause | contracts/governance/src/lib.rs:840-850 | Resumes them; errors when not paused. |
| GovernanceContract.GovernanceContract.SetMinBalance | contracts/governance/src/lib.rs:853-867 | Sets the proposer threshold; refuses negative values. |
| GovernanceContract.GovernanceContract.SetCooldown | contracts/governance/src/lib.rs:870-881 | Sets the cooldown and nothing else. |
| GovernanceContract.GovernanceContract.SetRestrictAdminVote | contracts/governance/src/lib.rs:884-895 | Sets the self-vote restriction and nothing else. |
| GovernanceContract.GovernanceContract.GetProposals | contracts/governance/src/lib.rs:267-279 | Returns the requested page of the proposal list, or traps when its 64-bit end overflows. |
| GovernanceContract.GovernanceContract.GetProposalsByState | contracts/governance/src/lib.rs:282-302 | The loop returns exactly the first min(limit, 20) proposals of that state at or after from_id, in id order. |
| GovernanceContract.GovernanceContract.ListedInIdOrder | contracts/governance/src/lib.rs:218-221 | The entry listed at position n carries id n, so a reader can resume from the last id received. |
| GovernanceContract.GovernanceContract.CheckStanding | contracts/governance/src/lib.rs:185-220 | Supply, quorum floor, balance and cooldown checks; the stored counter and time give the same answers as the balances and the history. |
| Paging.WalkRebuilds | contracts/governance/src/lib.rs:267-279 | Walking plain pages yields the rest of the list once and in order if and only if the last page's end can be computed; otherwise it traps. |
| Paging.PageHolds | contracts/governance/src/lib.rs:267-279 | A page holds the entries from from_id on, in order: as many as asked for but at most twenty, and no more than there are. |
| Paging.FilteredPageHolds | contracts/governance/src/lib.rs:282-302 | A filtered page holds wanted entries only, in id order, at most twenty and at most as many as asked for, and leaves a wanted one out only if it is full of earlier ones. |
| Paging.FilteredWalkRebuilds | contracts/governance/src/lib.rs:282-302 | Walking filtered pages from one past the last id received rebuilds the whole filtered list, for every page size. |
| Paging.IdsAreTheWanted | contracts/governance/src/lib.rs:282-302 | The filtered list contains an id if and only if it is at or after the start and its entry matches. |
| Paging.IdsIncrease | contracts/governance/src/lib.rs:282-302 | The filtered list is strictly increasing: no entry is repeated. |
| TokenContract.TokenContract.Initialize | contracts/token/src/lib.rs:36-59 | Sets owner, balance, supply counter, name, symbol and decimals once. |
| TokenContract.TokenContract.Transfer | contracts/token/src/lib.rs:119-143 | The two balance writes do what the specification's move does; the supply counter stays the sum of balances. |
| TokenContract.TokenContract.TransferFrom | contracts/token/src/lib.rs:147-184 | Allowance and balance writes together, or neither. |
| TokenContract.TokenContract.Approve | contracts/token/src/lib.rs:190-208 | Overwrites the pair's allowance record, with the source's two errors. |
| TokenContract.TokenContract.Mint | contracts/token/src/lib.rs:215-233 | Raises balance and supply counter alike. |
| TokenContract.TokenContract.Burn | contracts/token/src/lib.rs:236-258 | Lowers balance and supply counter alike; admin only. |
| TokenContract.TokenContract.BurnSelf | contracts/token/src/lib.rs:261-281 | Lowers the owner's balance and the supply counter alike. |
| TokenContract.TokenContract.Delegate | contracts/token/src/lib.rs:290-305 | Records one delegate per owner, never the owner itself. |
| TokenContract.TokenContract.Undelegate | contracts/token/src/lib.rs:308-316 | Removes the delegation, or errors when there is none. |
| TokenContract.TokenContract.AllowanceRecord | contracts/token/src/storage.rs:154-170 | A spender sees the record exactly while it is unexpired and positive. |
| TokenContract.TokenContract.GetDelegatedWeight | contracts/token/src/lib.rs:329-339 | The loop returns the exact balance sum of voter and genuine delegators for a voter who has not delegated and a duplicate-free list. |
| TokenContract.TokenContract.ProposeAdmin | contracts/token/src/lib.rs:346-357 | Sets the pending admin; admin only. |
| TokenContract.TokenContract.AcceptAdmin | contracts/token/src/lib.rs:360-375 | Hands the role to the pending admin and clears the offer. |
| TokenContract.TokenContract.Pause | contracts/token/src/lib.rs:378-389 | Stops transfers, mints and burns; errors when already paused. |
| TokenContract.TokenContract.Unpause | contracts/token/src/lib.rs:392-403 | Resumes them; errors when not paused. |
| TreasuryContract.TreasuryContract.Initialize | contracts/treasury/src/lib.rs:60-65 | Sets the governance address once; a second call panics. |
| TreasuryContract.TreasuryContract.Disburse | contracts/treasury/src/lib.rs:68-88 | Obeys only the stored governance address; pays through the token contract and announces the payout, or changes nothing. |
| System.Ledger.Submit | contracts/governance/src/lib.rs:143-895 | The implemented contracts together do what the specification of the composed system says of any transaction. |
| System.Ledger.Replay | contracts/governance/src/lib.rs:143-895 | Driving the implemented contracts with any list of transactions passes through exactly the worlds of a specified run, so every run theorem holds of the stored state. |
| Watcher.DeliveredInOrder | notification-service/src/watcher.ts:80-114 | In every run, however often the process crashes: tracked records between start and saved cursor have been dispatched in log order, nothing else has been dispatched, and repeats are at most one page per crash or page in flight. |
| Watcher.DeliveredAtLeastOnce | notification-service/src/watcher.ts:80-114 | No tracked record behind the saved cursor has been missed. |
| Watcher.DeliveredExactlyOnceWithoutCrash | notification-service/src/watcher.ts:101-114 | Without a crash the dispatch trace is exactly the tracked records up to the cursor followed by what the current page has sent. |
| Watcher.ReplaysExactlyTheForgotten | notification-service/src/watcher.ts:80-114 | In every run the dispatch trace exceeds the tracked records up to the cursor and the sent part of the page by exactly the events already sent when crashes struck, and equals them if and only if there were none. |
| Watcher.PollAdvancesIffTracked | notification-service/src/watcher.ts:104-109 | A poll moves the cursor past its page if the page has a tracked record and not at all otherwise. |
| Watcher.StuckForeverIffBlocked | notification-service/src/watcher.ts:66-109 | The cursor can never move again, whatever is appended to the log, if and only if the next fifty records exist and none is tracked. |
| Watcher.PollsCatchUp | notification-service/src/watcher.ts:101-112 | Over a log that does not grow, uninterrupted polls dispatch every tracked record in order and once, up to the first page that has none, and rest there. |
| Watcher.NothingLeftAtTheEnd | notification-service/src/watcher.ts:66-109 | If the page they rest at is not full, no tracked record of the log is left undispatched. |
| Watcher.CrashRepeats | notification-service/src/watcher.ts:105-109 | The replay at its smallest: a crash between a dispatch and the save makes the next poll dispatch the same event again. |
| Watcher.TrackedIsExact | notification-service/src/watcher.ts:25-48 | An event is tracked if and only if its record is on the page, has at least two topics, 'gov' and then one of the five event names, and the event carries that name, the first element of the value as proposal id, and the ledger if a closing time is given. |
| Watcher.ServerPageHolds | notification-service/src/watcher.ts:57-67 | A poll reads fifty records, or as many as there are, in log order from just after the cursor. |
| Watcher.NotificationsAreExact | notification-service/src/watcher.ts:80-91 | Each processed event goes to exactly the subscribers that want it. |
| Watcher.Process.FetchNewEvents | notification-service/src/watcher.ts:68-77 | The loop returns the tracked events of the page in order and the cursor after its last record. |
| Watcher.Process.ProcessEvents | notification-service/src/watcher.ts:80-91 | Dispatches every event once, in order, to its matching subscribers. |
| Watcher.Process.Poll | notification-service/src/watcher.ts:101-112 | One poll is the protocol's fetch, dispatches and save. |
| Subscriptions.MatchingIsExact | notification-service/src/subscriptions.ts:71-79 | A subscriber is matched if and only if it is listed, lists the kind of the event, and names its proposal, no proposal or the empty one. |
| Subscriptions.RemovalFiltersRecipients | notification-service/src/subscriptions.ts:57-79 | Removing a subscriber removes it from every list of recipients and nobody else. |
| Subscriptions.RemoveUndoesAdd | notification-service/src/subscriptions.ts:45-64 | Removing a subscriber added under an unused id restores the list. |
| Subscriptions.Store.SaveCursor | notification-service/src/subscriptions.ts:27-31 | Saves the cursor and keeps the subscribers. |
| Subscriptions.Store.AddSubscriber | notification-service/src/subscriptions.ts:33-55 | Appends one subscriber and keeps the cursor, or fails exactly when no channel is given. |
| Subscriptions.Store.RemoveSubscriber | notification-service/src/subscriptions.ts:57-64 | Removes exactly the subscribers of that id and reports whether there was one. |
| Subscriptions.Store.MatchingSubscribers | notification-service/src/subscriptions.ts:71-79 | The loop returns the matching subscribers in list order. |
| Formatter.FormatIsArithmetic | frontend/src/utils.ts:9-16 | With decimals the text is the comma-grouped integer part of amount / 10^decimals, a point, its next two decimals rounded down, and the unit. |
| Formatter.FormatReadsBack | frontend/src/utils.ts:9-16 | Dropping commas and unit and reading whole part times 100 plus the two digits gives floor(amount * 100 / 10^decimals). |
| Formatter.FormatWhole | frontend/src/utils.ts:7 | Without decimals the text is the grouped amount, and dropping the commas gives its digits. |
| Formatter.CommasGroup | frontend/src/utils.ts:7-10 | On digits the regular expression inserts commas exactly between groups of three counted from the right. |
| Formatter.CommaPlaces | frontend/src/utils.ts:7-10 | On digits the expression matches a position if and only if it is inside the string and a multiple of three digits follow. |
| Formatter.GroupedKeepsDigits | frontend/src/utils.ts:7-10 | Dropping the commas gives the digits back. |
| Formatter.CanonicalIsNumeral | frontend/src/utils.ts:6-9 | A digit string without leading zeros is the numeral of its value. |
| Formatter.HundredthsOf | frontend/src/utils.ts:11-14 | The cut and padded fraction digits are the hundredths, rounded down. |

## Left out

- Storage lifetimes: bumping and expiry of entries, including the rewrite in `allowance_record` that only refreshes one.
- Event payloads; the treasury's announcement of recipient and amount is kept, as is a ghost log of payouts.
- Signatures: the authenticated caller is a parameter. Only addresses that are not contracts sign transactions.
- TreasuryContract.TreasuryContract.Disburse: the native-asset client the treasury calls is not part of this model; whether it accepts a transfer is a parameter of the transaction.
- Voting tokens and treasury are the modelled contracts: a call to an address without one panics.
- Contract versions and upgrades.
- Creating and voting on multi-choice proposals, which the contract shows no entry points for. Finalising one is modelled for every stored weight vector.
- PeakAttained.TallyStaysWithinSupplyIff: exact for runs of votes, as `TransferBreaksIff` is for a transfer followed by votes and `VotesAndTransfersStayWithinIff` for votes and transfers in any order; for arbitrary transactions `TallyWithinPeakAndRises` is an upper bound only.
- Plain reads (`get_proposal`, `get_vote`, `get_config`, balances) beyond their use inside the modelled calls.
- Error codes of the governance and the token contract share one type; a name both declare stands for both.
- Tokens of one ledger start deployed and uninitialized; deploying further contracts later is not a transaction of the model.
- Watcher.Process.Poll: one uninterrupted poll; failures and crashes are steps of the protocol model, where a failed request or save is a crash as far as cursor and trace go.
- Watcher.DeliveredInOrder: paging tokens are numbers growing along the log, and a poll without a cursor starts at one fixed position, which the server decides.
- Watcher.Process.ProcessEvents: notifications of one event are made in list order although the service starts them concurrently, and never fail, because the service catches their errors.
- Subscriptions.Store: the file behind the store is read and written whole; a damaged file, which the service replaces by an empty store, is not modelled.
- Formatter.FormatReadsBack: negative amounts are printed by the model as by the code, but the arithmetic is stated for amounts of zero or more, which is what balances are.
- Frontend components, the backend, notification channels, monitoring scripts and log masking.
