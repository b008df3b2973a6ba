# Verified model of the membership contracts

This Dafny project models two Soroban contracts and one database migration of a membership platform, and proves what
they keep over every run:

- the access-control contract: multisig governance by proposals (`contracts/access_control`);
- the hub contract: membership tokens with versions, renewals and fractions, the metadata index, attendance logs,
  staking and subscriptions (`contracts/manage_hub`);
- the backend migration that replaces stored refresh tokens by their hashes.

`dafny verify dfyconfig.toml` checks the project.

## How it is built

Each component that changes storage has three layers.

1. *Spec*: the operation as a function from storage, ledger time and arguments to the new storage and the outcome,
   with the branches, the order of the checks and the constants of the code (`GovernanceSpec`, `HubSpec` with
   `UpgradeSpec`, `RenewalSpec` and `FractionSpec`, `MetadataSpec`, `StakingSpec`, `SubscriptionSpec`). `Step` applies
   one call and `Run` a sequence of them.
2. *Store*: a class whose fields are the storage entries and whose methods write them step by step, loops included,
   as the code does. Every method is proved to end in the state and the outcome of its function.
3. *Proofs*: invariants over `Run`, statements about whole runs, and what each operation means in any reachable state.
   The *Effects* modules say, operation by operation, when it succeeds and what every stored field is afterwards, in
   terms of the fields themselves and with the constants written out, and trace stored values back to the calls of a
   run that wrote them.

`Attendance` and `TokenHashMigration` hold all their layers in one file; `Prelude` and `LedgerSums` hold host
integers, sequence facts, quotients and sums over ledgers.

| files | component |
|---|---|
| GovernanceTypes, GovernanceSpec, GovernanceStore | proposals, votes, execution, direct administration |
| GovernanceLedger | agreement of proposal map, pending list, statistics and counter; cleanup |
| GovernanceSafety | who can make a proposal execute, when, how often; what only execution changes |
| GovernanceEntryPoints | the same behind the contract's entry points, and which vote decides |
| GovernanceLifecycle | how proposals leave, what rejections need, the limit on open ones |
| GovernanceRoles | who can come by a role |
| GovernanceEffects | what executed actions, votes and direct calls leave; signatures by action |
| GovernanceConfig | validity of the configuration that proposals rewrite |
| GovernanceOpenness | when that configuration can still be changed at all |
| GovernanceScenarios | runs of the entry points into the states the others warn of |
| HubTypes, HubSpec, HubStore | the token part of the hub as one state machine |
| HubEntryPoints | batch issue, batch transfer and sales as single calls |
| HubEffects | what each hub operation leaves; what every renewal entry paid for |
| UpgradeSpec, UpgradeProofs | versions, snapshots, rollback, batches |
| RenewalSpec, RenewalProofs | expiry dates, renewal histories, grace period |
| GraceProofs | stamps and histories with upgrades and rollbacks in between |
| FractionSpec, FractionProofs, LedgerSums | shares, recombination, voting power, one dividend |
| DividendProofs | when a dividend succeeds, and what all of them leave pending |
| MetadataSpec, MetadataStore, MetadataProofs | metadata and its inverted index |
| MetadataEffects | what sets, updates and removals leave; metadata as the fold of its writes |
| Attendance | append-only logs and the two readings of sessions |
| StakingSpec, StakingStore, StakingProofs | custody, locks, rewards |
| StakingScenario | a run in which one stake pays another one's rewards |
| SubscriptionSpec, SubscriptionStore, SubscriptionProofs | pausing and resuming |
| SubscriptionEffects | what each subscription call leaves |
| TokenHashMigration | the paged in-place rewrite |

## Conventions

- *Outcomes.* `Err` is an error the code returns. `Trap` is an arithmetic overflow that ends the call
  (`contracts/Cargo.toml` turns overflow checks on) or a token contract that refuses a transfer.
- *What an error leaves behind.* The host undoes the writes of a failed invocation, so in the hub a failing operation
  ends in the state it started in; where the code writes before it fails, the method puts the old value back. The
  governance module is also modelled below its entry points, where writes made before an error stay: `Run` is that
  reading, `AtomicRun` the reading behind the entry points, which unwrap every result.
- *Authorisation.* A caller named in a call has authorised it.
- *Time* is an argument of every call. Where a statement needs a clock that does not run back, it says so.
- *Integers* carry the widths of the code as subset types; every checked, saturating or plain addition is written out.
  Stored amounts, shares and rewards are typed non-negative, which the guards of the code ensure.
- *Addresses, token ids and row ids* are natural numbers: identities with the order in which maps list their keys and
  the database sorts its rows.
- *Answers from outside* are arguments: the membership contract's balance (or its failure), the tier list, the payment
  token and the pause guards during a renewal, the refusal of the allowance module.

## Findings

Where the code does not do what its own text says, or what its design suggests, the model follows the code. Each finding
has the exact condition, and where it needs a state to start from, a run from the deployed contract that gets there.

- `process_auto_renewal` is commented as entering the grace period when the payment token is wrong, but it then
  returns an error, which undoes it: it never leaves a token in grace (`RenewalProofs.AutoRenewCases`).
- Crossing the rejection threshold removes the proposal and returns an error. Behind the entry points that undoes the
  last rejection: proposals leave there exactly by cancellation and by cleanup
  (`GovernanceLifecycle.EntryPointsRemoveExactly`).
- `execute_proposal` is not an entry point. A time-locked proposal therefore needs a new vote after its lock, and if
  every admin signs before, it cannot be executed at all while the admins stay the same
  (`GovernanceEntryPoints.StoredProposalsNeedADecidingVote`, `AllVotedTooEarly`, `BothSignTooEarly`).
- The multisig configuration can become unchangeable for good. It can still change exactly while a new critical
  proposal can be made and passed, or a stored one can still pass (`GovernanceOpenness.ConfigurationCanChangeExactly`).
  `initialize_multisig` with one admin is closed from the start, and `validate` lets two admins install a time-lock
  that outlasts the expiry, an expiry beyond the clock, or fewer different admins than the critical threshold needs
  (`GovernanceScenarios.SoleAdminIsFrozen`, `InvertedTimersAreReachable`, `EndlessExpiryIsReachable`,
  `InstalledIsOpenExactly`).
- `validate` accepts repeated admins, so one removal can make a valid configuration invalid: exactly when too few
  entries of others remain (`GovernanceConfig.RemovalKeepsValidityExactly`,
  `GovernanceScenarios.RemovalInvalidatesInARun`).
- An upgrade or a rollback changes a token's status without its grace stamps. They stop agreeing exactly when one of
  these succeeds in moving the token into or out of the grace period; a token in grace without an end stamp never
  leaves it by expiry (`GraceProofs.StampsBreakExactly`, `UnstampedGraceNeverExpires`, `UpgradeBreaksStampsInARun`,
  `RollbackBreaksStampsInARun`).
- The two session readings of one log differ exactly when somebody clocks in twice before clocking out
  (`Attendance.TwoReadingsOfOneLog`).
- Rewards may be paid in the staking token; then they come out of other stakes, down to the last token
  (`StakingProofs.UnstakeKeepsCustodyExactly`, `StakingScenario.RewardsDrainAnotherStake`).
- The migration starts above the nil UUID and never reads a row under that id
  (`TokenHashMigration.NothingIsLeftInPlaintextExactly`).

## Model

| member | source | states |
|---|---|---|
| `GovernanceStore.AccessControl.Initialize` | contracts/access_control/src/access_control.rs:47-84 | refused once initialised; otherwise installs one administrator, that administrator's role, the configuration and a zero counter, and writes nothing else |
| `GovernanceStore.AccessControl.InitializeMultisig` | contracts/access_control/src/access_control.rs:86-177 | the refusals in the order of the code, and the exact multisig configuration, roles and empty book of a success |
| `GovernanceStore.AccessControl.HasDuplicate` | contracts/access_control/src/access_control.rs:100-107 | the nested loops answer true exactly when two positions hold the same admin |
| `GovernanceStore.AccessControl.RequireAdmin` | contracts/access_control/src/access_control.rs:280-289 | passes exactly for a configured admin under multisig, and for a holder of the Admin role without it |
| `GovernanceStore.AccessControl.RemoveFromPendingList` | contracts/access_control/src/access_control.rs:1351-1368 | the copying loop drops every occurrence of the id and keeps the order of the rest |
| `GovernanceStore.AccessControl.CleanupExpiredProposal` | contracts/access_control/src/access_control.rs:1316-1349 | drops the proposal from map and list, counts it as expired, never lets the pending count go below zero |
| `GovernanceStore.AccessControl.CleanupExpiredProposals` | contracts/access_control/src/access_control.rs:1290-1314 | the loop over a copy of the pending list does what folding the single cleanup over that list does |
| `GovernanceStore.AccessControl.ValidateRoleAssignment` | contracts/access_control/src/access_control.rs:402-424 | Guest always passes; a higher role passes exactly when no membership is required or the membership contract answers with a sufficient balance; which of the three causes gives each error |
| `GovernanceStore.AccessControl.ExecuteProposal` | contracts/access_control/src/access_control.rs:889-1111 | refusals in order, `executed` stored before the action runs and kept when the action fails, pending list and statistics updated only on success |
| `GovernanceStore.AccessControl.RunAction` | contracts/access_control/src/access_control.rs:923-1080 | the writes of every proposal action, including those that always fail; a failing action writes nothing; `ExecutionHasItsEffect` says what they mean |
| `GovernanceStore.AccessControl.CreateProposal` | contracts/access_control/src/access_control.rs:714-824 | who may create, the pending limit, the terms of the new proposal and immediate execution of one that is not time-locked and needs one signature; `SignaturesAreByAction` says what the terms are |
| `GovernanceStore.AccessControl.ApproveProposal` | contracts/access_control/src/access_control.rs:826-887 | one more approval, or a refusal, and execution at once when threshold and time-lock allow |
| `GovernanceStore.AccessControl.RejectProposal` | contracts/access_control/src/access_control.rs:1118-1205 | one more rejection, or removal with an error when rejections exceed a third of the admins |
| `GovernanceStore.AccessControl.CancelProposal` | contracts/access_control/src/access_control.rs:1208-1258 | only the proposer, only before execution; the proposal leaves map, list and pending count |
| `GovernanceStore.AccessControl.SetRole` | contracts/access_control/src/access_control.rs:179-208 | guards in order and the single role written |
| `GovernanceStore.AccessControl.RemoveRole` | contracts/access_control/src/access_control.rs:596-624 | the administrator and an admin acting on itself are refused; otherwise the role becomes Guest |
| `GovernanceStore.AccessControl.SetBlacklisted` | contracts/access_control/src/access_control.rs:626-662 | adds to or removes from the blacklist, nothing else |
| `GovernanceStore.AccessControl.UpdateConfig` | contracts/access_control/src/access_control.rs:332-356 | refused under multisig |
| `GovernanceStore.AccessControl.SetPaused` | contracts/access_control/src/access_control.rs:359-400 | pause and unpause; both refused under multisig |
| `GovernanceStore.AccessControl.DeactivateEmergencyMode` | contracts/access_control/src/access_control.rs:1399-1420 | refused under multisig, so the flag can be cleared only without it |
| `GovernanceStore.AccessControl.UpdateMultisigConfig` | contracts/access_control/src/access_control.rs:1371-1388 | never writes: every path is an error |
| `GovernanceStore.AccessControl.ProposeAdminTransfer` | contracts/access_control/src/access_control.rs:481-516 | refused under multisig; otherwise a transfer pending for one day |
| `GovernanceStore.AccessControl.AcceptAdminTransfer` | contracts/access_control/src/access_control.rs:518-559 | only the proposed account, only in time, only while an administrator is stored; both roles change |
| `GovernanceStore.AccessControl.CancelAdminTransfer` | contracts/access_control/src/access_control.rs:561-588 | only the proposer of the pending transfer |
| `GovernanceRoles.RolesNeedMembership` | contracts/access_control/src/access_control.rs:179-208 | in every run whoever gets a role above Guest meets the membership requirement of that moment, except at initialisation, by an accepted administrator transfer, or by an executed proposal to add that very admin |
| `GovernanceLedger.StepKeeps` | contracts/access_control/src/access_control.rs:714-1368 | one call of any kind keeps map, pending list, statistics and counter in agreement, and only a cancellation leaves a created proposal without a counter |
| `GovernanceLedger.ProposalBookkeeping` | contracts/access_control/src/access_control.rs:714-1368 | after every run: the pending list has no duplicates, holds only stored ids and every unexecuted one, its length is `pending_count`, `total_created` is the id counter and equals executed + rejected + expired + cancelled + pending |
| `GovernanceLedger.OnlyCreationTraps` | contracts/access_control/src/access_control.rs:763-812 | no statistic ever overflows; creating a proposal traps exactly on the clock additions or the id counter |
| `GovernanceLedger.CleanupIsExact` | contracts/access_control/src/access_control.rs:1290-1349 | after every run, cleanup removes exactly the expired unexecuted proposals, keeps the order of the others and returns how many it removed |
| `GovernanceLedger.AtomicBookkeeping` | contracts/access_control/src/lib.rs:104-173 | behind the entry points the pending list is exactly the unexecuted proposals, and no rejection ever takes effect, because crossing the threshold reports an error |
| `GovernanceEffects.ExecutionHasItsEffect` | contracts/access_control/src/access_control.rs:923-1080 | in every run the executing call answers Ok if and only if the action is feasible, and then: Pause leaves the contract paused, Unpause not, EmergencyPause paused and in emergency mode, UpdateConfig and UpdateMultisigConfig the given configuration, SetRole the role, BatchBlacklist exactly these users added, AddAdmin and RemoveAdmin the admin in or out with role Admin or Guest; nothing else changes |
| `GovernanceEffects.OnlyEffectsChangeTheRules` | contracts/access_control/src/access_control.rs:889-1080 | under multisig, in every run, any change of any rule is such an effect of an executed proposal, or that of a permitted direct call |
| `GovernanceEffects.SignaturesAreByAction` | contracts/access_control/src/types.rs:222-286 | in every run a stored proposal needs the emergency threshold of its configuration for an emergency pause or transfer, the plain one for a role or unpausing, and the critical one with a time-lock for every other action |
| `GovernanceEffects.ExecutionHasTheSignatures` | contracts/access_control/src/access_control.rs:905-921 | and when its flag is raised it has at least so many distinct approvals, a locked one has waited out the time-lock of its configuration, and its expiry has not passed |
| `GovernanceEffects.InitialisationLeaves` | contracts/access_control/src/access_control.rs:86-177 | multisig initialisation succeeds if and only if it is the first, of different admins and between one and all signatures; one more for critical and another for emergency proposals as far as there are admins, a lock of 86,400 seconds, 50 proposals, 604,800 seconds to expiry |
| `GovernanceEffects.SingleInitialisationLeaves` | contracts/access_control/src/access_control.rs:47-84 | the single-admin one succeeds if and only if it is the first, and what it sets |
| `GovernanceEffects.ApprovalIsRecordedExactly` | contracts/access_control/src/access_control.rs:826-887 | in every run an approval is recorded if and only if an admin who has not voted gives it to an unexecuted proposal in time; the flag then rises exactly in the window |
| `GovernanceEffects.RejectionIsRecordedExactly` | contracts/access_control/src/access_control.rs:1118-1205 | likewise a rejection, unless it exceeds both one and a third of the admins, which removes the proposal |
| `GovernanceEffects.CreatesExactly` | contracts/access_control/src/access_control.rs:714-824 | in every run a creation takes the next id if and only if an admin makes it with fewer proposals pending than allowed and room on clock and counter; else nothing changes |
| `GovernanceEffects.DirectCallsSucceedExactly` | contracts/access_control/src/access_control.rs:179-588 | every direct call of administration succeeds if and only if its conditions on the stored rules hold, and what it then sets, alone |
| `GovernanceSafety.ExecutionSafety` | contracts/access_control/src/access_control.rs:741-779 | whenever a run raises `executed`: distinct approvals, none of them a rejection, each cast in the run by a then-current admin, at least as many as the configuration at creation demanded of the class, between the end of the time-lock and the expiry |
| `GovernanceSafety.ApprovalsAreAdminVotes` | contracts/access_control/src/access_control.rs:826-887 | every stored approval was a call, earlier in the run, of somebody who was then a configured admin |
| `GovernanceSafety.TermsAreFixedAtCreation` | contracts/access_control/src/access_control.rs:741-779 | threshold, class, expiry and time-lock of every stored proposal are those of the configuration in force when it was created |
| `GovernanceSafety.ExecutedProposalsAreFrozen` | contracts/access_control/src/access_control.rs:838-846 | an executed proposal never changes again, so the flag is raised at most once |
| `GovernanceSafety.IdsAreNeverReused` | contracts/access_control/src/access_control.rs:763-779 | an id whose proposal was removed never names a proposal again |
| `GovernanceSafety.ExecutesExactlyInTheWindow` | contracts/access_control/src/access_control.rs:889-921 | `execute_proposal` raises the flag if and only if the proposal is stored, unexecuted, has its approvals, and the time lies between time-lock and expiry |
| `GovernanceSafety.OnlyExecutionGoverns` | contracts/access_control/src/access_control.rs:923-1080 | under multisig the configuration, pause flag, emergency mode and multisig configuration change only when a proposal is executed, then exactly as its action says; multisig stays on, emergency mode is never cleared, no single-admin transfer is pending |
| `GovernanceSafety.MultisigIsForever` | contracts/access_control/src/access_control.rs:701-706 | multisig once enabled stays enabled over every continuation |
| `GovernanceSafety.EmergencyIsForever` | contracts/access_control/src/access_control.rs:1391-1420 | emergency mode once set is never cleared, in any run, multisig or not |
| `GovernanceEntryPoints.AtomicRunIsARun` | contracts/access_control/src/lib.rs:33-177 | a run whose failed calls are undone is a module run over the calls that succeeded, so every theorem about module runs carries over |
| `GovernanceEntryPoints.EntryPointsExecuteSafely` | contracts/access_control/src/lib.rs:104-111 | execution safety for runs of the entry points |
| `GovernanceEntryPoints.StoredProposalsNeedADecidingVote` | contracts/access_control/src/access_control.rs:868-886 | behind the entry points a stored proposal is executed if and only if a governor who had not voted approves it in its window and the action succeeds |
| `GovernanceEntryPoints.AllVotedTooEarly` | contracts/access_control/src/access_control.rs:868-886 | once every admin has voted on a proposal still unexecuted, no continuation executes it unless somebody new becomes admin |
| `GovernanceEntryPoints.BothSignTooEarly` | contracts/access_control/src/access_control.rs:109-121 | for any times within one day it happens with two admins: fully approved, and never executable by these two |
| `GovernanceLifecycle.ProposalsLeaveOnlyForCause` | contracts/access_control/src/access_control.rs:1118-1258 | in every run a stored proposal leaves only unexecuted, and only after its expiry, by its own proposer, or by rejections of more than a third of the current admins and more than one: distinct accounts that did not approve it, each an admin when it voted |
| `GovernanceLifecycle.RejectionsAreAdminVotes` | contracts/access_control/src/access_control.rs:1118-1148 | every stored rejection was a call, earlier in the run, of somebody who was then a configured admin |
| `GovernanceLifecycle.EntryPointsRemoveExactly` | contracts/access_control/src/lib.rs:147-169 | behind the entry points a stored proposal leaves if and only if its proposer cancels it unexecuted or a cleanup finds it expired and unexecuted |
| `GovernanceLifecycle.PendingStaysWithinTheLimit` | contracts/access_control/src/access_control.rs:726-740 | while no configuration in force allows more than m pending proposals, never more than m are pending |
| `GovernanceConfig.InitialisationIsSane` | contracts/access_control/src/access_control.rs:109-125 | the thresholds `initialize_multisig` computes always validate, so its configuration error is unreachable |
| `GovernanceConfig.RemovalKeepsValidityExactly` | contracts/access_control/src/access_control.rs:1042-1069 | removing an admin keeps a valid configuration valid if and only if enough entries of others remain for the emergency threshold |
| `GovernanceConfig.ConfigurationStaysSane` | contracts/access_control/src/access_control.rs:977-1078 | in every run whose proposals list no admin twice, 0 < required <= critical <= emergency <= number of admins, all distinct |
| `GovernanceConfig.InvertedTimersFreezeTheConfiguration` | contracts/access_control/src/types.rs:267-277 | at module level, where a proposal can also be executed directly: once a time-lock outlasts the expiry and no earlier critical proposal is open, no run changes the configuration |
| `GovernanceConfig.CriticalWindowIsOpenExactly` | contracts/access_control/src/access_control.rs:757-765 | at module level: a sufficiently approved critical proposal has a moment of direct execution if and only if the time-lock does not outlast the expiry; behind the entry points this is only necessary |
| `GovernanceOpenness.ConfigurationCanChangeExactly` | contracts/access_control/src/access_control.rs:714-887 | from every reachable state, some entry-point calls change the multisig configuration if and only if a new critical proposal can be made and passed (two admins, as many different ones as the critical threshold, time-lock within the expiry, expiry within the clock, a free id) or a stored one that rewrites it can still pass |
| `GovernanceOpenness.ClosedForever` | contracts/access_control/src/access_control.rs:826-887 | where neither holds, every continuation leaves the configuration as it is, and governance closed |
| `GovernanceOpenness.RewritesExactly` | contracts/access_control/src/access_control.rs:977-1078 | which actions change the multisig configuration, and that those never fail |
| `GovernanceScenarios.SoleAdminIsFrozen` | contracts/access_control/src/access_control.rs:109-125 | a contract initialised with one admin, ordinary timers, never changes its configuration |
| `GovernanceScenarios.TwoAdminsInstall` | contracts/access_control/src/access_control.rs:977-982 | a run from the deployed contract in which two admins put any valid configuration in force |
| `GovernanceScenarios.InstalledIsOpenExactly` | contracts/access_control/src/types.rs:267-277 | after it, governance is open if and only if that configuration is governable |
| `GovernanceScenarios.InvertedTimersAreReachable` | contracts/access_control/src/types.rs:267-277 | such a run to a time-lock that outlasts the expiry, frozen for module and entry points |
| `GovernanceScenarios.EndlessExpiryIsReachable` | contracts/access_control/src/access_control.rs:755-765 | such a run to an expiry with which every later creation overflows the clock |
| `GovernanceScenarios.RemovalInvalidatesInARun` | contracts/access_control/src/access_control.rs:1042-1069 | a run of entry-point calls from a valid configuration, naming an admin twice, to an invalid one |
| `HubStore.Env.IssueToken` | contracts/manage_hub/src/membership_token.rs:92-145 | guards in order and the exact new token |
| `HubStore.Env.TransferToken` | contracts/manage_hub/src/membership_token.rs:173-221 | refused while paused, fractionalized, in grace or not active; otherwise only the owner changes |
| `HubStore.Env.TransferFrom` | contracts/manage_hub/src/membership_token.rs:298-363 | the same guards plus owner and allowance, then only the owner changes |
| `HubStore.Env.BatchTransferTokens` | contracts/manage_hub/src/membership_token.rs:254-265 | all items, each behind its own pause guard, or nothing at the first failure |
| `HubStore.Env.BatchIssueTokens` | contracts/manage_hub/src/membership_token.rs:147-165 | all items, or nothing at the first failure |
| `HubStore.Env.TransferTokenWithRoyalty` | contracts/manage_hub/src/membership_token.rs:223-252 | a transfer, undone when the royalties overflow |
| `HubStore.Env.CalculateRoyalties` | contracts/manage_hub/src/royalty.rs:70-119 | the loop sums the floors of the enabled percentages, or reports the overflow |
| `HubEntryPoints.EntryRunIsARun` | contracts/manage_hub/src/membership_token.rs:147-265 | a run with batches and sales is a run of single calls, so every theorem about runs of the hub holds for it |
| `HubEntryPoints.EntryPointsFreezeTheOwner` | contracts/manage_hub/src/membership_token.rs:147-265 | over all these entry points, the owner and the split of a fractionalized token stay until its sole holder recombines it |
| `HubEntryPoints.BatchTransferMoves` | contracts/manage_hub/src/membership_token.rs:254-265 | a successful batch leaves a token with the account of its last item |
| `HubStore.Env.CountRollbacks` | contracts/manage_hub/src/migration.rs:75-84 | the loop counts the rollback records |
| `HubStore.Env.UpgradeToken` | contracts/manage_hub/src/upgrade.rs:84-179 | guards in order; snapshot of the token left behind, new token, one record |
| `HubStore.Env.UpgradeSingleForBatch` | contracts/manage_hub/src/upgrade.rs:377-437 | a batch element: expiry only, no permission checks of its own |
| `HubStore.Env.BatchUpgradeTokens` | contracts/manage_hub/src/upgrade.rs:186-234 | the loop over the ids, repeated ones included, with a result per position |
| `HubStore.Env.RollbackTokenUpgrade` | contracts/manage_hub/src/upgrade.rs:246-336 | guards in order; terms of the target snapshot under a new version, with a snapshot and a record of its own |
| `HubStore.Env.SetAutoRenewal` | contracts/manage_hub/src/membership_token.rs:1228-1267 | stores the settings under the token's current owner |
| `HubStore.Env.RenewToken` | contracts/manage_hub/src/membership_token.rs:1009-1123 | guards in order; expiry from the later of old expiry and now, grace stamps cleared, counter, one entry; `HubEffects.RenewalLeaves` says what each billing cycle buys |
| `HubStore.Env.CheckAndApplyGracePeriod` | contracts/manage_hub/src/membership_token.rs:1169-1219 | enters grace once past expiry; its error after the grace period undoes the entry |
| `HubStore.Env.EnterGracePeriodOnFailure` | contracts/manage_hub/src/membership_token.rs:1668-1704 | the token stored with both stamps, or an error and no write when the grace end overflows |
| `HubStore.Env.ProcessAutoRenewal` | contracts/manage_hub/src/membership_token.rs:1327-1417 | either a thirty-day renewal or no change at all, also where the code enters the grace period before it returns its error |
| `HubStore.Env.FractionalizeToken` | contracts/manage_hub/src/fractionalization.rs:26-83 | guards in order; the owner gets all shares |
| `HubStore.Env.TransferFraction` | contracts/manage_hub/src/fractionalization.rs:85-144 | guards in order; debit, removal at zero, credit |
| `HubStore.Env.RecombineFractions` | contracts/manage_hub/src/fractionalization.rs:146-190 | only a holder of all shares; the three entries go and the token changes owner |
| `HubStore.Env.DistributeFractionRewards` | contracts/manage_hub/src/fractionalization.rs:222-307 | the payment loop and the remainder to the first key |
| `HubStore.PayHolders` | contracts/manage_hub/src/fractionalization.rs:247-270 | the loop over the holders pays each the floor of its portion, or reports the overflow |
| `HubStore.GetFractionHolders` | contracts/manage_hub/src/fractionalization.rs:192-220 | one entry per holder in key order with its voting power |
| `HubEffects.IssueLeaves` | contracts/manage_hub/src/membership_token.rs:92-145 | an issue succeeds if and only if not paused, with an administrator, under a new id and with a future expiry; the new token field by field, all others as before |
| `HubEffects.TransferLeaves` | contracts/manage_hub/src/membership_token.rs:173-221 | a transfer succeeds if and only if the token is active, whole and not paused; only its owner changes |
| `HubEffects.TransferFromLeaves` | contracts/manage_hub/src/membership_token.rs:298-363 | through an allowance also only from the named owner and for a positive amount |
| `HubEffects.RoyaltiesStayWithinThePrice` | contracts/manage_hub/src/royalty.rs:70-119 | royalties are the sum of the rounded portions; of at most 10,000 basis points in all they do not exceed the price |
| `HubEffects.UpgradeLeaves` | contracts/manage_hub/src/upgrade.rs:84-179 | an upgrade succeeds if and only if enabled and made by the administrator, or by the owner unless reserved; named expiry, tier and status are set, those not named kept, the next version answered, snapshot and record of the version left |
| `HubEffects.UpgradeConfigLeaves` | contracts/manage_hub/src/upgrade.rs:50-72 | only the administrator sets the limits, and exactly the given ones |
| `HubEffects.RollbackIsRecorded` | contracts/manage_hub/src/upgrade.rs:246-336 | a rollback leaves one record marked as a rollback, labelled so, by the administrator, and a snapshot of the version left |
| `HubEffects.RollbacksAreCounted` | contracts/manage_hub/src/migration.rs:75-84 | the number held against the limit is that of the records marked as rollbacks |
| `HubEffects.RenewalLeaves` | contracts/manage_hub/src/membership_token.rs:1009-1123 | when a renewal succeeds, exactly; Monthly adds 2,592,000 seconds to the later of expiry and now for the monthly price of the tier, Annual 31,536,000 for the annual price; status, tier, cleared stamps, counter and the one entry |
| `HubEffects.AutoRenewalAdds` | contracts/manage_hub/src/membership_token.rs:1327-1417 | when an automatic renewal succeeds, exactly; 2,592,000 seconds after the old expiry for the monthly price of the token's own tier |
| `HubEffects.EntriesWereBought` | contracts/manage_hub/src/membership_token.rs:1009-1140 | in every run each renewal entry comes from a call of that moment: a Manual one from a renewal with exactly that pair of price and term, an automatic one from a month at the monthly price |
| `HubEffects.RenewalConfigLeaves` | contracts/manage_hub/src/membership_token.rs:934-966 | the renewal terms are stored as given once there is an administrator |
| `HubEffects.AutoRenewalLeaves` | contracts/manage_hub/src/membership_token.rs:1228-1267 | settings stored for the owner of the token, other accounts as before |
| `HubEffects.GraceLeaves` | contracts/manage_hub/src/membership_token.rs:1169-1219 | an active token past its expiry enters grace with both stamps, now and the end of the period in force (604,800 seconds unless set); any other call changes nothing, and exactly when it is an error |
| `HubEffects.FractionalizeLeaves` | contracts/manage_hub/src/fractionalization.rs:26-83 | a token is split if and only if active, whole, and into more than one share in whole fractions; its owner holds all of them |
| `HubEffects.HoldersAreListed` | contracts/manage_hub/src/fractionalization.rs:192-220 | each holder in key order with its shares and the floor of 10,000 times its portion |
| `HubEffects.DistributionAnswers` | contracts/manage_hub/src/fractionalization.rs:222-307 | the answer of a distribution: amount, number of holders and time |
| `UpgradeProofs.UpgradeLedger` | contracts/manage_hub/src/upgrade.rs:84-336 | in every run of the hub a token's version is the length of its history, record i leads from version i to i + 1, and snapshots exist for exactly the versions left behind |
| `UpgradeProofs.SnapshotsAreWrittenOnce` | contracts/manage_hub/src/migration.rs:34-62 | no continuation overwrites or removes a snapshot or a history record |
| `UpgradeProofs.SnapshotsTellTheTruth` | contracts/manage_hub/src/migration.rs:18-31 | every snapshot holds the expiry, status and tier the token had at the step of the run at which it left that version, with renewals and transfers in between |
| `UpgradeProofs.ExpansionIsFaithful` | contracts/manage_hub/src/upgrade.rs:186-234 | writing every permitted batch out as single upgrades, and leaving refused ones out, gives the same state |
| `UpgradeProofs.RollbackSucceedsExactly` | contracts/manage_hub/src/upgrade.rs:246-336 | under the limit, rollback to v succeeds if and only if v is an earlier version and the version can grow; it restores the recorded terms and keeps identity, dates and counters |
| `UpgradeProofs.RollbackRestoresThePast` | contracts/manage_hub/src/upgrade.rs:290-316 | the restored terms are those of the step of the run at which the token left version v |
| `UpgradeProofs.UpgradeThenRollback` | contracts/manage_hub/src/upgrade.rs:84-336 | upgrade and rollback is the identity on expiry, status and tier, and when the rollback fails |
| `UpgradeProofs.RollbackThenRollback` | contracts/manage_hub/src/upgrade.rs:246-336 | a rollback of a rollback undoes it |
| `UpgradeProofs.RollbacksStayWithinTheLimit` | contracts/manage_hub/src/migration.rs:75-84 | with positive limits of at most m no token ever records more than m rollbacks |
| `UpgradeProofs.BatchRefinesSequential` | contracts/manage_hub/src/upgrade.rs:186-234 | a permitted batch ends in the state of upgrading the ids one by one and skipping failures, with each position's outcome; a refused one changes nothing |
| `UpgradeProofs.BatchCountsOccurrences` | contracts/manage_hub/src/upgrade.rs:186-234 | each id is upgraded once per occurrence until its version counter is exhausted, and unlisted tokens are untouched |
| `RenewalProofs.RenewalCounts` | contracts/manage_hub/src/membership_token.rs:1009-1140 | in every run the renewal counter is the history length up to saturation, and every entry adds exactly 30 or 365 days to the later of old expiry and its own time |
| `RenewalProofs.ChainLinks` | contracts/manage_hub/src/membership_token.rs:1126-1140 | what a chain of entries means: first and last dates, no gaps, strictly forward |
| `RenewalProofs.RenewalHistoryIsFaithful` | contracts/manage_hub/src/membership_token.rs:1009-1219 | without upgrades the entries lead from the issue expiry to the current one, and the grace period holds exactly when both stamps are set |
| `RenewalProofs.AutoRenewCases` | contracts/manage_hub/src/membership_token.rs:1327-1417 | automatic renewal never leaves a token in the grace period |
| `GraceProofs.UpgradeKeepsStampsExactly` | contracts/manage_hub/src/upgrade.rs:84-179 | a successful upgrade keeps status and grace stamps in agreement if and only if it moves the token neither into nor out of the grace period |
| `GraceProofs.RollbackKeepsStampsExactly` | contracts/manage_hub/src/upgrade.rs:246-336 | a successful rollback does if and only if the snapshot is on the token's side of the grace period |
| `GraceProofs.BatchKeepsStamps` | contracts/manage_hub/src/upgrade.rs:377-437 | a batch upgrade always does |
| `GraceProofs.StampsBreakExactly` | contracts/manage_hub/src/membership_token.rs:1009-1417 | over all calls of the hub, one call breaks the agreement if and only if it is such an upgrade or rollback and succeeds |
| `GraceProofs.StampsAgreeInEveryRun` | contracts/manage_hub/src/membership_token.rs:1009-1417 | in every run whose upgrades and rollbacks keep sides, GracePeriod holds exactly when both stamps are set |
| `GraceProofs.GraceExpiresExactly` | contracts/manage_hub/src/membership_token.rs:1169-1219 | the end of the grace period is reported if and only if the token is in it with an end stamp that has passed |
| `GraceProofs.UnstampedGraceNeverExpires` | contracts/manage_hub/src/membership_token.rs:1169-1219 | without that stamp the token is found in order at any time |
| `GraceProofs.UpgradeBreaksStampsInARun` | contracts/manage_hub/src/upgrade.rs:84-179 | a run from the deployed contract in which an upgrade breaks the agreement |
| `GraceProofs.RollbackBreaksStampsInARun` | contracts/manage_hub/src/upgrade.rs:246-336 | a run in which a rollback does, after a renewal cleared the stamps |
| `GraceProofs.LinkBreaksExactly` | contracts/manage_hub/src/membership_token.rs:1126-1140 | one more call keeps the renewal entries leading to the current expiry if and only if it is not a version change that succeeds in giving the token another date |
| `GraceProofs.HistoryLeadsToExpiry` | contracts/manage_hub/src/membership_token.rs:1126-1140 | in every run without such a change the entries lead from the issue expiry to the current one |
| `FractionProofs.SharesAreConserved` | contracts/manage_hub/src/fractionalization.rs:26-190 | in every run the shares of a fractionalized token sum to its total, each a positive multiple of the smallest fraction, and the owner is who split it |
| `FractionProofs.TransferSucceedsExactly` | contracts/manage_hub/src/fractionalization.rs:85-144 | a share transfer succeeds if and only if the amount is a positive multiple the sender holds; small-remainder and overflow guards never fire; exactly two balances move, none in a self-transfer |
| `FractionProofs.RecombinesExactlyForTheSoleHolder` | contracts/manage_hub/src/fractionalization.rs:146-190 | recombination succeeds if and only if the caller is the only holder, and makes it the owner |
| `FractionProofs.FractionalOwnerIsFrozen` | contracts/manage_hub/src/membership_token.rs:173-221 | no call of the hub changes the owner or the split of a fractionalized token, except recombination by its sole holder |
| `FractionProofs.OwnersChangeExactly` | contracts/manage_hub/src/membership_token.rs:173-363 | over all calls of the hub a token's owner becomes the receiver of a permitted transfer or the recombining sole holder, and otherwise stays |
| `FractionProofs.DividendsAreExact` | contracts/manage_hub/src/fractionalization.rs:222-307 | each successful distribution raises the sum of pending rewards by exactly the amount: every holder its floor, the first key the rest, which is less than one unit per holder |
| `DividendProofs.DistributionSucceedsExactly` | contracts/manage_hub/src/fractionalization.rs:222-307 | in every reachable state a distribution succeeds if and only if the amount is positive, there is an administrator, the token is split, and no portion, new balance or remainder overflows |
| `DividendProofs.RewardsAreConserved` | contracts/manage_hub/src/fractionalization.rs:146-307 | in every run the pending rewards sum to everything distributed since the split; recombination discards exactly that; other calls do not touch them |
| `FractionProofs.VotingPowerAddsUp` | contracts/manage_hub/src/fractionalization.rs:192-220 | listed voting powers sum to 10000 basis points less at most one per holder |
| `LedgerSums.RoundingLoss` | contracts/manage_hub/src/fractionalization.rs:247-284 | the sum of the floors of proportional portions falls short of the amount by less than the number of holders |
| `MetadataStore.Registry.AddToIndex` | contracts/manage_hub/src/membership_token.rs:449-468 | one entry, once |
| `MetadataStore.Registry.RemoveFromIndex` | contracts/manage_hub/src/membership_token.rs:477-505 | the id leaves the list, and an emptied list leaves the index |
| `MetadataStore.Registry.SetTokenMetadata` | contracts/manage_hub/src/membership_token.rs:539-652 | validation, the loop that unindexes the old attributes, the loop that indexes the new ones, and the history entry |
| `MetadataStore.Registry.BatchSetTokenMetadata` | contracts/manage_hub/src/membership_token.rs:654-669 | all items, or nothing at the first failure |
| `MetadataStore.Registry.UpdateTokenMetadata` | contracts/manage_hub/src/membership_token.rs:709-796 | attributes merged, index and metadata rewritten together, one history entry; index writes made before the last validation are undone when it fails; `MetadataEffects.UpdateLeaves` says what a success leaves |
| `MetadataStore.Registry.RemoveMetadataAttributes` | contracts/manage_hub/src/membership_token.rs:819-873 | the named attributes go from metadata and index |
| `MetadataProofs.QueryEqualsScan` | contracts/manage_hub/src/membership_token.rs:904-917 | after every run a query lists, without duplicates, exactly the tokens whose current metadata maps the name to the value, and no empty list is stored |
| `MetadataProofs.VersionCountsWrites` | contracts/manage_hub/src/membership_token.rs:806-873 | in every run a version is the number of history entries plus the number of removals, which the history does not record; entries carry strictly growing versions |
| `MetadataProofs.ExchangeKeeps` | contracts/manage_hub/src/membership_token.rs:449-505 | exchanging one token's attributes in metadata and index keeps the two in step |
| `MetadataEffects.SetLeaves` | contracts/manage_hub/src/membership_token.rs:539-652 | success if and only if the token is issued, the version not used up, the description within 500 characters, at most 20 attributes with names within 50 and texts within 200; then exactly the given description and attributes, the next version, one history entry, queries that list the token for exactly these, and every other token as before |
| `MetadataEffects.UpdateLeaves` | contracts/manage_hub/src/membership_token.rs:709-796 | exactly when an update succeeds; then every named attribute has its new value, all others and the description are kept, queries list the token under the new values and no longer under old ones, every other token is as before |
| `MetadataEffects.RemoveLeaves` | contracts/manage_hub/src/membership_token.rs:819-873 | exactly when a removal succeeds; then exactly the named attributes are gone, no query under them lists the token, every other token is as before |
| `MetadataEffects.BatchSucceedsExactly` | contracts/manage_hub/src/membership_token.rs:654-669 | a batch succeeds if and only if there is an administrator and every item fits, each earlier item for its token taking one version; otherwise nothing is written |
| `MetadataEffects.MetadataIsItsWrites` | contracts/manage_hub/src/membership_token.rs:539-873 | in every run the metadata of a token is the fold of its successful writes, batch items included: description of the last set, each attribute with the value of the last write that decides about it, as many versions as writes, time and owner of the last, and a history of all but the removals |
| `MetadataEffects.QueriesListTheLastWrite` | contracts/manage_hub/src/membership_token.rs:904-917 | in every run a query lists a token if and only if the last successful write deciding about the name gave it this value |
| `MetadataEffects.CallsShowInQueries` | contracts/manage_hub/src/membership_token.rs:523-917 | in every reachable state, what one more call changes in the answers: a set or an update is found at once, a removal no longer, a refused call changes nothing, other tokens are listed as before |
| `Attendance.AttendanceStore.LogAttendance` | contracts/manage_hub/src/attendance_log.rs:52-102 | appends to the user's log; more than 50 details change nothing |
| `Attendance.LogsAreSorted` | contracts/manage_hub/src/attendance_log.rs:80-88 | under a clock that does not run back every log is time-sorted |
| `Attendance.FilterLogsByDateRange` | contracts/manage_hub/src/attendance_log.rs:485-500 | the filtering loop |
| `Attendance.FilteredIsSorted` | contracts/manage_hub/src/attendance_log.rs:485-500 | filtering keeps exactly the entries of the range, in order |
| `Attendance.FilteringCounts` | contracts/manage_hub/src/attendance_log.rs:485-500 | and keeps each entry as often as it occurs |
| `Attendance.ParseSessions` | contracts/manage_hub/src/attendance_log.rs:503-529 | the loop with the pending clock-in yields the last ClockIn before each ClockOut |
| `Attendance.FindClockOut` | contracts/manage_hub/src/attendance_log.rs:163-181 | the inner loop finds the next ClockOut |
| `Attendance.GetAttendanceSummary` | contracts/manage_hub/src/attendance_log.rs:129-206 | every ClockIn paired with the next ClockOut; counts that add up to the entries of the range, so they fit whenever the log does; total, average; traps exactly when the total overflows |
| `Attendance.ParsedSessionsAreDisjoint` | contracts/manage_hub/src/attendance_log.rs:503-529 | parsed sessions are ordered, do not overlap, and last no longer than from first clock-in to last clock-out |
| `Attendance.TwoReadingsOfOneLog` | contracts/manage_hub/src/attendance_log.rs:153-187 | the parsed list is a subsequence of the summary's, lasts at most as long, and equals it if and only if no ClockOut has two ClockIns since the previous one |
| `Attendance.ReadingsCanDiffer` | contracts/manage_hub/src/attendance_log.rs:318-350 | a log on which the two disagree |
| `Attendance.AllPairsAreSpans` | contracts/manage_hub/src/attendance_log.rs:153-187 | the summary's pairs are those from any ClockIn to the first ClockOut after it, with both times and their difference |
| `Attendance.LastPairsAreSpans` | contracts/manage_hub/src/attendance_log.rs:503-529 | the statistics' sessions are those from a ClockIn to a ClockOut directly after it |
| `Attendance.GetUserStatistics` | contracts/manage_hub/src/attendance_log.rs:293-367 | sums, extremes (the initial values when there is no session) and distinct days over the parsed sessions |
| `StakingStore.StakingEnv.CreateStakingTier` | contracts/manage_hub/src/staking.rs:78-131 | refusals in order; a new tier and its place in the list, never a changed one |
| `StakingStore.StakingEnv.StakeTokens` | contracts/manage_hub/src/staking.rs:140-239 | new stake or top-up with the transfer; a later overflow takes the transfer back |
| `StakingStore.StakingEnv.CalculatePendingRewards` | contracts/manage_hub/src/rewards.rs:31-64 | amount * rate * elapsed * multiplier / 3,153,600,000,000,000, less what was claimed, and zero after an emergency withdrawal or where that difference is negative or too large; a missing tier, and an overflow exactly when one of the three products overflows |
| `StakingStore.StakingEnv.UnstakeTokens` | contracts/manage_hub/src/staking.rs:247-286 | lock, rewards, two transfers, removal |
| `StakingStore.StakingEnv.EmergencyUnstake` | contracts/manage_hub/src/staking.rs:294-337 | principal less penalty, removal |
| `StakingProofs.CustodyIsExact` | contracts/manage_hub/src/staking.rs:140-337 | with a fixed staking token that is not the reward token, the contract always holds exactly the active stakes, the penalties kept and what others sent |
| `StakingProofs.UnstakeSucceedsExactly` | contracts/manage_hub/src/staking.rs:247-286 | in such a run an unstake succeeds if and only if the lock is over and the rewards can be computed and paid; the principal is then always there |
| `StakingProofs.UnstakeKeepsCustodyExactly` | contracts/manage_hub/src/staking.rs:264-275 | custody survives an unstake if and only if rewards are nil or in another token |
| `StakingScenario.RewardsDrainAnotherStake` | contracts/manage_hub/src/staking.rs:264-275 | a run from the deployed contract in which the first of two stakers takes both stakes, and the second cannot be paid by either withdrawal |
| `StakingProofs.EmergencyAlwaysPays` | contracts/manage_hub/src/staking.rs:294-337 | an emergency withdrawal fails only on overflow of the product, keeps amount * penalty / 10,000 and returns the rest |
| `StakingProofs.StakeIsItsDeposits` | contracts/manage_hub/src/staking.rs:161-231 | a stored stake is the sum of its deposits, dated by the first, locked from the last, with nothing claimed |
| `StakingProofs.LockIsHonoured` | contracts/manage_hub/src/staking.rs:258-261 | no normal unstake succeeds before the last deposit plus its tier's lock |
| `StakingProofs.TiersAreImmutable` | contracts/manage_hub/src/staking.rs:99-109 | no continuation changes a tier |
| `StakingProofs.TierListIsExact` | contracts/manage_hub/src/staking.rs:114-122 | in every run the tier list names every tier exactly once |
| `StakingProofs.RewardIsOneFloor` | contracts/manage_hub/src/rewards.rs:43-62 | rewards exist exactly if none of the three products overflows, and are then amount * rate * elapsed * multiplier / 3,153,600,000,000,000 rounded down once |
| `StakingProofs.RewardIsMonotone` | contracts/manage_hub/src/rewards.rs:31-64 | rewards never fall when amount, time, rate or multiplier grows |
| `StakingProofs.TopUpsNeverLose` | contracts/manage_hub/src/rewards.rs:31-64 | in every run the reward is one floor over the whole stake since its first deposit, and at least the sum of what each deposit would have earned alone |
| `StakingProofs.StakeSucceedsExactly` | contracts/manage_hub/src/staking.rs:140-239 | a stake or top-up succeeds if and only if staking is on, the tier known and unchanged, the minimum met, the tokens there and no sum overflows; amounts add up, the first date stays, the lock starts anew, exactly the amount moves, other stakes stay |
| `StakingProofs.ConfigurationLeaves` | contracts/manage_hub/src/staking.rs:52-75 | set by the administrator if and only if the penalty is at most 10,000 basis points |
| `StakingProofs.TierLeaves` | contracts/manage_hub/src/staking.rs:78-131 | a tier is created by the administrator if and only if new and with positive minimum, multiplier and rate up to 10,000; it holds the four values in their places, other tiers stay |
| `SubscriptionStore.SubscriptionEnv.ValidatePayment` | contracts/manage_hub/src/subscription.rs:91-117 | Ok exactly for a positive amount of the configured payment token, and exactly when each of the three errors |
| `SubscriptionStore.SubscriptionEnv.LogSubscriptionEvent` | contracts/manage_hub/src/subscription.rs:582-646 | one attendance entry at the end of the owner's log, under the two bytes of the id length |
| `SubscriptionStore.SubscriptionEnv.CreateSubscription` | contracts/manage_hub/src/subscription.rs:122-199 | guards in order, the exact new record and its attendance entry |
| `SubscriptionStore.SubscriptionEnv.PauseSubscriptionInternal` | contracts/manage_hub/src/subscription.rs:233-303 | guards in order, the two for users only; status, date, saturating count, one entry |
| `SubscriptionStore.SubscriptionEnv.PauseSubscription` | contracts/manage_hub/src/subscription.rs:201-212 | the owner pauses |
| `SubscriptionStore.SubscriptionEnv.PauseSubscriptionAdmin` | contracts/manage_hub/src/subscription.rs:214-230 | the administrator pauses |
| `SubscriptionStore.SubscriptionEnv.ResumeSubscriptionInternal` | contracts/manage_hub/src/subscription.rs:332-404 | capped extension for users, full for the administrator; one entry |
| `SubscriptionStore.SubscriptionEnv.ResumeSubscription` | contracts/manage_hub/src/subscription.rs:305-316 | the owner resumes |
| `SubscriptionStore.SubscriptionEnv.ResumeSubscriptionAdmin` | contracts/manage_hub/src/subscription.rs:318-329 | the administrator resumes |
| `SubscriptionStore.SubscriptionEnv.CancelSubscription` | contracts/manage_hub/src/subscription.rs:461-496 | inactive, pause dropped |
| `SubscriptionStore.SubscriptionEnv.RenewSubscription` | contracts/manage_hub/src/subscription.rs:500-579 | guards in order; extended from the later of expiry and now |
| `SubscriptionProofs.PausesAreAccounted` | contracts/manage_hub/src/subscription.rs:233-404 | in every run Paused holds exactly when `paused_at` is set, `pause_count` is the number of Pause entries up to saturation, `total_paused_duration` the sum of recorded Resume durations, and each Resume answers the Pause just before it |
| `SubscriptionProofs.ExpiryIsPaidPlusExtensions` | contracts/manage_hub/src/subscription.rs:332-404 | a subscription expires exactly when it was last paid up to plus the extensions granted since; without renewals, from its original date |
| `SubscriptionProofs.UserPausesAreBounded` | contracts/manage_hub/src/subscription.rs:233-404 | under one configuration and without the administrator: at most `max_pause_count` pauses, at most `max_pause_count * max_pause_duration` seconds gained, never more than the time paused, and `min_active_time` before each pause |
| `SubscriptionProofs.ResumeGivesBackThePause` | contracts/manage_hub/src/subscription.rs:332-404 | pause then resume leaves the time to run unchanged, but for a user's pause beyond the longest allowed; and exactly when the resume succeeds |
| `SubscriptionProofs.CancelledPauseIsLost` | contracts/manage_hub/src/subscription.rs:461-496 | cancelling a paused subscription credits nothing for the open pause |
| `SubscriptionProofs.SubscriptionsWerePaid` | contracts/manage_hub/src/subscription.rs:122-172 | every stored subscription was created by a call of the run that paid a positive amount of the payment token of that moment |
| `SubscriptionProofs.TimeIsPaidFor` | contracts/manage_hub/src/subscription.rs:332-579 | in every reachable state a call that makes a subscription expire later is a resumption of it or pays for it |
| `SubscriptionProofs.SubscriptionsAreLogged` | contracts/manage_hub/src/subscription.rs:582-631 | a user's attendance log has one entry per successful creation, pause, resumption and renewal, and is sorted under a clock that does not run back |
| `SubscriptionEffects.LimitsAreAsConfigured` | contracts/manage_hub/src/subscription.rs:57-85 | the administrator sets any limits with a positive duration and count; until then thirty days, three pauses and one day between |
| `SubscriptionEffects.CreationLeaves` | contracts/manage_hub/src/subscription.rs:122-199 | a creation succeeds if and only if the id is new, it pays and the date fits; the record field by field and a ClockIn entry |
| `SubscriptionEffects.PausesLeave` | contracts/manage_hub/src/subscription.rs:201-303 | a pause succeeds if and only if the subscription runs and, for users, a pause is left and the minimum time has passed; the whole record and entry it leaves, of the owner or the administrator |
| `SubscriptionEffects.ResumptionsLeave` | contracts/manage_hub/src/subscription.rs:305-404 | a resumption succeeds if and only if the subscription is paused and the dates fit; it credits the length of the pause, for users at most the longest allowed, and the whole record and entry it leaves |
| `SubscriptionEffects.RenewalLeaves` | contracts/manage_hub/src/subscription.rs:500-579 | a renewal succeeds if and only if the subscription is not paused, it pays and the date fits; it runs on from the later of expiry and now, for the new amount |
| `SubscriptionEffects.OtherChangesLeave` | contracts/manage_hub/src/subscription.rs:461-496 | a cancellation leaves it inactive without an open pause, a tier change sets tier and amount, and nothing else changes |
| `TokenHashMigration.RefreshTokens.Up` | backend/src/migrations/HashRefreshTokensAtRest1790000000000.ts:28-64 | for any page size the loop ends, reads each row above the sentinel once in id order, and leaves exactly the row-by-row rewriting of the table |
| `TokenHashMigration.RefreshTokens.HashPages` | backend/src/migrations/HashRefreshTokensAtRest1790000000000.ts:33-57 | the page loop: progress up to the cursor, nothing left above it |
| `TokenHashMigration.RefreshTokens.RewritePage` | backend/src/migrations/HashRefreshTokensAtRest1790000000000.ts:45-53 | one page hashed in place, other rows untouched |
| `TokenHashMigration.NextPage` | backend/src/migrations/HashRefreshTokensAtRest1790000000000.ts:34-41 | behind the last id of a page come exactly the ids after the page |
| `TokenHashMigration.RowsBecome` | backend/src/migrations/HashRefreshTokensAtRest1790000000000.ts:43-63 | a row above the sentinel keeps a hash and otherwise gets the hash of its token; the sentinel row is cut to 64 characters |
| `TokenHashMigration.HashedMeansHexadecimal` | backend/src/auth/helper/refresh-token-hash.ts:31-33 | a token counts as hashed if and only if it is 64 of the sixteen lower-case hexadecimal digits |
| `TokenHashMigration.MigrationIsIdempotent` | backend/src/migrations/HashRefreshTokensAtRest1790000000000.ts:19-20 | running it again changes nothing |
| `TokenHashMigration.IssuedSessionsSurvive` | backend/src/migrations/HashRefreshTokensAtRest1790000000000.ts:10-15 | after the migration a lookup of a client's token finds, above the sentinel, exactly the rows that belonged to its session before, but for hash collisions |
| `TokenHashMigration.NothingIsLeftInPlaintextExactly` | backend/src/migrations/HashRefreshTokensAtRest1790000000000.ts:30-31 | no plaintext is left if and only if a row under the sentinel id is absent or already hashed after the cast |

## Left out

- Attendance.ParseSessions: stated for time-sorted logs, which `LogsAreSorted`, `SubscriptionsAreLogged` and `FilteredIsSorted` give for every log the contract can hold; on other logs the subtraction could trap.
- Attendance.GetAttendanceSummary: stated for time-sorted logs, for the same reason; the u32 counts fit because a host vector has fewer than 2^32 elements, a limit the model does not have.
- HubStore.Env.TransferFrom: does not state how the allowance shrinks, because the allowance module is an argument (its refusal) and approvals are not part of this model.
- SubscriptionStore.SubscriptionEnv.RenewSubscription: does not model the tier analytics a renewal updates; an overflow there would trap, and the analytics are read by nothing in the model.
- SubscriptionStore.SubscriptionEnv.LogSubscriptionEvent: models the per-user log; the copy stored under the event id is left out, since that id is a placeholder made of the length of the subscription id.
- SubscriptionSpec.Create also stands for the end of `create_subscription_with_tier`; tier lookup, promotions and the checks of `process_tier_change` are not part of this model, only what it writes to a subscription.
- StakingStore.StakingEnv.Transfer: the token contract is a map of balances that refuses when funds are short; other ways a token contract could fail are not modelled.
- GovernanceConfig.RemovalCanInvalidate: starts from a state written by hand; the run that reaches such a state is `GovernanceScenarios.RemovalInvalidatesInARun`.
- RenewalProofs.UpgradeCanBreakGrace: starts from a hub written by hand; the run is `GraceProofs.UpgradeBreaksStampsInARun`.
- Event publishing, storage lifetimes and archival, and signature checks: no effect on the modelled state.
- The limit of 2^32 - 1 elements on host vectors and maps: not modelled, lists grow without bound.
- Tier functions, access logging and `check_access` of the access-control contract: single reads and writes without an invariant.
- Proposal actions TransferAdmin, ScheduleUpgrade and EmergencyAdminTransfer: kept only as actions that fail when executed, which is what the code does.
- Promotions, tier management, proration, tier analytics, royalty settings, peak-hour and day histograms: simple single-function code.
- sha256 is an arbitrary function; where a statement needs it, its values look like hashes.
- Database concurrency during the migration: the table changes only through the migration.
- Backend services, controllers and the frontend: wiring and I/O.
