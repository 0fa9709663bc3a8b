# Livepeer alerts backend — a Dafny model of its core

The backend watches the Livepeer protocol and notifies subscribers. The
subscribers are delegators and transcoders (delegates). This project models
the parts of it that decide what is stored and who is notified:

- **Reward arithmetic** (`RewardMath`, `DelegatorService`):
  - the delegate's share of the tokens minted for the next round;
  - its reward cut, and what is left for its delegators;
  - a delegator's slice of that remainder;
  - the count of missed reward calls;
  - the process-wide delegator service instance.
- **The per-round store** (`RoundStore`, `RoundPools`, `RoundShares`):
  - `Store` is a class whose five maps hold rounds, delegates, delegators,
    reward pools and stake shares. The jobs update those maps in place.
  - The invariant `Consistent` says that every pool and share list resolves,
    holds no duplicates and points back at its owner.
  - Each job method is proved to leave the store equal to a specification
    function of the old store, and to keep `Consistent`.
- **Delegate rule changes** (`DelegateChangeRules`): a stored delegate is
  compared with the fetched one and is inserted, replaced or left alone.
- **Notifications**:
  - `NotificationGate`: the frequency gate;
  - `DelegatorEmail`: choosing the reward-call email and recording it;
  - `NotificateDelegators`: the gated email and telegram loops, and the
    change-rules fan-out;
  - `SubscriberQuery`, `DelegateDidRewardJob`, `DelegatorClaimRewardJob`:
    the subscriber query and the two daily jobs.

Token amounts are exact rationals (`real`). No rounding happens anywhere in
the model.

Several operations depend on code that is not part of this model. Each such
dependency is a parameter of the member that needs it:

- the protocol source, the delegate service and the role lookup;
- the per-round reward of a delegator;
- whether a send succeeded.

## Model

| member | source | states |
|---|---|---|
| RewardMath.ProtocolNextReward | test/delegate.test.js:40-160 | The reward is zero when nothing is bonded or nothing is minted. Otherwise it is the delegate's proportional share: reward × totalBonded = minted × delegateStake. |
| RewardMath.ProtocolRewardScaleFree | test/delegate.test.js:47-73 | Expressing both stakes in another unit (base units or tokens) leaves the reward unchanged. |
| RewardMath.ProtocolRewardBounded | test/delegate.test.js:40-160 | A delegate holding part of the bonded stake gets between zero and the minted amount. |
| RewardMath.ProtocolRewardExamples | test/delegate.test.js:47-156 | The four worked examples come out exactly: 14, 36.6, 0 and 10. |
| RewardMath.DelegateNextReward | test/delegate.test.js:162-225 | The delegate's cut is protocolReward × pendingRewardCut / 1,000,000 (stated as r × 1,000,000 = protocolReward × pendingRewardCut). It is zero for a zero cut or a zero reward. It is the whole reward at a 100% cut, and it never exceeds the reward for a cut within 0..1,000,000. |
| RewardMath.RewardToDelegators | test/delegate.test.js:227-290 | The delegate's cut plus what is left to the delegators equals the protocol reward. The remainder lies between zero and the reward. |
| RewardMath.RewardCutExamples | test/delegate.test.js:163-286 | The worked examples with a 10% cut: 100, 19876.1, 0, 900, 17858.889578862 and 0. |
| RewardMath.CountMissed | test/delegate.test.js:292-386 | The count of entries without reward never exceeds the length of the history. |
| RewardMath.CountMissedExtremes | test/delegate.test.js:292-386 | A history with no reward anywhere counts every entry; one with reward everywhere counts none. |
| RewardMath.MissedRewardCalls | test/delegate.test.js:292-386 | At most 30 missed calls, and never more than there are entries. It is the plain count for a history of at most 30 entries. |
| RewardMath.MissedCallsFirstTenOfThirty | test/delegate.test.js:294-323 | 30 rounds, of which the first ten have no reward: 10 missed calls. |
| RewardMath.MissedCallsLeadingAndTrailingGaps | test/delegate.test.js:325-358 | 40 rounds, with gaps at rounds 1-5 and 35-40: 5 missed calls. |
| RewardMath.MissedCallsNone | test/delegate.test.js:360-386 | 30 rounds, all with reward: no missed calls. |
| DelegatorService.DelegatorNextReward | server/helpers/services/delegatorService.js:47-52 | The reward is zero when the delegate's stake is not positive. Otherwise reward × delegateStake = rewardToDelegators × delegatorStake. |
| DelegatorService.WholeStakeGetsWholeReward | server/helpers/services/delegatorService.js:48-52 | A delegator holding all of the delegate's stake gets all of the reward left to delegators. |
| DelegatorService.DelegatorRewardBounded | server/helpers/services/delegatorService.js:48-52 | A delegator holding part of the stake gets between zero and the whole reward left to delegators. |
| DelegatorService.GetDelegatorNextReward | server/helpers/services/delegatorService.js:38-53 | The account is fetched first. The delegate's stake and reward are then looked up with the account's own delegate address, and the result is the proportional slice. |
| DelegatorService.Service.constructor | server/helpers/services/delegatorService.js:17-20 | A service keeps the source it was created with. |
| DelegatorService.ServiceSlot.constructor | server/helpers/services/delegatorService.js:6 | The module starts with no instance. |
| DelegatorService.ServiceSlot.GetDelegatorService | server/helpers/services/delegatorService.js:10-15 | The first call creates a fresh instance with the given source. Every later call returns the stored instance and ignores its argument. |
| DelegatorService.GetDelegatorServiceTwice | server/helpers/services/delegatorService.js:10-15 | Two calls in a row return one and the same instance. If the slot was empty, that instance has the first source. |
| DelegateChangeRules.HasDelegateChangedRules | server/jobs/check-delegate-change-rules.js:49-61 | True exactly when one of feeShare, pendingFeeShare, rewardCut or pendingRewardCut differs. |
| DelegateChangeRules.ChangedRulesIrreflexiveAndSymmetric | server/jobs/check-delegate-change-rules.js:51-55 | A delegate compared with itself has not changed, and the comparison is symmetric. |
| DelegateChangeRules.OtherFieldsAreNotRules | server/jobs/check-delegate-change-rules.js:50-55 | Differences in active, status, totalStake or the other fields are not a rule change. |
| DelegateChangeRules.ReconcileStep | server/jobs/check-delegate-change-rules.js:19-42 | After one fetched delegate is handled, exactly its id has been added to the stored ids. |
| DelegateChangeRules.ReconciledKeys | server/jobs/check-delegate-change-rules.js:18-43 | After the loop the stored ids are the old ones plus every fetched id. |
| DelegateChangeRules.ReconciledLeavesOthers | server/jobs/check-delegate-change-rules.js:18-43 | A stored delegate whose id was not fetched is left as it was, and no other id appears. |
| DelegateChangeRules.ReconciledAt | server/jobs/check-delegate-change-rules.js:19-42 | A fetched delegate is inserted when missing and replaced by the fetched fields when its rules changed. Otherwise the stored record is kept. |
| DelegateChangeRules.ReconciledRulesMatch | server/jobs/check-delegate-change-rules.js:21-28 | After the loop every fetched delegate's rules are the stored ones. |
| DelegateChangeRules.UpToDateWritesNothing | server/jobs/check-delegate-change-rules.js:19-21 | When no fetched delegate is missing or changed, nothing is written and the store is unchanged. |
| DelegateChangeRules.SecondRunWritesNothing | server/jobs/check-delegate-change-rules.js:18-45 | Running the job again on the same fetched list writes nothing. |
| DelegateChangeRules.WrittenExactly | server/jobs/check-delegate-change-rules.js:18-45 | A fetched delegate is written exactly when it was missing or its rules changed. |
| DelegateChangeRules.PutDelegateKeepsConsistent | server/jobs/check-delegate-change-rules.js:22-28 | Writing a delegate record keeps the store invariant. |
| DelegateChangeRules.WorkerCheckDelegateChangeRules | server/jobs/check-delegate-change-rules.js:11-47 | The loop leaves the delegates as the reconciliation specifies and keeps the store invariant. The snapshots it writes are returned in order. |
| RoundStore.AtMostOneSharePerPair | server/helpers/updateRoundShares.js:43 | In a consistent store, two shares of one delegator in one round are the same record. |
| RoundStore.InsertMissingDelegates | server/helpers/update-round-pools.js:132-133 | Every fetched id becomes stored, and stored delegates keep their records. A new record has no pools and carries the snapshot of a fetched delegate with its id. |
| RoundStore.InsertMissingDelegators | server/helpers/updateRoundShares.js:123-124 | Every given address becomes stored, and stored delegators keep their records. A new record has no shares, and its delegate and total stake are those of a given delegator with its address. |
| RoundStore.InsertMissingDelegatesKeepsConsistent | server/helpers/update-round-pools.js:133 | Adding the missing delegates keeps the store invariant. |
| RoundStore.InsertMissingDelegatorsKeepsConsistent | server/helpers/updateRoundShares.js:124 | Adding the missing delegators keeps the store invariant. |
| RoundStore.CheckAndUpdateMissingLocalDelegates | server/helpers/update-round-pools.js:132-133 | The store's delegates become the insert-missing result, nothing else changes, and the invariant holds. |
| RoundStore.CheckAndUpdateMissingLocalDelegators | server/helpers/updateRoundShares.js:123-124 | The store's delegators become the insert-missing result, nothing else changes, and the invariant holds. |
| RoundPools.PoolStep | server/helpers/update-round-pools.js:77-118 | Handling one pool never adds or removes a round or a delegate. |
| RoundPools.RunPools | server/helpers/update-round-pools.js:77-118 | Handling the list never adds or removes a round or a delegate. |
| RoundPools.PoolStepEffect | server/helpers/update-round-pools.js:84-112 | A pool of an unknown delegate writes nothing, and a taken pool id fails with nothing written. Otherwise the pool is stored with its reward, stake, delegate and round, and appended once to the round and once to the delegate. |
| RoundPools.PoolStepKeepsConsistent | server/helpers/update-round-pools.js:95-112 | Handling one pool keeps the store invariant. |
| RoundPools.RunPoolsKeepsConsistent | server/helpers/update-round-pools.js:77-118 | Handling the whole list keeps the store invariant. |
| RoundPools.RunPoolsAppend | server/helpers/update-round-pools.js:77-118 | Pools are handled in order, and a failure stops the rest of the list. |
| RoundPools.FailedSaveStopsBatch | server/helpers/update-round-pools.js:113-117 | When the k-th pool fails, the batch aborts with that pool's error. The store holds exactly what the earlier pools wrote. |
| RoundPools.NothingNewWritesNothing | server/helpers/update-round-pools.js:84-90 | A list whose pools are all of unknown delegates or already stored leaves the store unchanged. It completes exactly when every pool is of an unknown delegate; otherwise it fails with PoolSaveFailed on the first pool of a stored delegate. |
| RoundPools.CompletedBatchStoresAll | server/helpers/update-round-pools.js:77-118 | After a completed batch, every pool of a stored delegate is stored. |
| RoundPools.PoolsReplayWritesNothing | server/helpers/update-round-pools.js:95-104 | Replaying a completed batch for the same round writes nothing. The replay completes exactly when no pool is of a stored delegate; otherwise it fails with PoolSaveFailed on one of the pools. |
| RoundPools.TwoPoolsForOneDelegateAndRound | server/helpers/update-round-pools.js:95-104 | Nothing rejects a second pool for the same delegate and round: two fresh pool ids for one delegate are both stored. |
| RoundPools.SavePool | server/helpers/update-round-pools.js:95-112 | The pool is stored, then appended to its round, then appended to its delegate. |
| RoundPools.UpdateDelegatePoolsOfRound | server/helpers/update-round-pools.js:56-119 | The checks on a missing round, a missing list or an unstored round fail before any write. The store then ends as the pool batch specifies, with its error, and keeps the invariant. |
| RoundPools.UpdateDelegatesPools | server/helpers/update-round-pools.js:122-146 | A missing round fails with nothing written. Otherwise the delegates are reconciled first. Missing pool data then fails, and a present list is handled as the batch specifies. |
| RoundShares.ShareIdInjective | server/helpers/updateRoundShares.js:43 | For addresses without '-', the id `<address>-<roundId>` determines both the address and the round. |
| RoundShares.ShareOfRound | server/helpers/updateRoundShares.js:8-86 | A call never adds or removes a round or a delegator. |
| RoundShares.ShareOfRoundEffect | server/helpers/updateRoundShares.js:10-78 | Every failed check writes nothing, and the call succeeds exactly when all checks pass. On success the share is stored under `<address>-<roundId>` with the stored stake and delegate, and appended once to the round and once to the delegator. |
| RoundShares.WithShareKeepsConsistent | server/helpers/updateRoundShares.js:68-78 | Saving and appending a new share keeps the store invariant. |
| RoundShares.ShareOfRoundKeepsConsistent | server/helpers/updateRoundShares.js:8-86 | Every outcome of the call keeps the store invariant. |
| RoundShares.ShareReplayRejected | server/helpers/updateRoundShares.js:58-67 | Asking again for a share that was just written fails as a duplicate and writes nothing. |
| RoundShares.SaveShare | server/helpers/updateRoundShares.js:68-78 | The share is stored, then appended to its round, then appended to its delegator. |
| RoundShares.UpdateDelegatorSharesOfRound | server/helpers/updateRoundShares.js:8-86 | The store ends as the call specifies, with its error, and keeps the invariant. |
| RoundShares.DedupByAddress | server/helpers/updateRoundShares.js:102-117 | The de-duplicated list is no longer than the subscriber list. |
| RoundShares.DedupByAddressUnique | server/helpers/updateRoundShares.js:102-117 | No two delegators of the result share an address. |
| RoundShares.DedupByAddressComplete | server/helpers/updateRoundShares.js:102-117 | Every address of the subscriber list is in the result. |
| RoundShares.DedupByAddressKeepsFirst | server/helpers/updateRoundShares.js:104-117 | Each delegator of the result is the one at the first occurrence of its address. |
| RoundShares.DedupByAddressOrdered | server/helpers/updateRoundShares.js:104-117 | The result follows the order of first occurrences. |
| RoundShares.DedupNonEmpty | server/helpers/updateRoundShares.js:118-121 | A non-empty subscriber list yields a non-empty delegator list. |
| RoundShares.DelegatorsOfSubscribers | server/helpers/updateRoundShares.js:102-117 | The nested loop computes the de-duplicated list. |
| RoundShares.RunShares | server/helpers/updateRoundShares.js:127-136 | One outcome is recorded per delegator. |
| RoundShares.RunSharesKeepsConsistent | server/helpers/updateRoundShares.js:127-136 | The whole batch keeps the store invariant. |
| RoundShares.RunSharesKeepsShares | server/helpers/updateRoundShares.js:127-136 | A batch never removes a share. |
| RoundShares.EveryDelegatorAttempted | server/helpers/updateRoundShares.js:127-136 | Whatever happened to the others, every delegator whose call succeeded has its share of the round stored at the end. |
| RoundShares.UpdateDelegatorsShares | server/helpers/updateRoundShares.js:89-138 | A missing round, or an empty or missing subscriber list, writes nothing. Otherwise the de-duplicated delegators are reconciled, then handled one by one, and the errors are collected. |
| NotificationGate.ScenariosPinPolicy | test/notificate-delegators-utils.test.js:124-552 | Never-notified subscribers are always due. A policy reproduces the four round-10 scenarios exactly when daily waits one round and weekly waits 2 to 7 rounds. |
| NotificationGate.DueStaysDue | server/helpers/notification/notificateDelegatorUtils.js:28-37 | Once due, a subscriber stays due in every later round. |
| NotificationGate.RecordedRoundGates | server/helpers/notification/notificateDelegatorUtils.js:28-37 | After round r is recorded, the subscriber is due exactly from r plus the frequency's wait, so never in r itself when the wait is positive. |
| DelegatorEmail.NotificationBodySelection | server/helpers/sendDelegatorEmail.js:110-166 | There is an email for every status but Pending, addressed to the subscriber, with the template of that status. Bonded picks AllGood exactly when reward was called, carries the next reward and spans rounds currentRound to currentRound + 1. Unbonding carries the rounds until unbonded. |
| DelegatorEmail.SendAndRecord | server/helpers/sendDelegatorEmail.js:165-176 | The subscriber is saved exactly when there is an email and the send succeeded. The saved record differs only in its last-email stamp. |
| DelegatorEmail.TimestampStarvesGate | server/helpers/sendDelegatorEmail.js:170-172 | As written, once a clock time is recorded, the subscriber is never due again in any round below that time. |
| DelegatorEmail.RecordedRoundRestartsGate | server/helpers/sendDelegatorEmail.js:97-177 | With the round recorded, the subscriber is saved exactly for a non-Pending status and a good send. It is then due again exactly after its frequency's wait. |
| DelegatorEmail.DelegateChangeRulesEmailContents | server/helpers/sendDelegatorEmail.js:179-213 | The email is built exactly when the subscriber has an email address and the properties are given. Its old and new snapshots differ exactly when a rule or the active flag changed. |
| NotificateDelegators.EmailPlanSelects | server/helpers/notification/notificateDelegatorUtils.js:25-61 | Exactly the gated-through subscribers whose figures were fetched get an email, for the current round and with their own delegator's figures. |
| NotificateDelegators.SendEmailRewardCallNotificationToDelegators | server/helpers/notification/notificateDelegatorUtils.js:10-64 | Missing round information fails. Otherwise the loop returns the email plan for round `currentRoundInfo.id`. |
| NotificateDelegators.TelegramPlanSelects | server/helpers/notification/notificateDelegatorUtils.js:76-91 | Exactly the gated-through subscribers get a telegram, for the current round. |
| NotificateDelegators.SendTelegramRewardCallNotificationToDelegators | server/helpers/notification/notificateDelegatorUtils.js:66-97 | Missing round information fails. Otherwise the loop returns the telegram plan. |
| NotificateDelegators.SendNotificationDelegateChangeRuleToDelegatorsAsWritten | server/helpers/notification/notificateDelegatorUtils.js:99-108 | As written: one item per subscriber, and no email is ever built. |
| NotificateDelegators.SendNotificationDelegateChangeRuleToDelegators | server/helpers/notification/notificateDelegatorUtils.js:99-108 | One item per subscriber, in order, each the change-rules email for that subscriber. There is an email exactly for the subscribers with an address. |
| SubscriberQuery.CandidatesExactly | server/jobs/delegate-did-reward-call-utils.js:47-51 | The query returns exactly the stored daily, activated subscriptions that have an address for the channel. |
| DelegateDidRewardJob.ToNotifySelects | server/jobs/delegate-did-reward-call-utils.js:12-44 | Every kept subscriber is a transcoder entry of the list, with its own delegate's reward call. Every entry that qualifies is kept. |
| DelegateDidRewardJob.GetSubscribers | server/jobs/delegate-did-reward-call-utils.js:12-44 | The loop with its three skips computes the kept list, in list order. |
| DelegateDidRewardJob.SendNotifications | server/jobs/delegate-did-reward-call-utils.js:46-92 | There is one send per kept subscriber, in order, on the channel, and the kept list is returned. |
| DelegateDidRewardJob.SendNotificationEmailFn | server/jobs/delegate-did-reward-call-utils.js:46-68 | The email variant, on the email query. |
| DelegateDidRewardJob.SendNotificationTelegramFn | server/jobs/delegate-did-reward-call-utils.js:70-92 | The telegram variant, on the telegram query. |
| DelegatorClaimRewardJob.NonTranscodersExactly | server/jobs/delegator-claim-reward-call-utils.js:68-75 | Exactly the non-transcoders of the list are kept. |
| DelegatorClaimRewardJob.ClaimEmailsOnePerDelegator | server/jobs/delegator-claim-reward-call-utils.js:25-50 | The job fails exactly when a non-transcoder has no delegator. The emails issued go to the non-transcoders in order, each with its own delegator's figures and the one round fetched. Without a failure they cover every non-transcoder. |
| DelegatorClaimRewardJob.GetSubscribersToSendEmails | server/jobs/delegator-claim-reward-call-utils.js:15-58 | The email loop computes the claim emails of the email query, including the emails issued before a failure. |
| DelegatorClaimRewardJob.ClaimEmailsAbortStays | server/jobs/delegator-claim-reward-call-utils.js:29-50 | A failure on a prefix ends the whole job as the prefix ended: later subscriptions issue nothing. |
| DelegatorClaimRewardJob.ClaimEmailsStopAtFirstFailure | server/jobs/delegator-claim-reward-call-utils.js:29-50 | When the first failing subscription is at k, the job fails, and the emails issued are exactly those of the subscriptions before k. Those run without failure. |
| DelegatorClaimRewardJob.GetSubscribersToSendTelegrams | server/jobs/delegator-claim-reward-call-utils.js:60-83 | The telegram loop returns the non-transcoders of the telegram query, in order. |
| DelegatorClaimRewardJob.ComplementaryAudiences | server/jobs/delegator-claim-reward-call-utils.js:31-34 | For a subscription with an address and a known delegate, the did-reward job keeps it exactly when the claim-reward job skips it. |

## Left out

- Network, database and mail/telegram I/O, logging and `process.exit` are not modelled. Every fetch is a parameter: the protocol source, the delegate service, the role lookup, the per-round reward of a delegator, the current round and whether a send succeeded.
- The delegate service (`getDelegateProtocolNextReward`, `getDelegateNextReward`, `getDelegateRewardToDelegators`, `getMissedRewardCalls`) is not part of this model. Its functions are modelled from the worked examples in test/delegate.test.js, as exact rational arithmetic.
- RewardMath.MissedRewardCalls: the history is ordered by ascending round, and the first 30 entries are counted. The three worked examples fit this rule, but the true window of the unseen code may be defined differently.
- The frequency gate (`shouldSubscriberReceiveEmailNotifications` and its telegram twin) is not part of this model. It is modelled as "due when never notified or when the frequency's number of rounds has passed". The waits are a `GatePolicy` parameter, constrained by the round-10 scenarios of the dispatcher tests.
- `checkAndUpdateMissingLocalDelegates` and `checkAndUpdateMissingLocalDelegators` are not part of this model. They are modelled as "insert the missing records; keep the stored ones".
- DelegateChangeRules.WorkerCheckDelegateChangeRules: a replaced delegate is a new document built from the fetched fields alone, so the model gives it an empty pool list. The model does not capture that saving a new document under a taken id may be refused by the database. The saves are modelled as applied in list order, whereas the source awaits them together.
- `promiseRetry` around the fetches is modelled as a fetch that either yields a value or fails (`Option`). Retrying until success is not modelled.
- The email loop's per-subscriber `catch` is modelled as the failed fetch dropping that subscriber. The telegram loop has no such catch and reads nothing that can fail in the model.
- DelegatorClaimRewardJob.GetSubscribersToSendEmails: only the missing delegator account is modelled as a failure. Failures of the reward fetches are not modelled. The job's rejection is the `failed` flag. The emails issued before it are kept, since their sends are already under way.
- Round numbers in the email layer are integers. This covers `currentRoundInfo.id`, the `currentRound` handed to the reward-call email, and the last-sent stamps. Round ids are strings elsewhere, and the store keys rounds by string. With a string round, the email's `roundTo` (`currentRound + 1`) would be a string concatenation, not the next round. The model does not capture that case.
- Sends collected for `Promise.all` are modelled as a sequence of requests, in list order. Concurrency is not modelled.
- Formatting is not modelled: `formatBalance`, `truncateStringInTheMiddle`, the date line and URLs in the email bodies.
- The dead `test()` helper in server/helpers/update-round-pools.js is not modelled.
- Not modelled: server/helpers/sendEmail.js, server/helpers/sendTelegram.js, the telegram bot, the HTTP controllers and the Joi schemas. The frequency enum is kept as `Frequency`.

## Findings

| source | as written | input that shows it | evidently intended | confidence | as-written member | corrected member |
|---|---|---|---|---|---|---|
| server/helpers/sendDelegatorEmail.js:171 | After a sent email, `lastEmailSent` is set to `Date.now()`, a clock time in milliseconds. The gate compares it with round numbers. | A Bonded delegator emailed at clock time 1.6e12: in every later round below 1.6e12, the gate finds it not due. | Record the current round, the unit the gate counts in. | not executed | DelegatorEmail.SendDelegatorNotificationEmailAsWritten (lemma DelegatorEmail.TimestampStarvesGate) | DelegatorEmail.SendDelegatorNotificationEmail (lemma DelegatorEmail.RecordedRoundRestartsGate) |
| server/helpers/notification/notificateDelegatorUtils.js:103 | The change-rules email is called with the subscriber only. `propertiesChanged` is then undefined, reading it throws, and the throw is caught at server/helpers/sendDelegatorEmail.js:209-211. | Any subscriber with an email address: no email is built. | Pass the delegate address and the changed properties on to the email. | not executed | NotificateDelegators.SendNotificationDelegateChangeRuleToDelegatorsAsWritten | NotificateDelegators.SendNotificationDelegateChangeRuleToDelegators |
