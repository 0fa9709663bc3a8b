/**
 * Snapshots of the protocol's accounts as they are fetched from the protocol
 * source, and the subscriber record of the notification service.
 */
module Entities {
  import opened Wrappers

  /** Wallet addresses and record ids are strings; the empty string plays the
      part of a missing (falsy) address. */
  type Address = string

  /** A delegate (transcoder) as the protocol source reports it. The four
      "rule" fields are the ones a delegator cares about when they change. */
  datatype Delegate = Delegate(
    id: Address,
    active: bool,
    status: string,
    lastRewardRound: int,
    rewardCut: int,
    feeShare: int,
    pendingRewardCut: int,
    pendingFeeShare: int,
    totalStake: real)

  datatype DelegatorStatus = Pending | Bonded | Unbonding | Unbonded

  /** A delegator account as the protocol source reports it. */
  datatype Delegator = Delegator(
    address: Address,
    delegateAddress: Address,
    totalStake: real,
    status: DelegatorStatus,
    withdrawRound: int)

  /** Subscription frequencies accepted by the subscriber API. */
  datatype Frequency = Monthly | Weekly | Daily | Hourly

  /** A subscription. `lastEmailSent` / `lastTelegramSent` are compared with
      round numbers by the frequency gate. */
  datatype Subscriber = Subscriber(
    id: string,
    address: Address,
    email: Option<string>,
    telegramChatId: Option<string>,
    frequency: Frequency,
    emailFrequency: Frequency,
    telegramFrequency: Frequency,
    lastEmailSent: Option<int>,
    lastTelegramSent: Option<int>,
    activated: bool)

  /** The pair the subscriber utilities hand to the notification loops. */
  datatype SubscriberAndDelegator = SubscriberAndDelegator(subscriber: Subscriber, delegator: Delegator)

  /** Role of a subscriber's wallet, as resolved by the role lookup. */
  datatype Role = Transcoder | DelegatorRole

  /** What the role lookup returns: the role and, when found, the delegator account. */
  datatype RoleInfo = RoleInfo(role: Role, delegator: Option<Delegator>)
}
