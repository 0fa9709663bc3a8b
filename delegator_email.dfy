/**
 * The reward-call email for a delegator: the template and body chosen from
 * the delegator's bonding status, the record of the last email on the
 * subscriber, and the email announcing that a delegate changed its rules.
 */
module DelegatorEmail {
  import opened Wrappers
  import opened Entities
  import opened NotificationGate
  import DelegateChangeRules

  datatype TemplateId =
    | ClaimRewardCallAllGood
    | ClaimRewardCallPayAttention
    | ClaimRewardUnbondedState
    | ClaimRewardUnbondingState
    | NotificationDelegateChangeRules

  /** The rule fields shown in the change-rules email. */
  datatype RuleSnapshot = RuleSnapshot(
    rewardCut: int, feeShare: int, pendingFeeShare: int, pendingRewardCut: int, active: bool)

  function SnapshotOf(d: Delegate): RuleSnapshot {
    RuleSnapshot(d.rewardCut, d.feeShare, d.pendingFeeShare, d.pendingRewardCut, d.active)
  }

  /** The template-specific part of an email body. Token amounts are kept
      unformatted; the date line and the shortened address are left out. */
  datatype Fields =
    | BondedFields(
        callReward: bool, totalStake: real, currentRound: int, roundFrom: int, roundTo: int,
        lptEarned: real, delegateAddress: Address, statusAccount: Address)
    | UnbondedFields
    | UnbondingFields(roundsUntilUnbonded: int)
    | ChangeRulesFields(
        delegateAddress: Address, statusAccount: Address, oldRules: RuleSnapshot, newRules: RuleSnapshot)

  datatype EmailBody = EmailBody(email: Option<string>, templateId: TemplateId, fields: Fields)

  /** The status each reward-call template is chosen for. */
  function StatusOfTemplate(t: TemplateId): Option<DelegatorStatus> {
    match t
    case ClaimRewardCallAllGood => Some(Bonded)
    case ClaimRewardCallPayAttention => Some(Bonded)
    case ClaimRewardUnbondedState => Some(Unbonded)
    case ClaimRewardUnbondingState => Some(Unbonding)
    case NotificationDelegateChangeRules => None
  }

  /** The reward-call email for a delegator in `currentRound`, or `None` for a
      status with no template. The rounds left until unbonded come from the
      protocol constants and the round information. */
  function NotificationBody(
    subscriber: Subscriber,
    delegator: Delegator,
    delegateCalledReward: bool,
    delegatorNextReward: real,
    currentRound: int,
    roundsUntilUnbondedOf: Delegator -> int)
    : Option<EmailBody>
  {
    match delegator.status
    case Bonded =>
      var templateId := if delegateCalledReward then ClaimRewardCallAllGood else ClaimRewardCallPayAttention;
      Some(EmailBody(subscriber.email, templateId,
        BondedFields(delegateCalledReward, delegator.totalStake, currentRound, currentRound, currentRound + 1,
                     delegatorNextReward, delegator.delegateAddress, subscriber.address)))
    case Unbonded => Some(EmailBody(subscriber.email, ClaimRewardUnbondedState, UnbondedFields))
    case Unbonding =>
      Some(EmailBody(subscriber.email, ClaimRewardUnbondingState, UnbondingFields(roundsUntilUnbondedOf(delegator))))
    case Pending => None
  }

  /** An email is built for every bonding status but Pending; it goes to the
      subscriber's address and its template is one chosen for the delegator's
      status. A Bonded body reports the delegate's reward call, the next
      reward and the span from the current round to the next one. */
  lemma NotificationBodySelection(
    subscriber: Subscriber,
    delegator: Delegator,
    delegateCalledReward: bool,
    delegatorNextReward: real,
    currentRound: int,
    roundsUntilUnbondedOf: Delegator -> int)
    ensures var b := NotificationBody(subscriber, delegator, delegateCalledReward, delegatorNextReward,
                                      currentRound, roundsUntilUnbondedOf);
            && (b.Some? <==> delegator.status != Pending)
            && (b.Some? ==> b.value.email == subscriber.email
                            && StatusOfTemplate(b.value.templateId) == Some(delegator.status))
            && (delegator.status == Bonded ==>
                  && (b.value.templateId == ClaimRewardCallAllGood <==> delegateCalledReward)
                  && b.value.fields.roundFrom == currentRound
                  && b.value.fields.roundTo == b.value.fields.roundFrom + 1
                  && b.value.fields.lptEarned == delegatorNextReward
                  && b.value.fields.delegateAddress == delegator.delegateAddress)
            && (delegator.status == Unbonding ==>
                  b.value.fields == UnbondingFields(roundsUntilUnbondedOf(delegator)))
  {
  }

  /** What one call produced: the email attempted, if any, and the subscriber
      record as saved afterwards, if it was saved. */
  datatype EmailOutcome = EmailOutcome(attempted: Option<EmailBody>, saved: Option<Subscriber>)

  /** Builds the email, sends it and, once the send went through, records
      `stamp` as the subscriber's last email and saves it; a failed send is
      swallowed and leaves the subscriber as it was. */
  function SendAndRecord(
    subscriber: Subscriber,
    body: Option<EmailBody>,
    sendSucceeds: bool,
    stamp: int)
    : (o: EmailOutcome)
    ensures o.attempted == body
    ensures o.saved.Some? <==> body.Some? && sendSucceeds
    ensures o.saved.Some? ==> o.saved.value == subscriber.(lastEmailSent := Some(stamp))
  {
    if body.None? then EmailOutcome(None, None)
    else if !sendSucceeds then EmailOutcome(body, None)
    else EmailOutcome(body, Some(subscriber.(lastEmailSent := Some(stamp))))
  }

  /** The call as written: the last email is recorded as the clock time `now`
      in milliseconds, not as a round number. */
  function SendDelegatorNotificationEmailAsWritten(
    subscriber: Subscriber,
    delegator: Delegator,
    delegateCalledReward: bool,
    delegatorNextReward: real,
    currentRound: int,
    roundsUntilUnbondedOf: Delegator -> int,
    sendSucceeds: bool,
    now: int)
    : EmailOutcome
  {
    var body := NotificationBody(subscriber, delegator, delegateCalledReward, delegatorNextReward,
                                 currentRound, roundsUntilUnbondedOf);
    SendAndRecord(subscriber, body, sendSucceeds, now)
  }

  /** Once an email has gone out, the recorded clock time is compared by the
      gate with round numbers: in every round before `now` (every round there
      will be, as clock times in milliseconds exceed round numbers by far) the
      subscriber is never due again, whatever the policy and frequency. */
  lemma TimestampStarvesGate(
    p: GatePolicy,
    subscriber: Subscriber,
    delegator: Delegator,
    delegateCalledReward: bool,
    delegatorNextReward: real,
    currentRound: int,
    roundsUntilUnbondedOf: Delegator -> int,
    now: int,
    laterRound: int)
    requires laterRound < now
    requires delegator.status != Pending
    ensures var o := SendDelegatorNotificationEmailAsWritten(
              subscriber, delegator, delegateCalledReward, delegatorNextReward,
              currentRound, roundsUntilUnbondedOf, true, now);
            o.saved.Some? && !ShouldReceiveEmail(p, o.saved.value, laterRound)
  {
  }

  /** The call with the last email recorded as the current round, the unit
      the gate counts in. */
  function SendDelegatorNotificationEmail(
    subscriber: Subscriber,
    delegator: Delegator,
    delegateCalledReward: bool,
    delegatorNextReward: real,
    currentRound: int,
    roundsUntilUnbondedOf: Delegator -> int,
    sendSucceeds: bool)
    : EmailOutcome
  {
    var body := NotificationBody(subscriber, delegator, delegateCalledReward, delegatorNextReward,
                                 currentRound, roundsUntilUnbondedOf);
    SendAndRecord(subscriber, body, sendSucceeds, currentRound)
  }

  /** After a sent email the subscriber is due again exactly from the round
      its email frequency's wait has passed since the current round; a status
      with no template, or a failed send, leaves nothing saved. */
  lemma RecordedRoundRestartsGate(
    p: GatePolicy,
    subscriber: Subscriber,
    delegator: Delegator,
    delegateCalledReward: bool,
    delegatorNextReward: real,
    currentRound: int,
    roundsUntilUnbondedOf: Delegator -> int,
    sendSucceeds: bool,
    laterRound: int)
    ensures var o := SendDelegatorNotificationEmail(
              subscriber, delegator, delegateCalledReward, delegatorNextReward,
              currentRound, roundsUntilUnbondedOf, sendSucceeds);
            && (o.saved.Some? <==> delegator.status != Pending && sendSucceeds)
            && (o.saved.Some? ==>
                  (ShouldReceiveEmail(p, o.saved.value, laterRound) <==>
                   laterRound >= currentRound + Threshold(p, subscriber.emailFrequency)))
  {
    var o := SendDelegatorNotificationEmail(
      subscriber, delegator, delegateCalledReward, delegatorNextReward,
      currentRound, roundsUntilUnbondedOf, sendSucceeds);
    RecordedRoundGates(p, subscriber.emailFrequency, currentRound, laterRound);
  }

  /** The old and new snapshots of a delegate whose rules changed. */
  datatype PropertiesChanged = PropertiesChanged(oldProperties: Delegate, newProperties: Delegate)

  /** A missing or empty email address counts as none. */
  predicate HasEmail(s: Subscriber) {
    s.email.Some? && s.email.value != ""
  }

  /** The change-rules email: nothing without an email address; nothing when
      the changed properties are missing (reading them fails and the failure
      is swallowed); otherwise the old and new rule fields of the delegate. */
  function DelegateChangeRulesEmail(
    subscriber: Subscriber,
    delegateAddress: Address,
    propertiesChanged: Option<PropertiesChanged>)
    : Option<EmailBody>
  {
    if !HasEmail(subscriber) then None
    else if propertiesChanged.None? then None
    else
      var pc := propertiesChanged.value;
      Some(EmailBody(subscriber.email, NotificationDelegateChangeRules,
        ChangeRulesFields(delegateAddress, subscriber.address,
                          SnapshotOf(pc.oldProperties), SnapshotOf(pc.newProperties))))
  }

  /** The change-rules email is sent exactly to subscribers with an email
      address when the changed properties are given; its snapshots differ
      exactly when the delegate's rules or its active flag changed. */
  lemma DelegateChangeRulesEmailContents(
    subscriber: Subscriber,
    delegateAddress: Address,
    propertiesChanged: Option<PropertiesChanged>)
    ensures var b := DelegateChangeRulesEmail(subscriber, delegateAddress, propertiesChanged);
            && (b.Some? <==> HasEmail(subscriber) && propertiesChanged.Some?)
            && (b.Some? ==>
                  var pc := propertiesChanged.value;
                  && b.value.email == subscriber.email
                  && b.value.templateId == NotificationDelegateChangeRules
                  && b.value.fields.delegateAddress == delegateAddress
                  && (b.value.fields.oldRules != b.value.fields.newRules <==>
                      || DelegateChangeRules.HasDelegateChangedRules(pc.oldProperties, pc.newProperties)
                      || pc.oldProperties.active != pc.newProperties.active))
  {
  }
}
