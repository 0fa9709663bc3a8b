/**
 * The reward-call dispatch to subscribed delegators: the email and telegram
 * loops that pick the subscribers the frequency gate lets through in the
 * current round, and the fan-out of the delegate change-rules email.
 */
module NotificateDelegators {
  import opened Wrappers
  import opened Entities
  import opened NotificationGate
  import opened DelegatorEmail

  /** The current round as the protocol reports it. */
  datatype RoundInfo = RoundInfo(id: int)

  /** A pending reward-call email, with the figures fetched for it. */
  datatype EmailRequest = EmailRequest(
    subscriber: Subscriber,
    delegator: Delegator,
    delegateCalledReward: bool,
    delegatorNextReward: real,
    currentRound: int)

  /** A pending reward-call telegram message. */
  datatype TelegramRequest = TelegramRequest(subscriber: Subscriber, currentRound: int)

  function AsSeq<T>(o: Option<T>): seq<T> {
    if o.None? then [] else [o.value]
  }

  /** The email for one subscriber, if any: none when the gate holds it back
      or when fetching whether its delegate called reward, or its next reward,
      failed (the failure is logged and the loop goes on). */
  function EmailFor(
    sd: SubscriberAndDelegator,
    p: GatePolicy,
    currentRound: int,
    calledRewardOf: Address -> Option<bool>,
    nextRewardOf: Address -> Option<real>)
    : Option<EmailRequest>
  {
    if !ShouldReceiveEmail(p, sd.subscriber, currentRound) then None
    else
      var called := calledRewardOf(sd.delegator.delegateAddress);
      var next := nextRewardOf(sd.delegator.address);
      if called.None? || next.None? then None
      else Some(EmailRequest(sd.subscriber, sd.delegator, called.value, next.value, currentRound))
  }

  /** The emails of the whole list, in list order. */
  function EmailPlan(
    list: seq<SubscriberAndDelegator>,
    p: GatePolicy,
    currentRound: int,
    calledRewardOf: Address -> Option<bool>,
    nextRewardOf: Address -> Option<real>)
    : seq<EmailRequest>
  {
    if list == [] then []
    else
      EmailPlan(list[..|list| - 1], p, currentRound, calledRewardOf, nextRewardOf)
        + AsSeq(EmailFor(list[|list| - 1], p, currentRound, calledRewardOf, nextRewardOf))
  }

  /** The plan of two lists one after the other is the plan of the first
      followed by the plan of the second: the emails keep the list order. */
  lemma {:induction false} EmailPlanAppend(
    a: seq<SubscriberAndDelegator>,
    b: seq<SubscriberAndDelegator>,
    p: GatePolicy,
    currentRound: int,
    calledRewardOf: Address -> Option<bool>,
    nextRewardOf: Address -> Option<real>)
    ensures EmailPlan(a + b, p, currentRound, calledRewardOf, nextRewardOf)
         == EmailPlan(a, p, currentRound, calledRewardOf, nextRewardOf)
          + EmailPlan(b, p, currentRound, calledRewardOf, nextRewardOf)
  {
    if b != [] {
      var b' := b[..|b| - 1];
      assert (a + b)[..|a + b| - 1] == a + b';
      assert (a + b)[|a + b| - 1] == b[|b| - 1];
      EmailPlanAppend(a, b', p, currentRound, calledRewardOf, nextRewardOf);
    } else {
      assert a + b == a;
    }
  }

  /** Exactly the subscribers the gate lets through, and whose figures could
      be fetched, get an email; each email is for the current round and
      carries the fetched figures of its own delegator. */
  lemma {:induction false} EmailPlanSelects(
    list: seq<SubscriberAndDelegator>,
    p: GatePolicy,
    currentRound: int,
    calledRewardOf: Address -> Option<bool>,
    nextRewardOf: Address -> Option<real>)
    ensures var plan := EmailPlan(list, p, currentRound, calledRewardOf, nextRewardOf);
            && (forall r :: r in plan ==>
                  && r.currentRound == currentRound
                  && ShouldReceiveEmail(p, r.subscriber, currentRound)
                  && calledRewardOf(r.delegator.delegateAddress) == Some(r.delegateCalledReward)
                  && nextRewardOf(r.delegator.address) == Some(r.delegatorNextReward)
                  && exists k :: 0 <= k < |list| && list[k] == SubscriberAndDelegator(r.subscriber, r.delegator))
            && (forall k :: (&& 0 <= k < |list|
                             && ShouldReceiveEmail(p, list[k].subscriber, currentRound)
                             && calledRewardOf(list[k].delegator.delegateAddress).Some?
                             && nextRewardOf(list[k].delegator.address).Some?) ==>
                  EmailFor(list[k], p, currentRound, calledRewardOf, nextRewardOf).value in plan)
  {
    if list != [] {
      var n := |list| - 1;
      var prefix := list[..n];
      EmailPlanSelects(prefix, p, currentRound, calledRewardOf, nextRewardOf);
      var plan := EmailPlan(list, p, currentRound, calledRewardOf, nextRewardOf);
      var pplan := EmailPlan(prefix, p, currentRound, calledRewardOf, nextRewardOf);
      forall r | r in plan
        ensures exists k :: 0 <= k < |list| && list[k] == SubscriberAndDelegator(r.subscriber, r.delegator)
      {
        if r in pplan {
          var k :| 0 <= k < |prefix| && prefix[k] == SubscriberAndDelegator(r.subscriber, r.delegator);
          assert list[k] == prefix[k];
        } else {
          assert list[n] == SubscriberAndDelegator(r.subscriber, r.delegator);
        }
      }
      forall k | 0 <= k < n
        ensures EmailFor(list[k], p, currentRound, calledRewardOf, nextRewardOf).Some? ==>
                EmailFor(list[k], p, currentRound, calledRewardOf, nextRewardOf).value in plan
      {
        assert prefix[k] == list[k];
      }
    }
  }

  /** The email loop. `None` stands for the missing round information, which
      stops the dispatch before anything is read; otherwise the pending emails
      are returned, one per selected subscriber. */
  method SendEmailRewardCallNotificationToDelegators(
    currentRoundInfo: Option<RoundInfo>,
    subscribersDelegators: seq<SubscriberAndDelegator>,
    p: GatePolicy,
    calledRewardOf: Address -> Option<bool>,
    nextRewardOf: Address -> Option<real>)
    returns (emailsToSend: Option<seq<EmailRequest>>)
    ensures currentRoundInfo.None? <==> emailsToSend.None?
    ensures currentRoundInfo.Some? ==>
              emailsToSend == Some(EmailPlan(subscribersDelegators, p, currentRoundInfo.value.id,
                                             calledRewardOf, nextRewardOf))
  {
    if currentRoundInfo.None? {
      return None;
    }
    var currentRoundId := currentRoundInfo.value.id;
    var emails: seq<EmailRequest> := [];
    var i := 0;
    while i < |subscribersDelegators|
      invariant 0 <= i <= |subscribersDelegators|
      invariant emails == EmailPlan(subscribersDelegators[..i], p, currentRoundId, calledRewardOf, nextRewardOf)
    {
      var sd := subscribersDelegators[i];
      assert subscribersDelegators[..i + 1][..i] == subscribersDelegators[..i];
      if ShouldReceiveEmail(p, sd.subscriber, currentRoundId) {
        var called := calledRewardOf(sd.delegator.delegateAddress);
        var next := nextRewardOf(sd.delegator.address);
        if called.Some? && next.Some? {
          emails := emails + [EmailRequest(sd.subscriber, sd.delegator, called.value, next.value, currentRoundId)];
        }
      }
      i := i + 1;
    }
    assert subscribersDelegators[..i] == subscribersDelegators;
    emailsToSend := Some(emails);
  }

  /** The subscribers of the list the gate lets through for a telegram, in
      list order. */
  function TelegramPlan(list: seq<SubscriberAndDelegator>, p: GatePolicy, currentRound: int): seq<TelegramRequest> {
    if list == [] then []
    else
      var sd := list[|list| - 1];
      TelegramPlan(list[..|list| - 1], p, currentRound)
        + (if ShouldReceiveTelegram(p, sd.subscriber, currentRound) then [TelegramRequest(sd.subscriber, currentRound)] else [])
  }

  /** Exactly the subscribers the gate lets through get a telegram, one per
      list entry, in list order. */
  lemma {:induction false} TelegramPlanSelects(list: seq<SubscriberAndDelegator>, p: GatePolicy, currentRound: int)
    ensures var plan := TelegramPlan(list, p, currentRound);
            && |plan| <= |list|
            && (forall r :: r in plan ==>
                  r.currentRound == currentRound && ShouldReceiveTelegram(p, r.subscriber, currentRound))
            && (forall k :: 0 <= k < |list| && ShouldReceiveTelegram(p, list[k].subscriber, currentRound) ==>
                  TelegramRequest(list[k].subscriber, currentRound) in plan)
  {
    if list != [] {
      var n := |list| - 1;
      var prefix := list[..n];
      TelegramPlanSelects(prefix, p, currentRound);
      forall k | 0 <= k < n ensures prefix[k] == list[k] {
      }
    }
  }

  /** The telegram loop; `None` stands for the missing round information. */
  method SendTelegramRewardCallNotificationToDelegators(
    currentRoundInfo: Option<RoundInfo>,
    subscribersDelegators: seq<SubscriberAndDelegator>,
    p: GatePolicy)
    returns (telegramsMessageToSend: Option<seq<TelegramRequest>>)
    ensures currentRoundInfo.None? <==> telegramsMessageToSend.None?
    ensures currentRoundInfo.Some? ==>
              telegramsMessageToSend == Some(TelegramPlan(subscribersDelegators, p, currentRoundInfo.value.id))
  {
    if currentRoundInfo.None? {
      return None;
    }
    var currentRoundId := currentRoundInfo.value.id;
    var messages: seq<TelegramRequest> := [];
    var i := 0;
    while i < |subscribersDelegators|
      invariant 0 <= i <= |subscribersDelegators|
      invariant messages == TelegramPlan(subscribersDelegators[..i], p, currentRoundId)
    {
      var subscriber := subscribersDelegators[i].subscriber;
      assert subscribersDelegators[..i + 1][..i] == subscribersDelegators[..i];
      if ShouldReceiveTelegram(p, subscriber, currentRoundId) {
        messages := messages + [TelegramRequest(subscriber, currentRoundId)];
      }
      i := i + 1;
    }
    assert subscribersDelegators[..i] == subscribersDelegators;
    telegramsMessageToSend := Some(messages);
  }

  /** The change-rules fan-out as written: each subscriber is handed to the
      change-rules email with no delegate address and no changed properties,
      so not a single email is ever built. */
  method SendNotificationDelegateChangeRuleToDelegatorsAsWritten(subscribers: seq<Subscriber>)
    returns (items: seq<Option<EmailBody>>)
    ensures |items| == |subscribers|
    ensures forall i :: 0 <= i < |items| ==> items[i].None?
  {
    items := [];
    var i := 0;
    while i < |subscribers|
      invariant 0 <= i <= |subscribers|
      invariant |items| == i
      invariant forall k :: 0 <= k < i ==> items[k] == DelegateChangeRulesEmail(subscribers[k], "", None)
    {
      items := items + [DelegateChangeRulesEmail(subscribers[i], "", None)];
      i := i + 1;
    }
  }

  /** The change-rules fan-out with the delegate and its changed properties
      passed on: one item per subscriber, in order, and an email exactly for
      the subscribers with an email address. */
  method SendNotificationDelegateChangeRuleToDelegators(
    subscribers: seq<Subscriber>,
    delegateAddress: Address,
    propertiesChanged: PropertiesChanged)
    returns (items: seq<Option<EmailBody>>)
    ensures |items| == |subscribers|
    ensures forall i :: 0 <= i < |items| ==>
              items[i] == DelegateChangeRulesEmail(subscribers[i], delegateAddress, Some(propertiesChanged))
    ensures forall i :: 0 <= i < |items| ==> (items[i].Some? <==> HasEmail(subscribers[i]))
  {
    items := [];
    var i := 0;
    while i < |subscribers|
      invariant 0 <= i <= |subscribers|
      invariant |items| == i
      invariant forall k :: 0 <= k < i ==>
                  items[k] == DelegateChangeRulesEmail(subscribers[k], delegateAddress, Some(propertiesChanged))
    {
      items := items + [DelegateChangeRulesEmail(subscribers[i], delegateAddress, Some(propertiesChanged))];
      i := i + 1;
    }
  }
}
