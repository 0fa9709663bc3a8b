/**
 * The job telling subscribed transcoders whether their delegate called
 * reward: the subscriptions are narrowed to those whose wallet resolves to a
 * transcoder with a delegate, and each one kept gets one notification.
 */
module DelegateDidRewardJob {
  import opened Wrappers
  import opened Entities
  import opened SubscriberQuery

  /** A subscriber kept by the job, with whether its delegate called reward. */
  datatype SubscriberToNotify = SubscriberToNotify(subscriber: Subscriber, delegateCalledReward: bool)

  /** One notification handed to a channel. */
  datatype Notification = Notification(channel: Channel, target: SubscriberToNotify)

  /** Whether an entry is kept: it is present and has an address, its role
      lookup found a delegator naming a delegate, and the role is transcoder. */
  predicate Kept(entry: Option<Subscriber>, roleOf: Subscriber -> RoleInfo) {
    && entry.Some?
    && entry.value.address != ""
    && var info := roleOf(entry.value);
       && info.delegator.Some?
       && info.delegator.value.delegateAddress != ""
       && info.role == Transcoder
  }

  /** The kept entries of the list, in list order, each with whether its
      delegate called reward. */
  function ToNotify(list: seq<Option<Subscriber>>, roleOf: Subscriber -> RoleInfo, calledRewardOf: Address -> bool)
    : seq<SubscriberToNotify>
  {
    if list == [] then []
    else
      var entry := list[|list| - 1];
      ToNotify(list[..|list| - 1], roleOf, calledRewardOf)
        + (if Kept(entry, roleOf)
           then [SubscriberToNotify(entry.value, calledRewardOf(roleOf(entry.value).delegator.value.delegateAddress))]
           else [])
  }

  /** The result of two lists one after the other is the result of the first
      followed by that of the second: kept subscribers stay in list order. */
  lemma {:induction false} ToNotifyAppend(
    a: seq<Option<Subscriber>>, b: seq<Option<Subscriber>>,
    roleOf: Subscriber -> RoleInfo, calledRewardOf: Address -> bool)
    ensures ToNotify(a + b, roleOf, calledRewardOf) == ToNotify(a, roleOf, calledRewardOf) + ToNotify(b, roleOf, calledRewardOf)
  {
    if b != [] {
      var b' := b[..|b| - 1];
      assert (a + b)[..|a + b| - 1] == a + b';
      assert (a + b)[|a + b| - 1] == b[|b| - 1];
      ToNotifyAppend(a, b', roleOf, calledRewardOf);
    } else {
      assert a + b == a;
    }
  }

  /** Every kept subscriber is a transcoder entry of the list carrying its own
      delegate's reward call, and every entry that qualifies is kept. */
  lemma {:induction false} ToNotifySelects(
    list: seq<Option<Subscriber>>, roleOf: Subscriber -> RoleInfo, calledRewardOf: Address -> bool)
    ensures var out := ToNotify(list, roleOf, calledRewardOf);
            && |out| <= |list|
            && (forall x :: x in out ==>
                  && Some(x.subscriber) in list
                  && Kept(Some(x.subscriber), roleOf)
                  && x.delegateCalledReward == calledRewardOf(roleOf(x.subscriber).delegator.value.delegateAddress))
            && (forall k :: 0 <= k < |list| && Kept(list[k], roleOf) ==>
                  SubscriberToNotify(list[k].value, calledRewardOf(roleOf(list[k].value).delegator.value.delegateAddress)) in out)
  {
    if list != [] {
      var n := |list| - 1;
      var prefix := list[..n];
      ToNotifySelects(prefix, roleOf, calledRewardOf);
      assert list == prefix + [list[n]];
    }
  }

  /** Walks the subscriptions, skipping the missing ones, those without an
      address, those whose delegator or delegate is unknown and those that are
      not transcoders. */
  method GetSubscribers(subscribers: seq<Option<Subscriber>>, roleOf: Subscriber -> RoleInfo, calledRewardOf: Address -> bool)
    returns (subscribersToNotify: seq<SubscriberToNotify>)
    ensures subscribersToNotify == ToNotify(subscribers, roleOf, calledRewardOf)
  {
    subscribersToNotify := [];
    var i := 0;
    while i < |subscribers|
      invariant 0 <= i <= |subscribers|
      invariant subscribersToNotify == ToNotify(subscribers[..i], roleOf, calledRewardOf)
    {
      var entry := subscribers[i];
      assert subscribers[..i + 1][..i] == subscribers[..i];
      i := i + 1;
      if entry.None? || entry.value.address == "" {
        continue;
      }
      var info := roleOf(entry.value);
      if info.delegator.None? || info.delegator.value.delegateAddress == "" {
        continue;
      }
      if info.role != Transcoder {
        continue;
      }
      var delegateCalledReward := calledRewardOf(info.delegator.value.delegateAddress);
      subscribersToNotify := subscribersToNotify + [SubscriberToNotify(entry.value, delegateCalledReward)];
    }
    assert subscribers[..i] == subscribers;
  }

  /** Every entry of a query result is present. */
  function Present(s: seq<Subscriber>): (r: seq<Option<Subscriber>>)
    ensures |r| == |s| && forall i :: 0 <= i < |s| ==> r[i] == Some(s[i])
  {
    seq(|s|, i requires 0 <= i < |s| => Some(s[i]))
  }

  /** One notification per kept subscriber on the channel, in order; the kept
      subscribers are returned. */
  method SendNotifications(
    channel: Channel, all: seq<Subscriber>, roleOf: Subscriber -> RoleInfo, calledRewardOf: Address -> bool)
    returns (sends: seq<Notification>, subscribersToNotify: seq<SubscriberToNotify>)
    ensures subscribersToNotify == ToNotify(Present(Candidates(channel, all)), roleOf, calledRewardOf)
    ensures |sends| == |subscribersToNotify|
    ensures forall i :: 0 <= i < |sends| ==> sends[i] == Notification(channel, subscribersToNotify[i])
  {
    subscribersToNotify := GetSubscribers(Present(Candidates(channel, all)), roleOf, calledRewardOf);
    sends := [];
    var i := 0;
    while i < |subscribersToNotify|
      invariant 0 <= i <= |subscribersToNotify|
      invariant |sends| == i
      invariant forall k :: 0 <= k < i ==> sends[k] == Notification(channel, subscribersToNotify[k])
    {
      sends := sends + [Notification(channel, subscribersToNotify[i])];
      i := i + 1;
    }
  }

  /** The email variant of the job. */
  method SendNotificationEmailFn(all: seq<Subscriber>, roleOf: Subscriber -> RoleInfo, calledRewardOf: Address -> bool)
    returns (sends: seq<Notification>, subscribersToNotify: seq<SubscriberToNotify>)
    ensures subscribersToNotify == ToNotify(Present(Candidates(EmailChannel, all)), roleOf, calledRewardOf)
    ensures |sends| == |subscribersToNotify|
    ensures forall i :: 0 <= i < |sends| ==> sends[i] == Notification(EmailChannel, subscribersToNotify[i])
  {
    sends, subscribersToNotify := SendNotifications(EmailChannel, all, roleOf, calledRewardOf);
  }

  /** The telegram variant of the job. */
  method SendNotificationTelegramFn(all: seq<Subscriber>, roleOf: Subscriber -> RoleInfo, calledRewardOf: Address -> bool)
    returns (sends: seq<Notification>, subscribersToNotify: seq<SubscriberToNotify>)
    ensures subscribersToNotify == ToNotify(Present(Candidates(TelegramChannel, all)), roleOf, calledRewardOf)
    ensures |sends| == |subscribersToNotify|
    ensures forall i :: 0 <= i < |sends| ==> sends[i] == Notification(TelegramChannel, subscribersToNotify[i])
  {
    sends, subscribersToNotify := SendNotifications(TelegramChannel, all, roleOf, calledRewardOf);
  }
}
