/**
 * The job reminding subscribed delegators to claim their rewards: every
 * subscription whose wallet is not a transcoder gets one reward-call email
 * (or telegram), all built with the same current round.
 */
module DelegatorClaimRewardJob {
  import opened Wrappers
  import opened Entities
  import opened SubscriberQuery
  import opened NotificateDelegators
  import DelegateDidRewardJob

  /** A pending claim-reward email with the figures fetched for it and the
      round fetched once for the whole job. */
  datatype ClaimRewardEmail = ClaimRewardEmail(
    subscriber: Subscriber,
    delegator: Delegator,
    delegateCalledReward: bool,
    delegatorNextReward: real,
    currentRound: int,
    currentRoundInfo: RoundInfo)

  /** The subscriptions of the list whose role is not transcoder, in order. */
  function NonTranscoders(list: seq<Subscriber>, roleOf: Subscriber -> RoleInfo): seq<Subscriber> {
    if list == [] then []
    else
      var s := list[|list| - 1];
      NonTranscoders(list[..|list| - 1], roleOf) + (if roleOf(s).role == Transcoder then [] else [s])
  }

  /** Exactly the non-transcoders of the list are kept. */
  lemma {:induction false} NonTranscodersExactly(list: seq<Subscriber>, roleOf: Subscriber -> RoleInfo)
    ensures |NonTranscoders(list, roleOf)| <= |list|
    ensures forall s :: s in NonTranscoders(list, roleOf) <==> s in list && roleOf(s).role != Transcoder
  {
    if list != [] {
      var prefix := list[..|list| - 1];
      NonTranscodersExactly(prefix, roleOf);
      assert list == prefix + [list[|list| - 1]];
    }
  }

  /** What the email loop got through: the emails issued, and whether the
      loop stopped on a non-transcoder with no delegator account. */
  datatype ClaimRun = ClaimRun(issued: seq<ClaimRewardEmail>, failed: bool)

  /** Whether the subscription at `list[k]` ends the job: it is not a
      transcoder, yet its role lookup found no delegator account. */
  predicate FailsAt(list: seq<Subscriber>, roleOf: Subscriber -> RoleInfo, k: int) {
    0 <= k < |list| && roleOf(list[k]).role != Transcoder && roleOf(list[k]).delegator.None?
  }

  /** The emails of the job. Reading the delegate of a non-transcoder with no
      delegator account fails and ends the job; the emails issued before it
      have been handed to the mailer already and stay issued. */
  function ClaimEmails(
    list: seq<Subscriber>,
    roleOf: Subscriber -> RoleInfo,
    calledRewardOf: Address -> bool,
    nextRewardOf: Address -> real,
    currentRound: int,
    currentRoundInfo: RoundInfo)
    : ClaimRun
  {
    if list == [] then ClaimRun([], false)
    else
      var prev := ClaimEmails(list[..|list| - 1], roleOf, calledRewardOf, nextRewardOf, currentRound, currentRoundInfo);
      var s := list[|list| - 1];
      var info := roleOf(s);
      if prev.failed then prev
      else if info.role == Transcoder then prev
      else if info.delegator.None? then ClaimRun(prev.issued, true)
      else
        var d := info.delegator.value;
        ClaimRun(prev.issued + [ClaimRewardEmail(s, d, calledRewardOf(d.delegateAddress), nextRewardOf(d.address),
                                                 currentRound, currentRoundInfo)], false)
  }

  /** The job fails exactly when a non-transcoder has no delegator account.
      The emails issued are one per non-transcoder, in order, each for that
      subscriber's own delegator and all with the same round; when the job
      did not fail, they cover every non-transcoder. */
  lemma {:induction false} ClaimEmailsOnePerDelegator(
    list: seq<Subscriber>,
    roleOf: Subscriber -> RoleInfo,
    calledRewardOf: Address -> bool,
    nextRewardOf: Address -> real,
    currentRound: int,
    currentRoundInfo: RoundInfo)
    ensures var r := ClaimEmails(list, roleOf, calledRewardOf, nextRewardOf, currentRound, currentRoundInfo);
            var kept := NonTranscoders(list, roleOf);
            && (r.failed <==> exists k :: FailsAt(list, roleOf, k))
            && |r.issued| <= |kept|
            && (!r.failed ==> |r.issued| == |kept|)
            && forall i :: 0 <= i < |r.issued| ==>
                 && r.issued[i].subscriber == kept[i]
                 && Some(r.issued[i].delegator) == roleOf(kept[i]).delegator
                 && r.issued[i].delegateCalledReward == calledRewardOf(r.issued[i].delegator.delegateAddress)
                 && r.issued[i].delegatorNextReward == nextRewardOf(r.issued[i].delegator.address)
                 && r.issued[i].currentRound == currentRound
                 && r.issued[i].currentRoundInfo == currentRoundInfo
  {
    if list != [] {
      var n := |list| - 1;
      var prefix := list[..n];
      ClaimEmailsOnePerDelegator(prefix, roleOf, calledRewardOf, nextRewardOf, currentRound, currentRoundInfo);
      forall k | 0 <= k < n ensures prefix[k] == list[k] && FailsAt(prefix, roleOf, k) == FailsAt(list, roleOf, k) {
      }
      var pr := ClaimEmails(prefix, roleOf, calledRewardOf, nextRewardOf, currentRound, currentRoundInfo);
      if pr.failed {
        var k :| FailsAt(prefix, roleOf, k);
        assert FailsAt(list, roleOf, k);
      } else if !FailsAt(list, roleOf, n) {
        forall k ensures !FailsAt(list, roleOf, k) {
          if 0 <= k < n {
            assert !FailsAt(prefix, roleOf, k);
          }
        }
      }
    }
  }

  /** Once the emails of a prefix fail, the whole job ends as the prefix did:
      the later subscriptions issue nothing. */
  lemma {:induction false} ClaimEmailsAbortStays(
    list: seq<Subscriber>,
    i: nat,
    roleOf: Subscriber -> RoleInfo,
    calledRewardOf: Address -> bool,
    nextRewardOf: Address -> real,
    currentRound: int,
    currentRoundInfo: RoundInfo)
    requires i <= |list|
    requires ClaimEmails(list[..i], roleOf, calledRewardOf, nextRewardOf, currentRound, currentRoundInfo).failed
    ensures ClaimEmails(list, roleOf, calledRewardOf, nextRewardOf, currentRound, currentRoundInfo)
         == ClaimEmails(list[..i], roleOf, calledRewardOf, nextRewardOf, currentRound, currentRoundInfo)
    decreases |list| - i
  {
    if i < |list| {
      assert list[..i + 1][..i] == list[..i];
      ClaimEmailsAbortStays(list, i + 1, roleOf, calledRewardOf, nextRewardOf, currentRound, currentRoundInfo);
    } else {
      assert list[..i] == list;
    }
  }

  /** When the first failing subscription is at `k`, the job fails and has
      issued exactly the emails of the subscriptions before `k`, which
      themselves complete without failure. */
  lemma ClaimEmailsStopAtFirstFailure(
    list: seq<Subscriber>,
    k: nat,
    roleOf: Subscriber -> RoleInfo,
    calledRewardOf: Address -> bool,
    nextRewardOf: Address -> real,
    currentRound: int,
    currentRoundInfo: RoundInfo)
    requires FailsAt(list, roleOf, k)
    requires forall j :: 0 <= j < k ==> !FailsAt(list, roleOf, j)
    ensures var before := ClaimEmails(list[..k], roleOf, calledRewardOf, nextRewardOf, currentRound, currentRoundInfo);
            && !before.failed
            && ClaimEmails(list, roleOf, calledRewardOf, nextRewardOf, currentRound, currentRoundInfo)
               == ClaimRun(before.issued, true)
  {
    var before := ClaimEmails(list[..k], roleOf, calledRewardOf, nextRewardOf, currentRound, currentRoundInfo);
    ClaimEmailsOnePerDelegator(list[..k], roleOf, calledRewardOf, nextRewardOf, currentRound, currentRoundInfo);
    forall j | 0 <= j < k ensures FailsAt(list[..k], roleOf, j) == FailsAt(list, roleOf, j) {
      assert list[..k][j] == list[j];
    }
    assert list[..k + 1][..k] == list[..k];
    ClaimEmailsAbortStays(list, k + 1, roleOf, calledRewardOf, nextRewardOf, currentRound, currentRoundInfo);
  }

  /** The email variant: the round is fetched once, then each non-transcoder
      gets an email built with it, until one has no delegator account. */
  method GetSubscribersToSendEmails(
    all: seq<Subscriber>,
    roleOf: Subscriber -> RoleInfo,
    calledRewardOf: Address -> bool,
    nextRewardOf: Address -> real,
    currentRound: int,
    currentRoundInfo: RoundInfo)
    returns (emailsToSend: ClaimRun)
    ensures emailsToSend == ClaimEmails(Candidates(EmailChannel, all), roleOf, calledRewardOf, nextRewardOf,
                                        currentRound, currentRoundInfo)
  {
    var subscribers := Candidates(EmailChannel, all);
    var emails: seq<ClaimRewardEmail> := [];
    var i := 0;
    while i < |subscribers|
      invariant 0 <= i <= |subscribers|
      invariant ClaimEmails(subscribers[..i], roleOf, calledRewardOf, nextRewardOf, currentRound, currentRoundInfo)
                == ClaimRun(emails, false)
    {
      var subscriber := subscribers[i];
      assert subscribers[..i + 1][..i] == subscribers[..i];
      var info := roleOf(subscriber);
      i := i + 1;
      if info.role == Transcoder {
        continue;
      }
      if info.delegator.None? {
        ClaimEmailsAbortStays(subscribers, i, roleOf, calledRewardOf, nextRewardOf, currentRound, currentRoundInfo);
        return ClaimRun(emails, true);
      }
      var delegator := info.delegator.value;
      var delegateCalledReward := calledRewardOf(delegator.delegateAddress);
      var delegatorNextReward := nextRewardOf(delegator.address);
      emails := emails + [ClaimRewardEmail(subscriber, delegator, delegateCalledReward, delegatorNextReward,
                                           currentRound, currentRoundInfo)];
    }
    assert subscribers[..i] == subscribers;
    emailsToSend := ClaimRun(emails, false);
  }

  /** The telegram variant: one message per non-transcoder, in order. */
  method GetSubscribersToSendTelegrams(all: seq<Subscriber>, roleOf: Subscriber -> RoleInfo)
    returns (telegramsMessageToSend: seq<Subscriber>)
    ensures telegramsMessageToSend == NonTranscoders(Candidates(TelegramChannel, all), roleOf)
  {
    var subscribers := Candidates(TelegramChannel, all);
    telegramsMessageToSend := [];
    var i := 0;
    while i < |subscribers|
      invariant 0 <= i <= |subscribers|
      invariant telegramsMessageToSend == NonTranscoders(subscribers[..i], roleOf)
    {
      var subscriber := subscribers[i];
      assert subscribers[..i + 1][..i] == subscribers[..i];
      i := i + 1;
      if roleOf(subscriber).role == Transcoder {
        continue;
      }
      telegramsMessageToSend := telegramsMessageToSend + [subscriber];
    }
    assert subscribers[..i] == subscribers;
  }

  /** The two jobs split the subscriptions with an address and a known
      delegate between them: such a subscription is kept by the did-reward job
      exactly when the claim-reward job skips it. */
  lemma ComplementaryAudiences(s: Subscriber, roleOf: Subscriber -> RoleInfo)
    requires s.address != ""
    requires roleOf(s).delegator.Some? && roleOf(s).delegator.value.delegateAddress != ""
    ensures DelegateDidRewardJob.Kept(Some(s), roleOf) <==> s !in NonTranscoders([s], roleOf)
  {
    assert [s][..0] == [];
  }
}
