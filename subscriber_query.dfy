/**
 * The subscriber query both notification jobs start from: daily, activated
 * subscriptions that have an address for the channel.
 */
module SubscriberQuery {
  import opened Wrappers
  import opened Entities

  datatype Channel = EmailChannel | TelegramChannel

  /** A subscription the job reads for a channel: daily, activated, and with
      an email address (email) or a chat id (telegram) that is not null. */
  predicate IsCandidate(c: Channel, s: Subscriber) {
    && s.frequency == Daily
    && s.activated
    && (if c == EmailChannel then s.email.Some? else s.telegramChatId.Some?)
  }

  /** The stored subscriptions matching the query, in stored order. */
  function Candidates(c: Channel, all: seq<Subscriber>): seq<Subscriber> {
    if all == [] then []
    else
      var s := all[|all| - 1];
      Candidates(c, all[..|all| - 1]) + (if IsCandidate(c, s) then [s] else [])
  }

  /** The query returns exactly the matching subscriptions, and no more
      entries than are stored. */
  lemma {:induction false} CandidatesExactly(c: Channel, all: seq<Subscriber>)
    ensures |Candidates(c, all)| <= |all|
    ensures forall s :: s in Candidates(c, all) <==> s in all && IsCandidate(c, s)
  {
    if all != [] {
      var prefix := all[..|all| - 1];
      CandidatesExactly(c, prefix);
      assert all == prefix + [all[|all| - 1]];
    }
  }
}
