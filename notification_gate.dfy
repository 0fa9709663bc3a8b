/**
 * The frequency gate that decides whether a subscriber is due a reward-call
 * notification in the current round. The gate compares the round of the last
 * notification with the current round; how many rounds each frequency waits
 * is a policy parameter, constrained by the documented scenarios.
 */
module NotificationGate {
  import opened Wrappers
  import opened Entities

  /** Rounds to wait between two notifications, per frequency. */
  datatype GatePolicy = GatePolicy(hourly: nat, daily: nat, weekly: nat, monthly: nat)

  function Threshold(p: GatePolicy, f: Frequency): nat {
    match f
    case Hourly => p.hourly
    case Daily => p.daily
    case Weekly => p.weekly
    case Monthly => p.monthly
  }

  /** A subscriber never notified is due; otherwise it is due once the
      frequency's number of rounds has passed since the last notification. */
  predicate IsDue(p: GatePolicy, f: Frequency, last: Option<int>, currentRound: int) {
    last.None? || currentRound - last.value >= Threshold(p, f)
  }

  predicate ShouldReceiveEmail(p: GatePolicy, s: Subscriber, currentRound: int) {
    IsDue(p, s.emailFrequency, s.lastEmailSent, currentRound)
  }

  predicate ShouldReceiveTelegram(p: GatePolicy, s: Subscriber, currentRound: int) {
    IsDue(p, s.telegramFrequency, s.lastTelegramSent, currentRound)
  }

  /** The outcomes of the documented scenarios at round 10: weekly after 9 is
      not due, weekly after 3 is due, daily after 9 is due, daily after 10 is
      not due. */
  predicate ReproducesScenarios(p: GatePolicy) {
    && !IsDue(p, Weekly, Some(9), 10)
    && IsDue(p, Weekly, Some(3), 10)
    && IsDue(p, Daily, Some(9), 10)
    && !IsDue(p, Daily, Some(10), 10)
  }

  /** The policies the scenarios leave open: one round for daily, between two
      and seven rounds for weekly. */
  predicate PinnedByScenarios(p: GatePolicy) {
    p.daily == 1 && 2 <= p.weekly <= 7
  }

  /** A policy reproduces the scenarios exactly when it is pinned as above; a
      subscriber with no last notification is due under every policy. */
  lemma ScenariosPinPolicy(p: GatePolicy, f: Frequency, currentRound: int)
    ensures ReproducesScenarios(p) <==> PinnedByScenarios(p)
    ensures IsDue(p, f, None, currentRound)
  {
  }

  /** Once due, a subscriber stays due in every later round. */
  lemma DueStaysDue(p: GatePolicy, f: Frequency, last: Option<int>, r1: int, r2: int)
    requires r1 <= r2 && IsDue(p, f, last, r1)
    ensures IsDue(p, f, last, r2)
  {
  }

  /** Recording round `r` as the last notification makes the subscriber due
      again exactly from the round its frequency's wait has passed, so not in
      `r` itself when the wait is positive. */
  lemma RecordedRoundGates(p: GatePolicy, f: Frequency, r: int, later: int)
    ensures IsDue(p, f, Some(r), later) <==> later >= r + Threshold(p, f)
    ensures Threshold(p, f) > 0 ==> !IsDue(p, f, Some(r), r)
  {
  }
}
