/**
 * Reward arithmetic of the delegate service: a delegate's share of the tokens
 * minted for the next round, the part of it the delegate keeps (its reward
 * cut) and the part left to its delegators, and the count of reward calls a
 * delegate missed. Amounts are exact rationals, so no rounding is modelled.
 */
module RewardMath {
  import opened Wrappers

  /** One token in base units (18 decimals); the stakes in the worked examples
      are given in base units and the minted amount in tokens. */
  const TOKEN_UNIT: real := 1000000000000000000.0

  /** Reward cuts are parts per million: `10 * 10000` is a 10% cut. */
  const CUT_BASE: real := 1000000.0

  /** Number of leading history entries inspected for missed reward calls. */
  const MISSED_CALLS_WINDOW: nat := 30

  /** The delegate's share of the tokens minted for the next round, in
      proportion to its stake among all bonded stake; zero when nothing is
      bonded. */
  function ProtocolNextReward(delegateStake: real, totalBonded: real, minted: real): (r: real)
    ensures totalBonded == 0.0 || minted == 0.0 ==> r == 0.0
    ensures totalBonded != 0.0 ==> r * totalBonded == minted * delegateStake
  {
    if totalBonded == 0.0 then 0.0 else minted * delegateStake / totalBonded
  }

  /** Expressing both stakes in another unit does not change the reward. */
  lemma ProtocolRewardScaleFree(delegateStake: real, totalBonded: real, minted: real, k: real)
    requires k > 0.0
    ensures ProtocolNextReward(k * delegateStake, k * totalBonded, minted)
         == ProtocolNextReward(delegateStake, totalBonded, minted)
  {
    if totalBonded != 0.0 {
      var r := ProtocolNextReward(delegateStake, totalBonded, minted);
      var r' := ProtocolNextReward(k * delegateStake, k * totalBonded, minted);
      assert r' * (k * totalBonded) == minted * (k * delegateStake);
      assert (r' * totalBonded) * k == (minted * delegateStake) * k;
      assert r' * totalBonded == r * totalBonded;
    }
  }

  /** A delegate holding part of the bonded stake gets that part of the
      minted tokens, never more than was minted. */
  lemma ProtocolRewardBounded(delegateStake: real, totalBonded: real, minted: real)
    requires 0.0 <= delegateStake <= totalBonded && 0.0 < totalBonded && 0.0 <= minted
    ensures 0.0 <= ProtocolNextReward(delegateStake, totalBonded, minted) <= minted
  {
    var r := ProtocolNextReward(delegateStake, totalBonded, minted);
    assert r * totalBonded == minted * delegateStake;
    assert minted * delegateStake <= minted * totalBonded;
    if r > minted {
      assert r * totalBonded > minted * totalBonded;
    }
  }

  /** The four worked examples of the delegate tests, stakes in base units. */
  lemma ProtocolRewardExamples()
    ensures ProtocolNextReward(40.0 * TOKEN_UNIT, 400.0 * TOKEN_UNIT, 140.0) == 14.0
    ensures ProtocolNextReward(512.4 * TOKEN_UNIT, 1400.0 * TOKEN_UNIT, 100.0) == 36.6
    ensures ProtocolNextReward(512.4 * TOKEN_UNIT, 1400.0 * TOKEN_UNIT, 0.0) == 0.0
    ensures ProtocolNextReward(100.0 * TOKEN_UNIT, 10000.0 * TOKEN_UNIT, 1000.0) == 10.0
  {
    ProtocolRewardScaleFree(40.0, 400.0, 140.0, TOKEN_UNIT);
    ProtocolRewardScaleFree(512.4, 1400.0, 100.0, TOKEN_UNIT);
    ProtocolRewardScaleFree(100.0, 10000.0, 1000.0, TOKEN_UNIT);
  }

  /** The part of the protocol reward the delegate keeps: its pending reward
      cut, in parts per million. */
  function DelegateNextReward(protocolReward: real, pendingRewardCut: real): (r: real)
    ensures r * CUT_BASE == protocolReward * pendingRewardCut
    ensures pendingRewardCut == 0.0 || protocolReward == 0.0 ==> r == 0.0
    ensures pendingRewardCut == CUT_BASE ==> r == protocolReward
    ensures 0.0 <= pendingRewardCut <= CUT_BASE && 0.0 <= protocolReward ==> 0.0 <= r <= protocolReward
  {
    protocolReward * pendingRewardCut / CUT_BASE
  }

  /** What is left of the protocol reward for the delegators once the
      delegate has taken its cut. */
  function RewardToDelegators(protocolReward: real, pendingRewardCut: real): (r: real)
    ensures r + DelegateNextReward(protocolReward, pendingRewardCut) == protocolReward
    ensures 0.0 <= pendingRewardCut <= CUT_BASE && 0.0 <= protocolReward ==> 0.0 <= r <= protocolReward
  {
    protocolReward - DelegateNextReward(protocolReward, pendingRewardCut)
  }

  /** The worked examples with a 10% cut (`10 * 10000`). */
  lemma RewardCutExamples()
    ensures DelegateNextReward(1000.0, 10.0 * 10000.0) == 100.0
    ensures DelegateNextReward(198761.0, 10.0 * 10000.0) == 19876.1
    ensures DelegateNextReward(0.0, 10.0 * 10000.0) == 0.0
    ensures RewardToDelegators(1000.0, 10.0 * 10000.0) == 900.0
    ensures RewardToDelegators(19843.21064318, 10.0 * 10000.0) == 17858.889578862
    ensures RewardToDelegators(0.0, 10.0 * 10000.0) == 0.0
  {
  }

  /** One entry of a delegate's reward history: the round and the tokens it
      claimed, or nothing when it did not call reward in that round. */
  datatype RewardEntry = RewardEntry(round: int, rewardTokens: Option<real>)

  /** Number of entries without reward tokens. */
  function CountMissed(history: seq<RewardEntry>): (n: nat)
    ensures n <= |history|
  {
    if history == [] then 0
    else CountMissed(history[..|history| - 1]) + (if history[|history| - 1].rewardTokens.None? then 1 else 0)
  }

  lemma {:induction false} CountMissedAppend(a: seq<RewardEntry>, b: seq<RewardEntry>)
    ensures CountMissed(a + b) == CountMissed(a) + CountMissed(b)
    decreases |b|
  {
    if b == [] {
      assert a + b == a;
    } else {
      var b' := b[..|b| - 1];
      assert (a + b)[..|a + b| - 1] == a + b';
      CountMissedAppend(a, b');
    }
  }

  /** Counting the missed calls gives the number of history entries without
      reward tokens: all of them when none has tokens, none when all have. */
  lemma {:induction false} CountMissedExtremes(history: seq<RewardEntry>)
    ensures (forall i :: 0 <= i < |history| ==> history[i].rewardTokens.None?) ==> CountMissed(history) == |history|
    ensures (forall i :: 0 <= i < |history| ==> history[i].rewardTokens.Some?) ==> CountMissed(history) == 0
  {
    if history != [] {
      CountMissedExtremes(history[..|history| - 1]);
    }
  }

  /** Reward calls missed within the counted window: the entries without
      reward tokens among the first MISSED_CALLS_WINDOW entries of the
      history, which is ordered by ascending round. */
  function MissedRewardCalls(history: seq<RewardEntry>): (n: nat)
    ensures n <= MISSED_CALLS_WINDOW && n <= |history|
    ensures |history| <= MISSED_CALLS_WINDOW ==> n == CountMissed(history)
  {
    var counted := if |history| < MISSED_CALLS_WINDOW then |history| else MISSED_CALLS_WINDOW;
    assert counted == |history| ==> history[..counted] == history;
    CountMissed(history[..counted])
  }

  /** Rounds 1..30, the first ten without reward: ten missed calls. */
  lemma MissedCallsFirstTenOfThirty(history: seq<RewardEntry>)
    requires |history| == 30
    requires forall i :: 0 <= i < 30 ==> (history[i].rewardTokens.None? <==> i < 10)
    ensures MissedRewardCalls(history) == 10
  {
    assert history == history[..10] + history[10..];
    CountMissedAppend(history[..10], history[10..]);
    CountMissedExtremes(history[..10]);
    CountMissedExtremes(history[10..]);
  }

  /** Rounds 1..40, rounds 1..5 and 35..40 without reward: five missed calls;
      the trailing gap lies outside the counted window. */
  lemma MissedCallsLeadingAndTrailingGaps(history: seq<RewardEntry>)
    requires |history| == 40
    requires forall i :: 0 <= i < 40 ==> (history[i].rewardTokens.None? <==> i < 5 || i >= 34)
    ensures MissedRewardCalls(history) == 5
  {
    var w := history[..30];
    assert w == w[..5] + w[5..];
    CountMissedAppend(w[..5], w[5..]);
    CountMissedExtremes(w[..5]);
    CountMissedExtremes(w[5..]);
  }

  /** Rounds 1..30, all with reward: no missed calls. */
  lemma MissedCallsNone(history: seq<RewardEntry>)
    requires |history| == 30
    requires forall i :: 0 <= i < 30 ==> history[i].rewardTokens.Some?
    ensures MissedRewardCalls(history) == 0
  {
    CountMissedExtremes(history);
  }
}
