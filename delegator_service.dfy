/**
 * The delegator service: a delegator's projected reward for the next round,
 * and the process-wide service instance.
 */
module DelegatorService {
  import opened Entities

  /** The delegator's slice of what its delegate leaves to delegators, in
      proportion to the delegator's stake in the delegate's total stake; the
      participation is zero when the delegate's total stake is not positive. */
  function DelegatorNextReward(delegatorStake: real, delegateStake: real, rewardToDelegators: real): (r: real)
    ensures delegateStake <= 0.0 ==> r == 0.0
    ensures delegateStake > 0.0 ==> r * delegateStake == rewardToDelegators * delegatorStake
  {
    var participation := if delegateStake > 0.0 then delegatorStake / delegateStake else 0.0;
    rewardToDelegators * participation
  }

  /** A delegator holding all of its delegate's stake gets all of the reward
      left to delegators. */
  lemma WholeStakeGetsWholeReward(stake: real, rewardToDelegators: real)
    requires stake > 0.0
    ensures DelegatorNextReward(stake, stake, rewardToDelegators) == rewardToDelegators
  {
    var r := DelegatorNextReward(stake, stake, rewardToDelegators);
    assert r * stake == rewardToDelegators * stake;
  }

  /** A delegator holding part of the delegate's stake gets part of the reward. */
  lemma DelegatorRewardBounded(delegatorStake: real, delegateStake: real, rewardToDelegators: real)
    requires 0.0 <= delegatorStake <= delegateStake && 0.0 <= rewardToDelegators
    ensures 0.0 <= DelegatorNextReward(delegatorStake, delegateStake, rewardToDelegators) <= rewardToDelegators
  {
    if delegateStake > 0.0 {
      var r := DelegatorNextReward(delegatorStake, delegateStake, rewardToDelegators);
      assert r * delegateStake == rewardToDelegators * delegatorStake;
      assert rewardToDelegators * delegatorStake <= rewardToDelegators * delegateStake;
      if r > rewardToDelegators {
        assert r * delegateStake > rewardToDelegators * delegateStake;
      }
    }
  }

  /** The next reward of the delegator at `delegatorAddress`: its account is
      fetched, and the delegate figures are looked up with the account's own
      delegate address. The fetches are parameters. */
  method GetDelegatorNextReward(
    delegatorAddress: Address,
    accountOf: Address -> Delegator,
    delegateTotalStakeOf: Address -> real,
    rewardToDelegatorsOf: Address -> real)
    returns (reward: real)
    ensures var account := accountOf(delegatorAddress);
            var delegateStake := delegateTotalStakeOf(account.delegateAddress);
            && (delegateStake <= 0.0 ==> reward == 0.0)
            && (delegateStake > 0.0 ==>
                  reward * delegateStake == rewardToDelegatorsOf(account.delegateAddress) * account.totalStake)
  {
    var delegator := accountOf(delegatorAddress);
    var delegateTotalStake := delegateTotalStakeOf(delegator.delegateAddress);
    var rewardToDelegators := rewardToDelegatorsOf(delegator.delegateAddress);
    reward := DelegatorNextReward(delegator.totalStake, delegateTotalStake, rewardToDelegators);
  }

  /** A delegator service bound to the protocol source it reads accounts from. */
  class Service {
    const source: string

    constructor (source: string)
      ensures this.source == source
    {
      this.source := source;
    }
  }

  /** The module-level slot holding the one service instance. */
  class ServiceSlot {
    var instance: Service?

    constructor ()
      ensures instance == null
    {
      instance := null;
    }

    /** Creates the instance on the first call, with the given source; every
        later call returns that same instance and ignores its argument. */
    method GetDelegatorService(source: string) returns (s: Service)
      modifies this
      ensures old(instance) != null ==> s == old(instance)
      ensures old(instance) == null ==> fresh(s) && s.source == source
      ensures instance == s
    {
      if instance == null {
        instance := new Service(source);
      }
      s := instance;
    }
  }

  /** Two calls in a row yield one and the same instance, whose source is the
      one given first (if the slot was empty). */
  method GetDelegatorServiceTwice(slot: ServiceSlot, first: string, second: string)
    returns (a: Service, b: Service)
    modifies slot
    ensures a == b && slot.instance == a
    ensures old(slot.instance) == null ==> a.source == first
  {
    a := slot.GetDelegatorService(first);
    b := slot.GetDelegatorService(second);
  }
}
