/**
 * Persisting the reward pools of a round: each upstream pool whose delegate
 * is stored becomes a Pool record appended to its round and its delegate;
 * pools of unknown delegates are skipped, and the first failed save stops
 * the batch.
 */
module RoundPools {
  import opened Wrappers
  import opened Entities
  import opened RoundStore

  /** One reward entry of a round as the protocol source lists it. */
  datatype RoundPool = RoundPool(id: Id, rewardTokens: real, transcoder: Address)

  /** The protocol source's answer for the pools of a round. */
  datatype PoolsPerRound = PoolsPerRound(rewards: Option<seq<RoundPool>>)

  datatype PoolError =
    | NoRoundProvided
    | NoRoundPoolsProvided
    | RoundNotStored(roundId: RoundId)
    | PoolSaveFailed(poolId: Id)
    | PoolsPerRoundNotFound

  /** The store after pool `p` of round `rid` has been saved and appended to
      the round's and the delegate's pool lists. */
  function WithPool(db: Db, rid: RoundId, p: RoundPool, totalStakeOnRound: real): Db
    requires rid in db.rounds && p.transcoder in db.delegates
  {
    db.(pools := db.pools[p.id := PoolDoc(p.rewardTokens, totalStakeOnRound, p.transcoder, rid)],
        rounds := db.rounds[rid := db.rounds[rid].(pools := db.rounds[rid].pools + [p.id])],
        delegates := db.delegates[p.transcoder := db.delegates[p.transcoder].(pools := db.delegates[p.transcoder].pools + [p.id])])
  }

  /** Processing one upstream pool: skipped when its delegate is not stored,
      a failed save when its id is taken, otherwise saved and appended. */
  function PoolStep(db: Db, rid: RoundId, p: RoundPool, stakeOf: Address -> real): (o: Outcome<PoolError>)
    requires rid in db.rounds
    ensures o.db.rounds.Keys == db.rounds.Keys && o.db.delegates.Keys == db.delegates.Keys
  {
    if p.transcoder !in db.delegates then Done(db)
    else if p.id in db.pools then Aborted(PoolSaveFailed(p.id), db)
    else Done(WithPool(db, rid, p, stakeOf(p.transcoder)))
  }

  /** Processing the pools in order until one fails. */
  function RunPools(db: Db, rid: RoundId, ps: seq<RoundPool>, stakeOf: Address -> real): (o: Outcome<PoolError>)
    requires rid in db.rounds
    ensures o.db.rounds.Keys == db.rounds.Keys && o.db.delegates.Keys == db.delegates.Keys
    decreases |ps|
  {
    if ps == [] then Done(db)
    else
      match PoolStep(db, rid, ps[0], stakeOf)
      case Aborted(e, d) => Aborted(e, d)
      case Done(d) => RunPools(d, rid, ps[1..], stakeOf)
  }

  /** The whole call, with its checks on the arguments and the round. */
  function PoolsOfRound(db: Db, round: Option<RoundRef>, roundPools: Option<seq<RoundPool>>, stakeOf: Address -> real): Outcome<PoolError> {
    if round.None? then Aborted(NoRoundProvided, db)
    else if roundPools.None? then Aborted(NoRoundPoolsProvided, db)
    else if round.value.roundId !in db.rounds then Aborted(RoundNotStored(round.value.roundId), db)
    else RunPools(db, round.value.roundId, roundPools.value, stakeOf)
  }

  /** What one step does: a pool of an unknown delegate writes nothing; a
      taken id fails with nothing written; otherwise the pool is stored under
      its upstream id with the fetched stake, the delegate and the round, and
      its id is appended exactly once to the round and to the delegate. */
  lemma PoolStepEffect(db: Db, rid: RoundId, p: RoundPool, stakeOf: Address -> real)
    requires Consistent(db) && rid in db.rounds
    ensures p.transcoder !in db.delegates ==> PoolStep(db, rid, p, stakeOf) == Done(db)
    ensures p.transcoder in db.delegates && p.id in db.pools ==>
              PoolStep(db, rid, p, stakeOf) == Aborted(PoolSaveFailed(p.id), db)
    ensures p.transcoder in db.delegates && p.id !in db.pools ==>
              var o := PoolStep(db, rid, p, stakeOf);
              && o.Done?
              && o.db.pools == db.pools[p.id := PoolDoc(p.rewardTokens, stakeOf(p.transcoder), p.transcoder, rid)]
              && p.id !in db.rounds[rid].pools && o.db.rounds[rid].pools == db.rounds[rid].pools + [p.id]
              && p.id !in db.delegates[p.transcoder].pools
              && o.db.delegates[p.transcoder].pools == db.delegates[p.transcoder].pools + [p.id]
              && o.db.rounds[rid].shares == db.rounds[rid].shares
              && o.db.delegates[p.transcoder].info == db.delegates[p.transcoder].info
              && (forall r :: r in db.rounds && r != rid ==> o.db.rounds[r] == db.rounds[r])
              && (forall a :: a in db.delegates && a != p.transcoder ==> o.db.delegates[a] == db.delegates[a])
              && o.db.delegators == db.delegators && o.db.shares == db.shares
  {
    if p.transcoder in db.delegates && p.id !in db.pools {
      assert RoundRefsOk(db, rid);
      assert DelegateRefsOk(db, p.transcoder);
    }
  }

  /** Appending a new pool keeps the round references of the store sound. */
  lemma WithPoolKeepsRoundRefs(db: Db, rid: RoundId, p: RoundPool, totalStakeOnRound: real, r: RoundId)
    requires Consistent(db) && rid in db.rounds && p.transcoder in db.delegates && p.id !in db.pools
    requires r in db.rounds
    ensures RoundRefsOk(WithPool(db, rid, p, totalStakeOnRound), r)
  {
    var d := WithPool(db, rid, p, totalStakeOnRound);
    assert RoundRefsOk(db, r);
    if r == rid {
      var ps := d.rounds[r].pools;
      assert ps == db.rounds[r].pools + [p.id];
      forall i, j | 0 <= i < j < |ps| ensures ps[i] != ps[j] {
        if j == |ps| - 1 { assert ps[i] in db.rounds[r].pools; }
      }
    }
  }

  /** Appending a new pool keeps the pool references of every delegate sound. */
  lemma WithPoolKeepsDelegateRefs(db: Db, rid: RoundId, p: RoundPool, totalStakeOnRound: real, a: Address)
    requires Consistent(db) && rid in db.rounds && p.transcoder in db.delegates && p.id !in db.pools
    requires a in db.delegates
    ensures DelegateRefsOk(WithPool(db, rid, p, totalStakeOnRound), a)
  {
    var d := WithPool(db, rid, p, totalStakeOnRound);
    assert DelegateRefsOk(db, a);
    if a == p.transcoder {
      var ps := d.delegates[a].pools;
      assert ps == db.delegates[a].pools + [p.id];
      forall i, j | 0 <= i < j < |ps| ensures ps[i] != ps[j] {
        if j == |ps| - 1 { assert ps[i] in db.delegates[a].pools; }
      }
    }
  }

  /** Saving a pool keeps the store consistent. */
  lemma PoolStepKeepsConsistent(db: Db, rid: RoundId, p: RoundPool, stakeOf: Address -> real)
    requires Consistent(db) && rid in db.rounds
    ensures Consistent(PoolStep(db, rid, p, stakeOf).db)
  {
    if p.transcoder in db.delegates && p.id !in db.pools {
      var d := WithPool(db, rid, p, stakeOf(p.transcoder));
      forall r | r in d.rounds ensures RoundRefsOk(d, r) {
        WithPoolKeepsRoundRefs(db, rid, p, stakeOf(p.transcoder), r);
      }
      forall a | a in d.delegates ensures DelegateRefsOk(d, a) {
        WithPoolKeepsDelegateRefs(db, rid, p, stakeOf(p.transcoder), a);
      }
      forall a | a in d.delegators ensures DelegatorRefsOk(d, a) {
        assert DelegatorRefsOk(db, a);
      }
    }
  }

  lemma {:induction false} RunPoolsKeepsConsistent(db: Db, rid: RoundId, ps: seq<RoundPool>, stakeOf: Address -> real)
    requires Consistent(db) && rid in db.rounds
    ensures Consistent(RunPools(db, rid, ps, stakeOf).db)
    decreases |ps|
  {
    if ps != [] {
      PoolStepKeepsConsistent(db, rid, ps[0], stakeOf);
      var o := PoolStep(db, rid, ps[0], stakeOf);
      if o.Done? {
        RunPoolsKeepsConsistent(o.db, rid, ps[1..], stakeOf);
      }
    }
  }

  /** Running two lists one after the other is running their concatenation,
      unless the first one fails, which stops everything. */
  lemma {:induction false} RunPoolsAppend(db: Db, rid: RoundId, ps: seq<RoundPool>, qs: seq<RoundPool>, stakeOf: Address -> real)
    requires rid in db.rounds
    ensures RunPools(db, rid, ps + qs, stakeOf) ==
              match RunPools(db, rid, ps, stakeOf)
              case Aborted(e, d) => Aborted(e, d)
              case Done(d) => RunPools(d, rid, qs, stakeOf)
    decreases |ps|
  {
    if ps == [] {
      assert ps + qs == qs;
    } else {
      assert (ps + qs)[0] == ps[0];
      assert (ps + qs)[1..] == ps[1..] + qs;
      var o := PoolStep(db, rid, ps[0], stakeOf);
      if o.Done? {
        RunPoolsAppend(o.db, rid, ps[1..], qs, stakeOf);
      }
    }
  }

  /** Running the pools from position `i` is one step on pool `i`, then,
      unless it failed, the pools after it. */
  lemma RunPoolsFrom(db: Db, rid: RoundId, ps: seq<RoundPool>, i: nat, stakeOf: Address -> real)
    requires rid in db.rounds && i < |ps|
    ensures var o := PoolStep(db, rid, ps[i], stakeOf);
            RunPools(db, rid, ps[i..], stakeOf) == if o.Aborted? then o else RunPools(o.db, rid, ps[i + 1..], stakeOf)
  {
    assert ps[i..][0] == ps[i] && ps[i..][1..] == ps[i + 1..];
  }

  /** When the k-th pool fails to save, the batch stops there: the store holds
      exactly what the pools before it wrote, and no later pool is processed. */
  lemma {:induction false} FailedSaveStopsBatch(db: Db, rid: RoundId, ps: seq<RoundPool>, k: nat, stakeOf: Address -> real)
    requires rid in db.rounds && k < |ps|
    requires RunPools(db, rid, ps[..k], stakeOf).Done?
    requires PoolStep(RunPools(db, rid, ps[..k], stakeOf).db, rid, ps[k], stakeOf).Aborted?
    ensures RunPools(db, rid, ps, stakeOf) == Aborted(PoolSaveFailed(ps[k].id), RunPools(db, rid, ps[..k], stakeOf).db)
    decreases k
  {
    RunPoolsFrom(db, rid, ps, 0, stakeOf);
    assert ps[0..] == ps;
    if k > 0 {
      var o := PoolStep(db, rid, ps[0], stakeOf);
      assert ps[..k][0] == ps[0] && ps[..k][1..] == ps[1..][..k - 1];
      assert ps[1..][k - 1] == ps[k];
      FailedSaveStopsBatch(o.db, rid, ps[1..], k - 1, stakeOf);
    }
  }

  /** No pool before position `k` belongs to a stored delegate. */
  predicate SkippedBefore(db: Db, ps: seq<RoundPool>, k: int) {
    forall j :: 0 <= j < k && j < |ps| ==> ps[j].transcoder !in db.delegates
  }

  /** A batch in which every pool is of an unknown delegate or already stored
      writes nothing: it completes when every pool is of an unknown delegate,
      and otherwise fails to save the first pool of a stored delegate. */
  lemma {:induction false} NothingNewWritesNothing(db: Db, rid: RoundId, ps: seq<RoundPool>, stakeOf: Address -> real)
    requires rid in db.rounds
    requires forall i :: 0 <= i < |ps| ==> ps[i].transcoder !in db.delegates || ps[i].id in db.pools
    ensures var o := RunPools(db, rid, ps, stakeOf);
            && o.db == db
            && (o.Done? <==> SkippedBefore(db, ps, |ps|))
            && (o.Aborted? ==>
                  exists k :: 0 <= k < |ps| && ps[k].transcoder in db.delegates && SkippedBefore(db, ps, k)
                              && o.error == PoolSaveFailed(ps[k].id))
    decreases |ps|
  {
    if ps != [] {
      var o := RunPools(db, rid, ps, stakeOf);
      if ps[0].transcoder !in db.delegates {
        var rest := ps[1..];
        NothingNewWritesNothing(db, rid, rest, stakeOf);
        assert o == RunPools(db, rid, rest, stakeOf);
        assert forall j :: 0 < j < |ps| ==> ps[j] == rest[j - 1];
        assert SkippedBefore(db, ps, |ps|) <==> SkippedBefore(db, rest, |rest|);
        if o.Aborted? {
          var k :| 0 <= k < |rest| && rest[k].transcoder in db.delegates && SkippedBefore(db, rest, k)
                   && o.error == PoolSaveFailed(rest[k].id);
          assert ps[k + 1] == rest[k];
          assert SkippedBefore(db, ps, k + 1);
        }
      } else {
        assert o == Aborted(PoolSaveFailed(ps[0].id), db);
        assert SkippedBefore(db, ps, 0);
      }
    }
  }

  /** After a completed batch every pool of a stored delegate is stored. */
  lemma {:induction false} CompletedBatchStoresAll(db: Db, rid: RoundId, ps: seq<RoundPool>, stakeOf: Address -> real)
    requires rid in db.rounds
    requires RunPools(db, rid, ps, stakeOf).Done?
    ensures var d := RunPools(db, rid, ps, stakeOf).db;
            forall i :: 0 <= i < |ps| ==> ps[i].transcoder !in d.delegates || ps[i].id in d.pools
    decreases |ps|
  {
    if ps != [] {
      var o := PoolStep(db, rid, ps[0], stakeOf);
      CompletedBatchStoresAll(o.db, rid, ps[1..], stakeOf);
      var d := RunPools(o.db, rid, ps[1..], stakeOf).db;
      assert o.db.pools.Keys <= d.pools.Keys by { RunPoolsGrowsPools(o.db, rid, ps[1..], stakeOf); }
      forall i | 0 <= i < |ps| ensures ps[i].transcoder !in d.delegates || ps[i].id in d.pools {
        if i > 0 { assert ps[i] == ps[1..][i - 1]; }
      }
    }
  }

  lemma {:induction false} RunPoolsGrowsPools(db: Db, rid: RoundId, ps: seq<RoundPool>, stakeOf: Address -> real)
    requires rid in db.rounds
    ensures db.pools.Keys <= RunPools(db, rid, ps, stakeOf).db.pools.Keys
    decreases |ps|
  {
    if ps != [] {
      var o := PoolStep(db, rid, ps[0], stakeOf);
      if o.Done? {
        RunPoolsGrowsPools(o.db, rid, ps[1..], stakeOf);
      }
    }
  }

  /** Replaying a completed batch for the same round writes nothing more. */
  lemma PoolsReplayWritesNothing(db: Db, rid: RoundId, ps: seq<RoundPool>, stakeOf: Address -> real)
    requires rid in db.rounds
    requires RunPools(db, rid, ps, stakeOf).Done?
    ensures var d := RunPools(db, rid, ps, stakeOf).db;
            var o := RunPools(d, rid, ps, stakeOf);
            && o.db == d
            && (o.Done? <==> forall i :: 0 <= i < |ps| ==> ps[i].transcoder !in db.delegates)
            && (o.Aborted? ==>
                  exists k :: 0 <= k < |ps| && ps[k].transcoder in db.delegates && o.error == PoolSaveFailed(ps[k].id))
  {
    CompletedBatchStoresAll(db, rid, ps, stakeOf);
    NothingNewWritesNothing(RunPools(db, rid, ps, stakeOf).db, rid, ps, stakeOf);
  }

  /** Nothing checks the (delegate, round) pair: two upstream pools with
      different ids for one stored delegate are both stored for the same
      delegate and round. */
  lemma TwoPoolsForOneDelegateAndRound(db: Db, rid: RoundId, p1: RoundPool, p2: RoundPool, stakeOf: Address -> real)
    requires rid in db.rounds
    requires p1.transcoder == p2.transcoder && p1.transcoder in db.delegates
    requires p1.id != p2.id && p1.id !in db.pools && p2.id !in db.pools
    ensures var o := RunPools(db, rid, [p1, p2], stakeOf);
            && o.Done?
            && p1.id in o.db.pools && p2.id in o.db.pools
            && o.db.pools[p1.id].delegate == o.db.pools[p2.id].delegate == p1.transcoder
            && o.db.pools[p1.id].round == o.db.pools[p2.id].round == rid
  {
    var d1 := WithPool(db, rid, p1, stakeOf(p1.transcoder));
    assert PoolStep(db, rid, p1, stakeOf) == Done(d1);
    var d2 := WithPool(d1, rid, p2, stakeOf(p2.transcoder));
    assert PoolStep(d1, rid, p2, stakeOf) == Done(d2);
    assert [p1, p2][1..] == [p2];
    assert RunPools(d1, rid, [p2], stakeOf) == RunPools(d2, rid, [], stakeOf);
  }

  /** Saves the pool record, then appends it to its round, then to its
      delegate. */
  method SavePool(store: Store, rid: RoundId, pool: RoundPool, totalStakeOnRound: real)
    requires rid in store.rounds && pool.transcoder in store.delegates
    modifies store
    ensures store.State() == WithPool(old(store.State()), rid, pool, totalStakeOnRound)
  {
    store.pools := store.pools[pool.id := PoolDoc(pool.rewardTokens, totalStakeOnRound, pool.transcoder, rid)];
    var round := store.rounds[rid];
    store.rounds := store.rounds[rid := round.(pools := round.pools + [pool.id])];
    var delegate := store.delegates[pool.transcoder];
    store.delegates := store.delegates[pool.transcoder := delegate.(pools := delegate.pools + [pool.id])];
  }

  /** Saves the pools of a stored round, as `PoolsOfRound` describes; the
      delegate's total stake is fetched for each pool. */
  method UpdateDelegatePoolsOfRound(
    store: Store,
    round: Option<RoundRef>,
    roundPools: Option<seq<RoundPool>>,
    stakeOf: Address -> real)
    returns (error: Option<PoolError>)
    requires store.Valid()
    modifies store
    ensures store.Valid()
    ensures var o := PoolsOfRound(old(store.State()), round, roundPools, stakeOf);
            store.State() == o.db && error == o.Error()
  {
    if round.None? {
      return Some(NoRoundProvided);
    }
    if roundPools.None? {
      return Some(NoRoundPoolsProvided);
    }
    var rid := round.value.roundId;
    if rid !in store.rounds {
      return Some(RoundNotStored(rid));
    }
    var ps := roundPools.value;
    ghost var start := store.State();
    var i := 0;
    while i < |ps|
      invariant 0 <= i <= |ps|
      invariant store.Valid() && rid in store.rounds
      invariant RunPools(start, rid, ps, stakeOf) == RunPools(store.State(), rid, ps[i..], stakeOf)
    {
      var pool := ps[i];
      var totalStakeOnRound := stakeOf(pool.transcoder);
      ghost var before := store.State();
      RunPoolsFrom(before, rid, ps, i, stakeOf);
      PoolStepKeepsConsistent(before, rid, pool, stakeOf);
      if pool.transcoder !in store.delegates {
        assert PoolStep(before, rid, pool, stakeOf) == Done(before);
        i := i + 1;
        continue;
      }
      if pool.id in store.pools {
        assert PoolStep(before, rid, pool, stakeOf) == Aborted(PoolSaveFailed(pool.id), before);
        return Some(PoolSaveFailed(pool.id));
      }
      SavePool(store, rid, pool, totalStakeOnRound);
      assert PoolStep(before, rid, pool, stakeOf) == Done(store.State());
      i := i + 1;
    }
    assert ps[i..] == [];
    error := None;
  }

  /** The round-change job: local delegates are reconciled with the fetched
      list first; then the pools of the round are fetched and saved. */
  method UpdateDelegatesPools(
    store: Store,
    newRound: Option<RoundRef>,
    fetchedDelegates: seq<Delegate>,
    poolsPerRoundOf: RoundId -> Option<PoolsPerRound>,
    stakeOf: Address -> real)
    returns (error: Option<PoolError>)
    requires store.Valid()
    modifies store
    ensures store.Valid()
    ensures newRound.None? ==> error == Some(NoRoundProvided) && store.State() == old(store.State())
    ensures newRound.Some? ==>
              var reconciled := old(store.State()).(delegates := InsertMissingDelegates(old(store.delegates), fetchedDelegates));
              var data := poolsPerRoundOf(newRound.value.roundId);
              if data.None? || data.value.rewards.None? then
                error == Some(PoolsPerRoundNotFound) && store.State() == reconciled
              else
                var o := PoolsOfRound(reconciled, newRound, data.value.rewards, stakeOf);
                store.State() == o.db && error == o.Error()
  {
    if newRound.None? {
      return Some(NoRoundProvided);
    }
    CheckAndUpdateMissingLocalDelegates(store, fetchedDelegates);
    var roundWithPoolsData := poolsPerRoundOf(newRound.value.roundId);
    if roundWithPoolsData.None? || roundWithPoolsData.value.rewards.None? {
      return Some(PoolsPerRoundNotFound);
    }
    error := UpdateDelegatePoolsOfRound(store, newRound, roundWithPoolsData.value.rewards, stakeOf);
  }
}
