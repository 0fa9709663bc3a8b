/**
 * The durable store of per-round records: rounds, delegates, delegators,
 * reward pools and stake shares, with the reference lists that tie a pool to
 * its round and delegate and a share to its round and delegator.
 */
module RoundStore {
  import opened Wrappers
  import opened Entities

  type RoundId = string
  type Id = string

  /** The round a job is asked to process. */
  datatype RoundRef = RoundRef(roundId: RoundId)

  /** A stored round: the pools and shares recorded for it, in insertion order. */
  datatype RoundDoc = RoundDoc(pools: seq<Id>, shares: seq<Id>)

  /** A stored delegate: its protocol snapshot and the pools it owns. */
  datatype DelegateDoc = DelegateDoc(info: Delegate, pools: seq<Id>)

  /** A stored delegator: its delegate, its stake and the shares it owns. */
  datatype DelegatorDoc = DelegatorDoc(delegate: Address, totalStake: real, shares: seq<Id>)

  /** The reward a delegate claimed in a round. */
  datatype PoolDoc = PoolDoc(rewardTokens: real, totalStakeOnRound: real, delegate: Address, round: RoundId)

  /** A delegator's slice of the rewards of a round. */
  datatype ShareDoc = ShareDoc(
    rewardTokens: real,
    totalStakeOnRound: real,
    delegator: Address,
    delegate: Address,
    round: RoundId)

  /** The whole store as one value, keyed by record id. */
  datatype Db = Db(
    rounds: map<RoundId, RoundDoc>,
    delegates: map<Address, DelegateDoc>,
    delegators: map<Address, DelegatorDoc>,
    pools: map<Id, PoolDoc>,
    shares: map<Id, ShareDoc>)

  /** How a per-round batch ended: completed, or stopped by an error; in both
      cases with the store as it was left. */
  datatype Outcome<E> = Done(db: Db) | Aborted(error: E, db: Db)
  {
    function Error(): Option<E> {
      if Aborted? then Some(error) else None
    }
  }

  /** The id of the share of delegator `address` in round `roundId`. */
  function ShareId(address: Address, roundId: RoundId): Id {
    address + "-" + roundId
  }

  predicate NoDup<T(==)>(s: seq<T>) {
    forall i, j :: 0 <= i < j < |s| ==> s[i] != s[j]
  }

  /** Every reference of round `r` names a stored record of that round, once. */
  ghost predicate RoundRefsOk(db: Db, r: RoundId)
    requires r in db.rounds
  {
    var doc := db.rounds[r];
    && NoDup(doc.pools) && NoDup(doc.shares)
    && (forall p :: p in doc.pools ==> p in db.pools && db.pools[p].round == r)
    && (forall s :: s in doc.shares ==> s in db.shares && db.shares[s].round == r)
  }

  /** Every pool reference of delegate `a` names a stored pool of it, once. */
  ghost predicate DelegateRefsOk(db: Db, a: Address)
    requires a in db.delegates
  {
    var doc := db.delegates[a];
    && NoDup(doc.pools)
    && (forall p :: p in doc.pools ==> p in db.pools && db.pools[p].delegate == a)
  }

  /** Every share reference of delegator `a` names a stored share of it, once. */
  ghost predicate DelegatorRefsOk(db: Db, a: Address)
    requires a in db.delegators
  {
    var doc := db.delegators[a];
    && NoDup(doc.shares)
    && (forall s :: s in doc.shares ==> s in db.shares && db.shares[s].delegator == a)
  }

  /** The store invariant: reference lists resolve and hold no duplicates; a
      pool or share only exists once its round and its owner are stored; and
      a share is keyed by its (delegator, round) pair. */
  ghost predicate Consistent(db: Db) {
    && (forall r :: r in db.rounds ==> RoundRefsOk(db, r))
    && (forall a :: a in db.delegates ==> DelegateRefsOk(db, a))
    && (forall a :: a in db.delegators ==> DelegatorRefsOk(db, a))
    && (forall p :: p in db.pools ==> db.pools[p].round in db.rounds && db.pools[p].delegate in db.delegates)
    && (forall s :: s in db.shares ==>
          && db.shares[s].round in db.rounds
          && db.shares[s].delegator in db.delegators
          && s == ShareId(db.shares[s].delegator, db.shares[s].round))
  }

  /** Two shares of one delegator in one round are the same record. */
  lemma AtMostOneSharePerPair(db: Db, s1: Id, s2: Id)
    requires Consistent(db)
    requires s1 in db.shares && s2 in db.shares
    requires db.shares[s1].delegator == db.shares[s2].delegator
    requires db.shares[s1].round == db.shares[s2].round
    ensures s1 == s2
  {
  }

  /** A store of maps that the jobs update in place. */
  class Store {
    var rounds: map<RoundId, RoundDoc>
    var delegates: map<Address, DelegateDoc>
    var delegators: map<Address, DelegatorDoc>
    var pools: map<Id, PoolDoc>
    var shares: map<Id, ShareDoc>

    function State(): Db
      reads this
    {
      Db(rounds, delegates, delegators, pools, shares)
    }

    ghost predicate Valid()
      reads this
    {
      Consistent(State())
    }

    constructor ()
      ensures Valid()
      ensures State() == Db(map[], map[], map[], map[], map[])
    {
      rounds, delegates, delegators, pools, shares := map[], map[], map[], map[], map[];
    }
  }

  /** The ids of a list of fetched delegates. */
  function DelegateIds(fetched: seq<Delegate>): set<Address> {
    set i | 0 <= i < |fetched| :: fetched[i].id
  }

  /** The ids of a non-empty list are those of its prefix and its last one. */
  lemma DelegateIdsSplit(fetched: seq<Delegate>)
    requires fetched != []
    ensures DelegateIds(fetched) == DelegateIds(fetched[..|fetched| - 1]) + {fetched[|fetched| - 1].id}
  {
    var prefix := fetched[..|fetched| - 1];
    forall a | a in DelegateIds(fetched) ensures a in DelegateIds(prefix) + {fetched[|fetched| - 1].id} {
      var i :| 0 <= i < |fetched| && fetched[i].id == a;
      if i < |fetched| - 1 { assert prefix[i] == fetched[i]; }
    }
    forall a | a in DelegateIds(prefix) ensures a in DelegateIds(fetched) {
      var i :| 0 <= i < |prefix| && prefix[i].id == a;
      assert fetched[i] == prefix[i];
    }
  }

  /** Stores every fetched delegate that has no local record, with no pools;
      delegates already stored are left as they are. */
  function InsertMissingDelegates(delegates: map<Address, DelegateDoc>, fetched: seq<Delegate>): (r: map<Address, DelegateDoc>)
    ensures r.Keys == delegates.Keys + DelegateIds(fetched)
    ensures forall a :: a in delegates ==> r[a] == delegates[a]
    ensures forall a :: a in r && a !in delegates ==>
              && r[a].pools == [] && r[a].info.id == a
              && exists i :: 0 <= i < |fetched| && r[a].info == fetched[i]
  {
    if fetched == [] then delegates
    else
      var prefix := fetched[..|fetched| - 1];
      var d := fetched[|fetched| - 1];
      var m := InsertMissingDelegates(delegates, prefix);
      DelegateIdsSplit(fetched);
      assert forall i :: 0 <= i < |prefix| ==> prefix[i] == fetched[i];
      if d.id in m then m else m[d.id := DelegateDoc(d, [])]
  }

  /** The addresses of a list of delegator snapshots. */
  function DelegatorAddresses(fetched: seq<Delegator>): set<Address> {
    set i | 0 <= i < |fetched| :: fetched[i].address
  }

  /** The addresses of a non-empty list are those of its prefix and its last one. */
  lemma DelegatorAddressesSplit(fetched: seq<Delegator>)
    requires fetched != []
    ensures DelegatorAddresses(fetched) == DelegatorAddresses(fetched[..|fetched| - 1]) + {fetched[|fetched| - 1].address}
  {
    var prefix := fetched[..|fetched| - 1];
    forall a | a in DelegatorAddresses(fetched) ensures a in DelegatorAddresses(prefix) + {fetched[|fetched| - 1].address} {
      var i :| 0 <= i < |fetched| && fetched[i].address == a;
      if i < |fetched| - 1 { assert prefix[i] == fetched[i]; }
    }
    forall a | a in DelegatorAddresses(prefix) ensures a in DelegatorAddresses(fetched) {
      var i :| 0 <= i < |prefix| && prefix[i].address == a;
      assert fetched[i] == prefix[i];
    }
  }

  /** Stores every delegator that has no local record, with no shares;
      delegators already stored are left as they are. */
  function InsertMissingDelegators(delegators: map<Address, DelegatorDoc>, fetched: seq<Delegator>): (r: map<Address, DelegatorDoc>)
    ensures r.Keys == delegators.Keys + DelegatorAddresses(fetched)
    ensures forall a :: a in delegators ==> r[a] == delegators[a]
    ensures forall a :: a in r && a !in delegators ==>
              && r[a].shares == []
              && exists i :: 0 <= i < |fetched| && fetched[i].address == a
                             && r[a].delegate == fetched[i].delegateAddress && r[a].totalStake == fetched[i].totalStake
  {
    if fetched == [] then delegators
    else
      var prefix := fetched[..|fetched| - 1];
      var d := fetched[|fetched| - 1];
      var m := InsertMissingDelegators(delegators, prefix);
      DelegatorAddressesSplit(fetched);
      assert forall i :: 0 <= i < |prefix| ==> prefix[i] == fetched[i];
      if d.address in m then m else m[d.address := DelegatorDoc(d.delegateAddress, d.totalStake, [])]
  }

  /** Adding delegates with empty pool lists keeps the store consistent. */
  lemma InsertMissingDelegatesKeepsConsistent(db: Db, fetched: seq<Delegate>)
    requires Consistent(db)
    ensures Consistent(db.(delegates := InsertMissingDelegates(db.delegates, fetched)))
  {
    var d := db.(delegates := InsertMissingDelegates(db.delegates, fetched));
    forall a | a in d.delegates ensures DelegateRefsOk(d, a) {
      if a in db.delegates { assert DelegateRefsOk(db, a); }
    }
    forall r | r in d.rounds ensures RoundRefsOk(d, r) { assert RoundRefsOk(db, r); }
    forall a | a in d.delegators ensures DelegatorRefsOk(d, a) { assert DelegatorRefsOk(db, a); }
  }

  /** Adding delegators with empty share lists keeps the store consistent. */
  lemma InsertMissingDelegatorsKeepsConsistent(db: Db, fetched: seq<Delegator>)
    requires Consistent(db)
    ensures Consistent(db.(delegators := InsertMissingDelegators(db.delegators, fetched)))
  {
    var d := db.(delegators := InsertMissingDelegators(db.delegators, fetched));
    forall a | a in d.delegators ensures DelegatorRefsOk(d, a) {
      if a in db.delegators { assert DelegatorRefsOk(db, a); }
    }
    forall r | r in d.rounds ensures RoundRefsOk(d, r) { assert RoundRefsOk(db, r); }
    forall a | a in d.delegates ensures DelegateRefsOk(d, a) { assert DelegateRefsOk(db, a); }
  }

  /** Brings the local delegates up to the fetched list by inserting the
      missing ones. */
  method CheckAndUpdateMissingLocalDelegates(store: Store, fetched: seq<Delegate>)
    requires store.Valid()
    modifies store
    ensures store.Valid()
    ensures store.State() == old(store.State()).(delegates := InsertMissingDelegates(old(store.delegates), fetched))
  {
    InsertMissingDelegatesKeepsConsistent(store.State(), fetched);
    store.delegates := InsertMissingDelegates(store.delegates, fetched);
  }

  /** Brings the local delegators up to the given list by inserting the
      missing ones. */
  method CheckAndUpdateMissingLocalDelegators(store: Store, fetched: seq<Delegator>)
    requires store.Valid()
    modifies store
    ensures store.Valid()
    ensures store.State() == old(store.State()).(delegators := InsertMissingDelegators(old(store.delegators), fetched))
  {
    InsertMissingDelegatorsKeepsConsistent(store.State(), fetched);
    store.delegators := InsertMissingDelegators(store.delegators, fetched);
  }
}
