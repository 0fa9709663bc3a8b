/**
 * Persisting the stake shares of a round for the subscribed delegators: one
 * Share per (delegator, round), keyed `<address>-<roundId>`, appended to its
 * round and its delegator; a failure for one delegator does not stop the
 * others.
 */
module RoundShares {
  import opened Wrappers
  import opened Entities
  import opened RoundStore

  /** The delegator a share is requested for; the empty address is missing. */
  datatype DelegatorRef = DelegatorRef(address: Address)

  datatype ShareError =
    | NoRoundProvided
    | NoDelegatorProvided
    | DelegatorWithoutAddress
    | DelegatorNotStored(address: Address)
    | RoundNotStored(roundId: RoundId)
    | ShareExists(shareId: Id)

  /** Position of the first '-' in `s`, or its length when there is none. */
  function DashIndex(s: string): (i: nat)
    ensures i <= |s|
  {
    if s == [] then 0 else if s[0] == '-' then 0 else 1 + DashIndex(s[1..])
  }

  /** In a share id the first '-' follows the address when the address has
      none. */
  lemma {:induction false} DashIndexOfShareId(a: Address, r: RoundId)
    requires '-' !in a
    ensures DashIndex(ShareId(a, r)) == |a|
  {
    if a != [] {
      assert ShareId(a, r)[1..] == ShareId(a[1..], r);
      DashIndexOfShareId(a[1..], r);
    }
  }

  /** With addresses free of '-', distinct (delegator, round) pairs get
      distinct share ids. */
  lemma ShareIdInjective(a1: Address, r1: RoundId, a2: Address, r2: RoundId)
    requires '-' !in a1 && '-' !in a2
    requires ShareId(a1, r1) == ShareId(a2, r2)
    ensures a1 == a2 && r1 == r2
  {
    var s := ShareId(a1, r1);
    DashIndexOfShareId(a1, r1);
    DashIndexOfShareId(a2, r2);
    assert a1 == s[..|a1|] == a2;
    assert r1 == s[|a1| + 1..] == r2;
  }

  /** The store after the share of `address` in round `rid` has been saved
      and appended to the round's and the delegator's share lists. */
  function WithShare(db: Db, rid: RoundId, address: Address, rewardTokens: real): Db
    requires rid in db.rounds && address in db.delegators
  {
    var delegator := db.delegators[address];
    var sid := ShareId(address, rid);
    db.(shares := db.shares[sid := ShareDoc(rewardTokens, delegator.totalStake, address, delegator.delegate, rid)],
        rounds := db.rounds[rid := db.rounds[rid].(shares := db.rounds[rid].shares + [sid])],
        delegators := db.delegators[address := delegator.(shares := delegator.shares + [sid])])
  }

  /** One call for one delegator: its checks in order, then the write. The
      reward tokens of the share are fetched from the round, the address and
      the stored stake. */
  function ShareOfRound(
    db: Db,
    round: Option<RoundRef>,
    delegator: Option<DelegatorRef>,
    rewardOf: (RoundId, Address, real) -> real)
    : (o: Outcome<ShareError>)
    ensures o.db.delegators.Keys == db.delegators.Keys && o.db.rounds.Keys == db.rounds.Keys
  {
    if round.None? then Aborted(NoRoundProvided, db)
    else if delegator.None? then Aborted(NoDelegatorProvided, db)
    else
      var address := delegator.value.address;
      var rid := round.value.roundId;
      if address == "" then Aborted(DelegatorWithoutAddress, db)
      else if address !in db.delegators then Aborted(DelegatorNotStored(address), db)
      else if rid !in db.rounds then Aborted(RoundNotStored(rid), db)
      else if ShareId(address, rid) in db.shares then Aborted(ShareExists(ShareId(address, rid)), db)
      else Done(WithShare(db, rid, address, rewardOf(rid, address, db.delegators[address].totalStake)))
  }

  /** A successful call stores the share under `<address>-<roundId>` with the
      stored delegator's stake and delegate, and appends its id exactly once
      to the round and to the delegator; every failure writes nothing. */
  lemma ShareOfRoundEffect(
    db: Db,
    round: Option<RoundRef>,
    delegator: Option<DelegatorRef>,
    rewardOf: (RoundId, Address, real) -> real)
    requires Consistent(db)
    ensures var o := ShareOfRound(db, round, delegator, rewardOf);
            && (o.Aborted? ==> o.db == db)
            && (o.Done? <==>
                  && round.Some? && delegator.Some? && delegator.value.address != ""
                  && delegator.value.address in db.delegators && round.value.roundId in db.rounds
                  && ShareId(delegator.value.address, round.value.roundId) !in db.shares)
            && (o.Done? ==>
                  var a := delegator.value.address;
                  var rid := round.value.roundId;
                  var sid := ShareId(a, rid);
                  && sid in o.db.shares
                  && o.db.shares[sid].totalStakeOnRound == db.delegators[a].totalStake
                  && o.db.shares[sid].delegate == db.delegators[a].delegate
                  && o.db.shares[sid].delegator == a && o.db.shares[sid].round == rid
                  && sid !in db.rounds[rid].shares && o.db.rounds[rid].shares == db.rounds[rid].shares + [sid]
                  && sid !in db.delegators[a].shares && o.db.delegators[a].shares == db.delegators[a].shares + [sid]
                  && o.db.pools == db.pools && o.db.delegates == db.delegates
                  && (forall s :: s in db.shares ==> s in o.db.shares && o.db.shares[s] == db.shares[s]))
  {
    var o := ShareOfRound(db, round, delegator, rewardOf);
    if o.Done? {
      assert RoundRefsOk(db, round.value.roundId);
      assert DelegatorRefsOk(db, delegator.value.address);
    }
  }

  /** Appending a new share keeps the share references of every round sound. */
  lemma WithShareKeepsRoundRefs(db: Db, rid: RoundId, a: Address, rewardTokens: real, r: RoundId)
    requires Consistent(db) && rid in db.rounds && a in db.delegators && ShareId(a, rid) !in db.shares
    requires r in db.rounds
    ensures RoundRefsOk(WithShare(db, rid, a, rewardTokens), r)
  {
    var d := WithShare(db, rid, a, rewardTokens);
    assert RoundRefsOk(db, r);
    if r == rid {
      var ss := d.rounds[r].shares;
      assert ss == db.rounds[r].shares + [ShareId(a, rid)];
      forall i, j | 0 <= i < j < |ss| ensures ss[i] != ss[j] {
        if j == |ss| - 1 { assert ss[i] in db.rounds[r].shares; }
      }
    }
  }

  /** Appending a new share keeps the share references of every delegator
      sound. */
  lemma WithShareKeepsDelegatorRefs(db: Db, rid: RoundId, a: Address, rewardTokens: real, x: Address)
    requires Consistent(db) && rid in db.rounds && a in db.delegators && ShareId(a, rid) !in db.shares
    requires x in db.delegators
    ensures DelegatorRefsOk(WithShare(db, rid, a, rewardTokens), x)
  {
    var d := WithShare(db, rid, a, rewardTokens);
    assert DelegatorRefsOk(db, x);
    if x == a {
      var ss := d.delegators[x].shares;
      assert ss == db.delegators[x].shares + [ShareId(a, rid)];
      forall i, j | 0 <= i < j < |ss| ensures ss[i] != ss[j] {
        if j == |ss| - 1 { assert ss[i] in db.delegators[x].shares; }
      }
    }
  }

  /** Saving a new share and appending it keeps the store consistent. */
  lemma WithShareKeepsConsistent(db: Db, rid: RoundId, a: Address, rewardTokens: real)
    requires Consistent(db) && rid in db.rounds && a in db.delegators && ShareId(a, rid) !in db.shares
    ensures Consistent(WithShare(db, rid, a, rewardTokens))
  {
    var d := WithShare(db, rid, a, rewardTokens);
    forall r | r in d.rounds ensures RoundRefsOk(d, r) {
      WithShareKeepsRoundRefs(db, rid, a, rewardTokens, r);
    }
    forall x | x in d.delegators ensures DelegatorRefsOk(d, x) {
      WithShareKeepsDelegatorRefs(db, rid, a, rewardTokens, x);
    }
    forall x | x in d.delegates ensures DelegateRefsOk(d, x) {
      assert DelegateRefsOk(db, x);
    }
  }

  /** Saving a share keeps the store consistent. */
  lemma ShareOfRoundKeepsConsistent(
    db: Db,
    round: Option<RoundRef>,
    delegator: Option<DelegatorRef>,
    rewardOf: (RoundId, Address, real) -> real)
    requires Consistent(db)
    ensures Consistent(ShareOfRound(db, round, delegator, rewardOf).db)
  {
    if round.Some? && delegator.Some? {
      var a := delegator.value.address;
      var rid := round.value.roundId;
      if a != "" && a in db.delegators && rid in db.rounds && ShareId(a, rid) !in db.shares {
        WithShareKeepsConsistent(db, rid, a, rewardOf(rid, a, db.delegators[a].totalStake));
      }
    }
  }

  /** Asking again for a share that was just written fails as a duplicate and
      leaves the store as it is. */
  lemma ShareReplayRejected(
    db: Db,
    round: Option<RoundRef>,
    delegator: Option<DelegatorRef>,
    rewardOf: (RoundId, Address, real) -> real)
    requires Consistent(db)
    requires ShareOfRound(db, round, delegator, rewardOf).Done?
    ensures var d := ShareOfRound(db, round, delegator, rewardOf).db;
            ShareOfRound(d, round, delegator, rewardOf)
              == Aborted(ShareExists(ShareId(delegator.value.address, round.value.roundId)), d)
  {
    ShareOfRoundEffect(db, round, delegator, rewardOf);
  }

  /** Saves the share record, then appends it to its round, then to its
      delegator. */
  method SaveShare(store: Store, rid: RoundId, address: Address, rewardTokens: real)
    requires rid in store.rounds && address in store.delegators
    modifies store
    ensures store.State() == WithShare(old(store.State()), rid, address, rewardTokens)
  {
    var delegator := store.delegators[address];
    var sid := ShareId(address, rid);
    store.shares := store.shares[sid := ShareDoc(rewardTokens, delegator.totalStake, address, delegator.delegate, rid)];
    var r := store.rounds[rid];
    store.rounds := store.rounds[rid := r.(shares := r.shares + [sid])];
    store.delegators := store.delegators[address := delegator.(shares := delegator.shares + [sid])];
  }

  /** Records the share of one delegator in one round, as `ShareOfRound`
      describes. */
  method UpdateDelegatorSharesOfRound(
    store: Store,
    round: Option<RoundRef>,
    delegator: Option<DelegatorRef>,
    rewardOf: (RoundId, Address, real) -> real)
    returns (error: Option<ShareError>)
    requires store.Valid()
    modifies store
    ensures store.Valid()
    ensures var o := ShareOfRound(old(store.State()), round, delegator, rewardOf);
            store.State() == o.db && error == o.Error()
  {
    ShareOfRoundKeepsConsistent(store.State(), round, delegator, rewardOf);
    if round.None? {
      return Some(NoRoundProvided);
    }
    if delegator.None? {
      return Some(NoDelegatorProvided);
    }
    var address := delegator.value.address;
    if address == "" {
      return Some(DelegatorWithoutAddress);
    }
    if address !in store.delegators {
      return Some(DelegatorNotStored(address));
    }
    var rid := round.value.roundId;
    if rid !in store.rounds {
      return Some(RoundNotStored(rid));
    }
    var shareId := ShareId(address, rid);
    var rewardTokens := rewardOf(rid, address, store.delegators[address].totalStake);
    if shareId in store.shares {
      return Some(ShareExists(shareId));
    }
    SaveShare(store, rid, address, rewardTokens);
    error := None;
  }

  /** True when some delegator of `ds` has address `a`. */
  predicate HasAddress(ds: seq<Delegator>, a: Address) {
    exists k :: 0 <= k < |ds| && ds[k].address == a
  }

  /** The delegators of the subscriber list, each address once, at its first
      occurrence. */
  function DedupByAddress(list: seq<SubscriberAndDelegator>): (ds: seq<Delegator>)
    ensures |ds| <= |list|
  {
    if list == [] then []
    else
      var ds := DedupByAddress(list[..|list| - 1]);
      var d := list[|list| - 1].delegator;
      if HasAddress(ds, d.address) then ds else ds + [d]
  }

  /** Index of the first list entry whose delegator has address `a`, or the
      length of the list when there is none. */
  function FirstIndexOf(list: seq<SubscriberAndDelegator>, a: Address): (i: nat)
    ensures i <= |list|
    ensures i < |list| ==> list[i].delegator.address == a
    ensures forall k :: 0 <= k < i ==> list[k].delegator.address != a
  {
    if list == [] then 0
    else if list[0].delegator.address == a then 0
    else
      var rest := FirstIndexOf(list[1..], a);
      assert forall k :: 1 <= k < 1 + rest ==> list[k] == list[1..][k - 1];
      1 + rest
  }

  /** No two delegators of `ds` share an address. */
  predicate UniqueAddresses(ds: seq<Delegator>) {
    forall i, j :: 0 <= i < j < |ds| ==> ds[i].address != ds[j].address
  }

  lemma {:induction false} DedupByAddressUnique(list: seq<SubscriberAndDelegator>)
    ensures UniqueAddresses(DedupByAddress(list))
  {
    if list != [] {
      var prefix := list[..|list| - 1];
      DedupByAddressUnique(prefix);
      var pds := DedupByAddress(prefix);
      var d := list[|list| - 1].delegator;
      var ds := DedupByAddress(list);
      assert UniqueAddresses(pds);
      if !HasAddress(pds, d.address) {
        assert ds == pds + [d];
        forall i, j | 0 <= i < j < |ds| ensures ds[i].address != ds[j].address {
          assert ds[i] == pds[i];
          if j < |pds| {
            assert ds[j] == pds[j];
          } else {
            assert ds[j] == d;
            assert pds[i].address != d.address;
          }
        }
      }
    }
  }

  /** De-duplication drops no address. */
  lemma {:induction false} DedupByAddressComplete(list: seq<SubscriberAndDelegator>)
    ensures forall k :: 0 <= k < |list| ==> HasAddress(DedupByAddress(list), list[k].delegator.address)
  {
    if list != [] {
      var prefix := list[..|list| - 1];
      DedupByAddressComplete(prefix);
      var pds := DedupByAddress(prefix);
      var ds := DedupByAddress(list);
      var d := list[|list| - 1].delegator;
      forall k | 0 <= k < |list| ensures HasAddress(ds, list[k].delegator.address) {
        if k < |list| - 1 {
          assert prefix[k] == list[k];
          var j :| 0 <= j < |pds| && pds[j].address == list[k].delegator.address;
          if !HasAddress(pds, d.address) {
            assert ds == pds + [d];
            assert ds[j] == pds[j];
          }
        } else if !HasAddress(pds, d.address) {
          assert ds == pds + [d];
          assert ds[|ds| - 1] == d;
        }
      }
    }
  }

  /** Dropping the last entry keeps a first occurrence found before it. */
  lemma FirstIndexOfPrefix(list: seq<SubscriberAndDelegator>, a: Address)
    requires list != [] && FirstIndexOf(list[..|list| - 1], a) < |list| - 1
    ensures FirstIndexOf(list, a) == FirstIndexOf(list[..|list| - 1], a)
  {
    var prefix := list[..|list| - 1];
    var f := FirstIndexOf(prefix, a);
    assert prefix[f] == list[f];
    forall k | 0 <= k < f ensures list[k].delegator.address != a {
      assert prefix[k] == list[k];
    }
    FirstIndexOfIs(list, a, f);
  }

  /** The first occurrence is the one position with the address and none
      before it. */
  lemma {:induction false} FirstIndexOfIs(list: seq<SubscriberAndDelegator>, a: Address, f: nat)
    requires f < |list| && list[f].delegator.address == a
    requires forall k :: 0 <= k < f ==> list[k].delegator.address != a
    ensures FirstIndexOf(list, a) == f
  {
    if f > 0 {
      assert list[1..][f - 1] == list[f];
      forall k | 0 <= k < f - 1 ensures list[1..][k].delegator.address != a {
        assert list[1..][k] == list[k + 1];
      }
      FirstIndexOfIs(list[1..], a, f - 1);
    }
  }

  /** Each delegator of `ds` is the one of the first entry of `list` with its
      address. */
  predicate KeptFirst(list: seq<SubscriberAndDelegator>, ds: seq<Delegator>) {
    forall i :: 0 <= i < |ds| ==>
      && FirstIndexOf(list, ds[i].address) < |list|
      && ds[i] == list[FirstIndexOf(list, ds[i].address)].delegator
  }

  lemma {:induction false} DedupByAddressKeepsFirst(list: seq<SubscriberAndDelegator>)
    ensures KeptFirst(list, DedupByAddress(list))
  {
    if list != [] {
      var n := |list| - 1;
      var prefix := list[..n];
      DedupByAddressKeepsFirst(prefix);
      var pds := DedupByAddress(prefix);
      var ds := DedupByAddress(list);
      var d := list[n].delegator;
      assert KeptFirst(prefix, pds);
      forall i | 0 <= i < |pds|
        ensures FirstIndexOf(list, pds[i].address) < |list|
        ensures pds[i] == list[FirstIndexOf(list, pds[i].address)].delegator
      {
        var f := FirstIndexOf(prefix, pds[i].address);
        assert prefix[f] == list[f];
        FirstIndexOfPrefix(list, pds[i].address);
      }
      if !HasAddress(pds, d.address) {
        assert ds == pds + [d];
        DedupByAddressComplete(prefix);
        forall k | 0 <= k < n ensures list[k].delegator.address != d.address {
          assert prefix[k] == list[k];
        }
        FirstIndexOfIs(list, d.address, n);
        forall i | 0 <= i < |ds|
          ensures FirstIndexOf(list, ds[i].address) < |list|
          ensures ds[i] == list[FirstIndexOf(list, ds[i].address)].delegator
        {
          if i < |pds| {
            assert ds[i] == pds[i];
          } else {
            assert ds[i] == d;
          }
        }
      }
    }
  }

  /** The delegators of `ds` appear in the order of their first occurrences
      in `list`. */
  predicate InFirstOccurrenceOrder(list: seq<SubscriberAndDelegator>, ds: seq<Delegator>) {
    forall i, j :: 0 <= i < j < |ds| ==>
      FirstIndexOf(list, ds[i].address) < FirstIndexOf(list, ds[j].address)
  }

  lemma {:induction false} DedupByAddressOrdered(list: seq<SubscriberAndDelegator>)
    ensures InFirstOccurrenceOrder(list, DedupByAddress(list))
  {
    if list != [] {
      var n := |list| - 1;
      var prefix := list[..n];
      DedupByAddressOrdered(prefix);
      DedupByAddressKeepsFirst(prefix);
      var pds := DedupByAddress(prefix);
      var ds := DedupByAddress(list);
      var d := list[n].delegator;
      assert KeptFirst(prefix, pds) && InFirstOccurrenceOrder(prefix, pds);
      forall i | 0 <= i < |pds|
        ensures FirstIndexOf(list, pds[i].address) == FirstIndexOf(prefix, pds[i].address) < n
      {
        FirstIndexOfPrefix(list, pds[i].address);
      }
      if !HasAddress(pds, d.address) {
        assert ds == pds + [d];
        DedupByAddressComplete(prefix);
        forall k | 0 <= k < n ensures list[k].delegator.address != d.address {
          assert prefix[k] == list[k];
        }
        FirstIndexOfIs(list, d.address, n);
        forall i, j | 0 <= i < j < |ds|
          ensures FirstIndexOf(list, ds[i].address) < FirstIndexOf(list, ds[j].address)
        {
          assert ds[i] == pds[i];
          if j < |pds| {
            assert ds[j] == pds[j];
          } else {
            assert ds[j] == d;
          }
        }
      }
    }
  }

  /** A non-empty subscriber list yields at least one delegator. */
  lemma {:induction false} DedupNonEmpty(list: seq<SubscriberAndDelegator>)
    requires list != []
    ensures DedupByAddress(list) != []
  {
    if |list| > 1 {
      DedupNonEmpty(list[..|list| - 1]);
    }
  }

  /** Builds the delegator list of the subscribers, skipping an address
      already taken. */
  method DelegatorsOfSubscribers(list: seq<SubscriberAndDelegator>) returns (delegators: seq<Delegator>)
    ensures delegators == DedupByAddress(list)
  {
    delegators := [];
    var i := 0;
    while i < |list|
      invariant 0 <= i <= |list|
      invariant delegators == DedupByAddress(list[..i])
    {
      var delegator := list[i].delegator;
      var isAlreadySaved := false;
      var j := 0;
      while j < |delegators|
        invariant 0 <= j <= |delegators|
        invariant !HasAddress(delegators[..j], delegator.address)
      {
        if delegators[j].address == delegator.address {
          isAlreadySaved := true;
          break;
        }
        assert delegators[..j + 1] == delegators[..j] + [delegators[j]];
        j := j + 1;
      }
      assert isAlreadySaved <==> HasAddress(delegators, delegator.address) by {
        if !isAlreadySaved {
          assert delegators[..j] == delegators;
        }
      }
      if !isAlreadySaved {
        delegators := delegators + [delegator];
      }
      assert list[..i + 1][..i] == list[..i];
      i := i + 1;
    }
    assert list[..i] == list;
  }

  /** The outcome of each per-delegator call, and the store afterwards. */
  datatype ShareBatch = ShareBatch(db: Db, errors: seq<Option<ShareError>>)

  /** One call per delegator, in order; a failed call only records its error. */
  function RunShares(db: Db, round: Option<RoundRef>, ds: seq<Delegator>, rewardOf: (RoundId, Address, real) -> real)
    : (b: ShareBatch)
    ensures |b.errors| == |ds|
  {
    if ds == [] then ShareBatch(db, [])
    else
      var prev := RunShares(db, round, ds[..|ds| - 1], rewardOf);
      var o := ShareOfRound(prev.db, round, Some(DelegatorRef(ds[|ds| - 1].address)), rewardOf);
      ShareBatch(o.db, prev.errors + [o.Error()])
  }

  lemma {:induction false} RunSharesKeepsConsistent(db: Db, round: Option<RoundRef>, ds: seq<Delegator>, rewardOf: (RoundId, Address, real) -> real)
    requires Consistent(db)
    ensures Consistent(RunShares(db, round, ds, rewardOf).db)
  {
    if ds != [] {
      RunSharesKeepsConsistent(db, round, ds[..|ds| - 1], rewardOf);
      var prev := RunShares(db, round, ds[..|ds| - 1], rewardOf);
      ShareOfRoundKeepsConsistent(prev.db, round, Some(DelegatorRef(ds[|ds| - 1].address)), rewardOf);
    }
  }

  /** A call never removes a share, and a successful one stores the share of
      its delegator and round. */
  lemma ShareOfRoundGrows(
    db: Db,
    round: Option<RoundRef>,
    delegator: Option<DelegatorRef>,
    rewardOf: (RoundId, Address, real) -> real)
    ensures var o := ShareOfRound(db, round, delegator, rewardOf);
            && db.shares.Keys <= o.db.shares.Keys
            && (o.Done? ==> round.Some? && delegator.Some? &&
                            ShareId(delegator.value.address, round.value.roundId) in o.db.shares)
  {
  }

  /** Shares are never removed by a batch. */
  lemma {:induction false} RunSharesKeepsShares(db: Db, round: Option<RoundRef>, ds: seq<Delegator>, rewardOf: (RoundId, Address, real) -> real)
    ensures db.shares.Keys <= RunShares(db, round, ds, rewardOf).db.shares.Keys
  {
    if ds != [] {
      RunSharesKeepsShares(db, round, ds[..|ds| - 1], rewardOf);
      var prev := RunShares(db, round, ds[..|ds| - 1], rewardOf);
      ShareOfRoundGrows(prev.db, round, Some(DelegatorRef(ds[|ds| - 1].address)), rewardOf);
    }
  }

  /** Every delegator is attempted whatever happened to the others; one whose
      call succeeded has its share of the round stored afterwards. */
  lemma {:induction false} EveryDelegatorAttempted(db: Db, rid: RoundId, ds: seq<Delegator>, rewardOf: (RoundId, Address, real) -> real)
    ensures var b := RunShares(db, Some(RoundRef(rid)), ds, rewardOf);
            forall k :: 0 <= k < |ds| && b.errors[k].None? ==> ShareId(ds[k].address, rid) in b.db.shares
  {
    if ds != [] {
      var round := Some(RoundRef(rid));
      var n := |ds| - 1;
      EveryDelegatorAttempted(db, rid, ds[..n], rewardOf);
      var prev := RunShares(db, round, ds[..n], rewardOf);
      ShareOfRoundGrows(prev.db, round, Some(DelegatorRef(ds[n].address)), rewardOf);
      var b := RunShares(db, round, ds, rewardOf);
      forall k | 0 <= k < |ds| && b.errors[k].None? ensures ShareId(ds[k].address, rid) in b.db.shares {
        if k < n {
          assert b.errors[k] == prev.errors[k];
          assert ds[..n][k] == ds[k];
        }
      }
    }
  }

  /** Running one more delegator extends the batch by that delegator's call. */
  lemma RunSharesStep(db: Db, round: Option<RoundRef>, ds: seq<Delegator>, i: nat, rewardOf: (RoundId, Address, real) -> real)
    requires i < |ds|
    ensures var prev := RunShares(db, round, ds[..i], rewardOf);
            var o := ShareOfRound(prev.db, round, Some(DelegatorRef(ds[i].address)), rewardOf);
            RunShares(db, round, ds[..i + 1], rewardOf) == ShareBatch(o.db, prev.errors + [o.Error()])
  {
    assert ds[..i + 1][..i] == ds[..i];
  }

  /** The round-change job for shares: the subscribed delegators, each
      address once, are reconciled with the store and then get their share of
      the round one by one; a failed delegator is skipped. `None` stands for
      the missing round; an empty or missing subscriber list writes nothing. */
  method UpdateDelegatorsShares(
    store: Store,
    newRound: Option<RoundRef>,
    subscribers: Option<seq<SubscriberAndDelegator>>,
    rewardOf: (RoundId, Address, real) -> real)
    returns (errors: Option<seq<Option<ShareError>>>)
    requires store.Valid()
    modifies store
    ensures store.Valid()
    ensures newRound.None? ==> errors.None? && store.State() == old(store.State())
    ensures newRound.Some? && (subscribers.None? || subscribers.value == []) ==>
              errors == Some([]) && store.State() == old(store.State())
    ensures newRound.Some? && subscribers.Some? && subscribers.value != [] ==>
              var ds := DedupByAddress(subscribers.value);
              var reconciled := old(store.State()).(delegators := InsertMissingDelegators(old(store.delegators), ds));
              var b := RunShares(reconciled, newRound, ds, rewardOf);
              store.State() == b.db && errors == Some(b.errors)
  {
    if newRound.None? {
      return None;
    }
    if subscribers.None? || |subscribers.value| == 0 {
      return Some([]);
    }
    var delegators := DelegatorsOfSubscribers(subscribers.value);
    CheckAndUpdateMissingLocalDelegators(store, delegators);
    ghost var reconciled := store.State();
    var outcomes: seq<Option<ShareError>> := [];
    var i := 0;
    while i < |delegators|
      invariant 0 <= i <= |delegators|
      invariant store.Valid()
      invariant RunShares(reconciled, newRound, delegators[..i], rewardOf) == ShareBatch(store.State(), outcomes)
    {
      var delegator := delegators[i];
      ghost var before := store.State();
      var err := UpdateDelegatorSharesOfRound(store, newRound, Some(DelegatorRef(delegator.address)), rewardOf);
      RunSharesStep(reconciled, newRound, delegators, i, rewardOf);
      outcomes := outcomes + [err];
      i := i + 1;
    }
    assert delegators[..i] == delegators;
    errors := Some(outcomes);
  }
}
