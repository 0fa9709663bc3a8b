/**
 * The periodic job that compares the delegates fetched from the protocol with
 * the local records: a delegate with no local record is stored, one whose
 * fee and reward rules changed is replaced by the fetched snapshot, and one
 * whose rules are unchanged is not written.
 */
module DelegateChangeRules {
  import opened Entities
  import opened RoundStore

  /** The four rule fields a delegator depends on. */
  datatype Rules = Rules(feeShare: int, pendingFeeShare: int, rewardCut: int, pendingRewardCut: int)

  function RulesOf(d: Delegate): Rules {
    Rules(d.feeShare, d.pendingFeeShare, d.rewardCut, d.pendingRewardCut)
  }

  /** True when at least one of the four rule fields differs. */
  function HasDelegateChangedRules(stored: Delegate, fetched: Delegate): (changed: bool)
    ensures changed <==> RulesOf(stored) != RulesOf(fetched)
  {
    || stored.feeShare != fetched.feeShare
    || stored.pendingFeeShare != fetched.pendingFeeShare
    || stored.rewardCut != fetched.rewardCut
    || stored.pendingRewardCut != fetched.pendingRewardCut
  }

  /** A delegate compared with itself has not changed, and the comparison
      does not depend on the order of its arguments. */
  lemma ChangedRulesIrreflexiveAndSymmetric(d1: Delegate, d2: Delegate)
    ensures !HasDelegateChangedRules(d1, d1)
    ensures HasDelegateChangedRules(d1, d2) == HasDelegateChangedRules(d2, d1)
  {
  }

  /** Differences outside the four rule fields are not a rule change. */
  lemma OtherFieldsAreNotRules(
    d: Delegate, id: Address, active: bool, status: string, lastRewardRound: int, totalStake: real)
    ensures !HasDelegateChangedRules(
              d, d.(id := id, active := active, status := status,
                    lastRewardRound := lastRewardRound, totalStake := totalStake))
  {
  }

  /** Whether the job writes fetched delegate `d` against the local delegates. */
  predicate Writes(delegates: map<Address, DelegateDoc>, d: Delegate) {
    d.id !in delegates || HasDelegateChangedRules(delegates[d.id].info, d)
  }

  /** The local delegates after handling one fetched delegate. The written
      document is built from the fetched fields alone, under the fetched id. */
  function ReconcileStep(delegates: map<Address, DelegateDoc>, d: Delegate): (r: map<Address, DelegateDoc>)
    ensures r.Keys == delegates.Keys + {d.id}
  {
    if Writes(delegates, d) then delegates[d.id := DelegateDoc(d, [])] else delegates
  }

  /** The local delegates after handling the fetched list in order. */
  function Reconciled(delegates: map<Address, DelegateDoc>, fetched: seq<Delegate>): map<Address, DelegateDoc> {
    if fetched == [] then delegates
    else ReconcileStep(Reconciled(delegates, fetched[..|fetched| - 1]), fetched[|fetched| - 1])
  }

  /** The fetched delegates the job writes, in order. */
  function Written(delegates: map<Address, DelegateDoc>, fetched: seq<Delegate>): seq<Delegate> {
    if fetched == [] then []
    else
      var prefix := fetched[..|fetched| - 1];
      var d := fetched[|fetched| - 1];
      Written(delegates, prefix) + (if Writes(Reconciled(delegates, prefix), d) then [d] else [])
  }

  /** No two fetched delegates share an id. */
  predicate DistinctIds(fetched: seq<Delegate>) {
    forall i, j :: 0 <= i < j < |fetched| ==> fetched[i].id != fetched[j].id
  }

  /** With distinct ids, the last id does not occur before it, and the prefix
      has distinct ids too. */
  lemma DistinctIdsSplit(fetched: seq<Delegate>)
    requires fetched != [] && DistinctIds(fetched)
    ensures fetched[|fetched| - 1].id !in DelegateIds(fetched[..|fetched| - 1])
    ensures DistinctIds(fetched[..|fetched| - 1])
  {
    var prefix := fetched[..|fetched| - 1];
    forall k | 0 <= k < |prefix| ensures prefix[k].id != fetched[|fetched| - 1].id {
      assert prefix[k] == fetched[k];
    }
    forall k, l | 0 <= k < l < |prefix| ensures prefix[k].id != prefix[l].id {
      assert prefix[k] == fetched[k] && prefix[l] == fetched[l];
    }
  }

  /** After the job every fetched id is stored, and nothing else is added. */
  lemma {:induction false} ReconciledKeys(delegates: map<Address, DelegateDoc>, fetched: seq<Delegate>)
    ensures Reconciled(delegates, fetched).Keys == delegates.Keys + DelegateIds(fetched)
  {
    if fetched != [] {
      ReconciledKeys(delegates, fetched[..|fetched| - 1]);
      DelegateIdsSplit(fetched);
    }
  }

  /** A local delegate whose id was not fetched is left as it was. */
  lemma {:induction false} ReconciledLeavesOthers(delegates: map<Address, DelegateDoc>, fetched: seq<Delegate>, a: Address)
    requires a !in DelegateIds(fetched)
    ensures a in Reconciled(delegates, fetched) <==> a in delegates
    ensures a in delegates ==> Reconciled(delegates, fetched)[a] == delegates[a]
  {
    if fetched != [] {
      DelegateIdsSplit(fetched);
      ReconciledLeavesOthers(delegates, fetched[..|fetched| - 1], a);
    }
  }

  /** With distinct ids, each fetched delegate ends up exactly as its own step
      left it: inserted when missing, replaced when its rules changed, kept
      otherwise. */
  lemma {:induction false} ReconciledAt(delegates: map<Address, DelegateDoc>, fetched: seq<Delegate>, i: nat)
    requires DistinctIds(fetched) && i < |fetched|
    ensures var r := Reconciled(delegates, fetched);
            var d := fetched[i];
            && d.id in r
            && r[d.id] == (if Writes(delegates, d) then DelegateDoc(d, []) else delegates[d.id])
  {
    var n := |fetched| - 1;
    var prefix := fetched[..n];
    var d := fetched[i];
    DistinctIdsSplit(fetched);
    if i == n {
      ReconciledLeavesOthers(delegates, prefix, d.id);
    } else {
      assert prefix[i] == d;
      ReconciledAt(delegates, prefix, i);
      assert fetched[n].id != d.id;
    }
  }

  /** With distinct ids, every fetched delegate's rules are stored afterwards. */
  lemma ReconciledRulesMatch(delegates: map<Address, DelegateDoc>, fetched: seq<Delegate>, i: nat)
    requires DistinctIds(fetched) && i < |fetched|
    ensures var r := Reconciled(delegates, fetched);
            fetched[i].id in r && !HasDelegateChangedRules(r[fetched[i].id].info, fetched[i])
  {
    ReconciledAt(delegates, fetched, i);
  }

  /** Against local delegates that already carry the fetched rules, the job
      writes nothing and changes nothing. */
  lemma {:induction false} UpToDateWritesNothing(delegates: map<Address, DelegateDoc>, fetched: seq<Delegate>)
    requires forall i :: 0 <= i < |fetched| ==> !Writes(delegates, fetched[i])
    ensures Written(delegates, fetched) == []
    ensures Reconciled(delegates, fetched) == delegates
  {
    if fetched != [] {
      var prefix := fetched[..|fetched| - 1];
      forall i | 0 <= i < |prefix| ensures !Writes(delegates, prefix[i]) {
        assert prefix[i] == fetched[i];
      }
      UpToDateWritesNothing(delegates, prefix);
    }
  }

  /** Running the job a second time on the same fetched list writes nothing. */
  lemma SecondRunWritesNothing(delegates: map<Address, DelegateDoc>, fetched: seq<Delegate>)
    requires DistinctIds(fetched)
    ensures var r := Reconciled(delegates, fetched);
            Written(r, fetched) == [] && Reconciled(r, fetched) == r
  {
    var r := Reconciled(delegates, fetched);
    forall i | 0 <= i < |fetched| ensures !Writes(r, fetched[i]) {
      ReconciledRulesMatch(delegates, fetched, i);
    }
    UpToDateWritesNothing(r, fetched);
  }

  /** With distinct ids, a fetched delegate is written exactly when it was
      missing locally or its rules changed. */
  lemma {:induction false} WrittenExactly(delegates: map<Address, DelegateDoc>, fetched: seq<Delegate>, d: Delegate)
    requires DistinctIds(fetched)
    ensures d in Written(delegates, fetched) <==> d in fetched && Writes(delegates, d)
  {
    if fetched != [] {
      var n := |fetched| - 1;
      var prefix := fetched[..n];
      var last := fetched[n];
      DistinctIdsSplit(fetched);
      WrittenExactly(delegates, prefix, d);
      ReconciledLeavesOthers(delegates, prefix, last.id);
      assert Writes(Reconciled(delegates, prefix), last) == Writes(delegates, last);
      assert fetched == prefix + [last];
    }
  }

  /** Replacing a delegate's record by one with no pool references keeps the
      store consistent. */
  lemma PutDelegateKeepsConsistent(db: Db, d: Delegate)
    requires Consistent(db)
    ensures Consistent(db.(delegates := db.delegates[d.id := DelegateDoc(d, [])]))
  {
    var r := db.(delegates := db.delegates[d.id := DelegateDoc(d, [])]);
    forall a | a in r.delegates ensures DelegateRefsOk(r, a) {
      if a != d.id { assert DelegateRefsOk(db, a); }
    }
    forall x | x in r.rounds ensures RoundRefsOk(r, x) { assert RoundRefsOk(db, x); }
    forall x | x in r.delegators ensures DelegatorRefsOk(r, x) { assert DelegatorRefsOk(db, x); }
  }

  /** The job: each fetched delegate is looked up by id and inserted,
      replaced or left alone; the written snapshots are returned in order. */
  method WorkerCheckDelegateChangeRules(store: Store, fetched: seq<Delegate>) returns (updated: seq<Delegate>)
    requires store.Valid()
    modifies store
    ensures store.Valid()
    ensures store.State() == old(store.State()).(delegates := Reconciled(old(store.delegates), fetched))
    ensures updated == Written(old(store.delegates), fetched)
  {
    ghost var start := store.delegates;
    updated := [];
    var i := 0;
    while i < |fetched|
      invariant 0 <= i <= |fetched|
      invariant store.Valid()
      invariant store.State() == old(store.State()).(delegates := Reconciled(start, fetched[..i]))
      invariant updated == Written(start, fetched[..i])
    {
      var d := fetched[i];
      assert fetched[..i + 1][..i] == fetched[..i];
      if d.id in store.delegates {
        if HasDelegateChangedRules(store.delegates[d.id].info, d) {
          PutDelegateKeepsConsistent(store.State(), d);
          store.delegates := store.delegates[d.id := DelegateDoc(d, [])];
          updated := updated + [d];
        }
      } else {
        PutDelegateKeepsConsistent(store.State(), d);
        store.delegates := store.delegates[d.id := DelegateDoc(d, [])];
        updated := updated + [d];
      }
      i := i + 1;
    }
    assert fetched[..i] == fetched;
  }
}
