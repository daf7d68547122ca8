/** The scan that also unlocks and deletes (`delete_unconfirmed`). */
module DestructiveScan {
  import opened Wrappers
  import opened SlateTypes
  import opened DbSpec
  import opened DbLaws
  import opened ScanLaws

  ghost predicate OnChain(kc: Keychain, db: Db, cs: seq<ChainOut>, k: OutKey) {
    exists c :: c in cs && HoldsCommit(kc, db, k, c.commit)
  }

  lemma DeleteStep(db: Db, o: OutputData)
    ensures Delete(db, o).outputs == db.outputs - {KeyOf(o)}
    ensures Delete(db, o).log.Keys == db.log.Keys
  {
    hide SameLogUpToType;
    CancelStep(db, o);
    assert Delete(db, o).log.Keys == db.log.Keys by { CancelKeys(db, o); }
  }

  lemma CancelKeys(db: Db, o: OutputData)
    ensures CancelLog(db, o).log.Keys == db.log.Keys
  {
    CancelStep(db, o);
  }

  lemma {:induction false} DeleteLaw(db: Db, os: seq<OutputData>)
    ensures forall k :: k in DeleteAll(db, os).outputs <==> k in db.outputs && !Touches(os, k)
    ensures forall k :: k in DeleteAll(db, os).outputs ==> DeleteAll(db, os).outputs[k] == db.outputs[k]
  {
    hide Delete, Touches;
    if os == [] {
      forall k ensures !Touches(os, k) { NothingTouched(k); }
    } else {
      var n := |os| - 1;
      DeleteLaw(db, os[..n]);
      DeleteStep(DeleteAll(db, os[..n]), os[n]);
      assert os == os[..n] + [os[n]];
      forall k ensures Touches(os, k) <==> Touches(os[..n], k) || k == KeyOf(os[n]) {
        TouchesSnoc(os[..n], os[n], k);
      }
    }
  }

  lemma {:induction false} UnconfirmedLaw(db: Db, listing: seq<OutKey>, k: OutKey)
    requires WellKeyed(db)
    ensures Touches(UnconfirmedOuts(db, listing), k) <==>
            k in listing && k in db.outputs && db.outputs[k].status == Unconfirmed
  {
    if listing == [] {
      NothingTouched(k);
    } else {
      var n := |listing| - 1;
      UnconfirmedLaw(db, listing[..n], k);
      assert listing == listing[..n] + [listing[n]];
      var rest, j := UnconfirmedOuts(db, listing[..n]), listing[n];
      if j in db.outputs && db.outputs[j].status == Unconfirmed {
        TouchesSnoc(rest, db.outputs[j], k);
      } else {
        assert rest + [] == rest;
      }
    }
  }

  /** The matched locked records, as the database still has them after restoring. */
  lemma LockedOnes(kc: Keychain, db: Db, listing: seq<OutKey>, cs: seq<ChainOut>)
    requires Scannable(kc, db, listing, cs)
    ensures var locked := MatchedOuts(kc, db, listing, cs, Locked);
      && Current(db, locked)
      && (forall k | k in db.outputs :: Touches(locked, k) <==>
          db.outputs[k].status == Locked && OnChain(kc, db, cs, k))
  {
    hide UtxoSet, MatchedOuts;
    var locked := MatchedOuts(kc, db, listing, cs, Locked);
    forall i | 0 <= i < |locked|
      ensures KeyOf(locked[i]) in db.outputs && db.outputs[KeyOf(locked[i])] == locked[i]
      ensures locked[i].status == Locked && OnChain(kc, db, cs, KeyOf(locked[i]))
    {
      MatchedLaw(kc, db, listing, cs, Locked, locked[i]);
      var c :| c in cs && Find(kc, db, listing, c) == Some(KeyOf(locked[i]));
      FindSound(kc, db, listing, c);
    }
    forall k | k in db.outputs && db.outputs[k].status == Locked && OnChain(kc, db, cs, k) ensures Touches(locked, k) {
      var c :| c in cs && HoldsCommit(kc, db, k, c.commit);
      FindIff(kc, db, listing, c);
      MatchedComplete(kc, db, listing, cs, Locked, c);
      var i :| 0 <= i < |locked| && locked[i] == db.outputs[k];
      assert KeyOf(locked[i]) == k;
    }
  }

  lemma NothingRestoredOver(kc: Keychain, db: Db, listing: seq<OutKey>, cs: seq<ChainOut>)
    requires Scannable(kc, db, listing, cs) && NoClash(kc, db, cs)
    ensures forall k | k in db.outputs :: !RestoresKey(MissingOuts(kc, db, listing, cs), k)
  {
    forall k | k in db.outputs ensures !RestoresKey(MissingOuts(kc, db, listing, cs), k) {
      if RestoresKey(MissingOuts(kc, db, listing, cs), k) {
        RestoredClashes(kc, db, listing, cs, k);
      }
    }
  }

  /** What becomes of each record the wallet had: unconfirmed ones go, spent and locked ones that
      are on chain become unspent, all others stay as they are. */
  lemma DestructiveOutcome(kc: Keychain, db: Db, listing: seq<OutKey>, cs: seq<ChainOut>, order: seq<KeyId>, k: OutKey)
    requires Scannable(kc, db, listing, cs) && NoClash(kc, db, cs) && k in db.outputs
    ensures var after := Scan(kc, db, listing, cs, true, order);
      && (k in after.outputs <==> db.outputs[k].status != Unconfirmed)
      && (k in after.outputs ==>
            after.outputs[k] == if db.outputs[k].status in {Spent, Locked} && OnChain(kc, db, cs, k)
                                then db.outputs[k].(status := Unspent) else db.outputs[k])
  {
    hide RestoreAll, UnspendAll, DeleteAll, RaiseAll, FoundParents, UtxoSet, RestoredBy, UnconfirmedOuts, NoClash;
    var missing, locked, gone := MissingOuts(kc, db, listing, cs), MatchedOuts(kc, db, listing, cs, Locked),
        UnconfirmedOuts(db, listing);
    var db1 := RestoreAll(UnspendAll(db, MatchedOuts(kc, db, listing, cs, Spent)), missing);
    var db2 := UnspendAll(db1, locked);
    var db3 := DeleteAll(db2, gone);
    ScanOutputs(kc, db, listing, cs, order);
    RaiseLaw(db1, db1.accounts.Values, |db1.accounts|, FoundParents(missing), order);
    RaiseLaw(db3, db3.accounts.Values, |db3.accounts|, FoundParents(missing), order);
    LockedOnes(kc, db, listing, cs);
    NothingRestoredOver(kc, db, listing, cs);
    StillCurrent(kc, db, db1, cs, locked);
    UnspendLaw(db1, locked);
    DeleteLaw(db2, gone);
    UnconfirmedLaw(db, listing, k);
  }

  lemma StillCurrent(kc: Keychain, db: Db, db1: Db, cs: seq<ChainOut>, locked: seq<OutputData>)
    requires Current(db, locked)
    requires forall k | k in db.outputs :: Touches(locked, k) ==> db.outputs[k].status == Locked
    requires forall k | k in db.outputs && db.outputs[k].status == Locked ::
             k in db1.outputs && db1.outputs[k] == db.outputs[k]
    ensures Current(db1, locked)
  {
    forall i | 0 <= i < |locked| ensures KeyOf(locked[i]) in db1.outputs && db1.outputs[KeyOf(locked[i])] == locked[i] {
      assert Touches(locked, KeyOf(locked[i]));
    }
  }

  /** No record of an output on chain stays spent or locked; but one that was still unconfirmed
      is deleted although its output is on chain, and only such a one. */
  lemma RecordSurvivesIff(kc: Keychain, db: Db, listing: seq<OutKey>, cs: seq<ChainOut>, order: seq<KeyId>,
                          c: ChainOut, k: OutKey)
    requires Scannable(kc, db, listing, cs) && NoClash(kc, db, cs)
    requires c in cs && HoldsCommit(kc, db, k, c.commit)
    ensures var after := Scan(kc, db, listing, cs, true, order);
      && (HoldsCommit(kc, after, k, c.commit) <==> db.outputs[k].status != Unconfirmed)
      && (k in after.outputs ==> after.outputs[k].status !in {Spent, Locked})
  {
    hide Scan, Scannable, NoClash;
    assert OnChain(kc, db, cs, k);
    DestructiveOutcome(kc, db, listing, cs, order, k);
  }
}
