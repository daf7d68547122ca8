/** Inputs that meet every other hypothesis of a result about the wallet's own data and fail its
    condition. */
module WalletWitnesses {
  import opened Wrappers
  import opened SlateTypes
  import opened DbSpec
  import opened DbLaws
  import opened ScanLaws
  import opened DestructiveScan
  import opened KeyFreshness
  import opened AccountLabels
  import opened Decimal
  import opened Mixnet

  const ACCOUNT: KeyId := [0, 0]
  const KEY: KeyId := [0, 0, 0]

  /** An output on chain under the default account's first key, at position five. */
  function FirstOutput(kc: Keychain): ChainOut {
    ChainOut(CommitOf(kc, Elem(KEY, Some(5), 10)), KEY, 0, 5, 10, 1, 1, false)
  }

  /** A record under the same key. */
  function RecordOf(kc: Keychain, mmrIndex: Option<nat>, value: nat, status: OutputStatus): OutputData {
    OutputData(ACCOUNT, KEY, 0, Some(CommitOf(kc, Elem(KEY, mmrIndex, value))), mmrIndex, value, status, 1, 1, false,
               None)
  }

  function DbWith(o: OutputData): Db {
    FRESH_DB.(outputs := map[KeyOf(o) := o])
  }

  lemma OneRecordScannable(kc: Keychain, o: OutputData, c: ChainOut)
    requires c.nChild == LastIndex(c.keyId)
    ensures Scannable(kc, DbWith(o), [KeyOf(o)], [c])
  {
  }

  /** A record of another value sits at the key and position of an unknown output: a scan overwrites it. */
  lemma ClashIsNotRepaired(kc: Keychain, order: seq<KeyId>)
    ensures var o, c := RecordOf(kc, Some(5), 9, Unspent), FirstOutput(kc);
      && Scannable(kc, DbWith(o), [KeyOf(o)], [c])
      && !Repaired(kc, DbWith(o), Scan(kc, DbWith(o), [KeyOf(o)], [c], false, order), [c])
  {
    var o, c := RecordOf(kc, Some(5), 9, Unspent), FirstOutput(kc);
    OneRecordScannable(kc, o, c);
    assert c in [c] && !Known(kc, DbWith(o), c) && KeyOfOut(c) in DbWith(o).outputs;
    hide Scan, Scannable, Repaired;
    ScanRepairsIff(kc, DbWith(o), [KeyOf(o)], [c], order);
  }

  /** An unconfirmed record, which has no position yet, of an output on chain is deleted by a scan that
      deletes unconfirmed ones. */
  lemma UnconfirmedOnChainIsDeleted(kc: Keychain, order: seq<KeyId>)
    ensures var o, c := RecordOf(kc, None, 10, Unconfirmed), FirstOutput(kc);
      && Scannable(kc, DbWith(o), [KeyOf(o)], [c]) && NoClash(kc, DbWith(o), [c])
      && HoldsCommit(kc, DbWith(o), KeyOf(o), c.commit)
      && !HoldsCommit(kc, Scan(kc, DbWith(o), [KeyOf(o)], [c], true, order), KeyOf(o), c.commit)
  {
    var o, c := RecordOf(kc, None, 10, Unconfirmed), FirstOutput(kc);
    OneRecordScannable(kc, o, c);
    assert HoldsCommit(kc, DbWith(o), KeyOf(o), c.commit);
    assert Known(kc, DbWith(o), c);
    hide Scan, Scannable;
    RecordSurvivesIff(kc, DbWith(o), [KeyOf(o)], [c], order, c, KeyOf(o));
  }

  /** A new wallet restores its first key and stops before raising the index: that key is stored and is
      also the next one to be issued. */
  lemma CutScanReissues(kc: Keychain)
    ensures var c := FirstOutput(kc);
      && Inv(State(FRESH_DB, [])) && MissingOuts(kc, FRESH_DB, [], [c]) == [c]
      && var cut := RestoreAll(UnspendAll(FRESH_DB, MatchedOuts(kc, FRESH_DB, [], [c], Spent)), [c]);
        KeyOfOut(c) in cut.outputs && NextChild(cut).1 == c.keyId
  {
    var c := FirstOutput(kc);
    OneMissing(kc, FRESH_DB, c);
    assert [c][..0] == [];
    assert MatchedOuts(kc, FRESH_DB, [], [c], Spent) == MatchedOuts(kc, FRESH_DB, [], [], Spent) + [];
    assert RestoreAll(FRESH_DB, [c]) == RestoreOne(RestoreAll(FRESH_DB, []), c);
  }

  lemma OneMissing(kc: Keychain, db: Db, c: ChainOut)
    ensures MissingOuts(kc, db, [], [c]) == [c]
  {
    assert [c][..0] == [];
    assert MissingOuts(kc, db, [], [c]) == MissingOuts(kc, db, [], []) + [c];
  }

  /** A record restored by a scan has a position, and locking it after a swap finds nothing. */
  lemma RestoredRecordIsNotLocked(kc: Keychain)
    ensures var o := RecordOf(kc, Some(5), 10, Unspent);
      && WellKeyed(DbWith(o)) && KeyOf(o) in DbWith(o).outputs
      && OutKey(KEY, None) !in DbWith(o).outputs
  {
    var o := RecordOf(kc, Some(5), 10, Unspent);
    LocksSwappedIff(DbWith(o), KeyOf(o));
  }

  /** A wallet whose user named a second account "account_2", without any records. */
  function TwoAccountsDb(): Db {
    FRESH_DB.(accounts := map["default" := [0, 0], "account_2" := [1, 0]])
  }

  /** A scan that finds an output of a third account gives it that label. */
  lemma TakenLabelIsLost(kc: Keychain, c: ChainOut, delete: bool, order: seq<KeyId>)
    requires c.keyId == [2, 0, 0] && c.nChild == 0
    requires order == [[2, 0]]
    ensures var db := TwoAccountsDb();
      && Scannable(kc, db, [], [c]) && FoundParents(MissingOuts(kc, db, [], [c])) == map[[2, 0] := 0]
      && var after := Scan(kc, db, [], [c], delete, order).accounts;
        "account_2" in after && after["account_2"] == [2, 0] != db.accounts["account_2"]
  {
    var db := TwoAccountsDb();
    TwoAccounts(db.accounts);
    hide Scan, UsedLabels, FoundParents, MissingOuts, Scannable;
    NoRecordsScannable(kc, db, c);
    ThirdAccountFound(kc, db, c);
    ThirdLabel(db.accounts.Values, order);
    ScannedLabels(kc, db, [], [c], delete, order, "account_2");
  }

  lemma NoRecordsScannable(kc: Keychain, db: Db, c: ChainOut)
    requires db.outputs == map[] && db.log == map[] && c.nChild == LastIndex(c.keyId)
    ensures Scannable(kc, db, [], [c])
  {
  }

  lemma ThirdAccountFound(kc: Keychain, db: Db, c: ChainOut)
    requires c.keyId == [2, 0, 0] && c.nChild == 0
    ensures FoundParents(MissingOuts(kc, db, [], [c])) == map[[2, 0] := 0]
  {
    OneMissing(kc, db, c);
    assert [c][..0] == [] && ParentPath(c.keyId) == [2, 0];
    assert FoundParents([c]) == FoundParents([])[[2, 0] := 0];
  }

  lemma ThirdLabel(known: set<KeyId>, order: seq<KeyId>)
    requires known == {[0, 0], [1, 0]} && order == [[2, 0]]
    ensures "account_2" in UsedLabels(known, 2, order)
  {
    assert Dec(2) == "2" && Label(2) == "account_2";
    assert [2, 0] !in known;
    assert UsedLabels(known, 2, order) == {Label(2)} + UsedLabels(known, 3, order[1..]);
  }

  lemma TwoAccounts(accounts: map<string, KeyId>)
    requires accounts == map["default" := [0, 0], "account_2" := [1, 0]]
    ensures |accounts| == 2 && accounts.Values == {[0, 0], [1, 0]}
  {
    assert "default" != "account_2" by { assert |"default"| != |"account_2"|; }
    assert accounts.Keys == {"default", "account_2"};
    assert accounts["default"] in accounts.Values && accounts["account_2"] in accounts.Values;
    forall p | p in accounts.Values ensures p in {[0, 0], [1, 0]} {
      var l :| l in accounts && accounts[l] == p;
    }
  }
}
