/** The labels a scan registers found accounts under (libwallet/src/internal/scan.rs,
    libwallet/src/internal/keys.rs): a label that is taken is simply overwritten. */
module AccountLabels {
  import opened SlateTypes
  import opened Decimal
  import opened DbSpec

  /** The numbered labels used for the found parents that no account has. */
  function UsedLabels(known: set<KeyId>, index: nat, order: seq<KeyId>): set<string>
    decreases |order|
  {
    if order == [] then {}
    else if order[0] in known then UsedLabels(known, index, order[1..])
    else {Label(index)} + UsedLabels(known, index + 1, order[1..])
  }

  lemma LabelsDiffer(i: nat, j: nat)
    ensures Label(i) == Label(j) <==> i == j
  {
    var p := "account_";
    if Label(i) == Label(j) {
      assert Label(i)[|p|..] == Dec(i) && Label(j)[|p|..] == Dec(j);
      DecInjective(i, j);
    }
  }

  lemma {:induction false} UsedFrom(known: set<KeyId>, index: nat, order: seq<KeyId>, l: string)
    requires l in UsedLabels(known, index, order)
    ensures exists i: nat :: i >= index && l == Label(i)
    decreases |order|
  {
    if order[0] in known {
      UsedFrom(known, index, order[1..], l);
    } else if l != Label(index) {
      UsedFrom(known, index + 1, order[1..], l);
    }
  }

  lemma LowerLabelUnused(known: set<KeyId>, index: nat, order: seq<KeyId>, i: nat)
    requires i < index
    ensures Label(i) !in UsedLabels(known, index, order)
  {
    if Label(i) in UsedLabels(known, index, order) {
      UsedFrom(known, index, order, Label(i));
      var j: nat :| j >= index && Label(i) == Label(j);
      LabelsDiffer(i, j);
    }
  }

  /** After the accounts have been registered a used label stands for a newly found parent, any other for
      what it stood for before. */
  lemma {:induction false} RaisedLabels(db: Db, known: set<KeyId>, index: nat, found: map<KeyId, nat>,
                                        order: seq<KeyId>, l: string)
    ensures var after := RaiseAll(db, known, index, found, order).accounts;
      if l in UsedLabels(known, index, order) then l in after && after[l] in order && after[l] !in known
      else (l in after <==> l in db.accounts) && (l in after ==> after[l] == db.accounts[l])
    decreases |order|
  {
    if order != [] {
      var p, rest := order[0], order[1..];
      var next := RaiseOne(db, known, index, found, p);
      RaisedLabels(next, known, if p in known then index else index + 1, found, rest, l);
      assert forall q :: q in rest ==> q in order;
      if p !in known && l == Label(index) { LowerLabelUnused(known, index + 1, rest, index); }
    }
  }

  /** The same for a whole scan in either mode. */
  lemma ScannedLabels(kc: Keychain, db: Db, listing: seq<OutKey>, cs: seq<ChainOut>, delete: bool, order: seq<KeyId>,
                      l: string)
    ensures var after, known := Scan(kc, db, listing, cs, delete, order).accounts, db.accounts.Values;
      if l in UsedLabels(known, |db.accounts|, order) then l in after && after[l] in order && after[l] !in known
      else (l in after <==> l in db.accounts) && (l in after ==> after[l] == db.accounts[l])
  {
    hide MissingOuts, MatchedOuts, UnconfirmedOuts;
    var missing := MissingOuts(kc, db, listing, cs);
    var db1 := UnspendAll(db, MatchedOuts(kc, db, listing, cs, Spent));
    var db2 := RestoreAll(db1, missing);
    AccountsUntouched(db, MatchedOuts(kc, db, listing, cs, Spent));
    RestoringKeepsAccounts(db1, missing);
    var db3 := UnspendAll(db2, MatchedOuts(kc, db, listing, cs, Locked));
    AccountsUntouched(db2, MatchedOuts(kc, db, listing, cs, Locked));
    DeletingKeepsAccounts(db3, UnconfirmedOuts(db, listing));
    var before := if delete then DeleteAll(db3, UnconfirmedOuts(db, listing)) else db2;
    hide UnspendAll, RestoreAll, DeleteAll, RaiseAll, UsedLabels, FoundParents;
    RaisedLabels(before, before.accounts.Values, |before.accounts|, FoundParents(missing), order, l);
  }

  /** Every registered label keeps its path over a scan if and only if none of the numbered labels the
      scan uses is taken. */
  lemma ScanKeepsLabelsIff(kc: Keychain, db: Db, listing: seq<OutKey>, cs: seq<ChainOut>, delete: bool,
                           order: seq<KeyId>)
    ensures var after := Scan(kc, db, listing, cs, delete, order);
      (forall l :: l in db.accounts ==> l in after.accounts && after.accounts[l] == db.accounts[l])
      <==> UsedLabels(db.accounts.Values, |db.accounts|, order) !! db.accounts.Keys
  {
    hide Scan, UsedLabels;
    var after, used := Scan(kc, db, listing, cs, delete, order), UsedLabels(db.accounts.Values, |db.accounts|, order);
    forall l | l in db.accounts
      ensures l in after.accounts && (after.accounts[l] == db.accounts[l] <==> l !in used)
    {
      ScannedLabels(kc, db, listing, cs, delete, order, l);
      assert db.accounts[l] in db.accounts.Values;
    }
  }

  lemma {:induction false} AccountsUntouched(db: Db, os: seq<OutputData>)
    ensures UnspendAll(db, os).accounts == db.accounts
  {
    if os != [] { AccountsUntouched(db, os[..|os| - 1]); }
  }

  lemma {:induction false} RestoringKeepsAccounts(db: Db, cs: seq<ChainOut>)
    ensures RestoreAll(db, cs).accounts == db.accounts
  {
    if cs != [] { RestoringKeepsAccounts(db, cs[..|cs| - 1]); }
  }

  lemma {:induction false} DeletingKeepsAccounts(db: Db, os: seq<OutputData>)
    ensures DeleteAll(db, os).accounts == db.accounts
  {
    if os != [] { DeletingKeepsAccounts(db, os[..|os| - 1]); }
  }
}
