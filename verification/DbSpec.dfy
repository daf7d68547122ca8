/** The wallet database and what each operation on it computes (libwallet/src/backend.rs,
    libwallet/src/internal/scan.rs, libwallet/src/internal/keys.rs). */
module DbSpec {
  import opened Wrappers
  import opened SlateTypes
  import opened Decimal

  datatype OutputStatus = Unconfirmed | Unspent | Locked | Spent | Reverted

  datatype TxType =
    ConfirmedCoinbase | TxReceived | TxSent | TxReceivedCancelled | TxSentCancelled | TxReverted

  datatype OutputData = OutputData(
    rootKeyId: KeyId,
    keyId: KeyId,
    nChild: nat,
    commit: Option<Commit>,
    mmrIndex: Option<nat>,
    value: nat,
    status: OutputStatus,
    height: nat,
    lockHeight: nat,
    isCoinbase: bool,
    txLogEntry: Option<nat>)

  datatype LogEntry = LogEntry(
    parent: KeyId,
    id: nat,
    txType: TxType,
    confirmed: bool,
    credited: nat,
    debited: nat,
    numOutputs: nat)

  /** The keys records are stored under; see `StoreKeys` for their bytes. */
  datatype OutKey = OutKey(id: KeyId, mmrIndex: Option<nat>)
  datatype LogKey = LogKey(parent: KeyId, id: nat)

  datatype Db = Db(
    outputs: map<OutKey, OutputData>,
    log: map<LogKey, LogEntry>,
    logIds: map<KeyId, nat>,
    childIndex: map<KeyId, nat>,
    accounts: map<string, KeyId>,
    parent: KeyId)

  /** An output of this wallet found on chain. */
  datatype ChainOut = ChainOut(
    commit: Commit,
    keyId: KeyId,
    nChild: nat,
    mmrIndex: nat,
    value: nat,
    height: nat,
    lockHeight: nat,
    isCoinbase: bool)

  // ---------- Keys ----------

  function ParentPath(k: KeyId): KeyId {
    if k == [] then [] else k[..|k| - 1]
  }

  function LastIndex(k: KeyId): nat {
    if k == [] then 0 else k[|k| - 1]
  }

  function KeyOf(o: OutputData): OutKey { OutKey(o.keyId, o.mmrIndex) }
  function KeyOfOut(c: ChainOut): OutKey { OutKey(c.keyId, Some(c.mmrIndex)) }

  function Get(m: map<KeyId, nat>, k: KeyId): nat {
    if k in m then m[k] else 0
  }

  /** The stored commitment, or the one the keychain derives. */
  function CommitOfRecord(kc: Keychain, o: OutputData): Commit {
    if o.commit.Some? then o.commit.value else CommitOf(kc, Elem(o.keyId, o.mmrIndex, o.value))
  }

  // ---------- Issuing keys and log ids ----------

  /** The next child of the current account, and the database with its index moved on. */
  function NextChild(db: Db): (Db, KeyId) {
    var n := Get(db.childIndex, db.parent);
    (db.(childIndex := db.childIndex[db.parent := n + 1]), db.parent + [n])
  }

  function NextLogId(db: Db, parent: KeyId): (Db, nat) {
    var n := Get(db.logIds, parent);
    (db.(logIds := db.logIds[parent := n + 1]), n)
  }

  function SaveLog(db: Db, parent: KeyId, e: LogEntry): Db {
    db.(log := db.log[LogKey(parent, e.id) := e])
  }

  function Save(db: Db, o: OutputData): Db {
    db.(outputs := db.outputs[KeyOf(o) := o])
  }

  // ---------- Accounts ----------

  /** A path whose first component is the highest among the given paths, if any has one. */
  predicate IsHighest(paths: set<KeyId>, highest: Option<KeyId>) {
    match highest
    case None => forall p | p in paths :: p == []
    case Some(path) => path in paths && path != [] && forall p | p in paths :: p == [] || p[0] <= path[0]
  }

  function NewAccount(db: Db, name: string, highest: Option<KeyId>): Result<Db, Error> {
    if name in db.accounts then Err(Backend)
    else
      var path := if highest.Some? && highest.value != [] then highest.value[0 := highest.value[0] + 1] else [0, 0];
      Ok(db.(accounts := db.accounts[name := path]))
  }

  // ---------- Scanning ----------

  /** The first listed record with the commitment of `c`. */
  function Find(kc: Keychain, db: Db, listing: seq<OutKey>, c: ChainOut): Option<OutKey> {
    if listing == [] then None
    else if listing[0] in db.outputs && CommitOfRecord(kc, db.outputs[listing[0]]) == c.commit then Some(listing[0])
    else Find(kc, db, listing[1..], c)
  }

  function MissingOuts(kc: Keychain, db: Db, listing: seq<OutKey>, cs: seq<ChainOut>): seq<ChainOut> {
    if cs == [] then []
    else
      var n := |cs| - 1;
      MissingOuts(kc, db, listing, cs[..n]) + if Find(kc, db, listing, cs[n]) == None then [cs[n]] else []
  }

  function HasStatus(kc: Keychain, db: Db, listing: seq<OutKey>, c: ChainOut, status: OutputStatus): bool {
    var k := Find(kc, db, listing, c);
    k.Some? && k.value in db.outputs && db.outputs[k.value].status == status
  }

  /** The matched records in a given status, in the order of the chain. */
  function MatchedOuts(kc: Keychain, db: Db, listing: seq<OutKey>, cs: seq<ChainOut>,
                       status: OutputStatus): seq<OutputData> {
    if cs == [] then []
    else
      var n := |cs| - 1;
      MatchedOuts(kc, db, listing, cs[..n], status)
      + if HasStatus(kc, db, listing, cs[n], status) then [db.outputs[Find(kc, db, listing, cs[n]).value]] else []
  }

  function Cancelled(t: TxType): TxType {
    match t
    case TxSent => TxSentCancelled
    case TxReceived => TxReceivedCancelled
    case _ => t
  }

  function CancelLog(db: Db, o: OutputData): Db {
    var parent := ParentPath(o.keyId);
    if o.txLogEntry.Some? && LogKey(parent, o.txLogEntry.value) in db.log then
      var e := db.log[LogKey(parent, o.txLogEntry.value)];
      db.(log := db.log[LogKey(parent, o.txLogEntry.value) := e.(txType := Cancelled(e.txType))])
    else db
  }

  /** A record that turned out to be in the UTXO set becomes unspent, its transaction cancelled. */
  function Unspend(db: Db, o: OutputData): Db {
    Save(CancelLog(db, o), o.(status := Unspent))
  }

  function UnspendAll(db: Db, os: seq<OutputData>): Db {
    if os == [] then db else Unspend(UnspendAll(db, os[..|os| - 1]), os[|os| - 1])
  }

  function RestoredEntry(c: ChainOut, id: nat): LogEntry {
    LogEntry(ParentPath(c.keyId), id, if c.isCoinbase then ConfirmedCoinbase else TxReceived, true, c.value, 0, 1)
  }

  function RestoredOutput(c: ChainOut, id: nat): OutputData {
    OutputData(ParentPath(c.keyId), c.keyId, c.nChild, Some(c.commit), Some(c.mmrIndex), c.value, Unspent, c.height,
               c.lockHeight, c.isCoinbase, Some(id))
  }

  /** A missing output gets a log entry of its own and a record pointing to it. */
  function RestoreOne(db: Db, c: ChainOut): Db {
    var parent := ParentPath(c.keyId);
    var (db1, id) := NextLogId(db, parent);
    Save(SaveLog(db1, parent, RestoredEntry(c, id)), RestoredOutput(c, id))
  }

  function RestoreAll(db: Db, cs: seq<ChainOut>): Db {
    if cs == [] then db else RestoreOne(RestoreAll(db, cs[..|cs| - 1]), cs[|cs| - 1])
  }

  /** The largest child number restored under each parent. */
  function FoundParents(cs: seq<ChainOut>): map<KeyId, nat> {
    if cs == [] then map[]
    else
      var found, c := FoundParents(cs[..|cs| - 1]), cs[|cs| - 1];
      var p := ParentPath(c.keyId);
      if c.nChild >= Get(found, p) then found[p := c.nChild] else found
  }

  function Delete(db: Db, o: OutputData): Db {
    var db1 := CancelLog(db, o);
    db1.(outputs := db1.outputs - {KeyOf(o)})
  }

  function DeleteAll(db: Db, os: seq<OutputData>): Db {
    if os == [] then db else Delete(DeleteAll(db, os[..|os| - 1]), os[|os| - 1])
  }

  function UnconfirmedOuts(db: Db, listing: seq<OutKey>): seq<OutputData> {
    if listing == [] then []
    else
      var k := listing[|listing| - 1];
      UnconfirmedOuts(db, listing[..|listing| - 1])
      + if k in db.outputs && db.outputs[k].status == Unconfirmed then [db.outputs[k]] else []
  }

  function Label(index: nat): string { "account_" + Dec(index) }

  /** Registers a found path that no account has under a numbered label, and raises its child
      index past what was found. `known` are the account paths before the loop. */
  function RaiseOne(db: Db, known: set<KeyId>, index: nat, found: map<KeyId, nat>, p: KeyId): Db {
    var db1 := if p in known then db else db.(accounts := db.accounts[Label(index) := p]);
    if p in found && found[p] >= Get(db1.childIndex, p) then db1.(childIndex := db1.childIndex[p := found[p] + 1])
        else db1
  }

  function RaiseAll(db: Db, known: set<KeyId>, index: nat, found: map<KeyId, nat>, order: seq<KeyId>): Db
    decreases |order|
  {
    if order == [] then db
    else
      RaiseAll(RaiseOne(db, known, index, found, order[0]), known, if order[0] in known then index else index + 1,
               found, order[1..])
  }

  /** One call of `scan` over the outputs found on chain. `listing` is the order in which records
      are looked through, `order` the order in which found parents are visited. */
  function Scan(kc: Keychain, db: Db, listing: seq<OutKey>, cs: seq<ChainOut>, delete: bool, order: seq<KeyId>): Db {
    var missing := MissingOuts(kc, db, listing, cs);
    var db1 := RestoreAll(UnspendAll(db, MatchedOuts(kc, db, listing, cs, Spent)), missing);
    var db2 := if delete
               then DeleteAll(UnspendAll(db1, MatchedOuts(kc, db, listing, cs, Locked)), UnconfirmedOuts(db, listing))
               else db1;
    RaiseAll(db2, db2.accounts.Values, |db2.accounts|, FoundParents(missing), order)
  }
}
