/** What each wallet call of the slate exchange computes (libwallet/src/api_impl/foreign.rs,
    owner.rs and internal/tx.rs), as functions from a wallet and a slate to a wallet and a result.

    A step returns the wallet also when it fails: what was committed before the failure stays. */
module ExchangeSpec {
  import opened Wrappers
  import opened Scalars
  import opened SlateTypes
  import opened SlateSpec

  /** The part of a wallet the exchange reads and writes: its keys, the key ids it has output
      records for (with their coinbase flag), the stored contexts, and for which slates its log
      holds a received, sent or cancelled entry. */
  datatype WalletV = WalletV(
    kc: Keychain,
    records: map<KeyId, bool>,
    contexts: map<SlateId, Context>,
    received: set<SlateId>,
    sent: set<SlateId>,
    sentCancelled: set<SlateId>,
    confirmedHeight: nat)

  datatype Step = Step(w: WalletV, r: Result<SlateV, Error>)

  /** A freshly drawn secret key and nonce. */
  datatype Keys = Keys(key: Scalar, nonce: Scalar)

  /** The outcome of coin selection: coins to spend, change outputs, and the fee. */
  datatype Selection = Selection(inputs: seq<Elem>, change: seq<Elem>, fee: nat)

  /** Where an attempt to finalise is cut short by a failing write. */
  datatype Fault = NoFault | AtSaveContext | AtLock | AtStoreTx | AtUpdateStored | AtDelete | AtStateUpdate | AtPost

  // ---------- Building blocks ----------

  function BlankSlate(id: SlateId, invoice: bool, amount: nat, ttl: nat, version: VersionInfo): SlateV {
    SlateV(version, 2, id, if invoice then Invoice1 else Standard1, Some(EMPTY_TX), amount, 0, ttl, 0, 0, [],
           None, None)
  }

  function NewContext(keys: Keys): Context {
    Context(keys.key, keys.nonce, keys.key, keys.nonce, [], [], 0, None, false, None)
  }

  function OutputOf(kc: Keychain, e: Elem): Output {
    Output(false, CommitOf(kc, e), (kc.prove)(CommitOf(kc, e)))
  }

  function AllOutputs(kc: Keychain, es: seq<Elem>): set<Output> {
    set e | e in es :: OutputOf(kc, e)
  }

  function InputOf(w: WalletV, e: Elem): Input {
    Input(e.id in w.records && w.records[e.id], CommitOf(w.kc, e))
  }

  /** The elements that have a record; the others are silently skipped. */
  function Found(w: WalletV, es: seq<Elem>): seq<Elem> {
    if es == [] then [] else (if es[0].id in w.records then [es[0]] else []) + Found(w, es[1..])
  }

  function InputsOf(w: WalletV, es: seq<Elem>): set<Input> {
    set e | e in Found(w, es) :: InputOf(w, e)
  }

  function OutputsOf(w: WalletV, es: seq<Elem>): set<Output> {
    AllOutputs(w.kc, Found(w, es))
  }

  function FillRound1(s: SlateV, ctx: Context): SlateV {
    s.(participants := WithParticipant(s.participants, ctx.secKey, ctx.secNonce, None))
  }

  predicate Expired(w: WalletV, s: SlateV) {
    s.ttl != 0 && w.confirmedHeight >= s.ttl
  }

  function SaveContext(w: WalletV, id: SlateId, ctx: Context): WalletV {
    w.(contexts := w.contexts[id := ctx])
  }

  /** Selects coins, puts the fee and the change into the slate, and opens a context. The
      inputs stay out of the slate until `Repopulate`. */
  function BuildSend(rules: Rules, kc: Keychain, s: SlateV, sel: Option<Selection>, keys: Keys,
                     amountIncludesFee: bool, fixedFee: Option<nat>): Result<(SlateV, Context), Error>
  {
    if sel == None then Err(Error.Selection)
    else
      var fee := sel.value.fee;
      if amountIncludesFee && s.amount < fee then Err(Error.Selection)
      else if fixedFee.Some? && fixedFee.value != fee then Err(FeeDispute)
      else
        var s1 := s.(amount := if amountIncludesFee then s.amount - fee else s.amount, fee := fee);
        match AddElements(rules, s1, {}, AllOutputs(kc, sel.value.change))
        case Err(e) => Err(e)
        case Ok(s2) =>
          var ctx := NewContext(keys);
          Ok((s2, ctx.(fee := Some(fee), amount := s1.amount, inputIds := sel.value.inputs,
                       outputIds := sel.value.change)))
  }

  /** Puts a context's elements and keys back into a slate. */
  function Repopulate(rules: Rules, w: WalletV, s: SlateV, ctx: Context, updateFee: bool): Result<SlateV, Error> {
    if updateFee && ctx.fee == None then Err(MissingFee)
    else
      var s1 := s.(amount := ctx.amount, fee := if updateFee then ctx.fee.value else s.fee);
      match AddElements(rules, FillRound1(s1, ctx), InputsOf(w, ctx.inputIds), OutputsOf(w, ctx.outputIds))
      case Err(e) => Err(e)
      case Ok(s2) => Ok(s2.(tx := Some(s2.tx.value.(offset := s2.offset))))
  }

  /** The keys to complete with: the initiator's when two contexts were merged. */
  function CompletingKeys(ctx: Context): Keys {
    if ctx.initialSecKey != ctx.secKey && ctx.initialSecNonce != ctx.secNonce
    then Keys(ctx.initialSecKey, ctx.initialSecNonce)
    else Keys(ctx.secKey, ctx.secNonce)
  }

  ghost function CompleteTx(rules: Rules, s: SlateV, ctx: Context): Result<SlateV, Error> {
    match FillRound2(rules, s, CompletingKeys(ctx).key, CompletingKeys(ctx).nonce)
    case Err(e) => Err(e)
    case Ok(s1) => Finalize(rules, s1)
  }

  function Ids(es: seq<Elem>): set<KeyId> {
    set e | e in es :: e.id
  }

  predicate HasAll(w: WalletV, es: seq<Elem>) {
    forall e | e in es :: e.id in w.records
  }

  /** Records the change outputs and the log entry of a sent transaction; fails as a whole when
      an input has no record. */
  function LockContext(w: WalletV, id: SlateId, ctx: Context): Result<WalletV, Error> {
    if !HasAll(w, ctx.inputIds) then Err(OutputNotFound)
    else Ok(w.(records := w.records + (map k | k in Ids(ctx.outputIds) :: false), sent := w.sent + {id}))
  }

  function LockOutputs(rules: Rules, w: WalletV, s: SlateV): Result<WalletV, Error> {
    if s.id !in w.contexts then Err(ContextNotFound)
    else
      var ctx := w.contexts[s.id];
      if s.tx == None then
        match Repopulate(rules, w, s.(tx := Some(EMPTY_TX)), ctx, true)
        case Err(e) => Err(e)
        case Ok(_) => LockContext(w, s.id, ctx)
      else LockContext(w, s.id, ctx)
  }

  /** The keys of one round: the participant's entry, and its share when it is the responder. */
  function FillRounds(rules: Rules, s: SlateV, ctx: Context, isInitiator: bool): Result<SlateV, Error> {
    if isInitiator then Ok(FillRound1(s, ctx))
    else FillRound2(rules, FillRound1(s, ctx), ctx.secKey, ctx.secNonce)
  }

  /** Becoming the sender: selected change, keys, and a share when responding. */
  function AddInputs(rules: Rules, kc: Keychain, s: SlateV, sel: Option<Selection>, keys: Keys,
                     isInitiator: bool, amountIncludesFee: bool): Result<(SlateV, Context), Error>
  {
    match BuildSend(rules, kc, s, sel, keys, amountIncludesFee, None)
    case Err(e) => Err(e)
    case Ok((s1, ctx)) =>
      match FillRounds(rules, s1, ctx, isInitiator)
      case Err(e) => Err(e)
      case Ok(s2) => Ok((s2, ctx))
  }

  /** The context of a wallet that adds one output of the slate's amount. */
  function RecipientContext(s: SlateV, keys: Keys, outId: KeyId): Context {
    NewContext(keys).(outputIds := [Elem(outId, None, s.amount)], amount := s.amount,
                      fee := if s.fee == 0 then None else Some(s.fee))
  }

  function AddRecipient(w: WalletV, id: SlateId, outId: KeyId): WalletV {
    w.(records := w.records[outId := false], received := w.received + {id})
  }

  /** Becoming the recipient: the output is recorded before the keys and the share are added. */
  function AddOutput(rules: Rules, w: WalletV, s: SlateV, keys: Keys, outId: KeyId, isInitiator: bool)
    : (WalletV, Result<(SlateV, Context), Error>)
  {
    var ctx := RecipientContext(s, keys, outId);
    match AddElements(rules, s, {}, AllOutputs(w.kc, ctx.outputIds))
    case Err(e) => (w, Err(e))
    case Ok(s1) =>
      match FillRounds(rules, s1, ctx, isInitiator)
      case Err(e) => (AddRecipient(w, s.id, outId), Err(e))
      case Ok(s2) => (AddRecipient(w, s.id, outId), Ok((s2, ctx)))
  }

  /** What a responder sends back: its own entry only, and a new state. */
  function Return(s: SlateV, ctx: Context, state: SlateState): SlateV {
    s.(amount := 0, state := state, participants := Own(s.participants, ctx.secKey, ctx.secNonce))
  }

  // ---------- Standard flow ----------

  /** The sender opens a transaction. */
  function InitSend(rules: Rules, w: WalletV, s: SlateV, sel: Option<Selection>, keys: Keys,
                    amountIncludesFee: bool): Step
  {
    match AddInputs(rules, w.kc, s, sel, keys, true, amountIncludesFee)
    case Err(e) => Step(w, Err(e))
    case Ok((s1, ctx)) => Step(SaveContext(w, s.id, ctx), Ok(s1.(tx := None)))
  }

  /** The sender opens a transaction without choosing inputs yet; only the fee is fixed. */
  function InitSendLate(w: WalletV, s: SlateV, fee: nat, keys: Keys): Step {
    var s1 := s.(fee := fee);
    var ctx := NewContext(keys).(fee := Some(fee), amount := s1.amount, lateLock := true);
    Step(SaveContext(w, s.id, ctx), Ok(FillRound1(s1, ctx).(tx := None)))
  }

  /** The recipient adds its output and signature share and returns only its own data. */
  function Receive(rules: Rules, w: WalletV, s: SlateV, keys: Keys, outId: KeyId): Step {
    if Expired(w, s) then Step(w, Err(TransactionExpired))
    else if s.id in w.received then Step(w, Err(AlreadyReceived))
    else
      match AddOutput(rules, w, s.(tx := Some(EMPTY_TX)), keys, outId, false)
      case (w1, Err(e)) => Step(w1, Err(e))
      case (w1, Ok((s1, ctx))) =>
        Step(w1, Ok(Return(AdjustOffset(w.kc, s1, ctx), ctx, Standard2).(fee := 0)))
  }

  // ---------- Invoice flow ----------

  /** The recipient opens a transaction by asking for an amount. */
  function IssueInvoice(rules: Rules, w: WalletV, s: SlateV, keys: Keys, outId: KeyId): Step {
    match AddOutput(rules, w, s, keys, outId, true)
    case (w1, Err(e)) => Step(w1, Err(e))
    case (w1, Ok((s1, ctx))) => Step(SaveContext(w1, s.id, ctx), Ok(s1.(tx := None)))
  }

  /** The context of a payer that finds its own invoice context: the issuer's keys, fee, amount
      and elements are merged in. */
  function MergeContexts(payer: Context, issuer: Context): Context {
    payer.(initialSecKey := issuer.initialSecKey, initialSecNonce := issuer.initialSecNonce,
           fee := issuer.fee, amount := issuer.amount,
           outputIds := payer.outputIds + issuer.outputIds, inputIds := payer.inputIds + issuer.inputIds)
  }

  /** The payer's side of the offset. When it pays its own invoice, inputs and outputs are left
      to the finalisation. */
  function PayerOffset(kc: Keychain, s: SlateV, ctx: Context, stored: Option<Context>): SlateV {
    AdjustOffset(kc, s, if stored.Some? then ctx.(inputIds := [], outputIds := []) else ctx)
  }

  function PayerContext(ctx: Context, excess: Scalar, stored: Option<Context>): Context {
    var ctx1 := ctx.(calculatedExcess := Some(excess));
    if stored.Some? then MergeContexts(ctx1, stored.value) else ctx1
  }

  /** The payer adds inputs, change and its signature share to an invoice. */
  function ProcessInvoice(rules: Rules, w: WalletV, s: SlateV, sel: Option<Selection>, keys: Keys): Step {
    if Expired(w, s) then Step(w, Err(TransactionExpired))
    else if s.id in w.sent then Step(w, Err(AlreadyReceived))
    else if s.id in w.sentCancelled then Step(w, Err(TransactionWasCancelled))
    else
      var stored := if s.id in w.contexts then Some(w.contexts[s.id]) else None;
      match AddInputs(rules, w.kc, s.(tx := Some(EMPTY_TX)), sel, keys, false, false)
      case Err(e) => Step(w, Err(e))
      case Ok((s1, ctx)) =>
        var s2 := PayerOffset(w.kc, s1, ctx, stored);
        match SumPoints(s2.participants, ExcessOf)
        case Err(e) => Step(w, Err(e))
        case Ok(excess) =>
          var ctx1 := PayerContext(ctx, excess, stored);
          match Repopulate(rules, w, s2, ctx1, false)
          case Err(e) => Step(w, Err(e))
          case Ok(s3) => Step(SaveContext(w, s.id, ctx1), Ok(Return(s3, ctx1, Invoice2)))
  }

  // ---------- Finalisation ----------

  /** Marks the log entry, drops the context, and posts if asked to. */
  function Conclude(w: WalletV, s: SlateV, state: SlateState, logged: set<SlateId>, fault: Fault): Step {
    if s.id !in logged then Step(w, Err(TransactionDoesntExist))
    else if fault in {AtUpdateStored, AtDelete} then Step(w, Err(Backend))
    else
      var w1 := w.(contexts := w.contexts - {s.id});
      if fault in {AtStateUpdate, AtPost} then Step(w1, Err(Backend))
      else Step(w1, Ok(s.(state := state, amount := 0)))
  }

  ghost function FinalizeInvoice(rules: Rules, w: WalletV, s: SlateV, ctx: Context, fault: Fault): Step {
    var own := ctx.(secKey := ctx.initialSecKey, secNonce := ctx.initialSecNonce);
    match Repopulate(rules, w, AdjustOffset(w.kc, s, ctx), own, false)
    case Err(e) => Step(w, Err(e))
    case Ok(s1) =>
      match CompleteTx(rules, s1, ctx)
      case Err(e) => Step(w, Err(e))
      case Ok(s2) => Conclude(w, s2, Invoice3, w.received, fault)
  }

  /** The context to finalise with: a late-locked one first receives its inputs and change, is
      stored, and has its outputs locked. */
  function LateLock(rules: Rules, w: WalletV, s: SlateV, ctx: Context, sel: Option<Selection>,
                    version: VersionInfo, fault: Fault): (WalletV, Result<Context, Error>)
  {
    if !ctx.lateLock then (w, Ok(ctx))
    else
      var fixedFee := if ctx.fee.Some? then ctx.fee.value else 0;
      var temp := BlankSlate(0, false, ctx.amount, 0, version);
      match BuildSend(rules, w.kc, temp, sel, Keys(0, 0), false, Some(fixedFee))
      case Err(e) => (w, Err(e))
      case Ok((_, chosen)) =>
        var ctx1 := ctx.(lateLock := false, inputIds := chosen.inputIds, outputIds := chosen.outputIds);
        if fault == AtSaveContext then (w, Err(Backend))
        else
          var w1 := SaveContext(w, s.id, ctx1);
          if fault == AtLock then (w1, Err(Backend))
          else
            match LockOutputs(rules, w1, s)
            case Err(e) => (w1, Err(e))
            case Ok(w2) => if fault == AtStoreTx then (w2, Err(Backend)) else (w2, Ok(ctx1))
  }

  ghost function FinalizeStandard(rules: Rules, w: WalletV, s: SlateV, ctx: Context, fault: Fault): Step {
    match Repopulate(rules, w, AdjustOffset(w.kc, s, ctx), ctx, true)
    case Err(e) => Step(w, Err(e))
    case Ok(s1) =>
      match CompleteTx(rules, s1, ctx)
      case Err(e) => Step(w, Err(e))
      case Ok(s2) => Conclude(w, s2, Standard3, w.sent, fault)
  }

  ghost function FinalizeTx(rules: Rules, w: WalletV, s: SlateV, sel: Option<Selection>, fault: Fault): Step {
    if s.id !in w.contexts then Step(w, Err(ContextNotFound))
    else
      var ctx := w.contexts[s.id];
      if Expired(w, s) then Step(w, Err(TransactionExpired))
      else if s.state == Invoice2 then FinalizeInvoice(rules, w, s, ctx, fault)
      else if s.state == Standard2 then
        match LateLock(rules, w, s, ctx, sel, s.version, fault)
        case (w1, Err(e)) => Step(w1, Err(e))
        case (w1, Ok(ctx1)) => FinalizeStandard(rules, w1, s, ctx1, fault)
      else Step(w, Err(WrongSlateState))
  }
}
