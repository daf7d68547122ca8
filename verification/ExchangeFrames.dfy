/** What calls for one slate leave alone of every other, over any run of calls: contexts, log entries, and
    what the wallet knows about its outputs. */
module ExchangeFrames {
  import opened Wrappers
  import opened SlateTypes
  import opened SlateSpec
  import opened ExchangeSpec
  import opened ExchangeGuards
  import opened ExchangeLaws
  import opened StandardRuns
  import opened Retries
  import opened FinalisedElements

  /** The calls of the exchange with what is drawn or selected in them, and the chain growing. */
  datatype Call =
    | Init(s: SlateV, sel: Option<Selection>, keys: Keys, includesFee: bool)
    | InitLate(s: SlateV, fee: nat, keys: Keys)
    | Receiving(s: SlateV, keys: Keys, outId: KeyId)
    | Issuing(s: SlateV, keys: Keys, outId: KeyId)
    | Processing(s: SlateV, sel: Option<Selection>, keys: Keys)
    | Locking(s: SlateV)
    | Finalizing(s: SlateV, sel: Option<Selection>, fault: Fault)

  ghost function Called(rules: Rules, w: WalletV, c: Call): WalletV {
    match c
    case Init(s, sel, keys, includesFee) => InitSend(rules, w, s, sel, keys, includesFee).w
    case InitLate(s, fee, keys) => InitSendLate(w, s, fee, keys).w
    case Receiving(s, keys, outId) => Receive(rules, w, s, keys, outId).w
    case Issuing(s, keys, outId) => IssueInvoice(rules, w, s, keys, outId).w
    case Processing(s, sel, keys) => ProcessInvoice(rules, w, s, sel, keys).w
    case Locking(s) => var r := LockOutputs(rules, w, s); if r.Ok? then r.value else w
    case Finalizing(s, sel, fault) => FinalizeTx(rules, w, s, sel, fault).w
  }

  /** Between two wallets only what belongs to slate `id` may differ, records are only added, and none is
      made a coinbase record. */
  ghost predicate OnlyFor(id: SlateId, a: WalletV, b: WalletV) {
    && b.kc == a.kc && b.confirmedHeight == a.confirmedHeight && b.sentCancelled == a.sentCancelled
    && a.received <= b.received <= a.received + {id} && a.sent <= b.sent <= a.sent + {id}
    && b.contexts - {id} == a.contexts - {id}
    && a.records.Keys <= b.records.Keys
    && forall k :: k in b.records ==> !b.records[k] || (k in a.records && a.records[k])
  }

  lemma OpeningFrame(rules: Rules, w: WalletV, c: Call)
    requires c.Init? || c.InitLate? || c.Processing?
    ensures OnlyFor(c.s.id, w, Called(rules, w, c))
  {
    hide AddElements, FillRounds, Repopulate, Return, SumPoints, PayerOffset, PayerContext, AllOutputs, BuildSend;
  }

  lemma RecipientFrame(rules: Rules, w: WalletV, c: Call)
    requires c.Receiving? || c.Issuing?
    ensures OnlyFor(c.s.id, w, Called(rules, w, c))
  {
    hide AddElements, FillRounds, Return, AllOutputs, AdjustOffset;
  }

  lemma LockingFrame(rules: Rules, w: WalletV, s: SlateV)
    ensures var r := LockOutputs(rules, w, s); r.Ok? ==> OnlyFor(s.id, w, r.value)
  {
    hide LockOutputs;
    LockLaw(rules, w, s);
  }

  lemma OnlyForTwice(id: SlateId, a: WalletV, b: WalletV, c: WalletV)
    requires OnlyFor(id, a, b) && OnlyFor(id, b, c)
    ensures OnlyFor(id, a, c)
  {
  }

  lemma SavingFrame(w: WalletV, id: SlateId, ctx: Context)
    ensures OnlyFor(id, w, w) && OnlyFor(id, w, SaveContext(w, id, ctx))
  {
  }

  lemma LateLockFrame(rules: Rules, w: WalletV, s: SlateV, ctx: Context, sel: Option<Selection>, fault: Fault)
    ensures OnlyFor(s.id, w, LateLock(rules, w, s, ctx, sel, s.version, fault).0)
  {
    hide LockOutputs, BuildSend, BlankSlate, OnlyFor, SaveContext;
    SavingFrame(w, s.id, ctx);
    if sel.Some? {
      var ctx1 := ctx.(lateLock := false, inputIds := sel.value.inputs, outputIds := sel.value.change);
      var w1 := SaveContext(w, s.id, ctx1);
      SavingFrame(w, s.id, ctx1);
      LockingFrame(rules, w1, s);
      var r := LockOutputs(rules, w1, s);
      if r.Ok? { OnlyForTwice(s.id, w, w1, r.value); }
      SelectedElements(rules, w, ctx, sel.value, s.version);
    } else {
      NothingSelected(rules, w, ctx, s.version);
    }
  }

  lemma SelectedElements(rules: Rules, w: WalletV, ctx: Context, sel: Selection, version: VersionInfo)
    ensures forall fixedFee: nat ::
              var r := BuildSend(rules, w.kc, BlankSlate(0, false, ctx.amount, 0, version), Some(sel), Keys(0, 0),
                  false,
                                 Some(fixedFee));
              r.Ok? ==> r.value.1.inputIds == sel.inputs && r.value.1.outputIds == sel.change
  {
    hide AllOutputs, KernelMessage;
  }

  lemma NothingSelected(rules: Rules, w: WalletV, ctx: Context, version: VersionInfo)
    ensures forall fixedFee: nat ::
              BuildSend(rules, w.kc, BlankSlate(0, false, ctx.amount, 0, version), None, Keys(0, 0), false,
                        Some(fixedFee)).Err?
  {
  }

  lemma DroppingFrame(w: WalletV, id: SlateId)
    ensures OnlyFor(id, w, w) && OnlyFor(id, w, w.(contexts := w.contexts - {id}))
  {
  }

  lemma FinalizingFrame(rules: Rules, w: WalletV, s: SlateV, sel: Option<Selection>, fault: Fault)
    ensures OnlyFor(s.id, w, FinalizeTx(rules, w, s, sel, fault).w)
  {
    hide FinalizeStandard, FinalizeInvoice, LateLock, Expired, OnlyFor;
    DroppingFrame(w, s.id);
    if s.id in w.contexts {
      var ctx := w.contexts[s.id];
      InvoiceGuards(rules, w, s, ctx, fault);
      LateLockFrame(rules, w, s, ctx, sel, fault);
      var (w1, r) := LateLock(rules, w, s, ctx, sel, s.version, fault);
      if r.Ok? {
        StandardGuards(rules, w1, s, r.value, fault);
        DroppingFrame(w1, s.id);
        OnlyForTwice(s.id, w, w1, FinalizeStandard(rules, w1, s, r.value, fault).w);
      }
    }
  }

  /** No call touches another slate's context or log entries, forgets a record, or makes one coinbase. */
  lemma CallFrame(rules: Rules, w: WalletV, c: Call)
    ensures OnlyFor(c.s.id, w, Called(rules, w, c))
  {
    hide InitSend, InitSendLate, Receive, IssueInvoice, ProcessInvoice, LockOutputs, FinalizeTx;
    match c
    case Locking(s) => LockingFrame(rules, w, s);
    case Finalizing(s, sel, fault) => FinalizingFrame(rules, w, s, sel, fault);
    case Receiving(_, _, _) => RecipientFrame(rules, w, c);
    case Issuing(_, _, _) => RecipientFrame(rules, w, c);
    case _ => OpeningFrame(rules, w, c);
  }

  // ---------- Runs ----------

  /** Calls one after the other; in between the chain may grow. */
  ghost predicate CallRun(rules: Rules, run: seq<WalletV>, calls: seq<Call>) {
    && |run| == |calls| + 1
    && forall i | 0 <= i < |calls| ::
        run[i + 1] == Called(rules, run[i], calls[i]).(confirmedHeight := run[i + 1].confirmedHeight)
  }

  ghost predicate Elsewhere(calls: seq<Call>, id: SlateId) { forall i | 0 <= i < |calls| :: calls[i].s.id != id }

  /** Whatever a wallet does with other slates, context and log entries of this one stay as they are, and
      every record stays. */
  lemma {:induction false} OthersKeep(rules: Rules, run: seq<WalletV>, calls: seq<Call>, id: SlateId, n: nat)
    requires CallRun(rules, run, calls) && Elsewhere(calls, id) && n < |run|
    ensures ContextAt(run[n], id) == ContextAt(run[0], id)
    ensures (id in run[n].received <==> id in run[0].received) && (id in run[n].sent <==> id in run[0].sent)
    ensures run[n].kc == run[0].kc && run[0].records.Keys <= run[n].records.Keys
    ensures run[0].received <= run[n].received && run[0].sent <= run[n].sent
  {
    hide Called;
    if n > 0 {
      OthersKeep(rules, run, calls, id, n - 1);
      var after := Called(rules, run[n - 1], calls[n - 1]);
      CallFrame(rules, run[n - 1], calls[n - 1]);
      assert run[n - 1 + 1] == after.(confirmedHeight := run[n].confirmedHeight);
      OtherContext(calls[n - 1].s.id, run[n - 1], after, id);
    }
  }

  lemma OtherContext(id: SlateId, a: WalletV, b: WalletV, other: SlateId)
    requires OnlyFor(id, a, b) && other != id
    ensures ContextAt(b, other) == ContextAt(a, other)
    ensures (other in b.received <==> other in a.received) && (other in b.sent <==> other in a.sent)
  {
    assert other in b.contexts <==> other in (b.contexts - {id});
    assert other in a.contexts <==> other in (a.contexts - {id});
  }

  /** A standard run in which both wallets do anything with other slates: the recipient before it answers,
      the sender after it locked. */
  lemma RunSettlesAmongOthers(rules: Rules, ws: WalletV, wr: WalletV, blank: SlateV, sel: Selection, a: Keys, b: Keys,
                              outId: KeyId, unused: Option<Selection>, receiving: seq<WalletV>, received: seq<Call>,
                              sending: seq<WalletV>, sent: seq<Call>)
    requires blank == BlankSlate(blank.id, false, blank.amount, blank.ttl, blank.version)
    requires Compatible(a, b) && Spends(sel, blank.amount) && FeeSuffices(rules, sel) && HasAll(ws, sel.inputs)
    requires DistinctCommitments(ws.kc, sel, wr.kc, Elem(outId, None, blank.amount))
    requires CallRun(rules, receiving, received) && Elsewhere(received, blank.id) && receiving[0] == wr
    requires blank.id !in wr.received && !Expired(receiving[|received|], blank)
    requires CallRun(rules, sending, sent) && Elsewhere(sent, blank.id)
    ensures var opening := InitSend(rules, ws, blank, Some(sel), a, false);
      opening.r.Ok? &&
      (LockOutputs(rules, opening.w, opening.r.value) == Ok(sending[0]) ==>
        var answered := Receive(rules, receiving[|received|], opening.r.value, b, outId);
        answered.r.Ok? &&
        (!Expired(sending[|sent|], answered.r.value) ==>
          Completed(rules, FinalizeTx(rules, sending[|sent|], answered.r.value, unused, NoFault), blank.id, Standard3,
                    InputsOf(sending[|sent|], sel.inputs),
                    {OutputOf(wr.kc, Elem(outId, None, blank.amount))} + AllOutputs(ws.kc, sel.change), sel.fee)))
  {
    hide InitSend, LockOutputs, Receive, FinalizeTx, Called, CallRun, Completed, Spends, FeeSuffices, Compatible,
         DistinctCommitments, InputsOf, AllOutputs, HasAll, Elsewhere;
    RunLength(rules, receiving, received);
    RunLength(rules, sending, sent);
    OthersKeep(rules, receiving, received, blank.id, |received|);
    OthersKeep(rules, sending, sent, blank.id, |sent|);
    OpenedStored(rules, ws, blank, sel, a);
    StandardRunSettles(rules, ws, receiving[|received|], sending[|sent|], blank, sel, a, b, outId, false, blank.amount,
                       unused);
  }

  lemma RunLength(rules: Rules, run: seq<WalletV>, calls: seq<Call>)
    requires CallRun(rules, run, calls)
    ensures |run| == |calls| + 1
  {
  }

  lemma OpenedStored(rules: Rules, w: WalletV, blank: SlateV, sel: Selection, a: Keys)
    requires blank == BlankSlate(blank.id, false, blank.amount, blank.ttl, blank.version)
    ensures var opening := InitSend(rules, w, blank, Some(sel), a, false);
      opening.r.Ok? && opening.r.value.id == blank.id && blank.id in opening.w.contexts
      && forall locked :: LockOutputs(rules, opening.w, opening.r.value) == Ok(locked) ==>
           blank.id in locked.contexts && locked.contexts == opening.w.contexts
  {
    OpeningStep(rules, w, blank, sel, a, false, blank.amount);
    var opening := InitSend(rules, w, blank, Some(sel), a, false);
    LockLaw(rules, opening.w, opening.r.value);
    hide InitSend, LockOutputs;
  }

  /** Over any run of calls, for whatever slates, a record stays, and once plain it stays plain. */
  lemma {:induction false} PlainStaysPlain(rules: Rules, run: seq<WalletV>, calls: seq<Call>, k: KeyId, n: nat)
    requires CallRun(rules, run, calls) && n < |run| && k in run[0].records && !run[0].records[k]
    ensures k in run[n].records && !run[n].records[k] && run[n].kc == run[0].kc
  {
    hide Called;
    if n > 0 {
      PlainStaysPlain(rules, run, calls, k, n - 1);
      CallFrame(rules, run[n - 1], calls[n - 1]);
      assert run[n - 1 + 1] == Called(rules, run[n - 1], calls[n - 1]).(confirmedHeight := run[n].confirmedHeight);
    }
  }

  // ---------- What was received or came back as change is spent as a plain output ----------

  /** The element is spent, as a plain input with its commitment. */
  ghost predicate SpentPlain(kc: Keychain, tx: Tx, e: Elem) {
    Input(false, Commit((kc.derive)(e.amount, e.id), e.amount)) in tx.inputs
  }

  lemma PlainRecordSpent(rules: Rules, w: WalletV, s: SlateV, sel: Option<Selection>, fault: Fault, e: Elem)
    requires FinalizeTx(rules, w, s, sel, fault).r.Ok? && e.id in w.records && !w.records[e.id] && s.id in w.contexts
    requires e in (if s.state == Standard2 then Used(w.contexts[s.id], sel) else w.contexts[s.id]).inputIds
    ensures var tx := FinalizeTx(rules, w, s, sel, fault).r.value.tx; tx.Some? && SpentPlain(w.kc, tx.value, e)
  {
    hide FinalizeTx, Extends;
    FinalizedElements(rules, w, s, sel, fault);
    var done, standard := FinalizeTx(rules, w, s, sel, fault).r.value, s.state == Standard2;
    var ctx := if standard then Used(w.contexts[s.id], sel) else w.contexts[s.id];
    var flags: map<KeyId, bool> :| FlagsAt(w, standard && w.contexts[s.id].lateLock, ctx, flags)
        && Extends(w.kc, flags, ctx.inputIds, ctx.outputIds, s.tx.value, done.tx.value);
    ExtendsBy(w.kc, flags, ctx.inputIds, ctx.outputIds, s.tx.value, done.tx.value, e);
  }

  lemma ExtendsBy(kc: Keychain, flags: map<KeyId, bool>, ins: seq<Elem>, outs: seq<Elem>, old_: Tx, new_: Tx, e: Elem)
    requires Extends(kc, flags, ins, outs, old_, new_) && e in ins && e.id in flags && !flags[e.id]
    ensures SpentPlain(kc, new_, e)
  {
    assert Spent(kc, flags, ins, Input(false, CommitOf(kc, e)));
  }

  /** An output received in one exchange goes into any later transaction that spends it as a plain input,
      whatever the wallet does in between. */
  lemma ReceivedIsSpentPlain(rules: Rules, w: WalletV, got: SlateV, keys: Keys, outId: KeyId, run: seq<WalletV>,
                             calls: seq<Call>, n: nat, s: SlateV, sel: Option<Selection>, fault: Fault, e: Elem)
    requires Receive(rules, w, got, keys, outId).r.Ok? && e.id == outId
    requires CallRun(rules, run, calls) && n < |run| && run[0] == Receive(rules, w, got, keys, outId).w
    requires FinalizeTx(rules, run[n], s, sel, fault).r.Ok? && s.id in run[n].contexts
    requires e in (if s.state == Standard2 then Used(run[n].contexts[s.id], sel) else run[n].contexts[s.id]).inputIds
    ensures var tx := FinalizeTx(rules, run[n], s, sel, fault).r.value.tx; tx.Some? && SpentPlain(w.kc, tx.value, e)
  {
    hide FinalizeTx, Receive, Called, SpentPlain;
    ReceiveGuards(rules, w, got, keys, outId);
    PlainStaysPlain(rules, run, calls, outId, n);
    PlainRecordSpent(rules, run[n], s, sel, fault, e);
  }

  /** So does change that was recorded when an earlier transaction was locked. */
  lemma ChangeIsSpentPlain(rules: Rules, w: WalletV, locked: SlateV, run: seq<WalletV>, calls: seq<Call>, n: nat,
                           s: SlateV, sel: Option<Selection>, fault: Fault, e: Elem)
    requires LockOutputs(rules, w, locked).Ok? && IsIdIn(w.contexts[locked.id].outputIds, e.id)
    requires CallRun(rules, run, calls) && n < |run| && run[0] == LockOutputs(rules, w, locked).value
    requires FinalizeTx(rules, run[n], s, sel, fault).r.Ok? && s.id in run[n].contexts
    requires e in (if s.state == Standard2 then Used(run[n].contexts[s.id], sel) else run[n].contexts[s.id]).inputIds
    ensures var tx := FinalizeTx(rules, run[n], s, sel, fault).r.value.tx; tx.Some? && SpentPlain(w.kc, tx.value, e)
  {
    hide FinalizeTx, LockOutputs, Called, SpentPlain;
    LockLaw(rules, w, locked);
    PlainStaysPlain(rules, run, calls, e.id, n);
    PlainRecordSpent(rules, run[n], s, sel, fault, e);
  }
}
