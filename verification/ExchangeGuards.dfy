/** What each call of an exchange refuses, and what a refused call leaves of the wallet. */
module ExchangeGuards {
  import opened Wrappers
  import opened SlateTypes
  import opened SlateSpec
  import opened ExchangeSpec

  /** The slate has no expiry height, or the wallet has not seen it yet. */
  predicate InTime(w: WalletV, s: SlateV) { s.ttl == 0 || w.confirmedHeight < s.ttl }

  // ---------- Opening ----------

  /** What goes out first, field by field: by a sender at once or late, and by the issuer of an invoice. */
  lemma FirstMessages(rules: Rules, w: WalletV, id: SlateId, amount: nat, ttl: nat, version: VersionInfo,
                      sel: Selection, keys: Keys, outId: KeyId)
    ensures var me := [Participant(keys.key, keys.nonce, None)];
      && InitSend(rules, w, BlankSlate(id, false, amount, ttl, version), Some(sel), keys, false).r
         == Ok(SlateV(version, 2, id, Standard1, None, amount, sel.fee, ttl, 0, 0, me, None, None))
      && InitSendLate(w, BlankSlate(id, false, amount, ttl, version), sel.fee, keys).r
         == Ok(SlateV(version, 2, id, Standard1, None, amount, sel.fee, ttl, 0, 0, me, None, None))
      && IssueInvoice(rules, w, BlankSlate(id, true, amount, ttl, version), keys, outId).r
         == Ok(SlateV(version, 2, id, Invoice1, None, amount, 0, ttl, 0, 0, me, None, None))
  {
    hide AllOutputs;
    assert WithParticipant([], keys.key, keys.nonce, None) == [Participant(keys.key, keys.nonce, None)];
  }

  /** What the opener keeps for later. The amount may include the fee, if it covers it. */
  lemma FirstContexts(rules: Rules, w: WalletV, blank: SlateV, sel: Selection, keys: Keys, outId: KeyId,
                      includesFee: bool)
    requires blank.tx.Some? && blank.kernelFeatures == 0
    ensures var step := InitSend(rules, w, blank, Some(sel), keys, includesFee);
      var net := if includesFee then blank.amount - sel.fee else blank.amount;
      if net < 0 then step == Step(w, Err(Error.Selection))
      else step.r.Ok? && step.r.value.amount == net
           && step.w == w.(contexts := w.contexts[blank.id :=
                Context(keys.key, keys.nonce, keys.key, keys.nonce, sel.change, sel.inputs, net, Some(sel.fee), false,
                        None)])
    ensures InitSendLate(w, blank, sel.fee, keys).w
         == w.(contexts := w.contexts[blank.id :=
              Context(keys.key, keys.nonce, keys.key, keys.nonce, [], [], blank.amount, Some(sel.fee), true, None)])
    ensures IssueInvoice(rules, w, blank, keys, outId).w
         == w.(records := w.records[outId := false], received := w.received + {blank.id},
               contexts := w.contexts[blank.id :=
                 Context(keys.key, keys.nonce, keys.key, keys.nonce, [Elem(outId, None, blank.amount)], [],
                     blank.amount,
                         if blank.fee == 0 then None else Some(blank.fee), false, None)])
  {
    hide AllOutputs, WithParticipant;
  }

  // ---------- Receiving ----------

  /** An expired slate and one received before are refused and change nothing. Past these guards, and with
      a kernel that can be signed for, output and log entry are recorded even if the call then fails. */
  lemma ReceiveGuards(rules: Rules, w: WalletV, s: SlateV, keys: Keys, outId: KeyId)
    ensures var step := Receive(rules, w, s, keys, outId);
      && (step.r.Ok? ==> InTime(w, s) && s.id !in w.received && KernelMessage(rules, s).Ok?)
      && (!InTime(w, s) ==> step == Step(w, Err(TransactionExpired)))
      && (InTime(w, s) && s.id in w.received ==> step == Step(w, Err(AlreadyReceived)))
      && step.w == if InTime(w, s) && s.id !in w.received && KernelMessage(rules, s).Ok?
                   then w.(records := w.records[outId := false], received := w.received + {s.id}) else w
  {
    hide FillRounds, Return, AdjustOffset, AllOutputs, KernelMessage;
    SameMessage(rules, s, s.(tx := Some(EMPTY_TX)));
  }

  datatype ReceiveCall = ReceiveCall(rules: Rules, w: WalletV, s: SlateV, keys: Keys, outId: KeyId)

  function Received(c: ReceiveCall): Step { Receive(c.rules, c.w, c.s, c.keys, c.outId) }

  /** Calls for one slate id. In between the wallet may do anything but forget what it received. */
  ghost predicate ReceiveRun(id: SlateId, calls: seq<ReceiveCall>) {
    && (forall i | 0 <= i < |calls| :: calls[i].s.id == id)
    && (forall i | 0 <= i < |calls| - 1 :: Received(calls[i]).w.received <= calls[i + 1].w.received)
  }

  lemma {:induction false} ReceivedStays(id: SlateId, calls: seq<ReceiveCall>, i: nat, j: nat)
    requires ReceiveRun(id, calls) && i < j < |calls| && id in Received(calls[i]).w.received
    ensures id in calls[j].w.received
  {
    hide Received;
    if i + 1 < j {
      ReceivedStays(id, calls, i, j - 1);
      var c := calls[j - 1];
      ReceiveGuards(c.rules, c.w, c.s, c.keys, c.outId);
      assert id in Received(c).w.received by { ReceivedIs(c); }
    }
    assert Received(calls[j - 1]).w.received <= calls[j - 1 + 1].w.received;
  }

  lemma ReceivedIs(c: ReceiveCall)
    ensures Received(c).w.received >= c.w.received
  {
    hide FillRounds, Return, AdjustOffset, AllOutputs, KernelMessage;
  }

  /** Of all calls for one slate at most one succeeds and at most one records an output key: once a call
      has succeeded, or changed the wallet at all, every later one fails and changes nothing. */
  lemma ReceivedAtMostOnce(id: SlateId, calls: seq<ReceiveCall>, i: nat, j: nat)
    requires ReceiveRun(id, calls) && i < j < |calls|
    requires Received(calls[i]).r.Ok? || Received(calls[i]).w != calls[i].w
    ensures Received(calls[j]).r.Err? && Received(calls[j]).w == calls[j].w
  {
    var c, d := calls[i], calls[j];
    ReceiveGuards(c.rules, c.w, c.s, c.keys, c.outId);
    ReceiveGuards(d.rules, d.w, d.s, d.keys, d.outId);
    hide Receive;
    ReceivedStays(id, calls, i, j);
  }

  // ---------- Paying an invoice ----------

  /** A payer refuses an expired invoice, one it has locked outputs for and one it has cancelled. Whatever
      goes wrong, a failed call changes nothing; a success stores one context and nothing else. */
  lemma ProcessGuards(rules: Rules, w: WalletV, s: SlateV, sel: Option<Selection>, keys: Keys)
    ensures var step := ProcessInvoice(rules, w, s, sel, keys);
      && (step.r.Ok? ==> InTime(w, s) && s.id !in w.sent && s.id !in w.sentCancelled && sel.Some?)
      && (step.r.Err? ==> step.w == w)
      && (!InTime(w, s) ==> step.r == Err(TransactionExpired))
      && (InTime(w, s) && s.id in w.sent ==> step.r == Err(AlreadyReceived))
      && (InTime(w, s) && s.id !in w.sent && s.id in w.sentCancelled ==> step.r == Err(TransactionWasCancelled))
      && (step.r.Ok? ==> s.id in step.w.contexts
                         && step.w == w.(contexts := w.contexts[s.id := step.w.contexts[s.id]]))
  {
    hide AddElements, FillRounds, Repopulate, Return, SumPoints, PayerOffset, PayerContext, AllOutputs;
  }

  /** The context a payer stores: its own keys, inputs and change, and what it finds stored for the slate
      already: the initial keys, fee and amount of that context in place of its own, and its elements behind its
      own. */
  lemma ProcessedContext(rules: Rules, w: WalletV, s: SlateV, sel: Selection, keys: Keys)
    requires ProcessInvoice(rules, w, s, Some(sel), keys).r.Ok?
    ensures var stored := s.id in w.contexts;
      var own := Context(keys.key, keys.nonce, keys.key, keys.nonce, sel.change, sel.inputs, s.amount, Some(sel.fee),
                         false, None);
      var after := ProcessInvoice(rules, w, s, Some(sel), keys).w.contexts;
      && s.id in after && after[s.id].calculatedExcess.Some?
      && after[s.id].(calculatedExcess := None)
         == if !stored then own
            else var c := w.contexts[s.id];
              Context(keys.key, keys.nonce, c.initialSecKey, c.initialSecNonce, sel.change + c.outputIds,
                      sel.inputs + c.inputIds, c.amount, c.fee, false, None)
  {
    hide KernelMessage, FillRounds, Repopulate, Return, SumPoints, PayerOffset, AllOutputs;
  }

  /** Once the payer has locked, it does not answer the invoice again. */
  lemma LockedIsNotPaidAgain(rules: Rules, w: WalletV, sl: SlateV, later: WalletV, s: SlateV, sel: Option<Selection>,
                             keys: Keys)
    requires LockOutputs(rules, w, sl).Ok? && LockOutputs(rules, w, sl).value.sent <= later.sent && s.id == sl.id
    ensures var step := ProcessInvoice(rules, later, s, sel, keys); step.r.Err? && step.w == later
  {
    hide ProcessInvoice, LockOutputs;
    LockLaw(rules, w, sl);
    ProcessGuards(rules, later, s, sel, keys);
  }

  // ---------- Locking ----------

  predicate IsIdIn(es: seq<Elem>, k: KeyId) { exists i | 0 <= i < |es| :: es[i].id == k }

  /** Locking needs the slate's context and a record of every input. It records the change, none of it
      coinbase, and the sent transaction, and nothing else. */
  lemma LockLaw(rules: Rules, w: WalletV, s: SlateV)
    ensures var r := LockOutputs(rules, w, s);
      && (r.Ok? <==>
          && s.id in w.contexts
          && (forall e | e in w.contexts[s.id].inputIds :: e.id in w.records)
          && (s.tx == None ==>
                w.contexts[s.id].fee.Some? && KernelMessage(rules, s.(fee := w.contexts[s.id].fee.value)).Ok?))
      && (r.Ok? ==>
            && r.value == w.(records := r.value.records, sent := w.sent + {s.id})
            && forall k :: (k in r.value.records <==> k in w.records || IsIdIn(w.contexts[s.id].outputIds, k))
                        && (k in r.value.records ==>
                              r.value.records[k] == (!IsIdIn(w.contexts[s.id].outputIds, k) && w.records[k])))
  {
    hide WithParticipant, InputsOf, OutputsOf, KernelMessage;
    if s.id in w.contexts {
      var ctx := w.contexts[s.id];
      LockContextLaw(w, s.id, ctx);
      hide LockContext;
      if s.tx == None && ctx.fee.Some? {
        SameMessage(rules, s.(fee := ctx.fee.value),
                    FillRound1(s.(tx := Some(EMPTY_TX), amount := ctx.amount, fee := ctx.fee.value), ctx));
      }
    }
  }

  lemma SameMessage(rules: Rules, s: SlateV, t: SlateV)
    requires s.kernelFeatures == t.kernelFeatures && s.fee == t.fee && s.featureArgs == t.featureArgs
    ensures KernelMessage(rules, s) == KernelMessage(rules, t)
  {
  }

  lemma LockContextLaw(w: WalletV, id: SlateId, ctx: Context)
    ensures var r := LockContext(w, id, ctx);
      && (r.Ok? <==> forall e | e in ctx.inputIds :: e.id in w.records)
      && (r.Ok? ==>
            && r.value == w.(records := r.value.records, sent := w.sent + {id})
            && forall k :: (k in r.value.records <==> k in w.records || IsIdIn(ctx.outputIds, k))
                        && (k in r.value.records ==> r.value.records[k] == (!IsIdIn(ctx.outputIds, k) && w.records[k])))
  {
    forall k ensures k in Ids(ctx.outputIds) <==> IsIdIn(ctx.outputIds, k) {
      if k in Ids(ctx.outputIds) {
        var e :| e in ctx.outputIds && e.id == k;
        var i :| 0 <= i < |ctx.outputIds| && ctx.outputIds[i] == e;
      }
      if IsIdIn(ctx.outputIds, k) {
        var i :| 0 <= i < |ctx.outputIds| && ctx.outputIds[i].id == k;
        assert ctx.outputIds[i] in ctx.outputIds;
      }
    }
  }

  // ---------- Finalising ----------

  /** Without a context, with an expired slate, or in another state nothing happens. */
  lemma FinalizeGuards(rules: Rules, w: WalletV, s: SlateV, sel: Option<Selection>, fault: Fault)
    ensures var step := FinalizeTx(rules, w, s, sel, fault);
      && (s.id !in w.contexts ==> step == Step(w, Err(ContextNotFound)))
      && (s.id in w.contexts && !InTime(w, s) ==> step == Step(w, Err(TransactionExpired)))
      && (s.id in w.contexts && InTime(w, s) && s.state != Standard2 && s.state != Invoice2 ==>
            step == Step(w, Err(WrongSlateState)))
      && (step.r.Ok? ==> s.id in w.contexts && InTime(w, s) && s.state in {Standard2, Invoice2})
  {
    hide FinalizeStandard, FinalizeInvoice, LateLock;
  }

  /** What a completed slate is and where the wallet goes when it is concluded. */
  lemma ConcludeGuards(w: WalletV, s: SlateV, state: SlateState, logged: set<SlateId>, fault: Fault)
    ensures var step := Conclude(w, s, state, logged, fault);
      && (step.r.Ok? <==> s.id in logged && fault !in {AtUpdateStored, AtDelete, AtStateUpdate, AtPost})
      && (step.r.Ok? ==> step.r.value == s.(state := state, amount := 0))
      && step.w == if s.id in logged && fault !in {AtUpdateStored, AtDelete} then w.(contexts := w.contexts - {s.id})
                   else w
  {
  }

  lemma IdKept(rules: Rules, w: WalletV, s: SlateV, ctx: Context, own: Context, updateFee: bool)
    ensures var r := Repopulate(rules, w, AdjustOffset(w.kc, s, ctx), own, updateFee);
      r.Ok? ==> r.value.id == s.id && (CompleteTx(rules, r.value, ctx).Ok? ==>
                                         CompleteTx(rules, r.value, ctx).value.id == s.id)
  {
    hide SigningOf, CheckShares, StoreShare, CheckFees, SumPoints, Balanced, NoCutThrough, WithParticipant,
         KernelMessage;
  }

  /** The issuer's side, from the context it stored. Only a wallet whose log has the invoice as received
      finalises it; the context goes exactly when nothing before its deletion failed. */
  lemma InvoiceGuards(rules: Rules, w: WalletV, s: SlateV, ctx: Context, fault: Fault)
    ensures var step := FinalizeInvoice(rules, w, s, ctx, fault);
      && (step.r.Ok? ==> s.id in w.received && fault !in {AtUpdateStored, AtDelete, AtStateUpdate, AtPost}
                         && step.r.value.state == Invoice3 && step.r.value.amount == 0)
      && (step.r.Ok? || (step.w != w && fault in {AtStateUpdate, AtPost}) ==>
            step.w == w.(contexts := w.contexts - {s.id}))
      && (step.r.Err? && fault !in {AtStateUpdate, AtPost} ==> step.w == w)
  {
    hide Repopulate, CompleteTx, AdjustOffset, Conclude;
    var own := ctx.(secKey := ctx.initialSecKey, secNonce := ctx.initialSecNonce);
    IdKept(rules, w, s, ctx, own, false);
    var r := Repopulate(rules, w, AdjustOffset(w.kc, s, ctx), own, false);
    if r.Ok? && CompleteTx(rules, r.value, ctx).Ok? {
      ConcludeGuards(w, CompleteTx(rules, r.value, ctx).value, Invoice3, w.received, fault);
    }
  }

  /** The sender's side, once inputs are chosen: the same with the sent transactions. */
  lemma StandardGuards(rules: Rules, w: WalletV, s: SlateV, ctx: Context, fault: Fault)
    ensures var step := FinalizeStandard(rules, w, s, ctx, fault);
      && (step.r.Ok? ==> s.id in w.sent && fault !in {AtUpdateStored, AtDelete, AtStateUpdate, AtPost}
                         && step.r.value.state == Standard3 && step.r.value.amount == 0)
      && (step.r.Ok? || (step.w != w && fault in {AtStateUpdate, AtPost}) ==>
            step.w == w.(contexts := w.contexts - {s.id}))
      && (step.r.Err? && fault !in {AtStateUpdate, AtPost} ==> step.w == w)
  {
    hide Repopulate, CompleteTx, AdjustOffset, Conclude;
    IdKept(rules, w, s, ctx, ctx, true);
    var r := Repopulate(rules, w, AdjustOffset(w.kc, s, ctx), ctx, true);
    if r.Ok? && CompleteTx(rules, r.value, ctx).Ok? {
      ConcludeGuards(w, CompleteTx(rules, r.value, ctx).value, Standard3, w.sent, fault);
    }
  }

  /** Choosing inputs late: the selection must keep the agreed fee and every coin must have a record, or
      nothing is locked. Then change and sent transaction are recorded as by locking at once. */
  lemma LateLockGuards(rules: Rules, w: WalletV, s: SlateV, ctx: Context, sel: Option<Selection>, fault: Fault)
    requires ctx.lateLock && s.id in w.contexts && w.contexts[s.id] == ctx
    ensures var (after, r) := LateLock(rules, w, s, ctx, sel, s.version, fault);
      var fixedFee := if ctx.fee.Some? then ctx.fee.value else 0;
      && (sel.Some? && sel.value.fee != fixedFee ==> (after, r) == (w, Err(FeeDispute)))
      && (sel == None ==> (after, r) == (w, Err(Error.Selection)))
      && (r.Ok? ==>
            && sel.Some? && sel.value.fee == fixedFee && fault !in {AtSaveContext, AtLock, AtStoreTx}
            && (forall e | e in sel.value.inputs :: e.id in w.records)
            && r.value == ctx.(lateLock := false, inputIds := sel.value.inputs, outputIds := sel.value.change)
            && after == w.(contexts := w.contexts[s.id := r.value], records := after.records, sent := w.sent + {s.id})
            && forall k :: (k in after.records <==> k in w.records || IsIdIn(sel.value.change, k))
                        && (k in after.records ==>
                              after.records[k] == (!IsIdIn(sel.value.change, k) && w.records[k])))
      && (fault == AtSaveContext ==> r.Err? && after == w)
      && (r.Err? && fault != AtStoreTx ==> after == w.(contexts := after.contexts))
  {
    hide KernelMessage, LockOutputs, AllOutputs;
    if sel.Some? {
      var ctx1 := ctx.(lateLock := false, inputIds := sel.value.inputs, outputIds := sel.value.change);
      LockLaw(rules, SaveContext(w, s.id, ctx1), s);
    }
  }
}
