/** A wallet taking part in slate exchanges: each API call clones the incoming slate, works on
    it step by step, and commits to the wallet on the way. */
module Exchange {
  import opened Wrappers
  import opened SlateTypes
  import opened SlateSpec
  import opened Slates
  import opened ExchangeSpec
  import Spec = ExchangeSpec

  class Wallet {
    const kc: Keychain
    var records: map<KeyId, bool>
    var contexts: map<SlateId, Context>
    var received: set<SlateId>
    var sent: set<SlateId>
    var sentCancelled: set<SlateId>
    var confirmedHeight: nat

    function V(): WalletV
      reads this
    {
      WalletV(kc, records, contexts, received, sent, sentCancelled, confirmedHeight)
    }

    constructor (kc: Keychain, confirmedHeight: nat)
      ensures V() == WalletV(kc, map[], map[], {}, {}, {}, confirmedHeight)
    {
      this.kc, this.confirmedHeight := kc, confirmedHeight;
      records, contexts, received, sent, sentCancelled := map[], map[], {}, {}, {};
    }

    /** libwallet/src/internal/selection.rs, `build_send_tx`. */
    method BuildSendTx(rules: Rules, slate: Slate, sel: Option<Selection>, keys: Keys, amountIncludesFee: bool,
                       fixedFee: Option<nat>)
      returns (r: Result<Context, Error>)
      modifies slate
      ensures match BuildSend(rules, kc, old(slate.V()), sel, keys, amountIncludesFee, fixedFee)
              case Err(e) => r == Err(e)
              case Ok((s, ctx)) => r == Ok(ctx) && slate.V() == s
    {
      if sel == None { return Err(Error.Selection); }
      var fee := sel.value.fee;
      if amountIncludesFee {
        if slate.amount < fee { return Err(Error.Selection); }
        slate.amount := slate.amount - fee;
      }
      if fixedFee.Some? && fixedFee.value != fee { return Err(FeeDispute); }
      slate.fee := fee;
      var error := slate.AddTransactionElements(rules, {}, AllOutputs(kc, sel.value.change));
      if error.Some? { return Err(error.value); }
      var ctx := NewContext(keys);
      ctx := ctx.(fee := Some(slate.fee), amount := slate.amount);
      ctx := ctx.(inputIds := sel.value.inputs, outputIds := sel.value.change);
      r := Ok(ctx);
    }

    method KnownInputs(es: seq<Elem>) returns (ins: set<Input>)
      ensures ins == InputsOf(V(), es)
    {
      ins := {};
      for i := 0 to |es|
        invariant InputsOf(V(), es) == ins + InputsOf(V(), es[i..])
      {
        assert es[i..][1..] == es[i + 1..];
        if es[i].id in records {
          ins := ins + {Input(records[es[i].id], CommitOf(kc, es[i]))};
          assert InputsOf(V(), es[i..]) == {InputOf(V(), es[i])} + InputsOf(V(), es[i + 1..]);
        }
      }
    }

    method KnownOutputs(es: seq<Elem>) returns (outs: set<Output>)
      ensures outs == OutputsOf(V(), es)
    {
      outs := {};
      for i := 0 to |es|
        invariant OutputsOf(V(), es) == outs + OutputsOf(V(), es[i..])
      {
        assert es[i..][1..] == es[i + 1..];
        if es[i].id in records {
          outs := outs + {OutputOf(kc, es[i])};
        }
      }
    }

    /** libwallet/src/internal/selection.rs, `repopulate_tx`. */
    method RepopulateTx(rules: Rules, slate: Slate, ctx: Context, updateFee: bool) returns (error: Option<Error>)
      modifies slate
      ensures match Repopulate(rules, V(), old(slate.V()), ctx, updateFee)
              case Err(e) => error == Some(e)
              case Ok(s) => error == None && slate.V() == s
    {
      hide WithParticipant, InputsOf, OutputsOf;
      slate.amount := ctx.amount;
      if updateFee {
        if ctx.fee == None { return Some(MissingFee); }
        slate.fee := ctx.fee.value;
      }
      slate.AddParticipantInfo(ctx, None);
      var ins := KnownInputs(ctx.inputIds);
      var outs := KnownOutputs(ctx.outputIds);
      error := slate.AddTransactionElements(rules, ins, outs);
      if error.Some? { return; }
      slate.tx := Some(slate.tx.value.(offset := slate.offset));
    }

    /** libwallet/src/internal/tx.rs, `complete_tx`. */
    method CompleteTx(rules: Rules, slate: Slate, ctx: Context) returns (error: Option<Error>)
      modifies slate
      ensures match Spec.CompleteTx(rules, old(slate.V()), ctx)
              case Err(e) => error == Some(e)
              case Ok(s) => error == None && slate.V() == s
    {
      var keys := CompletingKeys(ctx);
      error := slate.FillRound2(rules, keys.key, keys.nonce);
      if error.Some? { return; }
      error := slate.Finalize(rules);
    }

    /** libwallet/src/internal/tx.rs, `add_inputs_to_slate`. */
    method AddInputsToSlate(rules: Rules, slate: Slate, sel: Option<Selection>, keys: Keys, isInitiator: bool,
                            amountIncludesFee: bool)
      returns (r: Result<Context, Error>)
      modifies slate
      ensures match AddInputs(rules, kc, old(slate.V()), sel, keys, isInitiator, amountIncludesFee)
              case Err(e) => r == Err(e)
              case Ok((s, ctx)) => r == Ok(ctx) && slate.V() == s
    {
      r := BuildSendTx(rules, slate, sel, keys, amountIncludesFee, None);
      if r.Err? { return; }
      var ctx := r.value;
      slate.AddParticipantInfo(ctx, None);
      if !isInitiator {
        var error := slate.FillRound2(rules, ctx.secKey, ctx.secNonce);
        if error.Some? { return Err(error.value); }
      }
    }

    method InitSendTx(rules: Rules, blank: SlateV, sel: Option<Selection>, keys: Keys, amountIncludesFee: bool)
      returns (r: Result<SlateV, Error>)
      modifies this
      ensures Step(V(), r) == InitSend(rules, old(V()), blank, sel, keys, amountIncludesFee)
    {
      var slate := new Slate(blank);
      var added := AddInputsToSlate(rules, slate, sel, keys, true, amountIncludesFee);
      if added.Err? { return Err(added.error); }
      contexts := contexts[blank.id := added.value];
      slate.tx := None;
      r := Ok(slate.V());
    }

    method InitSendTxLate(blank: SlateV, fee: nat, keys: Keys) returns (r: Result<SlateV, Error>)
      modifies this
      ensures Step(V(), r) == InitSendLate(old(V()), blank, fee, keys)
    {
      var slate := new Slate(blank);
      slate.fee := fee;
      var ctx := NewContext(keys).(fee := Some(slate.fee), amount := slate.amount, lateLock := true);
      slate.AddParticipantInfo(ctx, None);
      contexts := contexts[slate.id := ctx];
      slate.tx := None;
      r := Ok(slate.V());
    }

    /** libwallet/src/internal/tx.rs, `add_output_to_slate`. */
    method AddOutputToSlate(rules: Rules, slate: Slate, keys: Keys, outId: KeyId, isInitiator: bool)
      returns (r: Result<Context, Error>)
      modifies this, slate
      ensures match AddOutput(rules, old(V()), old(slate.V()), keys, outId, isInitiator)
              case (w, Err(e)) => r == Err(e) && V() == w
              case (w, Ok((s, ctx))) => r == Ok(ctx) && V() == w && slate.V() == s
    {
      var ctx := RecipientContext(slate.V(), keys, outId);
      var error := slate.AddTransactionElements(rules, {}, AllOutputs(kc, ctx.outputIds));
      if error.Some? { return Err(error.value); }
      records := records[outId := false];
      received := received + {slate.id};
      slate.AddParticipantInfo(ctx, None);
      if !isInitiator {
        error := slate.FillRound2(rules, ctx.secKey, ctx.secNonce);
        if error.Some? { return Err(error.value); }
      }
      r := Ok(ctx);
    }

    /** Strips a responder's slate for the way back. */
    method StripForReturn(slate: Slate, ctx: Context, state: SlateState)
      modifies slate
      ensures slate.V() == Return(old(slate.V()), ctx, state)
    {
      slate.amount := 0;
      slate.RemoveOtherSigdata(ctx.secNonce, ctx.secKey);
      slate.state := state;
    }

    method ReceiveTx(rules: Rules, slate: SlateV, keys: Keys, outId: KeyId) returns (r: Result<SlateV, Error>)
      modifies this
      ensures Step(V(), r) == Receive(rules, old(V()), slate, keys, outId)
    {
      hide AddOutput, Return, SlateSpec.AdjustOffset, Expired;
      var ret := new Slate(slate);
      if Expired(V(), ret.V()) { return Err(TransactionExpired); }
      if ret.id in received { return Err(AlreadyReceived); }
      ret.tx := Some(EMPTY_TX);
      var added := AddOutputToSlate(rules, ret, keys, outId, false);
      if added.Err? { return Err(added.error); }
      ret.AdjustOffset(kc, added.value);
      StripForReturn(ret, added.value, Standard2);
      ret.fee := 0;
      r := Ok(ret.V());
    }

    method IssueInvoiceTx(rules: Rules, blank: SlateV, keys: Keys, outId: KeyId) returns (r: Result<SlateV, Error>)
      modifies this
      ensures Step(V(), r) == IssueInvoice(rules, old(V()), blank, keys, outId)
    {
      var slate := new Slate(blank);
      var added := AddOutputToSlate(rules, slate, keys, outId, true);
      if added.Err? { return Err(added.error); }
      contexts := contexts[blank.id := added.value];
      slate.tx := None;
      r := Ok(slate.V());
    }

    method ProcessInvoiceTx(rules: Rules, slate: SlateV, sel: Option<Selection>, keys: Keys)
      returns (r: Result<SlateV, Error>)
      modifies this
      ensures Step(V(), r) == ProcessInvoice(rules, old(V()), slate, sel, keys)
    {
      hide AddInputs, Repopulate, Return, SumPoints, MergeContexts, NewContext, SlateSpec.AdjustOffset, Expired;
      var ret := new Slate(slate);
      if Expired(V(), ret.V()) { return Err(TransactionExpired); }
      if ret.id in sent { return Err(AlreadyReceived); }
      if ret.id in sentCancelled { return Err(TransactionWasCancelled); }
      ret.tx := Some(EMPTY_TX);
      var stored := if slate.id in contexts then Some(contexts[slate.id]) else None;
      var added := AddInputsToSlate(rules, ret, sel, keys, false, false);
      if added.Err? { return Err(added.error); }
      var ctx := added.value;
      if stored.Some? {
        ret.AdjustOffset(kc, ctx.(inputIds := [], outputIds := []));
      } else {
        ret.AdjustOffset(kc, ctx);
      }
      match SumPoints(ret.participants, ExcessOf) {
        case Err(e) => return Err(e);
        case Ok(excess) => ctx := ctx.(calculatedExcess := Some(excess));
      }
      if stored.Some? {
        ctx := MergeContexts(ctx, stored.value);
      }
      var error := RepopulateTx(rules, ret, ctx, false);
      if error.Some? { return Err(error.value); }
      contexts := contexts[slate.id := ctx];
      StripForReturn(ret, ctx, Invoice2);
      r := Ok(ret.V());
    }

    method TxLockOutputs(rules: Rules, slate: SlateV) returns (error: Option<Error>)
      modifies this
      ensures match LockOutputs(rules, old(V()), slate)
              case Err(e) => error == Some(e) && V() == old(V())
              case Ok(w) => error == None && V() == w
    {
      if slate.id !in contexts { return Some(ContextNotFound); }
      var ctx := contexts[slate.id];
      if slate.tx == None {
        var sl := new Slate(slate);
        sl.tx := Some(EMPTY_TX);
        error := RepopulateTx(rules, sl, ctx, true);
        if error.Some? { return; }
      }
      if !HasAll(V(), ctx.inputIds) { return Some(OutputNotFound); }
      records := records + (map k | k in Ids(ctx.outputIds) :: false);
      sent := sent + {slate.id};
      error := None;
    }

    method FinalizeTx(rules: Rules, slate: SlateV, sel: Option<Selection>, fault: Fault)
      returns (r: Result<SlateV, Error>)
      modifies this
      ensures Step(V(), r) == Spec.FinalizeTx(rules, old(V()), slate, sel, fault)
    {
      if slate.id !in contexts { return Err(ContextNotFound); }
      var ctx := contexts[slate.id];
      if Expired(V(), slate) { return Err(TransactionExpired); }
      if slate.state == Invoice2 {
        r := FinalizeInvoiceTx(rules, slate, ctx, fault);
      } else if slate.state == Standard2 {
        var locked := LateLockTx(rules, slate, ctx, sel, fault);
        match locked {
          case Err(e) => r := Err(e);
          case Ok(ctx1) => r := FinalizeStandardTx(rules, slate, ctx1, fault);
        }
      } else {
        r := Err(WrongSlateState);
      }
    }

    method FinalizeInvoiceTx(rules: Rules, slate: SlateV, ctx: Context, fault: Fault) returns (r: Result<SlateV, Error>)
      modifies this
      ensures Step(V(), r) == FinalizeInvoice(rules, old(V()), slate, ctx, fault)
    {
      var sl := new Slate(slate);
      sl.AdjustOffset(kc, ctx);
      var own := ctx.(secKey := ctx.initialSecKey, secNonce := ctx.initialSecNonce);
      var error := RepopulateTx(rules, sl, own, false);
      if error.Some? { return Err(error.value); }
      error := CompleteTx(rules, sl, ctx);
      if error.Some? { return Err(error.value); }
      r := ConcludeTx(sl, Invoice3, received, fault);
    }

    method FinalizeStandardTx(rules: Rules, slate: SlateV, ctx: Context, fault: Fault)
      returns (r: Result<SlateV, Error>)
      modifies this
      ensures Step(V(), r) == FinalizeStandard(rules, old(V()), slate, ctx, fault)
    {
      var sl := new Slate(slate);
      sl.AdjustOffset(kc, ctx);
      var error := RepopulateTx(rules, sl, ctx, true);
      if error.Some? { return Err(error.value); }
      error := CompleteTx(rules, sl, ctx);
      if error.Some? { return Err(error.value); }
      r := ConcludeTx(sl, Standard3, sent, fault);
    }

    method LateLockTx(rules: Rules, slate: SlateV, ctx: Context, sel: Option<Selection>, fault: Fault)
      returns (r: Result<Context, Error>)
      modifies this
      ensures (V(), r) == LateLock(rules, old(V()), slate, ctx, sel, slate.version, fault)
    {
      if !ctx.lateLock { return Ok(ctx); }
      var temp := new Slate(BlankSlate(0, false, ctx.amount, 0, slate.version));
      var fixedFee := if ctx.fee.Some? then ctx.fee.value else 0;
      var chosen := BuildSendTx(rules, temp, sel, Keys(0, 0), false, Some(fixedFee));
      match chosen {
        case Err(e) => r := Err(e);
        case Ok(c) =>
          var ctx1 := ctx.(lateLock := false, inputIds := c.inputIds, outputIds := c.outputIds);
          if fault == AtSaveContext { return Err(Backend); }
          contexts := contexts[slate.id := ctx1];
          if fault == AtLock { return Err(Backend); }
          var error := TxLockOutputs(rules, slate);
          if error.Some? { return Err(error.value); }
          r := if fault == AtStoreTx then Err(Backend) else Ok(ctx1);
      }
    }

    method ConcludeTx(sl: Slate, state: SlateState, logged: set<SlateId>, fault: Fault)
      returns (r: Result<SlateV, Error>)
      modifies this, sl
      ensures Step(V(), r) == Conclude(old(V()), old(sl.V()), state, logged, fault)
    {
      if sl.id !in logged { return Err(TransactionDoesntExist); }
      if fault == AtUpdateStored || fault == AtDelete { return Err(Backend); }
      contexts := contexts - {sl.id};
      sl.state := state;
      sl.amount := 0;
      r := if fault == AtStateUpdate || fault == AtPost then Err(Backend) else Ok(sl.V());
    }
  }
}
