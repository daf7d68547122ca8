/** Repeated attempts to finalise one slate, each of which may be cut short by a failing write:
    what happens to the stored context, and what the offset of a success is made of. */
module Retries {
  import opened Wrappers
  import opened Scalars
  import opened SlateTypes
  import opened SlateSpec
  import opened ExchangeSpec

  /** One call of `finalize_tx`, from the wallet it found. */
  datatype Attempt = Attempt(w: WalletV, slate: SlateV, sel: Option<Selection>, fault: Fault)

  ghost function After(rules: Rules, a: Attempt): Step {
    FinalizeTx(rules, a.w, a.slate, a.sel, a.fault)
  }

  function ContextAt(w: WalletV, id: SlateId): Option<Context> {
    if id in w.contexts then Some(w.contexts[id]) else None
  }

  /** Attempts on one slate id. Between two of them the wallet may do anything except touch the
      context of that slate. */
  ghost predicate Run(rules: Rules, id: SlateId, run: seq<Attempt>) {
    && (forall i | 0 <= i < |run| :: run[i].slate.id == id)
    && (forall i | 0 <= i < |run| - 1 ::
          ContextAt(run[i + 1].w, id) == ContextAt(After(rules, run[i]).w, id) && run[i + 1].w.kc == run[i].w.kc)
  }

  /** How far a context has come: inputs still to be chosen, chosen, or consumed. */
  function Stage(c: Option<Context>): nat {
    if c == None then 2 else if c.value.lateLock then 0 else 1
  }

  /** A context as late locking leaves it. */
  function Chosen(ctx: Context, sel: Selection): Context {
    ctx.(lateLock := false, inputIds := sel.inputs, outputIds := sel.change)
  }

  /** The context an attempt settles with. */
  function Used(ctx: Context, sel: Option<Selection>): Context {
    if ctx.lateLock && sel.Some? then Chosen(ctx, sel.value) else ctx
  }

  lemma ConcludeEffect(w: WalletV, s: SlateV, state: SlateState, logged: set<SlateId>, fault: Fault)
    ensures var after := Conclude(w, s, state, logged, fault);
      && (ContextAt(after.w, s.id) == ContextAt(w, s.id) || ContextAt(after.w, s.id) == None)
      && (after.r.Ok? ==>
          ContextAt(after.w, s.id) == None && after.r.value.offset == s.offset && after.r.value.state == state)
  {
  }

  lemma CompleteKeepsOffset(rules: Rules, s: SlateV, ctx: Context)
    ensures var r := CompleteTx(rules, s, ctx); r.Ok? ==> r.value.offset == s.offset && r.value.id == s.id
  {
    hide SigningOf, CheckShares, StoreShare, CheckFees, SumPoints, Balanced, NoCutThrough;
  }

  lemma RepopulateKeepsOffset(rules: Rules, w: WalletV, s: SlateV, ctx: Context, updateFee: bool)
    ensures var r := Repopulate(rules, w, s, ctx, updateFee); r.Ok? ==> r.value.offset == s.offset && r.value.id == s.id
  {
  }

  lemma StandardEffect(rules: Rules, w: WalletV, s: SlateV, ctx: Context, fault: Fault)
    ensures var after := FinalizeStandard(rules, w, s, ctx, fault);
      && (ContextAt(after.w, s.id) == ContextAt(w, s.id) || ContextAt(after.w, s.id) == None)
      && (after.r.Ok? ==> ContextAt(after.w, s.id) == None && after.r.value.offset == AdjustOffset(w.kc, s, ctx).offset)
  {
    hide Repopulate, CompleteTx, Conclude;
    var adjusted := AdjustOffset(w.kc, s, ctx);
    RepopulateKeepsOffset(rules, w, adjusted, ctx, true);
    var r := Repopulate(rules, w, adjusted, ctx, true);
    if r.Ok? {
      CompleteKeepsOffset(rules, r.value, ctx);
      var done := CompleteTx(rules, r.value, ctx);
      if done.Ok? { ConcludeEffect(w, done.value, Standard3, w.sent, fault); }
    }
  }

  lemma InvoiceEffect(rules: Rules, w: WalletV, s: SlateV, ctx: Context, fault: Fault)
    ensures var after := FinalizeInvoice(rules, w, s, ctx, fault);
      && (ContextAt(after.w, s.id) == ContextAt(w, s.id) || ContextAt(after.w, s.id) == None)
      && (after.r.Ok? ==> ContextAt(after.w, s.id) == None && after.r.value.offset == AdjustOffset(w.kc, s, ctx).offset)
  {
    hide Repopulate, CompleteTx, Conclude;
    var own := ctx.(secKey := ctx.initialSecKey, secNonce := ctx.initialSecNonce);
    var adjusted := AdjustOffset(w.kc, s, ctx);
    RepopulateKeepsOffset(rules, w, adjusted, own, false);
    var r := Repopulate(rules, w, adjusted, own, false);
    if r.Ok? {
      CompleteKeepsOffset(rules, r.value, ctx);
      var done := CompleteTx(rules, r.value, ctx);
      if done.Ok? { ConcludeEffect(w, done.value, Invoice3, w.received, fault); }
    }
  }

  lemma LateLockEffect(rules: Rules, w: WalletV, s: SlateV, sel: Option<Selection>, fault: Fault)
    requires s.id in w.contexts
    ensures var ctx := w.contexts[s.id];
      var (after, r) := LateLock(rules, w, s, ctx, sel, s.version, fault);
      && after.kc == w.kc
      && (ContextAt(after, s.id) == Some(ctx) || (ctx.lateLock && sel.Some?
          && ContextAt(after, s.id) == Some(Used(ctx, sel))))
      && (r.Ok? ==> r.value == Used(ctx, sel) && ContextAt(after, s.id) == Some(r.value))
  {
    hide AddElements, Repopulate, HasAll;
  }

  /** What one attempt does to the context of its slate: it stays, has its inputs chosen, or is
      consumed; and only a success reports an offset, made from the incoming slate's by one
      adjustment. */
  lemma OneAttempt(rules: Rules, a: Attempt)
    ensures var before, after := ContextAt(a.w, a.slate.id), ContextAt(After(rules, a).w, a.slate.id);
      match before
      case None => After(rules, a) == Step(a.w, Err(ContextNotFound))
      case Some(ctx) =>
        && (after == before || after == None
            || (a.slate.state == Standard2 && ctx.lateLock && a.sel.Some? && after == Some(Chosen(ctx, a.sel.value))))
        && (After(rules, a).r.Ok? ==>
              && after == None
              && (a.slate.state == Standard2 || a.slate.state == Invoice2)
              && After(rules, a).r.value.offset
                 == AdjustOffset(a.w.kc, a.slate, if a.slate.state == Standard2 then Used(ctx, a.sel) else ctx).offset)
  {
    hide FinalizeStandard, FinalizeInvoice, LateLock, AdjustOffset;
    var w, s := a.w, a.slate;
    if s.id in w.contexts && !Expired(w, s) {
      var ctx := w.contexts[s.id];
      if s.state == Invoice2 {
        InvoiceEffect(rules, w, s, ctx, a.fault);
      } else if s.state == Standard2 {
        LateLockEffect(rules, w, s, a.sel, a.fault);
        var (w1, r) := LateLock(rules, w, s, ctx, a.sel, s.version, a.fault);
        if r.Ok? { StandardEffect(rules, w1, s, r.value, a.fault); }
      }
    }
  }

  /** Along a run a context only moves forward, and once its inputs are chosen it does not
      change until it is consumed. */
  lemma {:induction false} OnlyForward(rules: Rules, id: SlateId, run: seq<Attempt>, i: nat, j: nat)
    requires Run(rules, id, run) && i <= j < |run|
    ensures Stage(ContextAt(run[i].w, id)) <= Stage(ContextAt(run[j].w, id))
    ensures Stage(ContextAt(run[i].w, id)) == Stage(ContextAt(run[j].w, id)) ==>
      ContextAt(run[i].w, id) == ContextAt(run[j].w, id)
    ensures run[i].w.kc == run[j].w.kc
  {
    hide After;
    if i < j {
      OnlyForward(rules, id, run, i, j - 1);
      OneAttempt(rules, run[j - 1]);
      assert run[j - 1].slate.id == id && ContextAt(run[j - 1 + 1].w, id) == ContextAt(After(rules, run[j - 1]).w, id);
    }
  }

  predicate Consumes(before: Option<Context>, after: Option<Context>) {
    before.Some? && after == None
  }

  predicate Chooses(before: Option<Context>, after: Option<Context>) {
    before.Some? && before.value.lateLock && after.Some? && !after.value.lateLock
  }

  /** The context is consumed at most once; every attempt after that fails and changes nothing. */
  lemma ConsumedAtMostOnce(rules: Rules, id: SlateId, run: seq<Attempt>, i: nat, j: nat)
    requires Run(rules, id, run) && i < j < |run|
    requires Consumes(ContextAt(run[i].w, id), ContextAt(After(rules, run[i]).w, id))
    ensures After(rules, run[j]) == Step(run[j].w, Err(ContextNotFound))
    ensures !Consumes(ContextAt(run[j].w, id), ContextAt(After(rules, run[j]).w, id))
  {
    hide After;
    assert ContextAt(run[i + 1].w, id) == None;
    OnlyForward(rules, id, run, i + 1, j);
    assert run[j].slate.id == id;
    OneAttempt(rules, run[j]);
  }

  /** A selection stored by one attempt is the one every later attempt works with; none stores
      another. */
  lemma ChosenAtMostOnce(rules: Rules, id: SlateId, run: seq<Attempt>, i: nat, j: nat)
    requires Run(rules, id, run) && i < j < |run|
    requires Chooses(ContextAt(run[i].w, id), ContextAt(After(rules, run[i]).w, id))
    ensures !Chooses(ContextAt(run[j].w, id), ContextAt(After(rules, run[j]).w, id))
    ensures ContextAt(run[j].w, id).Some? ==> ContextAt(run[j].w, id) == ContextAt(After(rules, run[i]).w, id)
  {
    hide After;
    assert ContextAt(run[i + 1].w, id) == ContextAt(After(rules, run[i]).w, id);
    OnlyForward(rules, id, run, i + 1, j);
  }

  /** Whatever failed before, a success adjusts the offset of the slate it was given exactly
      once, by the key and the elements of the stored context. */
  lemma SuccessAdjustsOnce(rules: Rules, id: SlateId, run: seq<Attempt>, i: nat, j: nat)
    requires Run(rules, id, run) && i < j < |run|
    requires Chooses(ContextAt(run[i].w, id), ContextAt(After(rules, run[i]).w, id))
    requires After(rules, run[j]).r.Ok?
    ensures var ctx := ContextAt(After(rules, run[i]).w, id).value;
      After(rules, run[j]).r.value.offset
      == Norm(run[j].slate.offset - ctx.initialSecKey + ContextBlind(run[i].w.kc, ctx))
  {
    hide After;
    assert run[j].slate.id == id;
    OneAttempt(rules, run[j]);
    ChosenAtMostOnce(rules, id, run, i, j);
    OnlyForward(rules, id, run, i, j);
  }
}
