/** Which inputs and outputs a finalised transaction has: those that came with the slate, and of the wallet's
    own exactly the ones it has records of, each spent as what its record says it is. */
module FinalisedElements {
  import opened Wrappers
  import opened SlateTypes
  import opened SlateSpec
  import opened ExchangeSpec
  import opened ExchangeGuards
  import opened Retries

  // ---------- Elements of a context ----------

  /** The input spends an element of the list that has a record, under the record's coinbase flag. */
  ghost predicate Spent(kc: Keychain, flags: map<KeyId, bool>, es: seq<Elem>, i: Input) {
    exists e :: e in es && e.id in flags && i.coinbase == flags[e.id]
                && i.commit.value == e.amount && i.commit.blind == (kc.derive)(e.amount, e.id)
  }

  /** The output is plain, commits to an element of the list that has a record, and proves its range. */
  ghost predicate Paid(kc: Keychain, flags: map<KeyId, bool>, es: seq<Elem>, o: Output) {
    && !o.coinbase && o.proof == (kc.prove)(o.commit)
    && exists e :: e in es && e.id in flags
                   && o.commit.value == e.amount && o.commit.blind == (kc.derive)(e.amount, e.id)
  }

  lemma {:induction false} FoundAre(w: WalletV, es: seq<Elem>, e: Elem)
    ensures e in Found(w, es) <==> e in es && e.id in w.records
  {
    if es != [] { FoundAre(w, es[1..], e); }
  }

  lemma InputsAre(w: WalletV, es: seq<Elem>, i: Input)
    ensures i in InputsOf(w, es) <==> Spent(w.kc, w.records, es, i)
  {
    hide Found;
    forall e ensures e in Found(w, es) <==> e in es && e.id in w.records { FoundAre(w, es, e); }
    if Spent(w.kc, w.records, es, i) {
      var e :| e in es && e.id in w.records && i.coinbase == w.records[e.id]
               && i.commit.value == e.amount && i.commit.blind == (w.kc.derive)(e.amount, e.id);
      assert e in Found(w, es) && InputOf(w, e) == i;
    }
  }

  lemma OutputsAre(w: WalletV, es: seq<Elem>, o: Output)
    ensures o in OutputsOf(w, es) <==> Paid(w.kc, w.records, es, o)
  {
    hide Found;
    forall e ensures e in Found(w, es) <==> e in es && e.id in w.records { FoundAre(w, es, e); }
    if Paid(w.kc, w.records, es, o) {
      var e :| e in es && e.id in w.records
               && o.commit.value == e.amount && o.commit.blind == (w.kc.derive)(e.amount, e.id);
      assert e in Found(w, es) && OutputOf(w.kc, e) == o;
    }
  }

  /** What a wallet puts into a body: the elements of the context on top of what was there. */
  ghost predicate Extends(kc: Keychain, flags: map<KeyId, bool>, ins: seq<Elem>, outs: seq<Elem>, old_: Tx, new_: Tx) {
    && (forall i :: i in new_.inputs <==> i in old_.inputs || Spent(kc, flags, ins, i))
    && (forall o :: o in new_.outputs <==> o in old_.outputs || Paid(kc, flags, outs, o))
  }

  lemma RepopulatedElements(rules: Rules, w: WalletV, s: SlateV, ctx: Context, updateFee: bool)
    requires Repopulate(rules, w, s, ctx, updateFee).Ok?
    ensures var t := Repopulate(rules, w, s, ctx, updateFee).value;
      && s.tx.Some? && t.tx.Some? && Extends(w.kc, w.records, ctx.inputIds, ctx.outputIds, s.tx.value, t.tx.value)
      && t.tx.value.kernel.Some? && t.tx.value.kernel.value.features.fee == t.fee
      && t.amount == ctx.amount && t.fee == if updateFee then ctx.fee.value else s.fee
  {
    hide InputsOf, OutputsOf, WithParticipant;
    forall i ensures i in InputsOf(w, ctx.inputIds) <==> Spent(w.kc, w.records, ctx.inputIds, i)
      { InputsAre(w, ctx.inputIds, i); }
    forall o ensures o in OutputsOf(w, ctx.outputIds) <==> Paid(w.kc, w.records, ctx.outputIds, o)
      { OutputsAre(w, ctx.outputIds, o); }
  }

  lemma CompletedElements(rules: Rules, s: SlateV, ctx: Context)
    requires CompleteTx(rules, s, ctx).Ok?
    ensures var t := CompleteTx(rules, s, ctx).value;
      && s.tx.Some? && t.tx.Some? && s.tx.value.kernel.Some? && t.tx.value.kernel.Some?
      && t.tx.value.inputs == s.tx.value.inputs && t.tx.value.outputs == s.tx.value.outputs
      && t.tx.value.offset == s.tx.value.offset
      && t.tx.value.kernel.value.features == s.tx.value.kernel.value.features
  {
    hide SigningOf, CheckShares, StoreShare, SumPoints, Balanced, NoCutThrough, KernelVerifies;
  }

  // ---------- Finalisation ----------

  /** The coinbase flags at the time the transaction is put together: change chosen late has just been
      recorded. */
  ghost predicate FlagsAt(w: WalletV, late: bool, ctx: Context, flags: map<KeyId, bool>) {
    forall k :: (k in flags <==> k in w.records || (late && IsIdIn(ctx.outputIds, k)))
             && (k in flags ==> flags[k] == (!(late && IsIdIn(ctx.outputIds, k)) && w.records[k]))
  }

  /** Whatever slate, context and wallet: the elements of a transaction that is finalised. */
  lemma FinalizedElements(rules: Rules, w: WalletV, s: SlateV, sel: Option<Selection>, fault: Fault)
    requires FinalizeTx(rules, w, s, sel, fault).r.Ok?
    ensures s.id in w.contexts && s.tx.Some?
    ensures var done, standard := FinalizeTx(rules, w, s, sel, fault).r.value, s.state == Standard2;
      var ctx := if standard then Used(w.contexts[s.id], sel) else w.contexts[s.id];
      && done.tx.Some?
      && exists flags: map<KeyId, bool> :: FlagsAt(w, standard && w.contexts[s.id].lateLock, ctx, flags)
           && Extends(w.kc, flags, ctx.inputIds, ctx.outputIds, s.tx.value, done.tx.value)
  {
    hide Repopulate, CompleteTx, LateLock, Conclude, Extends;
    FinalizeGuards(rules, w, s, sel, fault);
    var ctx := w.contexts[s.id];
    if s.state == Invoice2 {
      var own := ctx.(secKey := ctx.initialSecKey, secNonce := ctx.initialSecNonce);
      var adjusted := AdjustOffset(w.kc, s, ctx);
      ConcludedElements(rules, w, adjusted, ctx, own, false, Invoice3, w.received, fault);
      assert FlagsAt(w, false, ctx, w.records);
    } else {
      LateLockGuardsIf(rules, w, s, ctx, sel, fault);
      var (w1, r) := LateLock(rules, w, s, ctx, sel, s.version, fault);
      var adjusted := AdjustOffset(w1.kc, s, r.value);
      ConcludedElements(rules, w1, adjusted, r.value, r.value, true, Standard3, w1.sent, fault);
      assert FlagsAt(w, ctx.lateLock, r.value, w1.records);
    }
  }

  lemma ConcludedElements(rules: Rules, w: WalletV, s: SlateV, ctx: Context, own: Context, updateFee: bool,
                          state: SlateState, logged: set<SlateId>, fault: Fault)
    requires Repopulate(rules, w, s, own, updateFee).Ok?
    requires CompleteTx(rules, Repopulate(rules, w, s, own, updateFee).value, ctx).Ok?
    requires Conclude(w, CompleteTx(rules, Repopulate(rules, w, s, own, updateFee).value, ctx).value, state, logged,
                      fault).r.Ok?
    ensures var done := Conclude(w, CompleteTx(rules, Repopulate(rules, w, s, own, updateFee).value, ctx).value, state,
                                 logged, fault).r.value;
      s.tx.Some? && done.tx.Some? && Extends(w.kc, w.records, own.inputIds, own.outputIds, s.tx.value, done.tx.value)
  {
    RepopulatedElements(rules, w, s, own, updateFee);
    var t := Repopulate(rules, w, s, own, updateFee).value;
    CompletedElements(rules, t, ctx);
    ConcludeGuards(w, CompleteTx(rules, t, ctx).value, state, logged, fault);
    hide Repopulate, CompleteTx, Conclude;
  }

  /** The context finalised with, and the records by then. */
  lemma LateLockGuardsIf(rules: Rules, w: WalletV, s: SlateV, ctx: Context, sel: Option<Selection>, fault: Fault)
    requires s.id in w.contexts && w.contexts[s.id] == ctx
    ensures var (after, r) := LateLock(rules, w, s, ctx, sel, s.version, fault);
      r.Ok? ==> r.value == Used(ctx, sel) && after.kc == w.kc && FlagsAt(w, ctx.lateLock, r.value, after.records)
  {
    if ctx.lateLock { LateLockGuards(rules, w, s, ctx, sel, fault); }
    hide KernelMessage, LockOutputs, AllOutputs;
  }
}
