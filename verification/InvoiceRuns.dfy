/** Complete runs of the invoice flow, between two wallets and within one. */
module InvoiceRuns {
  import opened Wrappers
  import opened Scalars
  import opened Sums
  import opened SlateTypes
  import opened SlateSpec
  import opened SigningLaws
  import opened ExchangeSpec
  import opened ExchangeLaws
  import opened StandardRuns

  // ---------- The books ----------

  /** The inputs and change of the payer and the output of the issuer, summed up. */
  lemma InvoiceSums(wp: WalletV, kcI: Keychain, out: Elem, sel: Selection, ins: set<Input>, outs: set<Output>)
    requires ins == InputsOf(wp, sel.inputs) && outs == AllOutputs(wp.kc, sel.change) + {OutputOf(kcI, out)}
    requires HasAll(wp, sel.inputs) && DistinctCommitments(wp.kc, sel, kcI, out)
    ensures |ins| == |sel.inputs| && |outs| == 1 + |sel.change|
    ensures SumSet(ins, InputBlind) == SumBy(sel.inputs, BlindOf(wp.kc))
            && SumSet(ins, InputValue) == SumBy(sel.inputs, AmountOf)
    ensures SumSet(outs, OutputBlind) == SumBy(sel.change, BlindOf(wp.kc)) + BlindOf(kcI)(out)
    ensures SumSet(outs, OutputValue) == SumBy(sel.change, AmountOf) + out.amount
    ensures forall i, o :: i in ins && o in outs ==> i.commit != o.commit
  {
    hide SumBy, SumSet, Found, InputsOf, AllOutputs, Commits;
    var spent, change, last := Commits(wp.kc, sel.inputs), Commits(wp.kc, sel.change), [CommitOf(kcI, out)];
    DistinctParts(spent, change + last);
    DistinctParts(change, last);
    assert last[0] in last;
    FoundAll(wp, sel.inputs);
    InputSums(wp, sel.inputs);
    OutputSums(wp.kc, sel.change);
    var rest, o := AllOutputs(wp.kc, sel.change), OutputOf(kcI, out);
    assert o !in rest;
    SumSetAdd(rest, o, OutputBlind);
    SumSetAdd(rest, o, OutputValue);
    forall i, p | i in ins && p in outs ensures i.commit != p.commit {
      assert p.commit in change + last;
    }
  }

  /** Inputs and change of the payer and the output of the issuer, under an offset that took in
      each of them once, settle the payment. */
  lemma InvoiceBalances(tx: Tx, wp: WalletV, kcI: Keychain, out: Elem, a: Keys, b: Keys, sel: Selection, ctxBlind: int)
    requires tx.inputs == InputsOf(wp, sel.inputs)
    requires tx.outputs == AllOutputs(wp.kc, sel.change) + {OutputOf(kcI, out)}
    requires ctxBlind == SumBy(sel.change, BlindOf(wp.kc)) - SumBy(sel.inputs, BlindOf(wp.kc)) + BlindOf(kcI)(out)
    requires Norm(Norm(a.key + b.key) + tx.offset) == Norm(ctxBlind)
    requires Spends(sel, out.amount) && HasAll(wp, sel.inputs)
    requires DistinctCommitments(wp.kc, sel, kcI, out)
    ensures |tx.inputs| == |sel.inputs| && |tx.outputs| == 1 + |sel.change|
    ensures NoCutThrough(tx) && Balanced(tx, Kernel(Plain(sel.fee), Norm(a.key + b.key), Sig(0, 0)))
  {
    hide SumBy, SumSet, InputsOf, AllOutputs, DistinctCommitments;
    InvoiceSums(wp, kcI, out, sel, tx.inputs, tx.outputs);
  }

  /** Without the issuer's output, its record being gone at finalisation, the same books balance exactly
      when that output's commitment is nothing. */
  lemma BalancesIffOutputIsNothing(tx: Tx, wp: WalletV, kcI: Keychain, out: Elem, a: Keys, b: Keys, sel: Selection,
                                   ctxBlind: int)
    requires tx.inputs == InputsOf(wp, sel.inputs) && tx.outputs == AllOutputs(wp.kc, sel.change)
    requires ctxBlind == SumBy(sel.change, BlindOf(wp.kc)) - SumBy(sel.inputs, BlindOf(wp.kc)) + BlindOf(kcI)(out)
    requires Norm(Norm(a.key + b.key) + tx.offset) == Norm(ctxBlind)
    requires Spends(sel, out.amount) && HasAll(wp, sel.inputs)
    requires DistinctCommitments(wp.kc, sel, kcI, out)
    ensures Balanced(tx, Kernel(Plain(sel.fee), Norm(a.key + b.key), Sig(0, 0)))
       <==> Norm(BlindOf(kcI)(out)) == 0 && out.amount == 0
  {
    hide SumBy, SumSet, InputsOf, AllOutputs, DistinctCommitments;
    var o := OutputOf(kcI, out);
    var outs := tx.outputs + {o};
    InvoiceSums(wp, kcI, out, sel, tx.inputs, outs);
    OutputIsNew(wp.kc, kcI, out, sel);
    SumSetAdd(tx.outputs, o, OutputBlind);
    SumSetAdd(tx.outputs, o, OutputValue);
    NormEq(ctxBlind, ctxBlind - BlindOf(kcI)(out));
  }

  lemma OutputIsNew(kc: Keychain, kcI: Keychain, out: Elem, sel: Selection)
    requires DistinctCommitments(kc, sel, kcI, out)
    ensures OutputOf(kcI, out) !in AllOutputs(kc, sel.change)
  {
    var spent, change, last := Commits(kc, sel.inputs), Commits(kc, sel.change), [CommitOf(kcI, out)];
    DistinctParts(spent, change + last);
    DistinctParts(change, last);
    assert last[0] in last;
    OutputSums(kc, sel.change);
  }

  // ---------- The steps ----------

  /** What the issuer sends out. */
  function Issued(blank: SlateV, a: Keys): SlateV {
    blank.(tx := None, participants := [Participant(a.key, a.nonce, None)])
  }

  function IssuerContext(a: Keys, out: Elem): Context {
    NewContext(a).(outputIds := [out], amount := out.amount)
  }

  lemma IssuingStep(rules: Rules, w: WalletV, blank: SlateV, a: Keys, outId: KeyId)
    requires blank == BlankSlate(blank.id, true, blank.amount, blank.ttl, blank.version)
    ensures IssueInvoice(rules, w, blank, a, outId)
         == Step(SaveContext(AddRecipient(w, blank.id, outId), blank.id,
             IssuerContext(a, Elem(outId, None, blank.amount))),
                 Ok(Issued(blank, a)))
  {
    var out := Elem(outId, None, blank.amount);
    JoinEmpty(a.key, a.nonce);
    RecipientElements(rules, w.kc, blank, out);
    assert blank.(tx := Some(EMPTY_TX)) == blank;
  }

  /** What the payer sends back. */
  function Paid(rules: Rules, s: SlateV, a: Keys, b: Keys, fee: nat, offset: Scalar, ins: set<Input>,
                outs: set<Output>): SlateV {
    s.(amount := 0, fee := fee, state := Invoice2, offset := offset,
       tx := Some(Tx(ins, outs, Some(Kernel(Plain(fee), 0, Sig(0, 0))), offset)),
       participants := [Participant(b.key, b.nonce, Share(rules, a, b, fee, b))])
  }

  /** The payer's slate after adding change, keys and share. */
  function PayerSigned(rules: Rules, s: SlateV, kc: Keychain, a: Keys, b: Keys, sel: Selection): SlateV {
    s.(fee := sel.fee,
       tx := Some(Tx({}, AllOutputs(kc, sel.change), Some(Kernel(Plain(sel.fee), 0, Sig(0, 0))), 0)),
       participants := [Participant(a.key, a.nonce, None), Participant(b.key, b.nonce, Share(rules, a, b, sel.fee, b))])
  }

  lemma PayerAddsInputs(rules: Rules, kc: Keychain, s: SlateV, blank: SlateV, sel: Selection, a: Keys, b: Keys)
    requires blank == BlankSlate(blank.id, true, blank.amount, blank.ttl, blank.version) && s == Issued(blank, a)
    requires Compatible(a, b)
    ensures AddInputs(rules, kc, s.(tx := Some(EMPTY_TX)), Some(sel), b, false, false)
         == Ok((PayerSigned(rules, s, kc, a, b, sel), SenderContext(b, sel, s.amount)))
  {
    hide AllOutputs, FillRounds, Compatible;
    var outs := AllOutputs(kc, sel.change);
    assert EMPTY_TX.inputs + {} == {} && EMPTY_TX.outputs + outs == outs;
    var built := s.(fee := sel.fee, tx := Some(Tx({}, outs, Some(Kernel(Plain(sel.fee), 0, Sig(0, 0))), 0)));
    assert BuildSend(rules, kc, s.(tx := Some(EMPTY_TX)), Some(sel), b, false, None)
        == Ok((built, SenderContext(b, sel, s.amount)));
    ResponderSigns(rules, built, SenderContext(b, sel, s.amount), a, b);
  }

  /** Putting the payer's elements back changes only inputs and outputs, and the amount. */
  lemma PayerRepopulates(rules: Rules, w: WalletV, s: SlateV, ctx: Context, a: Keys, b: Keys, sel: Selection,
                         kcOffset: Scalar)
    requires Compatible(a, b) && s.kernelFeatures == 0
    requires ctx.secKey == b.key && ctx.secNonce == b.nonce
    ensures var signed := PayerSigned(rules, s, w.kc, a, b, sel).(offset := kcOffset);
      Repopulate(rules, w, signed, ctx, false)
      == Ok(signed.(amount := ctx.amount,
                    tx := Some(Tx(InputsOf(w, ctx.inputIds), AllOutputs(w.kc, sel.change) + OutputsOf(w, ctx.outputIds),
                                  Some(Kernel(Plain(sel.fee), 0, Sig(0, 0))), kcOffset))))
  {
    hide AllOutputs, OutputsOf, InputsOf, WithParticipant, Compatible;
    PairsDiffer(a, b);
    KeepSecond(Participant(a.key, a.nonce, None), Participant(b.key, b.nonce, Share(rules, a, b, sel.fee, b)), b.key,
        b.nonce);
    assert {} + InputsOf(w, ctx.inputIds) == InputsOf(w, ctx.inputIds);
  }

  lemma PayerReturns(rules: Rules, s: SlateV, ctx: Context, a: Keys, b: Keys)
    requires Compatible(a, b) && ctx.secKey == b.key && ctx.secNonce == b.nonce
    requires s.participants == [Participant(a.key, a.nonce, None),
             Participant(b.key, b.nonce, Share(rules, a, b, s.fee, b))]
    ensures Return(s, ctx, Invoice2) == s.(amount := 0, state := Invoice2, participants := [s.participants[1]])
  {
    KeepSecond(s.participants[0], s.participants[1], b.key, b.nonce);
  }

  /** Paying someone else's invoice: the payer settles its inputs and change in the offset now. */
  lemma PayingStep(rules: Rules, w: WalletV, s: SlateV, blank: SlateV, sel: Selection, a: Keys, b: Keys)
    requires blank == BlankSlate(blank.id, true, blank.amount, blank.ttl, blank.version) && s == Issued(blank, a)
    requires Compatible(a, b) && !Expired(w, s) && s.id !in w.sent && s.id !in w.sentCancelled
    requires s.id !in w.contexts
    ensures var blind := SumBy(sel.change, BlindOf(w.kc)) - SumBy(sel.inputs, BlindOf(w.kc));
      ProcessInvoice(rules, w, s, Some(sel), b)
      == Step(SaveContext(w, s.id, PayerContext(SenderContext(b, sel, s.amount), Norm(a.key + b.key), None)),
              Ok(Paid(rules, s, a, b, sel.fee, Norm(0 - b.key + blind), InputsOf(w, sel.inputs),
                      AllOutputs(w.kc, sel.change) + OutputsOf(w, sel.change))))
  {
    hide AddInputs, Repopulate, Return, AllOutputs, OutputsOf, InputsOf, WithParticipant, Compatible;
    var ctx := SenderContext(b, sel, s.amount);
    var signed := PayerSigned(rules, s, w.kc, a, b, sel);
    PayerAddsInputs(rules, w.kc, s, blank, sel, a, b);
    var adjusted := PayerOffset(w.kc, signed, ctx, None);
    ExcessKnown(adjusted, a, b, Share(rules, a, b, sel.fee, b));
    var ctx1 := PayerContext(ctx, Norm(a.key + b.key), None);
    PayerRepopulates(rules, w, s, ctx1, a, b, sel, adjusted.offset);
    PayerReturns(rules, Repopulate(rules, w, adjusted, ctx1, false).value, ctx1, a, b);
  }

  lemma ExcessKnown(s: SlateV, a: Keys, b: Keys, sig: Option<Sig>)
    requires Compatible(a, b)
    requires s.participants == [Participant(a.key, a.nonce, None), Participant(b.key, b.nonce, sig)]
    ensures SumPoints(s.participants, ExcessOf) == Ok(Norm(a.key + b.key))
  {
    SumTwo(s.participants[0], s.participants[1], ExcessOf);
  }

  /** Paying with a context stored for the slate, whosever it is: only the key goes into the offset, and
      the stored context is merged in. */
  lemma MergedPayingStep(rules: Rules, w: WalletV, s: SlateV, blank: SlateV, sel: Selection, a: Keys, b: Keys)
    requires blank == BlankSlate(blank.id, true, blank.amount, blank.ttl, blank.version) && s == Issued(blank, a)
    requires Compatible(a, b) && !Expired(w, s) && s.id !in w.sent && s.id !in w.sentCancelled
    requires s.id in w.contexts
    ensures var stored := w.contexts[s.id];
      var ctx := PayerContext(SenderContext(b, sel, s.amount), Norm(a.key + b.key), Some(stored));
      ProcessInvoice(rules, w, s, Some(sel), b)
      == Step(SaveContext(w, s.id, ctx),
              Ok(Paid(rules, s, a, b, sel.fee, Norm(0 - b.key), InputsOf(w, sel.inputs + stored.inputIds),
                      AllOutputs(w.kc, sel.change) + OutputsOf(w, sel.change + stored.outputIds))))
  {
    hide AddInputs, Repopulate, Return, AllOutputs, OutputsOf, InputsOf, WithParticipant, Compatible;
    var ctx, stored := SenderContext(b, sel, s.amount), Some(w.contexts[s.id]);
    var signed := PayerSigned(rules, s, w.kc, a, b, sel);
    PayerAddsInputs(rules, w.kc, s, blank, sel, a, b);
    var adjusted := PayerOffset(w.kc, signed, ctx, stored);
    ExcessKnown(adjusted, a, b, Share(rules, a, b, sel.fee, b));
    var merged := PayerContext(ctx, Norm(a.key + b.key), stored);
    PayerRepopulates(rules, w, s, merged, a, b, sel, adjusted.offset);
    PayerReturns(rules, Repopulate(rules, w, adjusted, merged, false).value, merged, a, b);
  }

  /** Paying one's own invoice: the issuer's context is merged in, to be settled as a whole at
      finalisation. */
  lemma SelfPayingStep(rules: Rules, w: WalletV, s: SlateV, blank: SlateV, sel: Selection, a: Keys, b: Keys, out: Elem)
    requires blank == BlankSlate(blank.id, true, blank.amount, blank.ttl, blank.version) && s == Issued(blank, a)
    requires Compatible(a, b) && !Expired(w, s) && s.id !in w.sent && s.id !in w.sentCancelled
    requires s.id in w.contexts && w.contexts[s.id] == IssuerContext(a, out) && out.amount == s.amount
    ensures ProcessInvoice(rules, w, s, Some(sel), b)
      == Step(SaveContext(w, s.id, MergedContext(sel, a, b, out)),
              Ok(Paid(rules, s, a, b, sel.fee, Norm(0 - b.key), InputsOf(w, sel.inputs),
                      AllOutputs(w.kc, sel.change) + OutputsOf(w, sel.change + [out]))))
  {
    hide ProcessInvoice, AllOutputs, OutputsOf, InputsOf, Compatible;
    MergedPayingStep(rules, w, s, blank, sel, a, b);
    assert sel.inputs + [] == sel.inputs;
  }

  /** The issuer's side of finalising: it succeeds exactly when the assembled books are accepted. */
  lemma InvoiceClosingIff(rules: Rules, w: WalletV, s: SlateV, paid: SlateV, ctx: Context, a: Keys, b: Keys, fee: nat,
                          offset: Scalar, ins: set<Input>, outs: set<Output>, tx: Tx)
    requires paid == Paid(rules, s, a, b, fee, offset, ins, outs)
    requires s.kernelFeatures == 0 && s.numParticipants == 2 && s.id in w.received && Compatible(a, b)
    requires ctx.initialSecKey == a.key && ctx.initialSecNonce == a.nonce && CompletingKeys(ctx) == a
    requires tx == Tx(ins + InputsOf(w, ctx.inputIds), outs + OutputsOf(w, ctx.outputIds),
                      Some(Kernel(Plain(fee), 0, Sig(0, 0))), AdjustOffset(w.kc, paid, ctx).offset)
    ensures var done := FinalizeInvoice(rules, w, paid, ctx, NoFault);
      && (done.r.Ok? <==> Accepted(rules, tx, fee, Norm(a.key + b.key)))
      && (done.r.Ok? ==> Completed(rules, done, s.id, Invoice3, tx.inputs, tx.outputs, fee))
  {
    hide CompleteTx, Repopulate, Accepted, Settled, InputsOf, OutputsOf, Compatible;
    var own := ctx.(secKey := ctx.initialSecKey, secNonce := ctx.initialSecNonce);
    var adjusted := AdjustOffset(w.kc, paid, ctx);
    var ready := adjusted.(amount := ctx.amount, tx := Some(tx),
                           participants := [paid.participants[0], Participant(a.key, a.nonce, None)]);
    IssuerRepopulates(rules, w, adjusted, own, a, b, tx);
    FinalizerCompletesIff(rules, ready, ctx, a, b, tx);
  }

  lemma IssuerRepopulates(rules: Rules, w: WalletV, s: SlateV, own: Context, a: Keys, b: Keys, tx: Tx)
    requires Compatible(a, b) && own.secKey == a.key && own.secNonce == a.nonce && s.kernelFeatures == 0
    requires |s.participants| == 1 && IsEntry(s.participants[0], b.key, b.nonce) && s.tx.Some?
    requires tx == Tx(s.tx.value.inputs + InputsOf(w, own.inputIds), s.tx.value.outputs + OutputsOf(w, own.outputIds),
                      Some(Kernel(Plain(s.fee), 0, Sig(0, 0))), s.offset)
    ensures Repopulate(rules, w, s, own, false)
         == Ok(s.(amount := own.amount, tx := Some(tx),
                  participants := [s.participants[0], Participant(a.key, a.nonce, None)]))
  {
    hide InputsOf, OutputsOf;
    JoinList(s.participants[0], a.key, a.nonce);
    assert s.participants == [s.participants[0]];
  }

  lemma FinalizeAsIssuer(rules: Rules, w: WalletV, s: SlateV, sel: Option<Selection>, fault: Fault)
    requires s.id in w.contexts && !Expired(w, s) && s.state == Invoice2
    ensures FinalizeTx(rules, w, s, sel, fault) == FinalizeInvoice(rules, w, s, w.contexts[s.id], fault)
  {
    hide FinalizeStandard, FinalizeInvoice, LateLock;
  }

  lemma SumOne(e: Elem, f: Elem -> int)
    ensures SumBy([e], f) == f(e)
  {
    assert [e][1..] == [];
  }

  lemma OneOutput(w: WalletV, e: Elem)
    requires e.id in w.records
    ensures OutputsOf(w, [e]) == {OutputOf(w.kc, e)}
  {
    assert [e][1..] == [] && Found(w, [e]) == [e] + Found(w, []);
  }

  lemma {:induction false} FoundAmong(w: WalletV, es: seq<Elem>)
    ensures OutputsOf(w, es) <= AllOutputs(w.kc, es)
    ensures forall e | e in es && e.id in w.records :: OutputOf(w.kc, e) in OutputsOf(w, es)
  {
    if es != [] {
      FoundAmong(w, es[1..]);
      var rest := Found(w, es[1..]);
      assert Found(w, es) == (if es[0].id in w.records then [es[0]] else []) + rest;
      assert OutputsOf(w, es) == OutputsOf(w, es[1..]) + if es[0].id in w.records then {OutputOf(w.kc, es[0])} else {};
      assert AllOutputs(w.kc, es) == {OutputOf(w.kc, es[0])} + AllOutputs(w.kc, es[1..]);
    }
  }

  // ---------- Complete runs ----------

  lemma IssuerBooks(rules: Rules, wp: WalletV, kcI: Keychain, tx: Tx, sel: Selection, a: Keys, b: Keys, out: Elem)
    requires Compatible(a, b) && Spends(sel, out.amount) && FeeSuffices(rules, sel) && HasAll(wp, sel.inputs)
    requires DistinctCommitments(wp.kc, sel, kcI, out)
    requires tx.inputs == InputsOf(wp, sel.inputs)
    requires tx.outputs == AllOutputs(wp.kc, sel.change) + {OutputOf(kcI, out)}
    requires tx.offset == Norm(Norm(0 - b.key + (SumBy(sel.change, BlindOf(wp.kc)) - SumBy(sel.inputs, BlindOf(wp.kc))))
                               - a.key + ContextBlind(kcI, IssuerContext(a, out)))
    ensures (rules.minFee)(|tx.inputs|, |tx.outputs|, 1) <= sel.fee
    ensures NoCutThrough(tx) && Balanced(tx, Kernel(Plain(sel.fee), Norm(a.key + b.key), Sig(0, 0)))
  {
    hide DistinctCommitments, InputsOf, AllOutputs, FeeSuffices, Spends, Compatible, Balanced, NoCutThrough, HasAll,
         Norm;
    var blind := SumBy(sel.change, BlindOf(wp.kc)) - SumBy(sel.inputs, BlindOf(wp.kc));
    SumOne(out, BlindOf(kcI));
    OffsetCancels(a.key, b.key, blind, BlindOf(kcI)(out));
    InvoiceBalances(tx, wp, kcI, out, a, b, sel, blind + BlindOf(kcI)(out));
    EnoughFee(rules, sel, tx);
  }

  /** The issuer finalises what the payer returned. */
  lemma IssuerFinalizes(rules: Rules, wp: WalletV, w: WalletV, s: SlateV, sel: Selection, a: Keys, b: Keys, out: Elem,
                        unused: Option<Selection>)
    requires s.kernelFeatures == 0 && s.numParticipants == 2
    requires Compatible(a, b) && Spends(sel, out.amount) && FeeSuffices(rules, sel) && HasAll(wp, sel.inputs)
    requires DistinctCommitments(wp.kc, sel, w.kc, out)
    requires s.id in w.contexts && w.contexts[s.id] == IssuerContext(a, out) && s.id in w.received
             && out.id in w.records
    requires !Expired(w, s)
    ensures var blind := SumBy(sel.change, BlindOf(wp.kc)) - SumBy(sel.inputs, BlindOf(wp.kc));
      var ins, outs := InputsOf(wp, sel.inputs), AllOutputs(wp.kc, sel.change);
      Completed(rules,
          FinalizeTx(rules, w, Paid(rules, s, a, b, sel.fee, Norm(0 - b.key + blind), ins, outs), unused, NoFault),
                s.id, Invoice3, ins, outs + {OutputOf(w.kc, out)}, sel.fee)
  {
    hide FinalizeTx, FinalizeInvoice, Completed, DistinctCommitments, InputsOf, AllOutputs, OutputsOf, FeeSuffices,
         Spends, Compatible, Balanced, NoCutThrough;
    var ctx := IssuerContext(a, out);
    var blind := SumBy(sel.change, BlindOf(wp.kc)) - SumBy(sel.inputs, BlindOf(wp.kc));
    var ins, outs := InputsOf(wp, sel.inputs), AllOutputs(wp.kc, sel.change);
    var paid := Paid(rules, s, a, b, sel.fee, Norm(0 - b.key + blind), ins, outs);
    FinalizeAsIssuer(rules, w, paid, unused, NoFault);
    var tx := Tx(ins, outs + {OutputOf(w.kc, out)}, Some(Kernel(Plain(sel.fee), 0, Sig(0, 0))),
                 AdjustOffset(w.kc, paid, ctx).offset);
    IssuerBooks(rules, wp, w.kc, tx, sel, a, b, out);
    NoInputs(w);
    OneOutput(w, out);
    assert ins + InputsOf(w, []) == ins;
    InvoiceClosingIff(rules, w, s, paid, ctx, a, b, sel.fee, paid.offset, ins, outs, tx);
  }

  /** A run between two wallets in which the payer stores nothing for the slate yet: issuing, paying and
      finalising succeed and the result settles. `RepeatedPayments` covers every payer. */
  lemma FirstPaymentSettles(rules: Rules, wi: WalletV, wp: WalletV, later: WalletV, blank: SlateV, sel: Selection,
                            a: Keys, b: Keys, outId: KeyId, unused: Option<Selection>)
    requires blank == BlankSlate(blank.id, true, blank.amount, blank.ttl, blank.version)
    requires Compatible(a, b) && Spends(sel, blank.amount) && FeeSuffices(rules, sel) && HasAll(wp, sel.inputs)
    requires DistinctCommitments(wp.kc, sel, wi.kc, Elem(outId, None, blank.amount))
    requires !Expired(wp, blank) && blank.id !in wp.sent && blank.id !in wp.sentCancelled && blank.id !in wp.contexts
    ensures var issuing := IssueInvoice(rules, wi, blank, a, outId);
      issuing.r.Ok? &&
      var paying := ProcessInvoice(rules, wp, issuing.r.value, Some(sel), b);
      paying.r.Ok? &&
      (Continues(issuing.w, later, blank.id) && !Expired(later, paying.r.value) ==>
        Completed(rules, FinalizeTx(rules, later, paying.r.value, unused, NoFault), blank.id, Invoice3,
                  InputsOf(wp, sel.inputs),
                  AllOutputs(wp.kc, sel.change) + {OutputOf(wi.kc, Elem(outId, None, blank.amount))}, sel.fee))
  {
    hide IssueInvoice, ProcessInvoice, FinalizeTx, Completed, DistinctCommitments, InputsOf, AllOutputs, OutputsOf,
         FeeSuffices, Spends, Compatible, HasAll;
    var out, s1 := Elem(outId, None, blank.amount), Issued(blank, a);
    IssuingStep(rules, wi, blank, a, outId);
    PayingStep(rules, wp, s1, blank, sel, a, b);
    FoundAmong(wp, sel.change);
    assert AllOutputs(wp.kc, sel.change) + OutputsOf(wp, sel.change) == AllOutputs(wp.kc, sel.change);
    if Continues(IssueInvoice(rules, wi, blank, a, outId).w, later, blank.id)
       && !Expired(later, ProcessInvoice(rules, wp, s1, Some(sel), b).r.value) {
      IssuerFinalizes(rules, wp, later, s1, sel, a, b, out, unused);
    }
  }

  /** A wallet that pays its own invoice signs with the issuer's keys only if key and nonce both differ from
      the payer's. Otherwise the issuer's share stays missing, and completing fails unless it is worth
      nothing. */
  lemma CoincidingKeysFail(rules: Rules, s: SlateV, ctx: Context, a: Keys, b: Keys)
    requires Compatible(a, b) && s.kernelFeatures == 0 && s.numParticipants == 2
    requires s.participants == [Participant(b.key, b.nonce, Share(rules, a, b, s.fee, b)),
             Participant(a.key, a.nonce, None)]
    requires ctx.initialSecKey == a.key && ctx.initialSecNonce == a.nonce
    requires ctx.secKey == b.key && ctx.secNonce == b.nonce
    requires a.key == b.key || a.nonce == b.nonce
    ensures CompleteTx(rules, s, ctx).Ok? ==>
      Norm(a.nonce + (rules.challenge)(Norm(a.nonce + b.nonce), Norm(a.key + b.key), Plain(s.fee)) * a.key) == 0
  {
    hide Finalize, Norm;
    var pb, pa := s.participants[0], s.participants[1];
    TwoPartySigningOf(rules, s, a, b, None, pb.sig);
    var g := TwoPartySigning(a, b, s.fee);
    if CompleteTx(rules, s, ctx).Ok? {
      OwnShareLaw(rules, s, b.key, b.nonce);
      StoreFirst(pb, pa, b.key, b.nonce, PartialSig(rules, g, b.key, b.nonce));
      assert CompleteTx(rules, s, ctx) == Finalize(rules, s);
      MissingFirstFails(rules, s, a, b);
    }
  }

  lemma StoreFirst(p: Participant, q: Participant, x: Scalar, k: Scalar, sig: Sig)
    requires IsEntry(p, x, k)
    ensures StoreShare([p, q], 2, x, k, sig) == Ok([p.(sig := Some(sig)), q])
  {
    assert [p.(sig := Some(sig))] + [p, q][1..] == [p.(sig := Some(sig)), q];
  }

  lemma MissingFirstFails(rules: Rules, s: SlateV, a: Keys, b: Keys)
    requires Compatible(a, b) && s.kernelFeatures == 0
    requires s.participants == [Participant(b.key, b.nonce, Share(rules, a, b, s.fee, b)),
             Participant(a.key, a.nonce, None)]
    requires Finalize(rules, s).Ok?
    ensures Norm(a.nonce + (rules.challenge)(Norm(a.nonce + b.nonce), Norm(a.key + b.key), Plain(s.fee)) * a.key) == 0
  {
    hide Norm;
    var pb, pa := s.participants[0], s.participants[1];
    SumTwo(pb, pa, NonceOf);
    SumTwo(pb, pa, ExcessOf);
    SumTwo(pb, pa, MissingNonce);
    SumTwo(pb, pa, MissingKey);
    var e := ChallengeOf(rules, s, Plain(s.fee));
    assert e == (rules.challenge)(Norm(a.nonce + b.nonce), Norm(a.key + b.key), Plain(s.fee));
    assert HonestOrMissing(e, s.participants);
    assert FinalSignature(rules, s).Ok?;
    MissingShareRefusedIff(rules, s);
    assert SumBy(s.participants, MissingKey) == a.key && SumBy(s.participants, MissingNonce) == a.nonce;
    assert Norm(a.nonce + e * a.key) == 0;
  }

  lemma NoInputs(w: WalletV)
    ensures InputsOf(w, []) == {}
  {
  }

  lemma EnoughFee(rules: Rules, sel: Selection, tx: Tx)
    requires FeeSuffices(rules, sel) && |tx.inputs| == |sel.inputs| && |tx.outputs| == 1 + |sel.change|
    ensures (rules.minFee)(|tx.inputs|, |tx.outputs|, 1) <= sel.fee
  {
  }

  /** The context of a wallet that pays its own invoice. */
  function MergedContext(sel: Selection, a: Keys, b: Keys, out: Elem): Context {
    SenderContext(b, sel, out.amount).(
      calculatedExcess := Some(Norm(a.key + b.key)), initialSecKey := a.key, initialSecNonce := a.nonce, fee := None,
      outputIds := sel.change + [out], inputIds := sel.inputs)
  }

  lemma SelfBooks(rules: Rules, w: WalletV, tx: Tx, sel: Selection, a: Keys, b: Keys, out: Elem)
    requires Compatible(a, b) && Spends(sel, out.amount) && FeeSuffices(rules, sel) && HasAll(w, sel.inputs)
    requires DistinctCommitments(w.kc, sel, w.kc, out)
    requires tx.inputs == InputsOf(w, sel.inputs)
    requires tx.outputs == AllOutputs(w.kc, sel.change) + {OutputOf(w.kc, out)}
    requires tx.offset == Norm(Norm(0 - b.key) - a.key + ContextBlind(w.kc, MergedContext(sel, a, b, out)))
    ensures (rules.minFee)(|tx.inputs|, |tx.outputs|, 1) <= sel.fee
    ensures NoCutThrough(tx) && Balanced(tx, Kernel(Plain(sel.fee), Norm(a.key + b.key), Sig(0, 0)))
  {
    hide DistinctCommitments, InputsOf, AllOutputs, FeeSuffices, Spends, Compatible, Balanced, NoCutThrough, HasAll,
         Norm;
    var blind := ContextBlind(w.kc, MergedContext(sel, a, b, out));
    SumBySnoc(sel.change, out, BlindOf(w.kc));
    OffsetCancels(a.key, b.key, 0, blind);
    InvoiceBalances(tx, w, w.kc, out, a, b, sel, blind);
    EnoughFee(rules, sel, tx);
  }

  /** The wallet finalises an invoice it paid itself. */
  lemma SelfFinalizes(rules: Rules, w1: WalletV, w: WalletV, s: SlateV, sel: Selection, a: Keys, b: Keys, out: Elem,
                      unused: Option<Selection>)
    requires s.kernelFeatures == 0 && s.numParticipants == 2 && w1.kc == w.kc
    requires Compatible(a, b) && a.key != b.key && a.nonce != b.nonce
    requires Spends(sel, out.amount) && FeeSuffices(rules, sel) && HasAll(w1, sel.inputs)
    requires DistinctCommitments(w.kc, sel, w.kc, out)
    requires s.id in w.contexts && w.contexts[s.id] == MergedContext(sel, a, b, out)
    requires s.id in w.received && out.id in w.records && SameCoinbase(w1, w, sel.inputs)
    requires !Expired(w, s)
    ensures var ins, outs := InputsOf(w1, sel.inputs), AllOutputs(w.kc, sel.change) + {OutputOf(w.kc, out)};
      Completed(rules, FinalizeTx(rules, w, Paid(rules, s, a, b, sel.fee, Norm(0 - b.key), ins, outs), unused, NoFault),
                s.id, Invoice3, ins, outs, sel.fee)
  {
    hide FinalizeTx, FinalizeInvoice, Completed, DistinctCommitments, InputsOf, AllOutputs, OutputsOf, FeeSuffices,
         Spends, Compatible, Balanced, NoCutThrough, SameCoinbase, HasAll;
    var ctx := MergedContext(sel, a, b, out);
    var ins, outs := InputsOf(w1, sel.inputs), AllOutputs(w.kc, sel.change) + {OutputOf(w.kc, out)};
    var paid := Paid(rules, s, a, b, sel.fee, Norm(0 - b.key), ins, outs);
    FinalizeAsIssuer(rules, w, paid, unused, NoFault);
    SameInputs(w1, w, sel.inputs);
    SelfOutputs(w, sel.change, out);
    assert ins + InputsOf(w, sel.inputs) == ins && outs + OutputsOf(w, sel.change + [out]) == outs;
    var tx := Tx(ins, outs, Some(Kernel(Plain(sel.fee), 0, Sig(0, 0))), AdjustOffset(w.kc, paid, ctx).offset);
    SelfBooks(rules, w1, tx, sel, a, b, out);
    InvoiceClosingIff(rules, w, s, paid, ctx, a, b, sel.fee, paid.offset, ins, outs, tx);
  }

  /** A run within one wallet, which issues an invoice and pays it itself: the merged context
      makes every key, input and output enter the offset exactly once. The two drawn keys and
      the two drawn nonces must both differ, or the wrong share is filled in at the end. */
  lemma SelfInvoiceRunSettles(rules: Rules, w0: WalletV, w1: WalletV, w2: WalletV, blank: SlateV, sel: Selection,
                              a: Keys, b: Keys, outId: KeyId, unused: Option<Selection>)
    requires blank == BlankSlate(blank.id, true, blank.amount, blank.ttl, blank.version)
    requires Compatible(a, b) && a.key != b.key && a.nonce != b.nonce
    requires Spends(sel, blank.amount) && FeeSuffices(rules, sel)
    requires DistinctCommitments(w0.kc, sel, w0.kc, Elem(outId, None, blank.amount))
    ensures var issuing := IssueInvoice(rules, w0, blank, a, outId);
      issuing.r.Ok? &&
      (Continues(issuing.w, w1, blank.id) && HasAll(w1, sel.inputs)
       && !Expired(w1, blank) && blank.id !in w1.sent && blank.id !in w1.sentCancelled ==>
        var paying := ProcessInvoice(rules, w1, issuing.r.value, Some(sel), b);
        paying.r.Ok? &&
        (Continues(paying.w, w2, blank.id) && SameCoinbase(w1, w2, sel.inputs) && !Expired(w2, paying.r.value) ==>
          Completed(rules, FinalizeTx(rules, w2, paying.r.value, unused, NoFault), blank.id, Invoice3,
                    InputsOf(w1, sel.inputs),
                    AllOutputs(w0.kc, sel.change) + {OutputOf(w0.kc, Elem(outId, None, blank.amount))}, sel.fee)))
  {
    hide IssueInvoice, ProcessInvoice, FinalizeTx, Completed, DistinctCommitments, InputsOf, AllOutputs, OutputsOf,
         FeeSuffices, Spends, Compatible, SameCoinbase, HasAll;
    var out, s1 := Elem(outId, None, blank.amount), Issued(blank, a);
    IssuingStep(rules, w0, blank, a, outId);
    if Continues(IssueInvoice(rules, w0, blank, a, outId).w, w1, blank.id) && HasAll(w1, sel.inputs)
       && !Expired(w1, blank) && blank.id !in w1.sent && blank.id !in w1.sentCancelled {
      SelfPayingStep(rules, w1, s1, blank, sel, a, b, out);
      SelfOutputs(w1, sel.change, out);
      var paying := ProcessInvoice(rules, w1, s1, Some(sel), b);
      if Continues(paying.w, w2, blank.id) && SameCoinbase(w1, w2, sel.inputs) && !Expired(w2, paying.r.value) {
        SelfFinalizes(rules, w1, w2, s1, sel, a, b, out, unused);
      }
    }
  }

  /** The records of the given elements agree on being coinbase outputs. */
  predicate SameCoinbase(w: WalletV, later: WalletV, es: seq<Elem>) {
    forall e | e in es :: e.id in w.records && e.id in later.records && w.records[e.id] == later.records[e.id]
  }

  lemma SameInputs(w: WalletV, later: WalletV, es: seq<Elem>)
    requires SameCoinbase(w, later, es) && w.kc == later.kc
    ensures InputsOf(w, es) == InputsOf(later, es)
  {
    FoundAll(w, es);
    FoundAll(later, es);
    forall e | e in es ensures InputOf(w, e) == InputOf(later, e) {}
  }

  lemma SelfOutputs(w: WalletV, change: seq<Elem>, out: Elem)
    requires out.id in w.records
    ensures AllOutputs(w.kc, change) + OutputsOf(w, change + [out]) == AllOutputs(w.kc, change) + {OutputOf(w.kc, out)}
    ensures OutputsOf(w, change + [out]) <= AllOutputs(w.kc, change) + {OutputOf(w.kc, out)}
  {
    FoundAmong(w, change + [out]);
    assert out in change + [out];
    assert AllOutputs(w.kc, change + [out]) == AllOutputs(w.kc, change) + {OutputOf(w.kc, out)};
  }
}
