/** Invoice runs with any payer, also one that already stores a context for the slate: the code takes every
    stored context for the issuer's own and leaves the payer's inputs and change out of the offset. */
module RepeatedPayments {
  import opened Wrappers
  import opened Scalars
  import opened Sums
  import opened SlateTypes
  import opened SlateSpec
  import opened ExchangeSpec
  import opened ExchangeLaws
  import opened StandardRuns
  import opened InvoiceRuns

  // ---------- What the payer puts in ----------

  function StoredInputs(w: WalletV, id: SlateId): seq<Elem> {
    if id in w.contexts then w.contexts[id].inputIds else []
  }

  function StoredOutputs(w: WalletV, id: SlateId): seq<Elem> {
    if id in w.contexts then w.contexts[id].outputIds else []
  }

  function PaidInputs(w: WalletV, id: SlateId, sel: Selection): set<Input> {
    InputsOf(w, sel.inputs + StoredInputs(w, id))
  }

  function PaidOutputs(w: WalletV, id: SlateId, sel: Selection): set<Output> {
    AllOutputs(w.kc, sel.change) + OutputsOf(w, sel.change + StoredOutputs(w, id))
  }

  /** The books of a transaction whose offset knows only of the issuer's output: fee, cut-through and
      values are in order, and the blinding factors left out add up to nothing. */
  ghost predicate OmittedIsNothing(rules: Rules, ins: set<Input>, outs: set<Output>, fee: nat, known: int) {
    && (rules.minFee)(|ins|, |outs|, 1) <= fee
    && (forall i, o :: i in ins && o in outs ==> i.commit != o.commit)
    && SumSet(outs, OutputValue) + fee == SumSet(ins, InputValue)
    && Norm(SumSet(outs, OutputBlind) - SumSet(ins, InputBlind) - known) == 0
  }

  lemma OmittedDecides(rules: Rules, tx: Tx, a: Keys, b: Keys, fee: nat, known: int)
    requires tx.offset == Norm(Norm(0 - b.key) - a.key + known)
    ensures Accepted(rules, tx, fee, Norm(a.key + b.key))
            <==> OmittedIsNothing(rules, tx.inputs, tx.outputs, fee, known)
  {
    hide SumSet;
    OffsetCancels(a.key, b.key, 0, known);
    NormEq(SumSet(tx.outputs, OutputBlind) - SumSet(tx.inputs, InputBlind), known);
  }

  // ---------- Complete runs ----------

  /** The issuer's side, when the payer left its elements out of the offset. */
  lemma ClosingWithoutElements(rules: Rules, w: WalletV, s: SlateV, a: Keys, b: Keys, out: Elem, fee: nat,
                               ins: set<Input>, outs: set<Output>, unused: Option<Selection>)
    requires s.kernelFeatures == 0 && s.numParticipants == 2 && Compatible(a, b) && !Expired(w, s)
    requires s.id in w.contexts && w.contexts[s.id] == IssuerContext(a, out) && s.id in w.received
             && out.id in w.records
    ensures var done := FinalizeTx(rules, w, Paid(rules, s, a, b, fee, Norm(0 - b.key), ins, outs), unused, NoFault);
      var all := outs + {OutputOf(w.kc, out)};
      && (done.r.Ok? <==> OmittedIsNothing(rules, ins, all, fee, BlindOf(w.kc)(out)))
      && (done.r.Ok? ==> Completed(rules, done, s.id, Invoice3, ins, all, fee))
  {
    hide FinalizeTx, FinalizeInvoice, Completed, InputsOf, OutputsOf, Compatible, Accepted, OmittedIsNothing;
    var ctx := IssuerContext(a, out);
    var paid := Paid(rules, s, a, b, fee, Norm(0 - b.key), ins, outs);
    FinalizeAsIssuer(rules, w, paid, unused, NoFault);
    NoInputs(w);
    OneOutput(w, out);
    SumOne(out, BlindOf(w.kc));
    var tx := Tx(ins + InputsOf(w, []), outs + OutputsOf(w, [out]), Some(Kernel(Plain(fee), 0, Sig(0, 0))),
                 AdjustOffset(w.kc, paid, ctx).offset);
    assert ins + InputsOf(w, []) == ins;
    InvoiceClosingIff(rules, w, s, paid, ctx, a, b, fee, paid.offset, ins, outs, tx);
    OmittedDecides(rules, tx, a, b, fee, BlindOf(w.kc)(out));
  }

  /** A run between two wallets: issuing and paying always succeed; finalising succeeds, and then settles
      the payment, if and only if the payer stored no context for the slate or the elements left out of the
      offset add up to nothing. */
  lemma InvoiceRunSettlesIff(rules: Rules, wi: WalletV, wp: WalletV, later: WalletV, blank: SlateV, sel: Selection,
                             a: Keys, b: Keys, outId: KeyId, unused: Option<Selection>)
    requires blank == BlankSlate(blank.id, true, blank.amount, blank.ttl, blank.version)
    requires Compatible(a, b) && Spends(sel, blank.amount) && FeeSuffices(rules, sel) && HasAll(wp, sel.inputs)
    requires DistinctCommitments(wp.kc, sel, wi.kc, Elem(outId, None, blank.amount))
    requires !Expired(wp, blank) && blank.id !in wp.sent && blank.id !in wp.sentCancelled
    ensures var out := Elem(outId, None, blank.amount);
      var issuing := IssueInvoice(rules, wi, blank, a, outId);
      issuing.r.Ok? &&
      var paying := ProcessInvoice(rules, wp, issuing.r.value, Some(sel), b);
      paying.r.Ok? &&
      (Continues(issuing.w, later, blank.id) && !Expired(later, paying.r.value) ==>
        var done := FinalizeTx(rules, later, paying.r.value, unused, NoFault);
        var ins, outs := PaidInputs(wp, blank.id, sel), PaidOutputs(wp, blank.id, sel) + {OutputOf(wi.kc, out)};
        && (done.r.Ok?
            <==> blank.id !in wp.contexts || OmittedIsNothing(rules, ins, outs, sel.fee, BlindOf(wi.kc)(out)))
        && (done.r.Ok? ==> Completed(rules, done, blank.id, Invoice3, ins, outs, sel.fee)))
  {
    hide IssueInvoice, ProcessInvoice, FinalizeTx, Completed, DistinctCommitments, InputsOf, AllOutputs, OutputsOf,
         FeeSuffices, Spends, Compatible, HasAll, OmittedIsNothing;
    var out, s1 := Elem(outId, None, blank.amount), Issued(blank, a);
    IssuingStep(rules, wi, blank, a, outId);
    if blank.id !in wp.contexts {
      FirstPaymentSettles(rules, wi, wp, later, blank, sel, a, b, outId, unused);
      FoundAmong(wp, sel.change);
      assert sel.inputs + [] == sel.inputs && sel.change + [] == sel.change;
      assert AllOutputs(wp.kc, sel.change) + OutputsOf(wp, sel.change) == AllOutputs(wp.kc, sel.change);
      var paying := ProcessInvoice(rules, wp, s1, Some(sel), b);
      if Continues(IssueInvoice(rules, wi, blank, a, outId).w, later, blank.id) && !Expired(later, paying.r.value) {
        CompletedIsOk(rules, FinalizeTx(rules, later, paying.r.value, unused, NoFault), blank.id, Invoice3,
                      PaidInputs(wp, blank.id, sel), PaidOutputs(wp, blank.id, sel) + {OutputOf(wi.kc, out)}, sel.fee);
      }
    } else {
      MergedPayingStep(rules, wp, s1, blank, sel, a, b);
      var ins, outs := PaidInputs(wp, blank.id, sel), PaidOutputs(wp, blank.id, sel);
      var paid := Paid(rules, s1, a, b, sel.fee, Norm(0 - b.key), ins, outs);
      assert ProcessInvoice(rules, wp, s1, Some(sel), b).r == Ok(paid);
      if Continues(IssueInvoice(rules, wi, blank, a, outId).w, later, blank.id) && !Expired(later, paid) {
        ClosingWithoutElements(rules, later, s1, a, b, out, sel.fee, ins, outs, unused);
      }
    }
  }

  lemma CompletedIsOk(rules: Rules, done: Step, id: SlateId, state: SlateState, ins: set<Input>, outs: set<Output>,
                      fee: nat)
    requires Completed(rules, done, id, state, ins, outs, fee)
    ensures done.r.Ok?
  {
  }

  // ---------- The same invoice paid twice ----------

  lemma {:induction false} FoundAppend(w: WalletV, es: seq<Elem>, fs: seq<Elem>)
    ensures Found(w, es + fs) == Found(w, es) + Found(w, fs)
  {
    if es == [] {
      assert es + fs == fs;
    } else {
      assert (es + fs)[0] == es[0] && (es + fs)[1..] == es[1..] + fs;
      FoundAppend(w, es[1..], fs);
      Assoc(if es[0].id in w.records then [es[0]] else [], Found(w, es[1..]), Found(w, fs));
    }
  }

  predicate HasNone(w: WalletV, es: seq<Elem>) {
    forall e | e in es :: e.id !in w.records
  }

  lemma {:induction false} NoneFound(w: WalletV, es: seq<Elem>)
    requires HasNone(w, es)
    ensures Found(w, es) == []
  {
    if es != [] {
      assert es[0] in es && forall e | e in es[1..] :: e in es;
      NoneFound(w, es[1..]);
    }
  }

  /** A second call picks the same, still unlocked coins; the first call's change has no records. So the
      stored context adds nothing to the body. */
  lemma SameCoinsSameBody(w: WalletV, id: SlateId, first: Selection, sel: Selection)
    requires StoredInputs(w, id) == first.inputs && StoredOutputs(w, id) == first.change
    requires first.inputs == sel.inputs && HasNone(w, first.change)
    ensures PaidInputs(w, id, sel) == InputsOf(w, sel.inputs)
    ensures PaidOutputs(w, id, sel) == AllOutputs(w.kc, sel.change)
  {
    FoundAppend(w, sel.inputs, first.inputs);
    FoundAppend(w, sel.change, first.change);
    NoneFound(w, first.change);
    FoundAmong(w, sel.change);
    assert forall e :: e in Found(w, sel.inputs) + Found(w, first.inputs) <==> e in Found(w, sel.inputs);
    assert OutputsOf(w, sel.change + first.change) == OutputsOf(w, sel.change);
  }

  /** With the same coins, all but the blinding factors is in order. */
  lemma OnlyBlindsDecide(rules: Rules, w: WalletV, kcI: Keychain, out: Elem, sel: Selection, ins: set<Input>,
                         outs: set<Output>)
    requires ins == InputsOf(w, sel.inputs) && outs == AllOutputs(w.kc, sel.change) + {OutputOf(kcI, out)}
    requires HasAll(w, sel.inputs) && DistinctCommitments(w.kc, sel, kcI, out)
    requires Spends(sel, out.amount) && FeeSuffices(rules, sel)
    ensures OmittedIsNothing(rules, ins, outs, sel.fee, BlindOf(kcI)(out))
       <==> Norm(SumBy(sel.change, BlindOf(w.kc)) - SumBy(sel.inputs, BlindOf(w.kc))) == 0
  {
    hide SumBy, SumSet, InputsOf, AllOutputs, DistinctCommitments, HasAll, Norm;
    InvoiceSums(w, kcI, out, sel, ins, outs);
  }

  /** A payer that has not locked may process the same invoice again: every guard lets the second call
      pass. If it selects the same coins, the run then settles if and only if its change and its inputs
      have the same blinding factor. */
  lemma SecondPaymentSettlesIff(rules: Rules, wi: WalletV, wp: WalletV, later: WalletV, blank: SlateV, first: Selection,
                                sel: Selection, a: Keys, b0: Keys, b: Keys, outId: KeyId, unused: Option<Selection>)
    requires blank == BlankSlate(blank.id, true, blank.amount, blank.ttl, blank.version)
    requires Compatible(a, b0) && Compatible(a, b) && FeeSuffices(rules, sel)
    requires Spends(sel, blank.amount) && HasAll(wp, sel.inputs)
    requires DistinctCommitments(wp.kc, sel, wi.kc, Elem(outId, None, blank.amount))
    requires !Expired(wp, blank) && blank.id !in wp.sent && blank.id !in wp.sentCancelled && blank.id !in wp.contexts
    requires first.inputs == sel.inputs && HasNone(wp, first.change)
    ensures var issuing := IssueInvoice(rules, wi, blank, a, outId);
      issuing.r.Ok? &&
      var once := ProcessInvoice(rules, wp, issuing.r.value, Some(first), b0);
      once.r.Ok? &&
      var twice := ProcessInvoice(rules, once.w, issuing.r.value, Some(sel), b);
      twice.r.Ok? &&
      (Continues(issuing.w, later, blank.id) && !Expired(later, twice.r.value) ==>
        (FinalizeTx(rules, later, twice.r.value, unused, NoFault).r.Ok?
         <==> Norm(SumBy(sel.change, BlindOf(wp.kc)) - SumBy(sel.inputs, BlindOf(wp.kc))) == 0))
  {
    hide IssueInvoice, ProcessInvoice, FinalizeTx, Completed, DistinctCommitments, InputsOf, AllOutputs, OutputsOf,
         FeeSuffices, Spends, Compatible, OmittedIsNothing, PaidInputs, PaidOutputs;
    var out, s1 := Elem(outId, None, blank.amount), Issued(blank, a);
    IssuingStep(rules, wi, blank, a, outId);
    PayingStep(rules, wp, s1, blank, first, a, b0);
    var once := ProcessInvoice(rules, wp, s1, Some(first), b0).w;
    assert StoredInputs(once, blank.id) == first.inputs && StoredOutputs(once, blank.id) == first.change;
    InvoiceRunSettlesIff(rules, wi, once, later, blank, sel, a, b, outId, unused);
    SameCoinsSameBody(once, blank.id, first, sel);
    OnlyBlindsDecide(rules, once, wi.kc, out, sel, PaidInputs(once, blank.id, sel),
                     PaidOutputs(once, blank.id, sel) + {OutputOf(wi.kc, out)});
  }
}
