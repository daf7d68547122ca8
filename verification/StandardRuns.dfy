/** Complete runs of the standard flow, with inputs chosen at once or late. */
module StandardRuns {
  import opened Wrappers
  import opened Scalars
  import opened Sums
  import opened SlateTypes
  import opened SlateSpec
  import opened ExchangeSpec
  import opened ExchangeLaws

  /** The contract of coin selection: the coins cover amount, fee and change exactly. */
  predicate Spends(sel: Selection, amount: nat) {
    SumBy(sel.inputs, AmountOf) == amount + SumBy(sel.change, AmountOf) + sel.fee
  }

  /** No two commitments of the run coincide. */
  ghost predicate DistinctCommitments(kcS: Keychain, sel: Selection, kcR: Keychain, out: Elem) {
    Distinct(Commits(kcS, sel.inputs) + (Commits(kcS, sel.change) + [CommitOf(kcR, out)]))
  }

  predicate FeeSuffices(rules: Rules, sel: Selection) {
    (rules.minFee)(|sel.inputs|, 1 + |sel.change|, 1) <= sel.fee
  }

  /** A later state of a wallet that still holds what it held, the context included. */
  ghost predicate Continues(w: WalletV, later: WalletV, id: SlateId) {
    && later.kc == w.kc
    && w.records.Keys <= later.records.Keys
    && w.received <= later.received && w.sent <= later.sent
    && id in w.contexts && id in later.contexts && later.contexts[id] == w.contexts[id]
  }

  function Missing(w: WalletV, es: seq<Elem>): seq<Elem> {
    if es == [] then [] else (if es[0].id in w.records then [] else [es[0]]) + Missing(w, es[1..])
  }

  /** The blinding side of the elements of a context that have no record any more. */
  function MissingBlind(w: WalletV, ctx: Context): int {
    SumBy(Missing(w, ctx.outputIds), BlindOf(w.kc)) - SumBy(Missing(w, ctx.inputIds), BlindOf(w.kc))
  }

  function MissingValue(w: WalletV, ctx: Context): int {
    SumBy(Missing(w, ctx.outputIds), AmountOf) - SumBy(Missing(w, ctx.inputIds), AmountOf)
  }

  lemma {:induction false} FoundAndMissing(w: WalletV, es: seq<Elem>, f: Elem -> int)
    ensures SumBy(Found(w, es), f) + SumBy(Missing(w, es), f) == SumBy(es, f)
  {
    if es != [] {
      FoundAndMissing(w, es[1..], f);
      var found, missing := Found(w, es[1..]), Missing(w, es[1..]);
      assert ([es[0]] + found)[1..] == found && ([es[0]] + missing)[1..] == missing;
      assert [] + found == found && [] + missing == missing;
    }
  }

  lemma {:induction false} NoneMissing(w: WalletV, es: seq<Elem>)
    requires HasAll(w, es)
    ensures Missing(w, es) == []
  {
    if es != [] {
      assert es[0] in es && forall e | e in es[1..] :: e in es;
      NoneMissing(w, es[1..]);
    }
  }

  // ---------- The books ----------

  /** The transaction the sender assembles from the recipient's output and what it finds of its
      own context. */
  ghost predicate Assembled(tx: Tx, w: WalletV, ctx: Context, kcR: Keychain, out: Elem, a: Keys, b: Keys) {
    && tx.inputs == InputsOf(w, ctx.inputIds)
    && tx.outputs == {OutputOf(kcR, out)} + OutputsOf(w, ctx.outputIds)
    && tx.offset == Norm(Norm(0 - b.key + BlindOf(kcR)(out)) - a.key + ContextBlind(w.kc, ctx))
  }

  lemma AssembledSums(tx: Tx, w: WalletV, ctx: Context, kcR: Keychain, out: Elem, a: Keys, b: Keys, sel: Selection)
    requires Assembled(tx, w, ctx, kcR, out, a, b)
    requires ctx.inputIds == sel.inputs && ctx.outputIds == sel.change
    requires DistinctCommitments(w.kc, sel, kcR, out)
    ensures SumSet(tx.outputs, OutputBlind) == BlindOf(kcR)(out) + SumBy(Found(w, ctx.outputIds), BlindOf(w.kc))
    ensures SumSet(tx.outputs, OutputValue) == out.amount + SumBy(Found(w, ctx.outputIds), AmountOf)
    ensures SumSet(tx.inputs, InputBlind) == SumBy(Found(w, ctx.inputIds), BlindOf(w.kc))
    ensures SumSet(tx.inputs, InputValue) == SumBy(Found(w, ctx.inputIds), AmountOf)
    ensures |tx.inputs| == |Found(w, ctx.inputIds)| && |tx.outputs| == 1 + |Found(w, ctx.outputIds)|
    ensures NoCutThrough(tx)
  {
    var ins, change, last := Commits(w.kc, sel.inputs), Commits(w.kc, sel.change), [CommitOf(kcR, out)];
    DistinctParts(ins, change + last);
    DistinctParts(change, last);
    assert last[0] in last;
    InputSums(w, sel.inputs);
    FoundDistinct(w, sel.change);
    var found := Found(w, sel.change);
    OutputSums(w.kc, found);
    forall o | o in OutputsOf(w, sel.change) ensures o.commit in change {
      var e :| e in found && o == OutputOf(w.kc, e);
      HasCommit(w.kc, sel.change, e);
    }
    var rest, o := OutputsOf(w, sel.change), OutputOf(kcR, out);
    assert o !in rest;
    assert tx.outputs == rest + {o};
    SumSetAdd(rest, o, OutputBlind);
    SumSetAdd(rest, o, OutputValue);
    forall i, p | i in tx.inputs && p in tx.outputs ensures i.commit != p.commit {
      assert p.commit in change + last;
    }
  }

  /** The assembled transaction balances exactly when the commitments of the context elements
      that could not be found again add up to nothing. */
  lemma BalancesIffNothingMissing(tx: Tx, w: WalletV, ctx: Context, kcR: Keychain, out: Elem, a: Keys, b: Keys,
                                  sel: Selection, sig: Sig)
    requires Assembled(tx, w, ctx, kcR, out, a, b)
    requires ctx.inputIds == sel.inputs && ctx.outputIds == sel.change
    requires Spends(sel, out.amount)
    requires DistinctCommitments(w.kc, sel, kcR, out)
    ensures Balanced(tx, Kernel(Plain(sel.fee), Norm(a.key + b.key), sig))
       <==> Norm(MissingBlind(w, ctx)) == 0 && MissingValue(w, ctx) == 0
  {
    hide SumBy, SumSet, Found, Missing, InputsOf, OutputsOf;
    AssembledSums(tx, w, ctx, kcR, out, a, b, sel);
    FoundAndMissing(w, ctx.inputIds, BlindOf(w.kc));
    FoundAndMissing(w, ctx.inputIds, AmountOf);
    FoundAndMissing(w, ctx.outputIds, BlindOf(w.kc));
    FoundAndMissing(w, ctx.outputIds, AmountOf);
    OffsetCancels(a.key, b.key, BlindOf(kcR)(out), ContextBlind(w.kc, ctx));
    NormEq(BlindOf(kcR)(out) + ContextBlind(w.kc, ctx),
        SumSet(tx.outputs, OutputBlind) - SumSet(tx.inputs, InputBlind));
  }

  /** Both keys are subtracted into the offset once, and cancel against the excess. */
  lemma OffsetCancels(x: Scalar, y: Scalar, out: int, ctx: int)
    ensures Norm(Norm(x + y) + Norm(Norm(0 - y + out) - x + ctx)) == Norm(out + ctx)
  {
    NormAdd(0 - y + out, 0 - x + ctx);
    NormAdd(x + y, Norm(0 - y + out - x + ctx));
    NormAdd(0 - y + out - x + ctx, x + y);
  }

  // ---------- The steps ----------

  function SenderContext(a: Keys, sel: Selection, amount: nat): Context {
    NewContext(a).(fee := Some(sel.fee), amount := amount, inputIds := sel.inputs, outputIds := sel.change)
  }

  /** What the sender sends out. */
  function Opened(blank: SlateV, amount: nat, fee: nat, a: Keys): SlateV {
    blank.(amount := amount, fee := fee, tx := None, participants := [Participant(a.key, a.nonce, None)])
  }

  /** What the recipient sends back: no amount, no fee, only its own entry. */
  function Answered(rules: Rules, s: SlateV, kcR: Keychain, a: Keys, b: Keys, out: Elem): SlateV {
    s.(amount := 0, fee := 0, state := Standard2,
       tx := Some(Tx({}, {OutputOf(kcR, out)}, Some(Kernel(Plain(s.fee), 0, Sig(0, 0))), 0)),
       offset := Norm(0 - b.key + BlindOf(kcR)(out)),
       participants := [Participant(b.key, b.nonce, Share(rules, a, b, s.fee, b))])
  }

  lemma JoinEmpty(x: Scalar, k: Scalar)
    ensures WithParticipant([], x, k, None) == [Participant(x, k, None)]
  {
  }

  lemma OpeningStep(rules: Rules, w: WalletV, blank: SlateV, sel: Selection, a: Keys, includesFee: bool, net: nat)
    requires blank == BlankSlate(blank.id, false, blank.amount, blank.ttl, blank.version)
    requires blank.amount == if includesFee then net + sel.fee else net
    ensures InitSend(rules, w, blank, Some(sel), a, includesFee)
         == Step(SaveContext(w, blank.id, SenderContext(a, sel, net)), Ok(Opened(blank, net, sel.fee, a)))
  {
    JoinEmpty(a.key, a.nonce);
  }

  lemma RecipientElements(rules: Rules, kc: Keychain, s: SlateV, out: Elem)
    requires s.kernelFeatures == 0 && s.offset == 0
    ensures AddElements(rules, s.(tx := Some(EMPTY_TX)), {}, AllOutputs(kc, [out]))
         == Ok(s.(tx := Some(Tx({}, {OutputOf(kc, out)}, Some(Kernel(Plain(s.fee), 0, Sig(0, 0))), 0))))
  {
    assert AllOutputs(kc, [out]) == {OutputOf(kc, out)};
    assert EMPTY_TX.inputs + {} == {} && EMPTY_TX.outputs + {OutputOf(kc, out)} == {OutputOf(kc, out)};
  }

  lemma AnsweringStep(rules: Rules, w: WalletV, s: SlateV, blank: SlateV, amount: nat, fee: nat, a: Keys, b: Keys,
                      outId: KeyId)
    requires blank == BlankSlate(blank.id, false, blank.amount, blank.ttl, blank.version)
    requires s == Opened(blank, amount, fee, a)
    requires Compatible(a, b) && !Expired(w, s) && s.id !in w.received
    ensures Receive(rules, w, s, b, outId)
         == Step(AddRecipient(w, s.id, outId), Ok(Answered(rules, s, w.kc, a, b, Elem(outId, None, amount))))
  {
    var out := Elem(outId, None, amount);
    hide AddElements, AllOutputs, FillRounds, WithParticipant, Own, Compatible, SumPoints;
    var ctx := RecipientContext(s, b, outId);
    RecipientElements(rules, w.kc, s, out);
    ResponderSigns(rules, s.(tx := Some(Tx({}, {OutputOf(w.kc, out)}, Some(Kernel(Plain(s.fee), 0, Sig(0, 0))), 0))),
        ctx, a, b);
    assert a != b by { PairsDiffer(a, b); }
    KeepSecond(Participant(a.key, a.nonce, None), Participant(b.key, b.nonce, Share(rules, a, b, s.fee, b)), b.key,
        b.nonce);
    assert [out][1..] == [] && SumBy([out], BlindOf(w.kc)) == BlindOf(w.kc)(out);
  }

  lemma PairsDiffer(a: Keys, b: Keys)
    requires Compatible(a, b)
    ensures a != b
  {
  }

  function Assembly(w: WalletV, ctx: Context, s: SlateV, kcR: Keychain, out: Elem, fee: nat): Tx {
    Tx(InputsOf(w, ctx.inputIds), {OutputOf(kcR, out)} + OutputsOf(w, ctx.outputIds),
       Some(Kernel(Plain(fee), 0, Sig(0, 0))), AdjustOffset(w.kc, s, ctx).offset)
  }

  lemma RepopulatingStep(rules: Rules, w: WalletV, s: SlateV, ctx: Context, kcR: Keychain, a: Keys, b: Keys, out: Elem,
                         sent: SlateV)
    requires s == Answered(rules, sent, kcR, a, b, out)
    requires sent.kernelFeatures == 0 && ctx.fee.Some? && a != b
    requires ctx.secKey == a.key && ctx.secNonce == a.nonce
    ensures Repopulate(rules, w, AdjustOffset(w.kc, s, ctx), ctx, true)
         == Ok(AdjustOffset(w.kc, s, ctx).(
                 amount := ctx.amount, fee := ctx.fee.value,
                 tx := Some(Assembly(w, ctx, s, kcR, out, ctx.fee.value)),
                 participants := [s.participants[0], Participant(a.key, a.nonce, None)]))
  {
    JoinList(s.participants[0], a.key, a.nonce);
    assert {} + InputsOf(w, ctx.inputIds) == InputsOf(w, ctx.inputIds);
  }

  /** The fee that the elements the wallet still finds require. */
  function RequiredFee(rules: Rules, w: WalletV, sel: Selection): nat {
    (rules.minFee)(|Found(w, sel.inputs)|, 1 + |Found(w, sel.change)|, 1)
  }

  lemma AssemblyAcceptedIff(rules: Rules, w: WalletV, s: SlateV, ctx: Context, kcR: Keychain, a: Keys, b: Keys,
                            out: Elem, sel: Selection)
    requires s.offset == Norm(0 - b.key + BlindOf(kcR)(out))
    requires ctx == SenderContext(a, sel, out.amount)
    requires Spends(sel, out.amount) && DistinctCommitments(w.kc, sel, kcR, out)
    ensures Accepted(rules, Assembly(w, ctx, s, kcR, out, sel.fee), sel.fee, Norm(a.key + b.key))
       <==> RequiredFee(rules, w, sel) <= sel.fee && Norm(MissingBlind(w, ctx)) == 0 && MissingValue(w, ctx) == 0
  {
    hide Balanced, NoCutThrough, InputsOf, OutputsOf, AllOutputs, Found, Missing, SumBy, SumSet, Spends,
         DistinctCommitments;
    var tx := Assembly(w, ctx, s, kcR, out, sel.fee);
    AssembledSums(tx, w, ctx, kcR, out, a, b, sel);
    BalancesIffNothingMissing(tx, w, ctx, kcR, out, a, b, sel, Sig(0, 0));
  }

  lemma OutputsOfFound(w: WalletV, es: seq<Elem>)
    requires Found(w, es) == es
    ensures OutputsOf(w, es) == AllOutputs(w.kc, es)
  {
  }

  /** The sender's side of finalising: it succeeds if and only if the log has the sent transaction, the
      fee covers what the wallet still finds, and what it does not find adds up to nothing. */
  lemma ClosingIff(rules: Rules, w: WalletV, s: SlateV, ctx: Context, kcR: Keychain, a: Keys, b: Keys, out: Elem,
                   sel: Selection, sent: SlateV)
    requires s == Answered(rules, sent, kcR, a, b, out)
    requires sent.kernelFeatures == 0 && sent.numParticipants == 2 && sent.fee == sel.fee && sent.offset == 0
    requires ctx == SenderContext(a, sel, out.amount)
    requires Compatible(a, b) && Spends(sel, out.amount) && DistinctCommitments(w.kc, sel, kcR, out)
    ensures var done := FinalizeStandard(rules, w, s, ctx, NoFault);
      && (done.r.Ok? <==> s.id in w.sent && RequiredFee(rules, w, sel) <= sel.fee
                          && Norm(MissingBlind(w, ctx)) == 0 && MissingValue(w, ctx) == 0)
      && (done.r.Ok? ==> Completed(rules, done, s.id, Standard3, InputsOf(w, sel.inputs),
                                   {OutputOf(kcR, out)} + OutputsOf(w, sel.change), sel.fee))
  {
    hide Repopulate, CompleteTx, Accepted, Settled, InputsOf, OutputsOf, AllOutputs, RequiredFee, MissingBlind,
         MissingValue, Spends, DistinctCommitments;
    var tx := Assembly(w, ctx, s, kcR, out, sel.fee);
    var ready := AdjustOffset(w.kc, s, ctx).(amount := ctx.amount, fee := sel.fee, tx := Some(tx),
                   participants := [s.participants[0], Participant(a.key, a.nonce, None)]);
    RepopulatingStep(rules, w, s, ctx, kcR, a, b, out, sent);
    AssemblyAcceptedIff(rules, w, s, ctx, kcR, a, b, out, sel);
    FinalizerCompletesIff(rules, ready, ctx, a, b, tx);
  }

  /** With all records in place it does succeed. */
  lemma ClosingStep(rules: Rules, w: WalletV, s: SlateV, ctx: Context, kcR: Keychain, a: Keys, b: Keys, out: Elem,
                    sel: Selection, sent: SlateV)
    requires s == Answered(rules, sent, kcR, a, b, out)
    requires sent.kernelFeatures == 0 && sent.numParticipants == 2 && sent.fee == sel.fee && sent.offset == 0
    requires ctx == SenderContext(a, sel, out.amount)
    requires Compatible(a, b) && Spends(sel, out.amount) && FeeSuffices(rules, sel)
    requires DistinctCommitments(w.kc, sel, kcR, out)
    requires HasAll(w, sel.inputs) && HasAll(w, sel.change)
    requires s.id in w.sent
    ensures Completed(rules, FinalizeStandard(rules, w, s, ctx, NoFault), s.id, Standard3, InputsOf(w, sel.inputs),
                      {OutputOf(kcR, out)} + AllOutputs(w.kc, sel.change), sel.fee)
  {
    hide FinalizeStandard, Completed, InputsOf, OutputsOf, AllOutputs, Found, Missing, HasAll, Spends,
         DistinctCommitments;
    FoundAll(w, sel.inputs);
    FoundAll(w, sel.change);
    NoneMissing(w, sel.inputs);
    NoneMissing(w, sel.change);
    OutputsOfFound(w, sel.change);
    ClosingIff(rules, w, s, ctx, kcR, a, b, out, sel, sent);
  }

  // ---------- Complete runs ----------

  lemma FinalizeAtOnce(rules: Rules, w: WalletV, s: SlateV, sel: Option<Selection>, fault: Fault)
    requires s.id in w.contexts && !w.contexts[s.id].lateLock && !Expired(w, s) && s.state == Standard2
    ensures FinalizeTx(rules, w, s, sel, fault) == FinalizeStandard(rules, w, s, w.contexts[s.id], fault)
  {
    hide FinalizeStandard, FinalizeInvoice;
  }

  lemma LockingStep(rules: Rules, w: WalletV, s: SlateV, sel: Selection, ctx: Context)
    requires s.id in w.contexts && w.contexts[s.id] == ctx && s.kernelFeatures == 0
    requires ctx.fee.Some? && ctx.inputIds == sel.inputs && ctx.outputIds == sel.change
    requires HasAll(w, sel.inputs)
    ensures LockOutputs(rules, w, s) == LockContext(w, s.id, ctx)
    ensures LockContext(w, s.id, ctx).Ok?
    ensures HasAll(LockContext(w, s.id, ctx).value, sel.inputs) && HasAll(LockContext(w, s.id, ctx).value, sel.change)
    ensures s.id in LockContext(w, s.id, ctx).value.sent
  {
    forall e | e in sel.change ensures e.id in Ids(sel.change) {}
  }

  /** A run with inputs chosen at once: opening, locking, answering and finalising all succeed,
      whatever else the two wallets did in between, and the final transaction settles. */
  lemma StandardRunSettles(rules: Rules, ws: WalletV, wr: WalletV, later: WalletV, blank: SlateV, sel: Selection,
                           a: Keys, b: Keys, outId: KeyId, includesFee: bool, net: nat, unused: Option<Selection>)
    requires blank == BlankSlate(blank.id, false, blank.amount, blank.ttl, blank.version)
    requires blank.amount == if includesFee then net + sel.fee else net
    requires Compatible(a, b) && Spends(sel, net) && FeeSuffices(rules, sel) && HasAll(ws, sel.inputs)
    requires DistinctCommitments(ws.kc, sel, wr.kc, Elem(outId, None, net))
    requires !Expired(wr, blank) && blank.id !in wr.received
    ensures var opening := InitSend(rules, ws, blank, Some(sel), a, includesFee);
      opening.r.Ok? &&
      var locked := LockOutputs(rules, opening.w, opening.r.value);
      locked.Ok? &&
      var answered := Receive(rules, wr, opening.r.value, b, outId);
      answered.r.Ok? &&
      (Continues(locked.value, later, blank.id) && !Expired(later, answered.r.value) ==>
        Completed(rules, FinalizeTx(rules, later, answered.r.value, unused, NoFault), blank.id, Standard3,
                  InputsOf(later, sel.inputs),
                  {OutputOf(wr.kc, Elem(outId, None, net))} + AllOutputs(ws.kc, sel.change), sel.fee))
  {
    hide InitSend, LockOutputs, LockContext, Receive, FinalizeTx, FinalizeStandard, Completed, DistinctCommitments,
         InputsOf, AllOutputs, FeeSuffices, Spends, Compatible;
    var out, ctx := Elem(outId, None, net), SenderContext(a, sel, net);
    OpeningStep(rules, ws, blank, sel, a, includesFee, net);
    var s1, w1 := Opened(blank, net, sel.fee, a), SaveContext(ws, blank.id, ctx);
    LockingStep(rules, w1, s1, sel, ctx);
    AnsweringStep(rules, wr, s1, blank, net, sel.fee, a, b, outId);
    var s2 := Answered(rules, s1, wr.kc, a, b, out);
    if Continues(LockContext(w1, s1.id, ctx).value, later, blank.id) && !Expired(later, s2) {
      LockedContext(w1, s1.id, ctx);
      FinalizeAtOnce(rules, later, s2, unused, NoFault);
      ClosingStep(rules, later, s2, ctx, wr.kc, a, b, out, sel, s1);
    }
  }

  lemma LockedContext(w: WalletV, id: SlateId, ctx: Context)
    requires LockContext(w, id, ctx).Ok?
    ensures LockContext(w, id, ctx).value.contexts == w.contexts && LockContext(w, id, ctx).value.kc == w.kc
  {
  }

  lemma LateLockingStep(rules: Rules, w: WalletV, s: SlateV, sel: Selection, a: Keys, amount: nat)
    requires s.id in w.contexts && s.tx.Some? && HasAll(w, sel.inputs)
    requires w.contexts[s.id] == NewContext(a).(fee := Some(sel.fee), amount := amount, lateLock := true)
    ensures var ctx := SenderContext(a, sel, amount);
      var w2 := LockContext(SaveContext(w, s.id, ctx), s.id, ctx);
      && w2.Ok? && HasAll(w2.value, sel.inputs) && HasAll(w2.value, sel.change) && s.id in w2.value.sent
      && LateLock(rules, w, s, w.contexts[s.id], Some(sel), s.version, NoFault) == (w2.value, Ok(ctx))
  {
    var ctx := SenderContext(a, sel, amount);
    var w1 := SaveContext(w, s.id, ctx);
    forall e | e in sel.change ensures e.id in Ids(sel.change) {}
    assert LockOutputs(rules, w1, s) == LockContext(w1, s.id, ctx);
  }

  /** A late-locked run: inputs are chosen only when the answer arrives, at the agreed fee. */
  lemma LateLockedRunSettles(rules: Rules, ws: WalletV, wr: WalletV, later: WalletV, blank: SlateV, sel: Selection,
                             a: Keys, b: Keys, outId: KeyId)
    requires blank == BlankSlate(blank.id, false, blank.amount, blank.ttl, blank.version)
    requires Compatible(a, b) && Spends(sel, blank.amount) && FeeSuffices(rules, sel)
    requires DistinctCommitments(ws.kc, sel, wr.kc, Elem(outId, None, blank.amount))
    requires !Expired(wr, blank) && blank.id !in wr.received
    ensures var opening := InitSendLate(ws, blank, sel.fee, a);
      opening.r.Ok? &&
      var answered := Receive(rules, wr, opening.r.value, b, outId);
      answered.r.Ok? &&
      (Continues(opening.w, later, blank.id) && !Expired(later, answered.r.value) && HasAll(later, sel.inputs) ==>
        exists locked: WalletV :: locked.kc == later.kc && blank.id in locked.sent && HasAll(locked, sel.change) &&
          Completed(rules, FinalizeTx(rules, later, answered.r.value, Some(sel), NoFault), blank.id, Standard3,
                    InputsOf(locked, sel.inputs),
                    {OutputOf(wr.kc, Elem(outId, None, blank.amount))} + AllOutputs(ws.kc, sel.change), sel.fee))
  {
    hide InitSendLate, LockContext, Receive, LateLock, FinalizeStandard, FinalizeInvoice, Completed,
         DistinctCommitments,
         InputsOf, AllOutputs, FeeSuffices, Spends, Compatible;
    var out, ctx := Elem(outId, None, blank.amount), SenderContext(a, sel, blank.amount);
    var s1 := Opened(blank, blank.amount, sel.fee, a);
    LateOpeningStep(ws, blank, sel.fee, a);
    AnsweringStep(rules, wr, s1, blank, blank.amount, sel.fee, a, b, outId);
    var s2 := Answered(rules, s1, wr.kc, a, b, out);
    var opening := InitSendLate(ws, blank, sel.fee, a);
    if Continues(opening.w, later, blank.id) && !Expired(later, s2) && HasAll(later, sel.inputs) {
      LateLockingStep(rules, later, s2, sel, a, blank.amount);
      var w1 := SaveContext(later, s2.id, ctx);
      var w2 := LockContext(w1, s2.id, ctx).value;
      LockedContext(w1, s2.id, ctx);
      ClosingStep(rules, w2, s2, ctx, wr.kc, a, b, out, sel, s1);
      assert FinalizeTx(rules, later, s2, Some(sel), NoFault) == FinalizeStandard(rules, w2, s2, ctx, NoFault);
    }
  }

  lemma LateOpeningStep(w: WalletV, blank: SlateV, fee: nat, a: Keys)
    requires blank == BlankSlate(blank.id, false, blank.amount, blank.ttl, blank.version)
    ensures InitSendLate(w, blank, fee, a)
         == Step(SaveContext(w, blank.id, NewContext(a).(fee := Some(fee), amount := blank.amount, lateLock := true)),
                 Ok(Opened(blank, blank.amount, fee, a)))
  {
    JoinEmpty(a.key, a.nonce);
  }
}
