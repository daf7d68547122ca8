/** Inputs that meet every other hypothesis of a result about the exchange and fail its condition. */
module ExchangeWitnesses {
  import opened Wrappers
  import opened Scalars
  import opened Sums
  import opened SlateTypes
  import opened SlateSpec
  import opened SlateLaws
  import opened SlateVersions
  import opened ExchangeSpec
  import opened ExchangeLaws
  import opened StandardRuns
  import opened RepeatedPayments

  // ---------- A height-locked slate in version 4 ----------

  /** What a kernel and one input cost. */
  function LoneFee(rules: Rules): nat { (rules.minFee)(1, 0, 1) }

  /** One party that spends a coin, of blinding factor one, on the fee: locked until height 7. */
  function HeightLockedSlate(rules: Rules, version: VersionInfo): SlateV {
    var fee := LoneFee(rules);
    var g := Signing(1, 1, HeightLocked(fee, 7));
    var tx := Tx({Input(false, Commit(1, fee))}, {}, Some(Kernel(HeightLocked(fee, 7), 0, Sig(0, 0))), ORDER - 2);
    SlateV(version, 1, 0, Standard2, Some(tx), 0, fee, 0, 2, ORDER - 2,
           [Participant(1, 1, Some(PartialSig(rules, g, 1, 1)))], None, Some(7))
  }

  lemma HeightLockedSigning(rules: Rules, version: VersionInfo)
    ensures var s := HeightLockedSlate(rules, version);
      && SigningOf(rules, s) == Ok(Signing(1, 1, HeightLocked(LoneFee(rules), 7)))
      && SumPoints(s.participants, ExcessOf) == Ok(1)
  {
    var p := HeightLockedSlate(rules, version).participants[0];
    assert [p][1..] == [];
    assert SumBy([p], NonceOf) == 1 + SumBy([p][1..], NonceOf) && SumBy([p], ExcessOf) == 1 + SumBy([p][1..], ExcessOf);
  }

  lemma HeightLockedBalances(rules: Rules, version: VersionInfo, sig: Sig)
    ensures var k := Kernel(HeightLocked(LoneFee(rules), 7), 1, sig);
      var tx := HeightLockedSlate(rules, version).tx.value.(kernel := Some(k));
      NoCutThrough(tx) && Balanced(tx, k)
  {
    var coin := Input(false, Commit(1, LoneFee(rules)));
    SumSetAdd({}, coin, InputBlind);
    SumSetAdd({}, coin, InputValue);
    assert {} + {coin} == {coin};
    assert Norm(0 - 1) == Norm(1 + (ORDER - 2)) == ORDER - 1;
  }

  /** It finalises, and what version 4 gives back is another slate. */
  lemma HeightLockedIsLost(rules: Rules, version: VersionInfo, v: SlateV4)
    ensures var s := HeightLockedSlate(rules, version);
      Finalize(rules, s).Ok? && Finalised(rules, s, Finalize(rules, s).value)
      && (Encodes(v, Finalize(rules, s).value) ==> FromV4(rules, v) != Finalize(rules, s).value)
  {
    hide Encodes, FromV4, NoCutThrough, Balanced;
    var s, g := HeightLockedSlate(rules, version), Signing(1, 1, HeightLocked(LoneFee(rules), 7));
    HeightLockedSigning(rules, version);
    HonestSharesAggregate(rules, s, g);
    var sig := FinalSignature(rules, s).value;
    HeightLockedBalances(rules, version, sig);
    assert CheckFees(rules, s) == None;
    assert KernelVerifies(rules, Kernel(HeightLocked(LoneFee(rules), 7), 1, sig));
    if Encodes(v, Finalize(rules, s).value) {
      FinalisedRoundTripIff(rules, s, Finalize(rules, s).value, v);
    }
  }

  // ---------- A coin whose record is gone ----------

  const PAYMENT := Elem([0, 0, 1], None, 2)

  /** What a transaction with one input and one output costs. */
  function OneCoinFee(rules: Rules): nat { (rules.minFee)(1, 1, 1) }

  function Coin(rules: Rules): Elem { Elem([0, 0, 0], None, 2 + OneCoinFee(rules)) }

  /** One coin that covers the payment and the fee exactly. */
  function OneCoin(rules: Rules): Selection { Selection.Selection([Coin(rules)], [], OneCoinFee(rules)) }

  /** Only without a fee could the coin be the payment itself. */
  lemma OneCoinDistinct(rules: Rules, kc: Keychain, kcR: Keychain)
    requires CommitOf(kc, Coin(rules)) != CommitOf(kcR, PAYMENT)
    ensures Spends(OneCoin(rules), 2) && FeeSuffices(rules, OneCoin(rules))
    ensures DistinctCommitments(kc, OneCoin(rules), kcR, PAYMENT)
  {
    var coin := Coin(rules);
    var es := Commits(kc, [coin]) + (Commits(kc, []) + [CommitOf(kcR, PAYMENT)]);
    assert [coin][1..] == [] && es == [CommitOf(kc, coin), CommitOf(kcR, PAYMENT)];
    assert SumBy([coin], AmountOf) == coin.amount + SumBy([coin][1..], AmountOf);
  }

  lemma NothingFound(rules: Rules, w: WalletV, a: Keys)
    requires w.records == map[]
    ensures InputsOf(w, [Coin(rules)]) == {} && OutputsOf(w, []) == {}
    ensures MissingValue(w, SenderContext(a, OneCoin(rules), 2)) == -(2 + OneCoinFee(rules))
  {
    var coin := Coin(rules);
    assert [coin][1..] == [];
    assert Found(w, [coin]) == [] + Found(w, []) && Missing(w, [coin]) == [coin] + Missing(w, []);
    assert SumBy([coin], AmountOf) == coin.amount + SumBy([coin][1..], AmountOf);
  }

  /** The coin has no record any more: the transaction the sender assembles does not balance. */
  lemma LostRecordUnbalances(rules: Rules, w: WalletV, kcR: Keychain, a: Keys, b: Keys, sig: Sig)
    requires w.records == map[] && CommitOf(w.kc, Coin(rules)) != CommitOf(kcR, PAYMENT)
    ensures var ctx := SenderContext(a, OneCoin(rules), 2);
      var offset := Norm(Norm(0 - b.key + BlindOf(kcR)(PAYMENT)) - a.key + ContextBlind(w.kc, ctx));
      var tx := Tx({}, {OutputOf(kcR, PAYMENT)}, None, offset);
      && Assembled(tx, w, ctx, kcR, PAYMENT, a, b)
      && Spends(OneCoin(rules), 2) && DistinctCommitments(w.kc, OneCoin(rules), kcR, PAYMENT)
      && !Balanced(tx, Kernel(Plain(OneCoinFee(rules)), Norm(a.key + b.key), sig))
  {
    var ctx := SenderContext(a, OneCoin(rules), 2);
    var offset := Norm(Norm(0 - b.key + BlindOf(kcR)(PAYMENT)) - a.key + ContextBlind(w.kc, ctx));
    var tx := Tx({}, {OutputOf(kcR, PAYMENT)}, None, offset);
    NothingFound(rules, w, a);
    OneCoinDistinct(rules, w.kc, kcR);
    hide Assembled, DistinctCommitments, Balanced, Norm, Spends, MissingValue, InputsOf, OutputsOf;
    AssembledHere(tx, w, ctx, kcR, a, b);
    BalancesIffNothingMissing(tx, w, ctx, kcR, PAYMENT, a, b, OneCoin(rules), sig);
  }

  lemma AssembledHere(tx: Tx, w: WalletV, ctx: Context, kcR: Keychain, a: Keys, b: Keys)
    requires InputsOf(w, ctx.inputIds) == {} && OutputsOf(w, ctx.outputIds) == {}
    requires tx.inputs == {} && tx.outputs == {OutputOf(kcR, PAYMENT)}
    requires tx.offset == Norm(Norm(0 - b.key + BlindOf(kcR)(PAYMENT)) - a.key + ContextBlind(w.kc, ctx))
    ensures Assembled(tx, w, ctx, kcR, PAYMENT, a, b)
  {
    hide Norm;
    assert {OutputOf(kcR, PAYMENT)} + {} == {OutputOf(kcR, PAYMENT)};
  }

  /** And finalising fails. */
  lemma LostRecordFails(rules: Rules, w: WalletV, s: SlateV, sent: SlateV, kcR: Keychain, a: Keys, b: Keys)
    requires w.records == map[] && CommitOf(w.kc, Coin(rules)) != CommitOf(kcR, PAYMENT)
    requires s == Answered(rules, sent, kcR, a, b, PAYMENT) && Compatible(a, b)
    requires sent.kernelFeatures == 0 && sent.numParticipants == 2 && sent.offset == 0
    requires sent.fee == OneCoinFee(rules)
    ensures FinalizeStandard(rules, w, s, SenderContext(a, OneCoin(rules), 2), NoFault).r.Err?
  {
    hide FinalizeStandard, Answered, Completed, DistinctCommitments, Norm, Spends, MissingValue, MissingBlind,
         InputsOf, OutputsOf, Compatible, RequiredFee;
    NothingFound(rules, w, a);
    OneCoinDistinct(rules, w.kc, kcR);
    ClosingIff(rules, w, s, SenderContext(a, OneCoin(rules), 2), kcR, a, b, PAYMENT, OneCoin(rules), sent);
  }

  // ---------- An invoice paid twice ----------

  lemma OneCoinBlind(rules: Rules, kc: Keychain)
    requires CommitOf(kc, Coin(rules)).blind != 0
    ensures Norm(SumBy(OneCoin(rules).change, BlindOf(kc)) - SumBy(OneCoin(rules).inputs, BlindOf(kc))) != 0
  {
    var coin := Coin(rules);
    assert [coin][1..] == [];
    assert SumBy([coin], BlindOf(kc)) == BlindOf(kc)(coin) + SumBy([coin][1..], BlindOf(kc));
    var blind: int := CommitOf(kc, coin).blind;
    assert Norm(0 - blind) == Norm(ORDER - blind) == ORDER - blind;
  }

  lemma OneCoinKnown(rules: Rules, w: WalletV, blank: SlateV)
    requires Coin(rules).id in w.records && blank == BlankSlate(blank.id, true, 2, 0, blank.version)
    ensures HasAll(w, OneCoin(rules).inputs) && HasNone(w, OneCoin(rules).change)
    ensures !Expired(w, blank) && blank.amount == 2 && blank.ttl == 0
  {
  }

  /** The payer spends its only coin, whose blinding factor is not zero; it asks twice for the same
      invoice. */
  lemma RetriedPaymentFails(rules: Rules, wi: WalletV, wp: WalletV, later: WalletV, blank: SlateV, a: Keys, b0: Keys,
                            b: Keys, unused: Option<Selection>)
    requires blank == BlankSlate(blank.id, true, 2, 0, blank.version)
    requires Compatible(a, b0) && Compatible(a, b)
    requires CommitOf(wp.kc, Coin(rules)) != CommitOf(wi.kc, PAYMENT)
    requires Coin(rules).id in wp.records && CommitOf(wp.kc, Coin(rules)).blind != 0
    requires blank.id !in wp.sent && blank.id !in wp.sentCancelled && blank.id !in wp.contexts
    ensures var sel, issued := OneCoin(rules), IssueInvoice(rules, wi, blank, a, PAYMENT.id);
      issued.r.Ok? &&
      var once := ProcessInvoice(rules, wp, issued.r.value, Some(sel), b0);
      once.r.Ok? &&
      var twice := ProcessInvoice(rules, once.w, issued.r.value, Some(sel), b);
      twice.r.Ok? &&
      (Continues(issued.w, later, blank.id) && !Expired(later, twice.r.value) ==>
        FinalizeTx(rules, later, twice.r.value, unused, NoFault).r.Err?)
  {
    hide IssueInvoice, ProcessInvoice, FinalizeTx, DistinctCommitments, FeeSuffices, Spends, Compatible, Norm, SumBy,
         Continues, BlankSlate, OneCoin, CommitOf;
    OneCoinDistinct(rules, wp.kc, wi.kc);
    OneCoinBlind(rules, wp.kc);
    OneCoinKnown(rules, wp, blank);
    assert PAYMENT == Elem(PAYMENT.id, None, blank.amount);
    SecondPaymentSettlesIff(rules, wi, wp, later, blank, OneCoin(rules), OneCoin(rules), a, b0, b, PAYMENT.id, unused);
  }
}
