/** Laws shared by all exchanges: what the elements of a context add up to, and when the wallet
    that finalises succeeds. */
module ExchangeLaws {
  import opened Wrappers
  import opened Scalars
  import opened Sums
  import opened SlateTypes
  import opened SlateSpec
  import opened SlateLaws
  import opened ExchangeSpec

  // ---------- Elements of a context ----------

  function Commits(kc: Keychain, es: seq<Elem>): seq<Commit> {
    seq(|es|, i requires 0 <= i < |es| => CommitOf(kc, es[i]))
  }

  lemma {:induction false} FoundAll(w: WalletV, es: seq<Elem>)
    requires HasAll(w, es)
    ensures Found(w, es) == es
  {
    if es != [] {
      assert es[0] in es && forall e | e in es[1..] :: e in es;
      FoundAll(w, es[1..]);
    }
  }

  lemma {:induction false} FoundDistinct(w: WalletV, es: seq<Elem>)
    requires Distinct(Commits(w.kc, es))
    ensures Distinct(Commits(w.kc, Found(w, es)))
    ensures forall e | e in Found(w, es) :: e in es
  {
    if es != [] {
      var cs, rest := Commits(w.kc, es), Found(w, es[1..]);
      assert Commits(w.kc, es[1..]) == cs[1..];
      DistinctParts([cs[0]], cs[1..]);
      assert [cs[0]] + cs[1..] == cs;
      FoundDistinct(w, es[1..]);
      forall c | c in Commits(w.kc, rest) ensures c in cs[1..] {
        var i :| 0 <= i < |rest| && c == CommitOf(w.kc, rest[i]);
        assert rest[i] in es[1..];
        var j :| 0 <= j < |es[1..]| && es[1..][j] == rest[i];
        assert cs[1..][j] == c;
      }
      if es[0].id in w.records {
        assert Found(w, es) == [es[0]] + rest;
        assert Commits(w.kc, Found(w, es)) == [cs[0]] + Commits(w.kc, rest);
        assert cs[0] !in Commits(w.kc, rest);
        DistinctCons(cs[0], Commits(w.kc, rest));
      } else {
        assert Found(w, es) == rest;
      }
    }
  }

  function AsInput(w: WalletV): Elem -> Input {
    (e: Elem) => InputOf(w, e)
  }

  function AsOutput(kc: Keychain): Elem -> Output {
    (e: Elem) => OutputOf(kc, e)
  }

  lemma CommitsDiffer(kc: Keychain, es: seq<Elem>)
    requires Distinct(Commits(kc, es))
    ensures forall i, j :: 0 <= i < j < |es| ==> CommitOf(kc, es[i]) != CommitOf(kc, es[j])
  {
    forall i, j | 0 <= i < j < |es| ensures CommitOf(kc, es[i]) != CommitOf(kc, es[j]) {
      assert Commits(kc, es)[i] != Commits(kc, es)[j];
    }
  }

  lemma HasCommit(kc: Keychain, es: seq<Elem>, e: Elem)
    requires e in es
    ensures CommitOf(kc, e) in Commits(kc, es)
  {
    var i :| 0 <= i < |es| && es[i] == e;
    assert Commits(kc, es)[i] == CommitOf(kc, e);
  }

  /** Re-adding a context's inputs adds exactly the elements that have a record. */
  lemma InputSums(w: WalletV, es: seq<Elem>)
    requires Distinct(Commits(w.kc, es))
    ensures SumSet(InputsOf(w, es), InputBlind) == SumBy(Found(w, es), BlindOf(w.kc))
    ensures SumSet(InputsOf(w, es), InputValue) == SumBy(Found(w, es), AmountOf)
    ensures |InputsOf(w, es)| == |Found(w, es)|
    ensures forall i | i in InputsOf(w, es) :: i.commit in Commits(w.kc, es)
  {
    var found := Found(w, es);
    FoundDistinct(w, es);
    CommitsDiffer(w.kc, found);
    assert InputsOf(w, es) == Image(found, AsInput(w));
    SumImage(found, AsInput(w), InputBlind, BlindOf(w.kc));
    SumImage(found, AsInput(w), InputValue, AmountOf);
    forall e | e in found ensures CommitOf(w.kc, e) in Commits(w.kc, es) { HasCommit(w.kc, es, e); }
  }

  /** Likewise for outputs put into a transaction. */
  lemma OutputSums(kc: Keychain, es: seq<Elem>)
    requires Distinct(Commits(kc, es))
    ensures SumSet(AllOutputs(kc, es), OutputBlind) == SumBy(es, BlindOf(kc))
    ensures SumSet(AllOutputs(kc, es), OutputValue) == SumBy(es, AmountOf)
    ensures |AllOutputs(kc, es)| == |es|
    ensures forall o | o in AllOutputs(kc, es) :: o.commit in Commits(kc, es)
  {
    CommitsDiffer(kc, es);
    assert AllOutputs(kc, es) == Image(es, AsOutput(kc));
    SumImage(es, AsOutput(kc), OutputBlind, BlindOf(kc));
    SumImage(es, AsOutput(kc), OutputValue, AmountOf);
    forall e | e in es ensures CommitOf(kc, e) in Commits(kc, es) { HasCommit(kc, es, e); }
  }

  lemma DistinctCons<T>(x: T, s: seq<T>)
    requires Distinct(s) && x !in s
    ensures Distinct([x] + s)
  {
    forall i, j | 0 <= i < j < 1 + |s| ensures ([x] + s)[i] != ([x] + s)[j] {
      assert ([x] + s)[j] == s[j - 1];
    }
  }

  lemma DistinctParts<T>(a: seq<T>, b: seq<T>)
    requires Distinct(a + b)
    ensures Distinct(a) && Distinct(b)
    ensures forall x, y :: x in a && y in b ==> x != y
  {
    forall i, j | 0 <= i < j < |a| ensures a[i] != a[j] {
      assert (a + b)[i] == a[i] && (a + b)[j] == a[j];
    }
    forall i, j | 0 <= i < j < |b| ensures b[i] != b[j] {
      assert (a + b)[|a| + i] == b[i] && (a + b)[|a| + j] == b[j];
    }
    forall x, y | x in a && y in b ensures x != y {
      var i :| 0 <= i < |a| && a[i] == x;
      var j :| 0 <= j < |b| && b[j] == y;
      assert (a + b)[i] == x && (a + b)[|a| + j] == y;
    }
  }

  // ---------- Two parties sign ----------

  /** Two key pairs that differ and whose sums are not the point at infinity. */
  predicate Compatible(a: Keys, b: Keys) {
    a != b && Norm(a.key + b.key) != 0 && Norm(a.nonce + b.nonce) != 0
  }

  function TwoPartySigning(a: Keys, b: Keys, fee: nat): Signing {
    Signing(Norm(a.nonce + b.nonce), Norm(a.key + b.key), Plain(fee))
  }

  lemma SumTwo<T>(p: T, q: T, f: T -> int)
    ensures SumBy([p, q], f) == f(p) + f(q)
  {
    assert [p, q][1..] == [q] && [q][1..] == [];
    assert SumBy([q], f) == f(q) + SumBy([q][1..], f);
  }

  /** Both parties sign the same thing, whichever of them is listed first. */
  lemma TwoPartySigningOf(rules: Rules, s: SlateV, a: Keys, b: Keys, sa: Option<Sig>, sb: Option<Sig>)
    requires Compatible(a, b) && s.kernelFeatures == 0
    requires s.participants == [Participant(a.key, a.nonce, sa), Participant(b.key, b.nonce, sb)]
          || s.participants == [Participant(b.key, b.nonce, sb), Participant(a.key, a.nonce, sa)]
    ensures SigningOf(rules, s) == Ok(TwoPartySigning(a, b, s.fee))
  {
    SumTwo(s.participants[0], s.participants[1], NonceOf);
    SumTwo(s.participants[0], s.participants[1], ExcessOf);
  }

  function Share(rules: Rules, a: Keys, b: Keys, fee: nat, mine: Keys): Option<Sig> {
    Some(PartialSig(rules, TwoPartySigning(a, b, fee), mine.key, mine.nonce))
  }

  lemma JoinList(p: Participant, x: Scalar, k: Scalar)
    requires !IsEntry(p, x, k)
    ensures WithParticipant([p], x, k, None) == [p, Participant(x, k, None)]
  {
    assert [p][1..] == [];
    assert Others([p], x, k) == [p] + Others([], x, k) == [p];
    assert RecoveredSig([p], x, k, None) == RecoveredSig([], x, k, None);
  }

  lemma StoreSecond(p: Participant, q: Participant, x: Scalar, k: Scalar, sig: Sig)
    requires !IsEntry(p, x, k) && IsEntry(q, x, k)
    ensures StoreShare([p, q], 2, x, k, sig) == Ok([p, q.(sig := Some(sig))])
  {
    assert [p, q][1..] == [q];
    assert [q][1..] == [] && [q.(sig := Some(sig))] + [] == [q.(sig := Some(sig))];
    assert StoreShare([q], 1, x, k, sig) == Ok([q.(sig := Some(sig))] + [q][1..]);
    assert [p] + [q.(sig := Some(sig))] == [p, q.(sig := Some(sig))];
  }

  lemma KeepSecond(p: Participant, q: Participant, x: Scalar, k: Scalar)
    requires !IsEntry(p, x, k) && IsEntry(q, x, k)
    ensures Own([p, q], x, k) == [q]
    ensures WithParticipant([p, q], x, k, None) == [p, q]
  {
    assert [p, q][1..] == [q] && [q][1..] == [];
    assert Own([q], x, k) == [q] + Own([], x, k) && Others([q], x, k) == [];
    assert Others([p, q], x, k) == [p] + Others([q], x, k) == [p];
    assert RecoveredSig([p, q], x, k, None) == RecoveredSig([q], x, k, None) == q.sig;
  }

  /** The responder's round: it lists itself second, signs, and keeps only its own entry. */
  lemma ResponderSigns(rules: Rules, s: SlateV, ctx: Context, a: Keys, b: Keys)
    requires Compatible(a, b) && s.kernelFeatures == 0 && s.numParticipants == 2
    requires s.participants == [Participant(a.key, a.nonce, None)]
    requires ctx.secKey == b.key && ctx.secNonce == b.nonce
    ensures FillRounds(rules, s, ctx, false) == Ok(s.(participants :=
      [Participant(a.key, a.nonce, None), Participant(b.key, b.nonce, Share(rules, a, b, s.fee, b))]))
  {
    var pa, pb := Participant(a.key, a.nonce, None), Participant(b.key, b.nonce, None);
    JoinList(pa, b.key, b.nonce);
    TwoPartySigningOf(rules, FillRound1(s, ctx), a, b, None, None);
    StoreSecond(pa, pb, b.key, b.nonce, Share(rules, a, b, s.fee, b).value);
  }

  /** The finalising wallet adds its share to the returned one. */
  lemma FinalizerSigns(rules: Rules, s: SlateV, a: Keys, b: Keys)
    requires Compatible(a, b) && s.kernelFeatures == 0 && s.numParticipants == 2
    requires s.participants == [Participant(b.key, b.nonce, Share(rules, a, b, s.fee, b)),
             Participant(a.key, a.nonce, None)]
    ensures var s1 := s.(participants := [s.participants[0], s.participants[1].(sig := Share(rules, a, b, s.fee, a))]);
      var g := TwoPartySigning(a, b, s.fee);
      && FillRound2(rules, s, a.key, a.nonce) == Ok(s1)
      && FinalSignature(rules, s1).Ok?
      && FinalSignature(rules, s1).value.r == g.nonces
      && Verifies(FinalSignature(rules, s1).value, Challenge(rules, g), g.keys)
  {
    var g := TwoPartySigning(a, b, s.fee);
    var pb, pa := s.participants[0], s.participants[1];
    TwoPartySigningOf(rules, s, a, b, None, pb.sig);
    assert ShareOk(rules, g, pb) && ShareOk(rules, g, pa);
    var share := Share(rules, a, b, s.fee, a);
    StoreSecond(pb, pa, a.key, a.nonce, share.value);
    var s1 := s.(participants := [pb, pa.(sig := share)]);
    TwoPartySigningOf(rules, s1, a, b, share, pb.sig);
    HonestSharesAggregate(rules, s1, g);
  }

  /** What is checked of the assembled books: the fee, cut-through and balance. */
  ghost predicate Accepted(rules: Rules, tx: Tx, fee: nat, excess: Scalar) {
    && (rules.minFee)(|tx.inputs|, |tx.outputs|, 1) <= fee
    && NoCutThrough(tx)
    && Balanced(tx, Kernel(Plain(fee), excess, Sig(0, 0)))
  }

  /** From the returned slate finalisation succeeds exactly when the books are accepted; then the result
      settles. */
  lemma FinalizerCompletesIff(rules: Rules, s: SlateV, ctx: Context, a: Keys, b: Keys, tx: Tx)
    requires Compatible(a, b) && s.kernelFeatures == 0 && s.numParticipants == 2
    requires s.participants == [Participant(b.key, b.nonce, Share(rules, a, b, s.fee, b)),
             Participant(a.key, a.nonce, None)]
    requires CompletingKeys(ctx) == a
    requires s.tx == Some(tx) && tx.kernel == Some(Kernel(Plain(s.fee), 0, Sig(0, 0)))
    ensures var r := CompleteTx(rules, s, ctx);
      && (r.Ok? <==> Accepted(rules, tx, s.fee, Norm(a.key + b.key)))
      && (r.Ok? ==>
            && r.value.tx.Some? && r.value == s.(participants := r.value.participants, tx := r.value.tx)
            && Settled(rules, r.value.tx.value, tx.inputs, tx.outputs, s.fee))
  {
    FinalizerSigns(rules, s, a, b);
    var pb, pa := s.participants[0], s.participants[1].(sig := Share(rules, a, b, s.fee, a));
    var s1 := s.(participants := [pb, pa]);
    SumTwo(pb, pa, ExcessOf);
    KernelAcceptedIff(rules, s1, tx, FinalSignature(rules, s1).value, Norm(a.key + b.key));
  }

  lemma KernelAcceptedIff(rules: Rules, s: SlateV, tx: Tx, sig: Sig, excess: Scalar)
    requires s.tx == Some(tx) && tx.kernel == Some(Kernel(Plain(s.fee), 0, Sig(0, 0)))
    requires SumPoints(s.participants, ExcessOf) == Ok(excess)
    requires Verifies(sig, (rules.challenge)(sig.r, excess, Plain(s.fee)), excess)
    ensures var r := FinalizeTransaction(rules, s, sig);
      && (r.Ok? <==> Accepted(rules, tx, s.fee, excess))
      && (r.Ok? ==> r.value.tx.Some? && r.value == s.(tx := r.value.tx)
                    && Settled(rules, r.value.tx.value, tx.inputs, tx.outputs, s.fee))
  {
    var k := Kernel(Plain(s.fee), excess, sig);
    assert KernelVerifies(rules, k);
    assert NoCutThrough(tx.(kernel := Some(k))) <==> NoCutThrough(tx);
    assert Balanced(tx.(kernel := Some(k)), k) <==> Balanced(tx, Kernel(Plain(s.fee), excess, Sig(0, 0)));
  }

  /** A transaction as the chain accepts it: the given elements, balanced under a verified
      kernel, none of its outputs spent in it. */
  ghost predicate Settled(rules: Rules, tx: Tx, ins: set<Input>, outs: set<Output>, fee: nat) {
    && tx.inputs == ins && tx.outputs == outs
    && tx.kernel.Some? && tx.kernel.value.features == Plain(fee)
    && KernelVerifies(rules, tx.kernel.value)
    && Balanced(tx, tx.kernel.value)
    && NoCutThrough(tx)
  }

  /** A finalisation that succeeded and consumed its context. */
  ghost predicate Completed(rules: Rules, done: Step, id: SlateId, state: SlateState, ins: set<Input>,
                            outs: set<Output>, fee: nat)
  {
    && done.r.Ok? && done.r.value.state == state && done.r.value.amount == 0
    && id !in done.w.contexts
    && done.r.value.tx.Some? && Settled(rules, done.r.value.tx.value, ins, outs, fee)
  }
}
