/** Which signature shares are refused, where a wallet puts its own, and what a finalised slate is. */
module SigningLaws {
  import opened Wrappers
  import opened Scalars
  import opened Sums
  import opened SlateTypes
  import opened SlateSpec

  /** `s*G == R + e*P` for every share present. */
  ghost predicate SharesHold(e: Scalar, ps: seq<Participant>) {
    forall p :: p in ps && p.sig.Some? ==> p.sig.value.s == Norm(p.sig.value.r + e * p.excess)
  }

  /** The challenge of a slate: over the sums of all nonces and all keys, and the kernel's message. */
  function ChallengeOf(rules: Rules, s: SlateV, msg: KernelFeatures): Scalar {
    (rules.challenge)(Norm(SumBy(s.participants, NonceOf)), Norm(SumBy(s.participants, ExcessOf)), msg)
  }

  /** There is something to sign: participants, whose nonces and keys do not cancel. */
  ghost predicate Signable(s: SlateV) {
    s.participants != [] && Norm(SumBy(s.participants, NonceOf)) != 0 && Norm(SumBy(s.participants, ExcessOf)) != 0
  }

  // ---------- The message ----------

  /** The message names the features, the fee and the argument the slate asks for, and none of them can
      be changed without changing it. */
  lemma MessageBindsIff(rules: Rules, s: SlateV, t: SlateV)
    requires KernelMessage(rules, s).Ok? && KernelMessage(rules, t).Ok?
    ensures KernelMessage(rules, s) == KernelMessage(rules, t)
       <==> s.kernelFeatures == t.kernelFeatures && s.fee == t.fee
            && (s.kernelFeatures != 0 ==> s.featureArgs == t.featureArgs)
    ensures KernelMessage(rules, s).value.fee == s.fee
  {
  }

  /** Features a wallet can sign for: plain, height-locked with a height, and no-recent-duplicate with a
      relative height the node accepts. */
  lemma MessageIff(rules: Rules, s: SlateV)
    ensures KernelMessage(rules, s).Ok?
       <==> || s.kernelFeatures == 0
            || (s.kernelFeatures == 2 && s.featureArgs.Some?)
            || (s.kernelFeatures == 3 && s.featureArgs.Some? && (rules.relativeHeightOk)(s.featureArgs.value))
    ensures s.kernelFeatures == 0 ==> KernelMessage(rules, s) == Ok(Plain(s.fee))
    ensures s.kernelFeatures == 2 && s.featureArgs.Some? ==>
              KernelMessage(rules, s) == Ok(HeightLocked(s.fee, s.featureArgs.value))
    ensures KernelMessage(rules, s).Err? ==>
              KernelMessage(rules, s).error == if s.kernelFeatures == 1 then InvalidKernelFeatures(1)
                                               else if s.kernelFeatures > 3 then UnknownKernelFeatures(s.kernelFeatures)
                                               else if s.featureArgs == None then KernelFeaturesMissing
                                               else InvalidRelativeHeight
  {
  }

  // ---------- Shares ----------

  lemma SharesCheckedIff(rules: Rules, s: SlateV)
    requires Signable(s) && KernelMessage(rules, s).Ok?
    ensures var e := ChallengeOf(rules, s, KernelMessage(rules, s).value);
      && (CheckShares(rules, s) == None <==> SharesHold(e, s.participants))
      && (CheckShares(rules, s).Some? ==> CheckShares(rules, s) == Some(InvalidPartialSignature))
  {
    hide KernelMessage, Norm;
    var g := SigningOf(rules, s).value;
    forall i | 0 <= i < |s.participants| ensures s.participants[i] in s.participants {}
    assert forall i | 0 <= i < |s.participants| ::
        ShareOk(rules, g, s.participants[i]) <==>
        (s.participants[i].sig.Some? ==>
         s.participants[i].sig.value.s == Norm(s.participants[i].sig.value.r + Challenge(rules,
             g) * s.participants[i].excess));
    assert NoShares(s.participants) ==> SharesHold(Challenge(rules, g), s.participants);
  }

  /** The entry a share goes to: the first of the leading `n` with the key pair. */
  ghost predicate OwnEntryAt(ps: seq<Participant>, n: nat, x: Scalar, k: Scalar, i: nat) {
    && i < n && i < |ps| && ps[i].excess == x && ps[i].nonce == k
    && forall j :: 0 <= j < i ==> ps[j].excess != x || ps[j].nonce != k
  }

  /** The share is in that entry; or no entry of the leading `n` has the key pair and nothing changed. */
  ghost predicate SharePlaced(ps: seq<Participant>, qs: seq<Participant>, n: nat, x: Scalar, k: Scalar, sig: Sig) {
    || (exists i: nat :: OwnEntryAt(ps, n, x, k, i) && qs == ps[i := Participant(x, k, Some(sig))])
    || (qs == ps && n <= |ps| && forall i :: 0 <= i < n ==> ps[i].excess != x || ps[i].nonce != k)
  }

  lemma {:induction false} StoredIsPlaced(ps: seq<Participant>, n: nat, x: Scalar, k: Scalar, sig: Sig)
    requires StoreShare(ps, n, x, k, sig).Ok?
    ensures SharePlaced(ps, StoreShare(ps, n, x, k, sig).value, n, x, k, sig)
    decreases n
  {
    if n > 0 {
      if IsEntry(ps[0], x, k) {
        assert OwnEntryAt(ps, n, x, k, 0);
        assert [ps[0].(sig := Some(sig))] + ps[1..] == ps[0 := Participant(x, k, Some(sig))];
      } else {
        StoredIsPlaced(ps[1..], n - 1, x, k, sig);
        PlacedBehind(ps, StoreShare(ps[1..], n - 1, x, k, sig).value, n, x, k, sig);
      }
    }
  }

  lemma PlacedBehind(ps: seq<Participant>, rest: seq<Participant>, n: nat, x: Scalar, k: Scalar, sig: Sig)
    requires n > 0 && ps != [] && (ps[0].excess != x || ps[0].nonce != k)
    requires SharePlaced(ps[1..], rest, n - 1, x, k, sig)
    ensures SharePlaced(ps, [ps[0]] + rest, n, x, k, sig)
  {
    var tail := ps[1..];
    if rest == tail && n - 1 <= |tail| && forall i :: 0 <= i < n - 1 ==> tail[i].excess != x || tail[i].nonce != k {
      assert [ps[0]] + tail == ps;
      forall i | 0 <= i < n ensures ps[i].excess != x || ps[i].nonce != k {
        if i > 0 { assert ps[i] == tail[i - 1]; }
      }
    } else {
      var i: nat :| OwnEntryAt(tail, n - 1, x, k, i) && rest == tail[i := Participant(x, k, Some(sig))];
      forall j | 0 <= j < i + 1 ensures ps[j].excess != x || ps[j].nonce != k {
        if j > 0 { assert ps[j] == tail[j - 1]; }
      }
      assert OwnEntryAt(ps, n, x, k, i + 1);
      assert [ps[0]] + rest == ps[i + 1 := Participant(x, k, Some(sig))];
    }
  }

  /** A wallet signs only what others have signed correctly. Its share goes to its first entry among the
      announced number of participants, two when none is announced, and nothing else changes. */
  lemma OwnShareLaw(rules: Rules, s: SlateV, x: Scalar, k: Scalar)
    requires FillRound2(rules, s, x, k).Ok?
    ensures Signable(s) && KernelMessage(rules, s).Ok?
    ensures var t := FillRound2(rules, s, x, k).value;
      var n := if s.numParticipants == 0 then 2 else s.numParticipants;
      var e := ChallengeOf(rules, s, KernelMessage(rules, s).value);
      && SharesHold(e, s.participants)
      && t == s.(participants := t.participants)
      && SharePlaced(s.participants, t.participants, n, x, k, Sig(k, Norm(k + e * x)))
  {
    hide KernelMessage, StoreShare, SharesHold, CheckShares, SharePlaced;
    SharesCheckedIff(rules, s);
    var g := SigningOf(rules, s).value;
    StoredIsPlaced(s.participants, PartyCount(s), x, k, PartialSig(rules, g, x, k));
  }

  /** One bad share, of whomever, and nobody adds a share or aggregates. */
  lemma BadShareRefused(rules: Rules, s: SlateV, bad: Participant, x: Scalar, k: Scalar)
    requires Signable(s) && KernelMessage(rules, s).Ok? && bad in s.participants && bad.sig.Some?
    requires bad.sig.value.s
          != Norm(bad.sig.value.r + ChallengeOf(rules, s, KernelMessage(rules, s).value) * bad.excess)
    ensures FillRound2(rules, s, x, k) == Err(InvalidPartialSignature)
    ensures FinalSignature(rules, s) == Err(InvalidPartialSignature)
    ensures Finalize(rules, s) == Err(InvalidPartialSignature)
  {
    hide KernelMessage, CheckShares;
    SharesCheckedIff(rules, s);
  }

  /** The first of two parties returns a forged share: the second does not sign. */
  lemma ForgedShareRefused(rules: Rules, s: SlateV)
    requires s.participants == [Participant(1, 1, Some(Sig(1, 0))), Participant(2, 2, None)] && s.kernelFeatures == 0
    requires Norm(1 + (rules.challenge)(3, 3, Plain(s.fee))) != 0
    ensures FillRound2(rules, s, 2, 2) == Err(InvalidPartialSignature)
  {
    var p, q := s.participants[0], s.participants[1];
    assert [p, q][1..] == [q] && [q][1..] == [];
    assert SumBy([q], NonceOf) == 2 && SumBy([q], ExcessOf) == 2;
    assert SumBy(s.participants, NonceOf) == 3 && SumBy(s.participants, ExcessOf) == 3;
    BadShareRefused(rules, s, p, 2, 2);
  }

  /** Two bad shares whose errors cancel have the right sum, and are refused all the same. */
  lemma CancellingErrorsRefused(rules: Rules, s: SlateV, p: Participant, q: Participant, error: Scalar)
    requires Signable(s) && KernelMessage(rules, s).Ok? && s.participants == [p, q] && Norm(error) != 0
    requires var e := ChallengeOf(rules, s, KernelMessage(rules, s).value);
      && p.sig == Some(Sig(p.nonce, Norm(p.nonce + e * p.excess + error)))
      && q.sig == Some(Sig(q.nonce, Norm(q.nonce + e * q.excess - error)))
    ensures var e := ChallengeOf(rules, s, KernelMessage(rules, s).value);
      Norm(SumBy(s.participants, Response))
      == Norm(SumBy(s.participants, NonceOf) + e * SumBy(s.participants, ExcessOf))
    ensures Finalize(rules, s) == Err(InvalidPartialSignature)
  {
    hide KernelMessage, Finalize, Norm, SumBy;
    var e := ChallengeOf(rules, s, KernelMessage(rules, s).value);
    var a, b := p.nonce + e * p.excess, q.nonce + e * q.excess;
    assert p in s.participants;
    NormEq(a + error, a);
    BadShareRefused(rules, s, p, 0, 0);
    TwoTerms(p, q, Response);
    TwoTerms(p, q, NonceOf);
    TwoTerms(p, q, ExcessOf);
    ErrorsCancel(a, b, error);
    assert e * (p.excess + q.excess) == e * p.excess + e * q.excess;
  }

  lemma ErrorsCancel(a: int, b: int, error: int)
    ensures Norm(Norm(a + error) + Norm(b - error)) == Norm(a + b)
  {
    NormAdd(a + error, Norm(b - error));
    NormAdd(b - error, a + error);
  }

  lemma TwoTerms(p: Participant, q: Participant, f: Participant -> int)
    ensures SumBy([p, q], f) == f(p) + f(q)
  {
    assert [p, q][1..] == [q] && [q][1..] == [];
    assert SumBy([q], f) == f(q) + SumBy([q][1..], f);
  }

  /** The shares are aggregated if and only if they all hold and their responses add up to a signature for the
      sums. */
  lemma AggregateIff(rules: Rules, s: SlateV)
    ensures var nonces, keys := Norm(SumBy(s.participants, NonceOf)), Norm(SumBy(s.participants, ExcessOf));
      var total := Norm(SumBy(s.participants, Response));
      && (FinalSignature(rules, s).Ok? <==>
          && Signable(s) && KernelMessage(rules, s).Ok?
          && var e := ChallengeOf(rules, s, KernelMessage(rules, s).value);
            SharesHold(e, s.participants) && total == Norm(nonces + e * keys))
      && (FinalSignature(rules, s).Ok? ==> FinalSignature(rules, s).value == Sig(nonces, total))
  {
    hide KernelMessage, SumBy, Norm, SharesHold;
    if Signable(s) && KernelMessage(rules, s).Ok? { SharesCheckedIff(rules, s); }
  }

  // ---------- A share is missing ----------

  function MissingNonce(p: Participant): int { if p.sig == None then p.nonce else 0 }
  function MissingKey(p: Participant): int { if p.sig == None then p.excess else 0 }

  /** Whoever gave a share computed it over all. */
  ghost predicate HonestOrMissing(e: Scalar, ps: seq<Participant>) {
    forall p :: p in ps && p.sig.Some? ==> p.sig == Some(Sig(p.nonce, Norm(p.nonce + e * p.excess)))
  }

  function Owed(e: Scalar): Participant -> int { (p: Participant) => p.nonce + e * p.excess }
  function OwedByMissing(e: Scalar): Participant -> int { (p: Participant) => MissingNonce(p) + e * MissingKey(p) }

  lemma {:induction false} MissingResponses(e: Scalar, ps: seq<Participant>)
    requires HonestOrMissing(e, ps)
    ensures Norm(SumBy(ps, Response) + SumBy(ps, OwedByMissing(e))) == Norm(SumBy(ps, Owed(e)))
  {
    if ps != [] {
      var p, rest := ps[0], ps[1..];
      assert p in ps && forall q :: q in rest ==> q in ps;
      MissingResponses(e, rest);
      OneResponse(e, p, SumBy(rest, Response) + SumBy(rest, OwedByMissing(e)), SumBy(rest, Owed(e)));
    }
  }

  lemma OneResponse(e: Scalar, p: Participant, x: int, y: int)
    requires Norm(x) == Norm(y) && (p.sig.Some? ==> p.sig == Some(Sig(p.nonce, Norm(p.nonce + e * p.excess))))
    ensures Norm(Response(p) + OwedByMissing(e)(p) + x) == Norm(Owed(e)(p) + y)
  {
    var own := p.nonce + e * p.excess;
    hide Norm;
    assert e * 0 == 0;
    if p.sig.Some? { NormAdd(own, x); }
    NormAdd(x, own);
    NormAdd(y, own);
  }

  lemma {:induction false} SumOwed(e: Scalar, ps: seq<Participant>)
    ensures SumBy(ps, Owed(e)) == SumBy(ps, NonceOf) + e * SumBy(ps, ExcessOf)
    ensures SumBy(ps, OwedByMissing(e)) == SumBy(ps, MissingNonce) + e * SumBy(ps, MissingKey)
  {
    if ps == [] {
      assert e * 0 == 0;
    } else {
      SumOwed(e, ps[1..]);
      Spread(e, ps[0].excess, SumBy(ps[1..], ExcessOf));
      Spread(e, MissingKey(ps[0]), SumBy(ps[1..], MissingKey));
    }
  }

  lemma Spread(e: int, a: int, b: int)
    ensures e * (a + b) == e * a + e * b
  {
  }

  /** With only some of the shares, all of them good, nothing is aggregated, unless what is missing adds up to
      nothing. */
  lemma MissingShareRefusedIff(rules: Rules, s: SlateV)
    requires Signable(s) && KernelMessage(rules, s).Ok?
    requires HonestOrMissing(ChallengeOf(rules, s, KernelMessage(rules, s).value), s.participants)
    ensures var e := ChallengeOf(rules, s, KernelMessage(rules, s).value);
      FinalSignature(rules, s).Ok?
      <==> Norm(SumBy(s.participants, MissingNonce) + e * SumBy(s.participants, MissingKey)) == 0
  {
    hide KernelMessage, SumBy, FinalSignature, Norm;
    var ps, e := s.participants, ChallengeOf(rules, s, KernelMessage(rules, s).value);
    var nonces, keys := SumBy(ps, NonceOf), SumBy(ps, ExcessOf);
    var missing := SumBy(ps, MissingNonce) + e * SumBy(ps, MissingKey);
    AggregateIff(rules, s);
    HonestHold(e, ps);
    MissingResponses(e, ps);
    SumOwed(e, ps);
    NormMul(Norm(nonces), e, keys);
    NormAdd(nonces, e * keys);
    NormEq(SumBy(ps, Response) + missing, SumBy(ps, Response));
  }

  lemma HonestHold(e: Scalar, ps: seq<Participant>)
    requires HonestOrMissing(e, ps)
    ensures SharesHold(e, ps)
  {
  }

  // ---------- Finalisation ----------

  /** The fee pays for the body as it is, and so do amount and fee of the slate. */
  ghost predicate FeePays(rules: Rules, s: SlateV, tx: Tx, k: Kernel) {
    var required := (rules.minFee)(|tx.inputs|, |tx.outputs|, 1);
    required <= k.features.fee && required <= s.amount + s.fee
  }

  /** Outputs minus inputs plus fee make the excess and the offset; no commitment is on both sides. */
  ghost predicate BooksHold(tx: Tx, excess: Scalar, fee: nat) {
    && Norm(SumSet(tx.outputs, OutputBlind) - SumSet(tx.inputs, InputBlind)) == Norm(excess + tx.offset)
    && SumSet(tx.outputs, OutputValue) + fee == SumSet(tx.inputs, InputValue)
    && forall i, o :: i in tx.inputs && o in tx.outputs ==> i.commit != o.commit
  }

  /** Whatever slate comes in: it is finalised if and only if all of this holds of it, and then its kernel
      carries the sum of the keys and the aggregate of the shares. */
  lemma FinalizeIff(rules: Rules, s: SlateV)
    ensures Finalize(rules, s).Ok? <==>
      && Signable(s) && KernelMessage(rules, s).Ok?
      && s.tx.Some? && s.tx.value.kernel.Some?
      && var tx, k, nonces, keys := s.tx.value, s.tx.value.kernel.value, Norm(SumBy(s.participants, NonceOf)),
             Norm(SumBy(s.participants, ExcessOf));
        var e, total := ChallengeOf(rules, s, KernelMessage(rules, s).value), Norm(SumBy(s.participants, Response));
        && SharesHold(e, s.participants)
        && total == Norm(nonces + e * keys)
        && total == Norm(nonces + (rules.challenge)(nonces, keys, k.features) * keys)
        && FeePays(rules, s, tx, k)
        && BooksHold(tx, keys, k.features.fee)
    ensures Finalize(rules, s).Ok? ==>
      var tx, keys := s.tx.value, Norm(SumBy(s.participants, ExcessOf));
      var sig := Sig(Norm(SumBy(s.participants, NonceOf)), Norm(SumBy(s.participants, Response)));
      Finalize(rules, s).value == s.(tx := Some(tx.(kernel := Some(Kernel(tx.kernel.value.features, keys, sig)))))
  {
    hide KernelMessage, SumBy, SumSet, Norm, SharesHold, FinalSignature;
    AggregateIff(rules, s);
    if Signable(s) && KernelMessage(rules, s).Ok? {
      if s.tx.Some? && s.tx.value.kernel.Some? {
        var keys := Norm(SumBy(s.participants, ExcessOf));
        var sig := Sig(Norm(SumBy(s.participants, NonceOf)), Norm(SumBy(s.participants, Response)));
        BooksAre(s.tx.value, s.tx.value.kernel.value.(excess := keys, sig := sig));
      }
    }
  }

  lemma BooksAre(tx: Tx, k: Kernel)
    ensures var t := tx.(kernel := Some(k));
      NoCutThrough(t) && Balanced(t, k) <==> BooksHold(tx, k.excess, k.features.fee)
  {
  }
}
