/** Laws of participant lists and aggregated signatures. */
module SlateLaws {
  import opened Wrappers
  import opened Scalars
  import opened Sums
  import opened SlateTypes
  import opened SlateSpec

  lemma {:induction false} OwnAppend(ps: seq<Participant>, qs: seq<Participant>, x: Scalar, k: Scalar)
    ensures Own(ps + qs, x, k) == Own(ps, x, k) + Own(qs, x, k)
  {
    if ps == [] {
      assert ps + qs == qs;
    } else {
      assert (ps + qs)[0] == ps[0] && (ps + qs)[1..] == ps[1..] + qs;
      OwnAppend(ps[1..], qs, x, k);
      var head := if IsEntry(ps[0], x, k) then [ps[0]] else [];
      assert Own(ps, x, k) == head + Own(ps[1..], x, k);
      assert Own(ps + qs, x, k) == head + Own(ps[1..] + qs, x, k);
      Assoc(head, Own(ps[1..], x, k), Own(qs, x, k));
    }
  }

  lemma {:induction false} OthersAppend(ps: seq<Participant>, qs: seq<Participant>, x: Scalar, k: Scalar)
    ensures Others(ps + qs, x, k) == Others(ps, x, k) + Others(qs, x, k)
  {
    if ps == [] {
      assert ps + qs == qs;
    } else {
      assert (ps + qs)[0] == ps[0] && (ps + qs)[1..] == ps[1..] + qs;
      OthersAppend(ps[1..], qs, x, k);
      var head := if IsEntry(ps[0], x, k) then [] else [ps[0]];
      assert Others(ps, x, k) == head + Others(ps[1..], x, k);
      assert Others(ps + qs, x, k) == head + Others(ps[1..] + qs, x, k);
      Assoc(head, Others(ps[1..], x, k), Others(qs, x, k));
    }
  }

  lemma {:induction false} OthersHasNoOwn(ps: seq<Participant>, x: Scalar, k: Scalar)
    ensures Own(Others(ps, x, k), x, k) == []
    ensures Others(Others(ps, x, k), x, k) == Others(ps, x, k)
  {
    if ps != [] {
      OthersHasNoOwn(ps[1..], x, k);
      var rest := Others(ps[1..], x, k);
      if IsEntry(ps[0], x, k) {
        assert Others(ps, x, k) == [] + rest == rest;
      } else {
        assert Others(ps, x, k) == [ps[0]] + rest && ([ps[0]] + rest)[1..] == rest;
        assert Own([ps[0]] + rest, x, k) == [] + Own(rest, x, k);
      }
    }
  }

  /** Where a recovered signature comes from: the one supplied if any, otherwise one already
      attached to the key pair; it is absent only when none was attached. */
  lemma {:induction false} RecoveredSigOrigin(ps: seq<Participant>, x: Scalar, k: Scalar, sig: Option<Sig>)
    ensures sig.Some? ==> RecoveredSig(ps, x, k, sig) == sig
    ensures sig == None ==>
      match RecoveredSig(ps, x, k, sig)
      case None => forall p | p in Own(ps, x, k) :: p.sig == None
      case Some(_) => exists p | p in Own(ps, x, k) :: p.sig == RecoveredSig(ps, x, k, sig)
  {
    if ps != [] {
      if IsEntry(ps[0], x, k) && sig == None {
        RecoveredSigOrigin(ps[1..], x, k, ps[0].sig);
        assert ps[0] in Own(ps, x, k);
      } else {
        RecoveredSigOrigin(ps[1..], x, k, sig);
      }
    }
  }

  /** Adding a participant leaves exactly one entry for its key pair, at the end, leaves every
      other entry as it was, and never drops a signature already attached to the pair. */
  lemma AddParticipantKeepsOne(ps: seq<Participant>, x: Scalar, k: Scalar, sig: Option<Sig>)
    ensures var r := WithParticipant(ps, x, k, sig);
      && Own(r, x, k) == [r[|r| - 1]]
      && Others(r, x, k) == r[..|r| - 1] == Others(ps, x, k)
      && (sig.Some? ==> r[|r| - 1].sig == sig)
      && (sig == None ==> match r[|r| - 1].sig
                          case None => forall p | p in Own(ps, x, k) :: p.sig == None
                          case Some(_) => exists p | p in Own(ps, x, k) :: p.sig == r[|r| - 1].sig)
  {
    var mine := Participant(x, k, RecoveredSig(ps, x, k, sig));
    OthersHasNoOwn(ps, x, k);
    OwnAppend(Others(ps, x, k), [mine], x, k);
    OthersAppend(Others(ps, x, k), [mine], x, k);
    RecoveredSigOrigin(ps, x, k, sig);
  }

  // ---------- Order of participants ----------

  ghost function SumMultiset<T>(m: multiset<T>, f: T -> int): int {
    if m == multiset{} then 0 else
      var x :| x in m;
      f(x) + SumMultiset(m - multiset{x}, f)
  }

  lemma {:induction false} SumMultisetRemove<T>(m: multiset<T>, x: T, f: T -> int)
    requires x in m
    ensures SumMultiset(m, f) == f(x) + SumMultiset(m - multiset{x}, f)
    decreases |m|
  {
    var y :| y in m && SumMultiset(m, f) == f(y) + SumMultiset(m - multiset{y}, f);
    if y != x {
      SumMultisetRemove(m - multiset{y}, x, f);
      SumMultisetRemove(m - multiset{x}, y, f);
      assert m - multiset{y} - multiset{x} == m - multiset{x} - multiset{y};
    }
  }

  lemma {:induction false} SumByMultiset<T>(s: seq<T>, f: T -> int)
    ensures SumBy(s, f) == SumMultiset(multiset(s), f)
  {
    if s != [] {
      SumByMultiset(s[1..], f);
      assert s == [s[0]] + s[1..];
      SumMultisetRemove(multiset(s), s[0], f);
      assert multiset(s) - multiset{s[0]} == multiset(s[1..]);
    }
  }

  /** A sum does not depend on the order of its terms. */
  lemma SumByPermutation<T>(s: seq<T>, t: seq<T>, f: T -> int)
    requires multiset(s) == multiset(t)
    ensures SumBy(s, f) == SumBy(t, f)
  {
    SumByMultiset(s, f);
    SumByMultiset(t, f);
  }

  /** A participant list without its signatures. */
  function PublicKeys(ps: seq<Participant>): seq<(Scalar, Scalar)> {
    seq(|ps|, i requires 0 <= i < |ps| => (ps[i].excess, ps[i].nonce))
  }

  function First(p: (Scalar, Scalar)): int { p.0 }
  function Second(p: (Scalar, Scalar)): int { p.1 }

  lemma {:induction false} SumsOfPublicKeys(ps: seq<Participant>)
    ensures SumBy(ps, ExcessOf) == SumBy(PublicKeys(ps), First)
    ensures SumBy(ps, NonceOf) == SumBy(PublicKeys(ps), Second)
  {
    if ps != [] {
      SumsOfPublicKeys(ps[1..]);
      assert PublicKeys(ps)[1..] == PublicKeys(ps[1..]);
    }
  }

  /** What is signed depends neither on the order in which the participants are listed nor on
      the shares attached to them, only on who they are and on the kernel message. */
  lemma SigningIgnoresOrder(rules: Rules, s: SlateV, t: SlateV)
    requires multiset(PublicKeys(s.participants)) == multiset(PublicKeys(t.participants))
    requires s.kernelFeatures == t.kernelFeatures && s.fee == t.fee && s.featureArgs == t.featureArgs
    ensures SigningOf(rules, s) == SigningOf(rules, t)
  {
    var a, b := PublicKeys(s.participants), PublicKeys(t.participants);
    assert |a| == |multiset(a)| == |multiset(b)| == |b|;
    SumsOfPublicKeys(s.participants);
    SumsOfPublicKeys(t.participants);
    SumByPermutation(a, b, First);
    SumByPermutation(a, b, Second);
  }

  // ---------- Aggregation ----------

  function ShareNonce(p: Participant): int {
    if p.sig.Some? then p.sig.value.r else 0
  }

  ghost predicate AllShared(rules: Rules, g: Signing, ps: seq<Participant>) {
    forall i | 0 <= i < |ps| :: ps[i].sig.Some? && ShareOk(rules, g, ps[i])
  }

  /** One share more on both sides of the aggregate equation. */
  lemma AddShare(e: int, r: int, x: int, responses: int, nonces: int, keys: int, allKeys: int)
    requires Norm(responses) == Norm(nonces + e * keys) && allKeys == x + keys
    ensures Norm(Norm(r + e * x) + responses) == Norm(r + nonces + e * allKeys)
  {
    var a, b := r + e * x, nonces + e * keys;
    assert r + nonces + e * allKeys == a + b by {
      assert e * (x + keys) == e * x + e * keys;
    }
    NormAdd(a, responses);
    NormAdd(responses, a);
    NormAdd(b, a);
  }

  lemma {:induction false} AddShares(e: Scalar, ps: seq<Participant>)
    requires forall i | 0 <= i < |ps| :: ps[i].sig.Some? && Verifies(ps[i].sig.value, e, ps[i].excess)
    ensures Norm(SumBy(ps, Response)) == Norm(SumBy(ps, ShareNonce) + e * SumBy(ps, ExcessOf))
  {
    if ps == [] {
      assert e * 0 == 0;
    } else {
      var p, rest := ps[0], ps[1..];
      assert Verifies(p.sig.value, e, p.excess);
      AddShares(e, rest);
      AddShare(e, p.sig.value.r, p.excess, SumBy(rest, Response), SumBy(rest, ShareNonce), SumBy(rest, ExcessOf),
               SumBy(ps, ExcessOf));
    }
  }

  /** With every share present and individually valid, the aggregate is accepted exactly when
      the nonces inside the shares add up to the announced ones. */
  lemma AggregateAcceptedIff(rules: Rules, s: SlateV, g: Signing)
    requires SigningOf(rules, s) == Ok(g)
    requires AllShared(rules, g, s.participants)
    ensures FinalSignature(rules, s).Ok? <==> Norm(SumBy(s.participants, ShareNonce)) == g.nonces
    ensures FinalSignature(rules, s).Ok? ==>
      FinalSignature(rules, s).value.r == g.nonces
      && Verifies(FinalSignature(rules, s).value, Challenge(rules, g), g.keys)
  {
    var ps, e := s.participants, Challenge(rules, g);
    var r, x := SumBy(ps, ShareNonce), SumBy(ps, ExcessOf);
    assert forall i | 0 <= i < |ps| :: ShareOk(rules, g, ps[i]);
    AddShares(e, ps);
    NormMul(g.nonces, e, x);
    NormEq(r + e * x, g.nonces + e * x);
    NormEq(r, g.nonces);
    NormScalar(g.nonces);
  }

  /** Shares computed by their owners over the same keys and message always aggregate. */
  lemma HonestSharesAggregate(rules: Rules, s: SlateV, g: Signing)
    requires SigningOf(rules, s) == Ok(g)
    requires forall i | 0 <= i < |s.participants| ::
      var p := s.participants[i]; p.sig == Some(PartialSig(rules, g, p.excess, p.nonce))
    ensures FinalSignature(rules, s).Ok?
    ensures FinalSignature(rules, s).value.r == g.nonces
    ensures Verifies(FinalSignature(rules, s).value, Challenge(rules, g), g.keys)
  {
    HonestNonces(rules, g, s.participants);
    AggregateAcceptedIff(rules, s, g);
  }

  lemma {:induction false} HonestNonces(rules: Rules, g: Signing, ps: seq<Participant>)
    requires forall i | 0 <= i < |ps| :: ps[i].sig == Some(PartialSig(rules, g, ps[i].excess, ps[i].nonce))
    ensures SumBy(ps, ShareNonce) == SumBy(ps, NonceOf)
  {
    if ps != [] {
      assert ps[0].sig == Some(PartialSig(rules, g, ps[0].excess, ps[0].nonce));
      HonestNonces(rules, g, ps[1..]);
    }
  }
}
