/** The mutable slate a wallet works on (libwallet/src/slate.rs). */
module Slates {
  import opened Wrappers
  import opened Scalars
  import opened Sums
  import opened SlateTypes
  import Spec = SlateSpec
  import opened SlateSpec

  lemma {:induction false} ShareStored(ps: seq<Participant>, n: nat, x: Scalar, k: Scalar, sig: Sig, i: nat)
    requires i < n && i < |ps| && IsEntry(ps[i], x, k)
    requires forall j | 0 <= j < i :: !IsEntry(ps[j], x, k)
    ensures StoreShare(ps, n, x, k, sig) == Ok(ps[i := ps[i].(sig := Some(sig))])
  {
    if i > 0 {
      forall j | 0 <= j < i - 1 ensures !IsEntry(ps[1..][j], x, k) { assert ps[1..][j] == ps[j + 1]; }
      ShareStored(ps[1..], n - 1, x, k, sig, i - 1);
    }
    assert ps[i := ps[i].(sig := Some(sig))] ==
           [if i == 0 then ps[0].(sig := Some(sig)) else ps[0]]
           + if i == 0 then ps[1..] else ps[1..][i - 1 := ps[i].(sig := Some(sig))];
  }

  /** Without a matching entry the list is unchanged, or its end is reached too early. */
  lemma {:induction false} ShareNotStored(ps: seq<Participant>, n: nat, x: Scalar, k: Scalar, sig: Sig, i: nat)
    requires i <= n && i <= |ps| && (i == n || i == |ps|)
    requires forall j | 0 <= j < i :: !IsEntry(ps[j], x, k)
    ensures StoreShare(ps, n, x, k, sig) == if i == n then Ok(ps) else Err(Panic)
  {
    if i > 0 {
      forall j | 0 <= j < i - 1 ensures !IsEntry(ps[1..][j], x, k) { assert ps[1..][j] == ps[j + 1]; }
      ShareNotStored(ps[1..], n - 1, x, k, sig, i - 1);
      assert [ps[0]] + ps[1..] == ps;
    }
  }

  class Slate {
    var version: VersionInfo
    var numParticipants: nat
    var id: SlateId
    var state: SlateState
    var tx: Option<Tx>
    var amount: nat
    var fee: nat
    var ttl: nat
    var kernelFeatures: nat
    var offset: Scalar
    var participants: seq<Participant>
    var payment: Option<PaymentInfo>
    var featureArgs: Option<nat>

    function V(): SlateV
      reads this
    {
      SlateV(version, numParticipants, id, state, tx, amount, fee, ttl, kernelFeatures, offset,
             participants, payment, featureArgs)
    }

    /** A copy of a received slate. */
    constructor (s: SlateV)
      ensures V() == s
    {
      version, numParticipants, id, state := s.version, s.numParticipants, s.id, s.state;
      tx, amount, fee, ttl := s.tx, s.amount, s.fee, s.ttl;
      kernelFeatures, offset, participants := s.kernelFeatures, s.offset, s.participants;
      payment, featureArgs := s.payment, s.featureArgs;
    }

    method RemoveOtherSigdata(secNonce: Scalar, secKey: Scalar)
      modifies this
      ensures V() == old(V()).(participants := Own(old(participants), secKey, secNonce))
    {
      var kept := [];
      for i := 0 to |participants|
        invariant unchanged(this)
        invariant Own(participants, secKey, secNonce) == kept + Own(participants[i..], secKey, secNonce)
      {
        if IsEntry(participants[i], secKey, secNonce) {
          kept := kept + [participants[i]];
        }
        assert participants[i..][1..] == participants[i + 1..];
      }
      participants := kept;
    }

    method AddParticipantInfo(ctx: Context, partSig: Option<Sig>)
      modifies this
      ensures V() == old(V()).(participants := WithParticipant(old(participants), ctx.secKey, ctx.secNonce, partSig))
    {
      var x, k := ctx.secKey, ctx.secNonce;
      var sig, kept := partSig, [];
      for i := 0 to |participants|
        invariant unchanged(this)
        invariant Others(participants, x, k) == kept + Others(participants[i..], x, k)
        invariant RecoveredSig(participants, x, k, partSig) == RecoveredSig(participants[i..], x, k, sig)
      {
        var v := participants[i];
        assert participants[i..][1..] == participants[i + 1..];
        if IsEntry(v, x, k) && sig == None {
          sig := v.sig;
        }
        if v.nonce != k || v.excess != x {
          kept := kept + [v];
        }
      }
      participants := kept + [Participant(x, k, sig)];
    }

    method AdjustOffset(kc: Keychain, ctx: Context)
      modifies this
      ensures V() == Spec.AdjustOffset(kc, old(V()), ctx)
    {
      var sum := offset - ctx.initialSecKey;
      var b := BlindOf(kc);
      for i := 0 to |ctx.inputIds|
        invariant unchanged(this)
        invariant sum - SumBy(ctx.inputIds[i..], b) == offset - ctx.initialSecKey - SumBy(ctx.inputIds, b)
      {
        sum := sum - (kc.derive)(ctx.inputIds[i].amount, ctx.inputIds[i].id);
        assert ctx.inputIds[i..][1..] == ctx.inputIds[i + 1..];
      }
      for i := 0 to |ctx.outputIds|
        invariant unchanged(this)
        invariant sum + SumBy(ctx.outputIds[i..], b)
               == offset - ctx.initialSecKey - SumBy(ctx.inputIds, b) + SumBy(ctx.outputIds, b)
      {
        sum := sum + (kc.derive)(ctx.outputIds[i].amount, ctx.outputIds[i].id);
        assert ctx.outputIds[i..][1..] == ctx.outputIds[i + 1..];
      }
      offset := Norm(sum);
    }

    method AddTransactionElements(rules: Rules, ins: set<Input>, outs: set<Output>) returns (error: Option<Error>)
      modifies this
      ensures match AddElements(rules, old(V()), ins, outs)
              case Err(e) => error == Some(e) && V() == old(V())
              case Ok(s) => error == None && V() == s
    {
      if tx == None { return Some(SlateTransactionRequired); }
      match KernelMessage(rules, V()) {
        case Err(e) => return Some(e);
        case Ok(m) =>
          tx := Some(tx.value.(kernel := Some(Kernel(m, 0, Sig(0, 0)))));
      }
      tx := Some(tx.value.(inputs := tx.value.inputs + ins, outputs := tx.value.outputs + outs));
      error := None;
    }

    /** Without any share nothing is computed and nothing can fail. */
    method VerifyPartSigs(rules: Rules) returns (error: Option<Error>)
      ensures match SigningOf(rules, V())
              case Err(e) => error == if exists p :: p in participants && p.sig.Some? then Some(e) else None
              case Ok(g) =>
                && error in {None, Some(InvalidPartialSignature)}
                && (error == None <==> forall p :: p in participants && p.sig.Some? ==>
                      p.sig.value.s == Norm(p.sig.value.r + Challenge(rules, g) * p.excess))
      ensures error == CheckShares(rules, V())
    {
      for i := 0 to |participants|
        invariant forall j | 0 <= j < i :: participants[j].sig.Some? ==>
          SigningOf(rules, V()).Ok? && ShareOk(rules, SigningOf(rules, V()).value, participants[j])
      {
        if participants[i].sig.Some? {
          match SigningOf(rules, V()) {
            case Err(e) => return Some(e);
            case Ok(g) =>
              if !ShareOk(rules, g, participants[i]) { return Some(InvalidPartialSignature); }
          }
        }
      }
      error := None;
    }

    /** Attaches a share to the first of the leading `n` entries that has the key pair. */
    method AttachShare(n: nat, secKey: Scalar, secNonce: Scalar, sig: Sig) returns (error: Option<Error>)
      modifies this
      ensures match StoreShare(old(participants), n, secKey, secNonce, sig)
              case Err(e) => error == Some(e) && V() == old(V())
              case Ok(ps) => error == None && V() == old(V()).(participants := ps)
    {
      ghost var ps := participants;
      for i := 0 to n
        invariant unchanged(this) && i <= |ps|
        invariant forall j | 0 <= j < i :: !IsEntry(ps[j], secKey, secNonce)
      {
        if i >= |participants| {
          ShareNotStored(ps, n, secKey, secNonce, sig, i);
          return Some(Panic);
        }
        if IsEntry(participants[i], secKey, secNonce) {
          ShareStored(ps, n, secKey, secNonce, sig, i);
          participants := participants[i := participants[i].(sig := Some(sig))];
          return None;
        }
      }
      ShareNotStored(ps, n, secKey, secNonce, sig, n);
      error := None;
    }

    method FillRound2(rules: Rules, secKey: Scalar, secNonce: Scalar) returns (error: Option<Error>)
      modifies this
      ensures match Spec.FillRound2(rules, old(V()), secKey, secNonce)
              case Err(e) => error == Some(e) && V() == old(V())
              case Ok(s) => error == None && V() == s
    {
      error := VerifyPartSigs(rules);
      if error.Some? { return; }
      match SigningOf(rules, V()) {
        case Err(e) => error := Some(e);
        case Ok(g) =>
          error := AttachShare(PartyCount(V()), secKey, secNonce, PartialSig(rules, g, secKey, secNonce));
      }
    }

    method FinalizeSignature(rules: Rules) returns (r: Result<Sig, Error>)
      ensures r == FinalSignature(rules, V())
    {
      var error := VerifyPartSigs(rules);
      if error.Some? { return Err(error.value); }
      var total := 0;
      for i := 0 to |participants|
        invariant total + SumBy(participants[i..], Response) == SumBy(participants, Response)
      {
        if participants[i].sig.Some? {
          total := total + participants[i].sig.value.s;
        }
        assert participants[i..][1..] == participants[i + 1..];
      }
      match SigningOf(rules, V()) {
        case Err(e) => r := Err(e);
        case Ok(g) =>
          var sig := Sig(g.nonces, Norm(total));
          r := if Verifies(sig, Challenge(rules, g), g.keys) then Ok(sig) else Err(InvalidSignature);
      }
    }

    method FinalizeTransaction(rules: Rules, sig: Sig) returns (error: Option<Error>)
      modifies this
      ensures match Spec.FinalizeTransaction(rules, old(V()), sig)
              case Err(e) => error == Some(e) && V() == old(V())
              case Ok(s) => error == None && V() == s
    {
      error := CheckFees(rules, V());
      if error.Some? { return; }
      match SumPoints(participants, ExcessOf) {
        case Err(e) => return Some(e);
        case Ok(x) =>
          if tx.value.kernel == None { return Some(Panic); }
          var k := tx.value.kernel.value.(excess := x, sig := sig);
          var finalTx := tx.value.(kernel := Some(k));
          if !KernelVerifies(rules, k) { return Some(InvalidSignature); }
          var valid := Validate(finalTx, k);
          if !valid { return Some(InvalidTransaction); }
          tx := Some(finalTx);
      }
      error := None;
    }

    method Finalize(rules: Rules) returns (error: Option<Error>)
      modifies this
      ensures match Spec.Finalize(rules, old(V()))
              case Err(e) => error == Some(e) && V() == old(V())
              case Ok(s) => error == None && V() == s
    {
      var r := FinalizeSignature(rules);
      match r {
        case Err(e) => error := Some(e);
        case Ok(sig) => error := FinalizeTransaction(rules, sig);
      }
    }
  }

  /** The node's rules on a transaction body that concern the exchange: no output spent by the
      same transaction, and the kernel sums. */
  method Validate(tx: Tx, k: Kernel) returns (ok: bool)
    ensures ok <==> NoCutThrough(tx) && Balanced(tx, k)
  {
    var blind, value := 0, 0;
    var rest := tx.outputs;
    while rest != {}
      invariant rest <= tx.outputs
      invariant blind + SumSet(rest, OutputBlind) == SumSet(tx.outputs, OutputBlind)
      invariant value + SumSet(rest, OutputValue) == SumSet(tx.outputs, OutputValue)
      decreases rest
    {
      var o :| o in rest;
      SumSetRemove(rest, o, OutputBlind);
      SumSetRemove(rest, o, OutputValue);
      blind, value, rest := blind + o.commit.blind, value + o.commit.value, rest - {o};
    }
    var ins := tx.inputs;
    while ins != {}
      invariant ins <= tx.inputs
      invariant blind - SumSet(ins, InputBlind) == SumSet(tx.outputs, OutputBlind) - SumSet(tx.inputs, InputBlind)
      invariant value - SumSet(ins, InputValue) == SumSet(tx.outputs, OutputValue) - SumSet(tx.inputs, InputValue)
      decreases ins
    {
      var i :| i in ins;
      SumSetRemove(ins, i, InputBlind);
      SumSetRemove(ins, i, InputValue);
      blind, value, ins := blind - i.commit.blind, value - i.commit.value, ins - {i};
    }
    ok := && (forall i, o | i in tx.inputs && o in tx.outputs :: i.commit != o.commit)
          && Norm(blind) == Norm(k.excess + tx.offset)
          && value + k.features.fee == 0;
  }
}
