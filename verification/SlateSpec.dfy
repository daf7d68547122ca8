/** What each operation on a slate computes (libwallet/src/slate.rs), as functions on slate
    values. The class in `Slates` computes them in place; the protocol theorems are about them. */
module SlateSpec {
  import opened Wrappers
  import opened Scalars
  import opened Sums
  import opened SlateTypes

  // ---------- Participants ----------

  predicate IsEntry(p: Participant, excess: Scalar, nonce: Scalar) {
    p.excess == excess && p.nonce == nonce
  }

  /** All entries except those of the given key pair, in order. */
  function Others(ps: seq<Participant>, x: Scalar, k: Scalar): seq<Participant> {
    if ps == [] then []
    else (if IsEntry(ps[0], x, k) then [] else [ps[0]]) + Others(ps[1..], x, k)
  }

  /** Only the entries of the given key pair, in order. */
  function Own(ps: seq<Participant>, x: Scalar, k: Scalar): seq<Participant> {
    if ps == [] then []
    else (if IsEntry(ps[0], x, k) then [ps[0]] else []) + Own(ps[1..], x, k)
  }

  /** The signature already given, or the first one found among the entries of the key pair. */
  function RecoveredSig(ps: seq<Participant>, x: Scalar, k: Scalar, sig: Option<Sig>): Option<Sig> {
    if ps == [] then sig
    else if IsEntry(ps[0], x, k) && sig == None then RecoveredSig(ps[1..], x, k, ps[0].sig)
    else RecoveredSig(ps[1..], x, k, sig)
  }

  function WithParticipant(ps: seq<Participant>, x: Scalar, k: Scalar, sig: Option<Sig>): seq<Participant> {
    Others(ps, x, k) + [Participant(x, k, RecoveredSig(ps, x, k, sig))]
  }

  /** The sum of the public nonces; an empty list and the point at infinity are refused. */
  function SumPoints(ps: seq<Participant>, f: Participant -> int): Result<Scalar, Error> {
    if ps == [] then Err(EmptyParticipants)
    else if Norm(SumBy(ps, f)) == 0 then Err(PointAtInfinity)
    else Ok(Norm(SumBy(ps, f)))
  }

  // ---------- Kernel message ----------

  function KernelMessage(rules: Rules, s: SlateV): Result<KernelFeatures, Error> {
    match s.kernelFeatures
    case 0 => Ok(Plain(s.fee))
    case 1 => Err(InvalidKernelFeatures(1))
    case 2 => if s.featureArgs.Some? then Ok(HeightLocked(s.fee, s.featureArgs.value)) else Err(KernelFeaturesMissing)
    case 3 =>
      if s.featureArgs == None then Err(KernelFeaturesMissing)
      else if !(rules.relativeHeightOk)(s.featureArgs.value) then Err(InvalidRelativeHeight)
      else Ok(NoRecentDuplicate(s.fee, s.featureArgs.value))
    case n => Err(UnknownKernelFeatures(n))
  }

  // ---------- Signatures ----------

  /** Nonce sum, key sum and message: what every share of a signature is bound to. */
  datatype Signing = Signing(nonces: Scalar, keys: Scalar, msg: KernelFeatures)

  function SigningOf(rules: Rules, s: SlateV): Result<Signing, Error> {
    match SumPoints(s.participants, NonceOf)
    case Err(e) => Err(e)
    case Ok(n) =>
      match SumPoints(s.participants, ExcessOf)
      case Err(e) => Err(e)
      case Ok(x) =>
        match KernelMessage(rules, s)
        case Err(e) => Err(e)
        case Ok(m) => Ok(Signing(n, x, m))
  }

  function Challenge(rules: Rules, g: Signing): Scalar {
    (rules.challenge)(g.nonces, g.keys, g.msg)
  }

  /** The equation `s*G == R + e*P`. */
  predicate Verifies(sig: Sig, e: Scalar, key: Scalar) {
    sig.s == Norm(sig.r + e * key)
  }

  function PartialSig(rules: Rules, g: Signing, secKey: Scalar, secNonce: Scalar): Sig {
    Sig(secNonce, Norm(secNonce + Challenge(rules, g) * secKey))
  }

  predicate ShareOk(rules: Rules, g: Signing, p: Participant) {
    p.sig.Some? ==> Verifies(p.sig.value, Challenge(rules, g), p.excess)
  }

  predicate NoShares(ps: seq<Participant>) {
    forall i | 0 <= i < |ps| :: ps[i].sig == None
  }

  /** Checks every share present; without shares nothing is computed and nothing can fail. */
  function CheckShares(rules: Rules, s: SlateV): Option<Error> {
    if NoShares(s.participants) then None
    else
      match SigningOf(rules, s)
      case Err(e) => Some(e)
      case Ok(g) =>
        if forall i | 0 <= i < |s.participants| :: ShareOk(rules, g, s.participants[i]) then None
        else Some(InvalidPartialSignature)
  }

  /** Stores a share in the first of the leading `n` entries that has the key pair. Running
      past the end of a shorter list is an index error. */
  function StoreShare(ps: seq<Participant>, n: nat, x: Scalar, k: Scalar, sig: Sig): Result<seq<Participant>, Error> {
    if n == 0 then Ok(ps)
    else if ps == [] then Err(Panic)
    else if IsEntry(ps[0], x, k) then Ok([ps[0].(sig := Some(sig))] + ps[1..])
    else
      match StoreShare(ps[1..], n - 1, x, k, sig)
      case Err(e) => Err(e)
      case Ok(rest) => Ok([ps[0]] + rest)
  }

  function PartyCount(s: SlateV): nat {
    if s.numParticipants == 0 then 2 else s.numParticipants
  }

  function FillRound2(rules: Rules, s: SlateV, secKey: Scalar, secNonce: Scalar): Result<SlateV, Error> {
    match CheckShares(rules, s)
    case Some(e) => Err(e)
    case None =>
      match SigningOf(rules, s)
      case Err(e) => Err(e)
      case Ok(g) =>
        match StoreShare(s.participants, PartyCount(s), secKey, secNonce, PartialSig(rules, g, secKey, secNonce))
        case Err(e) => Err(e)
        case Ok(ps) => Ok(s.(participants := ps))
  }

  function Response(p: Participant): int {
    if p.sig.Some? then p.sig.value.s else 0
  }

  /** Aggregates the shares present and checks the result against the sum of the keys. */
  function FinalSignature(rules: Rules, s: SlateV): Result<Sig, Error> {
    match CheckShares(rules, s)
    case Some(e) => Err(e)
    case None =>
      match SigningOf(rules, s)
      case Err(e) => Err(e)
      case Ok(g) =>
        var sig := Sig(g.nonces, Norm(SumBy(s.participants, Response)));
        if Verifies(sig, Challenge(rules, g), g.keys) then Ok(sig) else Err(InvalidSignature)
  }

  // ---------- Transaction elements and offset ----------

  /** Replaces the kernel by a blank one for the slate's current fee, then adds elements. */
  function AddElements(rules: Rules, s: SlateV, ins: set<Input>, outs: set<Output>): Result<SlateV, Error> {
    if s.tx == None then Err(SlateTransactionRequired)
    else
      match KernelMessage(rules, s)
      case Err(e) => Err(e)
      case Ok(m) =>
        var tx := s.tx.value;
        Ok(s.(tx := Some(tx.(inputs := tx.inputs + ins, outputs := tx.outputs + outs,
                             kernel := Some(Kernel(m, 0, Sig(0, 0)))))))
  }

  function BlindOf(kc: Keychain): Elem -> int {
    (e: Elem) => (kc.derive)(e.amount, e.id)
  }

  /** Outputs minus inputs: what the context adds to the blinding side of the books. */
  function ContextBlind(kc: Keychain, ctx: Context): int {
    SumBy(ctx.outputIds, BlindOf(kc)) - SumBy(ctx.inputIds, BlindOf(kc))
  }

  function AdjustOffset(kc: Keychain, s: SlateV, ctx: Context): SlateV {
    s.(offset := Norm(s.offset - ctx.initialSecKey + ContextBlind(kc, ctx)))
  }

  // ---------- Finalisation ----------

  ghost predicate NoCutThrough(tx: Tx) {
    forall i, o :: i in tx.inputs && o in tx.outputs ==> i.commit != o.commit
  }

  /** Sum of outputs - sum of inputs + fee*H == excess + offset*G, on both coordinates. */
  ghost predicate Balanced(tx: Tx, k: Kernel) {
    && Norm(SumSet(tx.outputs, OutputBlind) - SumSet(tx.inputs, InputBlind)) == Norm(k.excess + tx.offset)
    && SumSet(tx.outputs, OutputValue) + k.features.fee == SumSet(tx.inputs, InputValue)
  }

  predicate KernelVerifies(rules: Rules, k: Kernel) {
    Verifies(k.sig, (rules.challenge)(k.sig.r, k.excess, k.features), k.excess)
  }

  function CheckFees(rules: Rules, s: SlateV): Option<Error> {
    if s.tx == None then Some(SlateTransactionRequired)
    else
      var tx := s.tx.value;
      var kernels := if tx.kernel.Some? then 1 else 0;
      var required := (rules.minFee)(|tx.inputs|, |tx.outputs|, kernels);
      var paid := if tx.kernel.Some? then tx.kernel.value.features.fee else 0;
      if required > paid || required > s.amount + s.fee then Some(FeeDispute) else None
  }

  ghost function FinalizeTransaction(rules: Rules, s: SlateV, sig: Sig): Result<SlateV, Error> {
    match CheckFees(rules, s)
    case Some(e) => Err(e)
    case None =>
      match SumPoints(s.participants, ExcessOf)
      case Err(e) => Err(e)
      case Ok(x) =>
        if s.tx.value.kernel == None then Err(Panic)
        else
          var k := s.tx.value.kernel.value.(excess := x, sig := sig);
          var tx := s.tx.value.(kernel := Some(k));
          if !KernelVerifies(rules, k) then Err(InvalidSignature)
          else if !(NoCutThrough(tx) && Balanced(tx, k)) then Err(InvalidTransaction)
          else Ok(s.(tx := Some(tx)))
  }

  ghost function Finalize(rules: Rules, s: SlateV): Result<SlateV, Error> {
    match FinalSignature(rules, s)
    case Err(e) => Err(e)
    case Ok(sig) => FinalizeTransaction(rules, s, sig)
  }
}
