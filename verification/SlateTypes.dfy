/** The values exchanged by two wallets that build a transaction together. */
module SlateTypes {
  import opened Wrappers
  import opened Scalars

  /** A BIP32 path; its last component is the child number. */
  type KeyId = seq<nat>
  type SlateId = nat
  type Blob = seq<bv8>

  datatype Error =
    | SlateTransactionRequired
    | EmptyParticipants
    | PointAtInfinity
    | InvalidKernelFeatures(features: nat)
    | KernelFeaturesMissing
    | InvalidRelativeHeight
    | UnknownKernelFeatures(features: nat)
    | InvalidPartialSignature
    | InvalidSignature
    | FeeDispute
    | MissingFee
    | Panic
    | InvalidTransaction
    | TransactionExpired
    | AlreadyReceived
    | TransactionWasCancelled
    | TransactionDoesntExist
    | ContextNotFound
    | OutputNotFound
    | WrongSlateState
    | Selection
    | Backend

  datatype SlateState =
    Unknown | Standard1 | Standard2 | Standard3 | Invoice1 | Invoice2 | Invoice3

  /** The message signed by the kernel: its features and their arguments. */
  datatype KernelFeatures =
    | Plain(fee: nat)
    | HeightLocked(fee: nat, lockHeight: nat)
    | NoRecentDuplicate(fee: nat, relativeHeight: nat)

  /** `blind*G + value*H`. */
  datatype Commit = Commit(blind: Scalar, value: nat)

  /** An aggregate signature share, or a whole signature: the public nonce and the response. */
  datatype Sig = Sig(r: Scalar, s: Scalar)

  datatype Input = Input(coinbase: bool, commit: Commit)
  datatype Output = Output(coinbase: bool, commit: Commit, proof: Blob)
  datatype Kernel = Kernel(features: KernelFeatures, excess: Scalar, sig: Sig)

  /** A transaction body keeps its inputs and outputs sorted and free of duplicates, so they
      are sets; a freshly emptied body has no kernel yet. */
  datatype Tx = Tx(inputs: set<Input>, outputs: set<Output>, kernel: Option<Kernel>, offset: Scalar)

  datatype Participant = Participant(excess: Scalar, nonce: Scalar, sig: Option<Sig>)

  datatype VersionInfo = VersionInfo(version: nat, blockHeaderVersion: nat)
  datatype PaymentInfo = PaymentInfo(sender: Blob, receiver: Blob, receiverSig: Option<Blob>)

  datatype SlateV = SlateV(
    version: VersionInfo,
    numParticipants: nat,
    id: SlateId,
    state: SlateState,
    tx: Option<Tx>,
    amount: nat,
    fee: nat,
    ttl: nat,
    kernelFeatures: nat,
    offset: Scalar,
    participants: seq<Participant>,
    payment: Option<PaymentInfo>,
    featureArgs: Option<nat>)

  /** An input or output of ours: its key, its position on chain if known, and its value. */
  datatype Elem = Elem(id: KeyId, mmrIndex: Option<nat>, amount: nat)

  /** What a wallet keeps privately between the rounds of one slate. */
  datatype Context = Context(
    secKey: Scalar,
    secNonce: Scalar,
    initialSecKey: Scalar,
    initialSecNonce: Scalar,
    outputIds: seq<Elem>,
    inputIds: seq<Elem>,
    amount: nat,
    fee: Option<nat>,
    lateLock: bool,
    calculatedExcess: Option<Scalar>)

  /** The parts of the cryptography and the node rules that the wallet only calls:
      the signature challenge (a hash), the minimum fee of a transaction with so many inputs,
      outputs and kernels, and the relative heights the node accepts. */
  datatype Rules = Rules(
    challenge: (Scalar, Scalar, KernelFeatures) -> Scalar,
    minFee: (nat, nat, nat) -> nat,
    relativeHeightOk: nat -> bool)

  /** Key derivation with the regular switch commitment, and range proofs. */
  datatype Keychain = Keychain(derive: (nat, KeyId) -> Scalar, prove: Commit -> Blob)

  function CommitOf(kc: Keychain, e: Elem): Commit {
    Commit((kc.derive)(e.amount, e.id), e.amount)
  }

  function InputBlind(i: Input): int { i.commit.blind }
  function InputValue(i: Input): int { i.commit.value }
  function OutputBlind(o: Output): int { o.commit.blind }
  function OutputValue(o: Output): int { o.commit.value }
  function ExcessOf(p: Participant): int { p.excess }
  function NonceOf(p: Participant): int { p.nonce }
  function AmountOf(e: Elem): int { e.amount }

  const EMPTY_TX := Tx({}, {}, None, 0)
}
