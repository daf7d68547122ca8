/** The message a payment proof signs, and its decoder (libwallet/src/internal/tx.rs). */
module ProofMessage {
  import opened Wrappers
  import opened Digits
  import opened StoreKeys

  type Bytes = seq<nat>

  const COMMITMENT_SIZE: nat := 33
  const ADDRESS_SIZE: nat := 32

  datatype Payment = Payment(amount: nat, commitment: Bytes, address: Bytes)

  datatype DecodeError = TooShort | NotAPoint

  predicate Fits(p: Payment) {
    p.amount < U64_END && |p.commitment| == COMMITMENT_SIZE && |p.address| == ADDRESS_SIZE
  }

  function Message(p: Payment): Bytes { U64Bytes(p.amount) + p.commitment + p.address }

  function Decoded(msg: Bytes, isPoint: Bytes -> bool): Result<Payment, DecodeError> {
    if |msg| < 8 + COMMITMENT_SIZE + ADDRESS_SIZE then Err(TooShort)
    else if !isPoint(msg[8 + COMMITMENT_SIZE..8 + COMMITMENT_SIZE + ADDRESS_SIZE]) then Err(NotAPoint)
    else Ok(Payment(FromDigits(msg[..8], 256), msg[8..8 + COMMITMENT_SIZE],
        msg[8 + COMMITMENT_SIZE..8 + COMMITMENT_SIZE + ADDRESS_SIZE]))
  }

  method ReadBytes(msg: Bytes, pos: nat, n: nat) returns (r: Option<Bytes>)
    requires pos <= |msg|
    ensures r == if pos + n <= |msg| then Some(msg[pos..pos + n]) else None
  {
    var bytes: Bytes := [];
    for i := 0 to n
      invariant pos + i <= |msg|
      invariant |bytes| == i && forall j :: 0 <= j < i ==> bytes[j] == msg[pos + j]
    {
      if pos + i == |msg| { return None; }
      bytes := bytes + [msg[pos + i]];
    }
    assert bytes == msg[pos..pos + n];
    r := Some(bytes);
  }

  method Decode(msg: Bytes, isPoint: Bytes -> bool) returns (r: Result<Payment, DecodeError>)
    ensures r == Decoded(msg, isPoint)
  {
    if |msg| < 8 { return Err(TooShort); }
    var amount := FromDigits(msg[..8], 256);
    var commitment := ReadBytes(msg, 8, COMMITMENT_SIZE);
    if commitment.None? { return Err(TooShort); }
    var address := ReadBytes(msg, 8 + COMMITMENT_SIZE, ADDRESS_SIZE);
    if address.None? { return Err(TooShort); }
    if !isPoint(address.value) { return Err(NotAPoint); }
    r := Ok(Payment(amount, commitment.value, address.value));
  }

  /** A message decodes to what it was made of, whatever follows it, exactly when its address is one. */
  lemma DecodesIff(p: Payment, isPoint: Bytes -> bool, rest: Bytes)
    requires Fits(p)
    ensures Decoded(Message(p) + rest, isPoint) == Ok(p) <==> isPoint(p.address)
  {
    Pows();
    DigitsReadBack(p.amount, 256, 8);
    MessageParts(U64Bytes(p.amount), p.commitment, p.address, rest);
    hide U64Bytes;
  }

  lemma MessageParts(amount: Bytes, commitment: Bytes, address: Bytes, rest: Bytes)
    requires |amount| == 8 && |commitment| == COMMITMENT_SIZE && |address| == ADDRESS_SIZE
    ensures var msg := amount + commitment + address + rest;
      && |msg| >= 8 + COMMITMENT_SIZE + ADDRESS_SIZE && msg[..8] == amount && msg[8..8 + COMMITMENT_SIZE] == commitment
      && msg[8 + COMMITMENT_SIZE..8 + COMMITMENT_SIZE + ADDRESS_SIZE] == address
  {
  }

  /** 73 bytes: the amount, most significant byte first, the commitment, the recipient's address. */
  lemma MessageLayout(p: Payment)
    requires Fits(p)
    ensures var msg := Message(p);
      |msg| == 73 && FromDigits(msg[..8], 256) == p.amount && msg[8..41] == p.commitment && msg[41..] == p.address
  {
    Pows();
    DigitsReadBack(p.amount, 256, 8);
    MessageParts(U64Bytes(p.amount), p.commitment, p.address, []);
    assert Message(p) + [] == Message(p);
    hide U64Bytes;
  }

  /** One signature never covers two payments. */
  lemma MessagesDifferIff(p: Payment, q: Payment)
    requires Fits(p) && Fits(q)
    ensures Message(p) == Message(q) <==> p == q
  {
    DecodesIff(p, b => true, []);
    DecodesIff(q, b => true, []);
    assert Message(p) + [] == Message(p) && Message(q) + [] == Message(q);
  }
}
