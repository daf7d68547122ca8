/** Saving and loading the private context of a slate (libwallet/src/types.rs,
    libwallet/src/backend.rs). */
module ContextStore {
  import opened Wrappers
  import opened Digits
  import opened StoreKeys

  const MAX_CONTEXT_SIZE: nat := 4 * 1024 * 1024
  const SECRET_KEY_SIZE: nat := 32

  type Bytes = seq<nat>
  type Key = k: seq<bv8> | |k| == SECRET_KEY_SIZE witness seq(SECRET_KEY_SIZE, _ => 0)

  /** The two masked secrets of a context, and all its other fields. */
  datatype Secrets<R> = Secrets(secKey: Key, secNonce: Key, rest: R)

  datatype StoreError = TooLarge | Corrupted | NotFound

  /** The text form of a context. */
  datatype Codec<!R> = Codec(encode: Secrets<R> -> Bytes, decode: Bytes -> Option<Secrets<R>>)

  ghost predicate RoundTrips<R(!new)>(codec: Codec<R>) {
    forall c: Secrets<R> :: codec.decode(codec.encode(c)) == Some(c)
  }

  // ---------- The masks ----------

  function Xor(k: Key, mask: Key): Key {
    seq(SECRET_KEY_SIZE, i requires 0 <= i < SECRET_KEY_SIZE => k[i] ^ mask[i])
  }

  function Masked<R>(c: Secrets<R>, masks: (Key, Key)): Secrets<R> {
    c.(secKey := Xor(c.secKey, masks.0), secNonce := Xor(c.secNonce, masks.1))
  }

  lemma XorCancels(k: Key, mask: Key)
    ensures Xor(Xor(k, mask), mask) == k
  {
    forall i | 0 <= i < SECRET_KEY_SIZE ensures Xor(Xor(k, mask), mask)[i] == k[i] {
      BitsCancel(k[i], mask[i]);
    }
  }

  lemma BitsCancel(a: bv8, b: bv8)
    ensures a ^ b ^ b == a
  {
  }

  /** The loop that masks both secrets, and unmasks them again. */
  method ApplyMasks(secKey: array<bv8>, secNonce: array<bv8>, masks: (Key, Key))
    requires secKey != secNonce && secKey.Length == secNonce.Length == SECRET_KEY_SIZE
    modifies secKey, secNonce
    ensures secKey[..] == Xor(old(secKey[..]), masks.0) && secNonce[..] == Xor(old(secNonce[..]), masks.1)
  {
    for i := 0 to SECRET_KEY_SIZE
      invariant forall j :: 0 <= j < i ==>
                secKey[j] == old(secKey[j]) ^ masks.0[j] && secNonce[j] == old(secNonce[j]) ^ masks.1[j]
      invariant forall j :: i <= j < SECRET_KEY_SIZE ==> secKey[j] == old(secKey[j]) && secNonce[j] == old(secNonce[j])
    {
      secKey[i] := secKey[i] ^ masks.0[i];
      secNonce[i] := secNonce[i] ^ masks.1[i];
    }
  }

  method MaskContext<R>(c: Secrets<R>, masks: (Key, Key)) returns (m: Secrets<R>)
    ensures m == Masked(c, masks)
  {
    var secKey := new bv8[SECRET_KEY_SIZE](i requires 0 <= i < SECRET_KEY_SIZE => c.secKey[i]);
    var secNonce := new bv8[SECRET_KEY_SIZE](i requires 0 <= i < SECRET_KEY_SIZE => c.secNonce[i]);
    assert secKey[..] == c.secKey && secNonce[..] == c.secNonce;
    ApplyMasks(secKey, secNonce, masks);
    m := c.(secKey := secKey[..], secNonce := secNonce[..]);
  }

  // ---------- The reader ----------

  /** Whether a single read of `n` bytes is within a reader's limit; zero means no limit. */
  predicate Allowed(limit: Option<nat>, n: nat) {
    limit.None? || limit.value == 0 || n <= limit.value
  }

  class Reader {
    const data: Bytes
    const limit: Option<nat>
    var pos: nat

    constructor (data: Bytes, limit: Option<nat>)
      ensures this.data == data && this.limit == limit && pos == 0
    {
      this.data, this.limit, this.pos := data, limit, 0;
    }

    method ReadFixedBytes(n: nat) returns (r: Option<Bytes>)
      modifies this
      ensures r.Some? <==> old(pos) + n <= |data| && Allowed(limit, n)
      ensures r.Some? ==> r.value == data[old(pos)..old(pos) + n] && pos == old(pos) + n
      ensures r.None? ==> pos == old(pos)
    {
      if pos + n > |data| || !Allowed(limit, n) { return None; }
      r := Some(data[pos..pos + n]);
      pos := pos + n;
    }

    method ReadU64() returns (r: Option<nat>)
      modifies this
      ensures r == if old(pos) + 8 <= |data| then Some(FromDigits(data[old(pos)..old(pos) + 8], 256)) else None
      ensures pos == if r.Some? then old(pos) + 8 else old(pos)
    {
      if pos + 8 > |data| { return None; }
      r := Some(FromDigits(data[pos..pos + 8], 256));
      pos := pos + 8;
    }
  }

  /** What length-prefixed bytes hold, read in one piece and without any limit. */
  function Prefixed(data: Bytes): Result<Bytes, StoreError> {
    if |data| < 8 then Err(Corrupted)
    else
      var len := FromDigits(data[..8], 256);
      if len > MAX_CONTEXT_SIZE then Err(TooLarge)
      else if 8 + len > |data| then Err(Corrupted)
      else Ok(data[8..8 + len])
  }

  /** Reads in chunks no longer than the limit, and gets what a single unlimited read would. */
  method ReadChunks(reader: Reader, total: nat) returns (r: Result<Bytes, StoreError>)
    requires reader.pos <= |reader.data|
    modifies reader
    ensures r == if old(reader.pos) + total <= |reader.data|
                 then Ok(reader.data[old(reader.pos)..old(reader.pos) + total]) else Err(Corrupted)
  {
    ghost var start := reader.pos;
    var len := total;
    if reader.limit.None? || reader.limit.value == 0 {
      var whole := reader.ReadFixedBytes(len);
      return if whole.Some? then Ok(whole.value) else Err(Corrupted);
    }
    var data: Bytes := [];
    while len > 0
      invariant 0 <= len <= total && reader.pos == start + (total - len) <= |reader.data|
      invariant data == reader.data[start..reader.pos]
    {
      var size := if len < reader.limit.value then len else reader.limit.value;
      var chunk := reader.ReadFixedBytes(size);
      if chunk.None? { return Err(Corrupted); }
      data := data + chunk.value;
      len := len - size;
    }
    r := Ok(data);
  }

  method ReadBytesLenPrefix(reader: Reader) returns (r: Result<Bytes, StoreError>)
    requires reader.pos == 0
    modifies reader
    ensures r == Prefixed(reader.data)
    ensures r == if |reader.data| < 8 then Err(Corrupted)
                 else
                   var len := FromDigits(reader.data[..8], 256);
                   if len > 4_194_304 then Err(TooLarge)
                   else if 8 + len > |reader.data| then Err(Corrupted) else Ok(reader.data[8..8 + len])
  {
    var prefix := reader.ReadU64();
    assert |reader.data| >= 8 ==> reader.data[0..8] == reader.data[..8];
    if prefix.None? { return Err(Corrupted); }
    if prefix.value > MAX_CONTEXT_SIZE { return Err(TooLarge); }
    r := ReadChunks(reader, prefix.value);
  }

  // ---------- The store ----------

  function Written<R>(codec: Codec<R>, c: Secrets<R>): Result<Bytes, StoreError> {
    var data := codec.encode(c);
    if |data| > MAX_CONTEXT_SIZE then Err(TooLarge) else Ok(U64Bytes(|data|) + data)
  }

  function Parsed<R>(codec: Codec<R>, data: Bytes): Result<Secrets<R>, StoreError> {
    match Prefixed(data)
    case Err(e) => Err(e)
    case Ok(bytes) => var c := codec.decode(bytes); if c.Some? then Ok(c.value) else Err(Corrupted)
  }

  /** What is read back of a written context. Writer and reader agree on the size they refuse. */
  lemma WrittenParses<R(!new)>(codec: Codec<R>, c: Secrets<R>)
    requires RoundTrips(codec)
    ensures Written(codec, c).Ok? <==> |codec.encode(c)| <= 4_194_304
    ensures Written(codec, c).Ok? ==> Parsed(codec, Written(codec, c).value) == Ok(c)
  {
    var data := codec.encode(c);
    if |data| <= MAX_CONTEXT_SIZE {
      Pows();
      DigitsReadBack(|data|, 256, 8);
      var all := U64Bytes(|data|) + data;
      assert all[..8] == U64Bytes(|data|) && all[8..8 + |data|] == data;
      assert codec.decode(codec.encode(c)) == Some(c);
    }
  }

  lemma MaskedTwice<R>(c: Secrets<R>, masks: (Key, Key))
    ensures Masked(Masked(c, masks), masks) == c
  {
    XorCancels(c.secKey, masks.0);
    XorCancels(c.secNonce, masks.1);
  }

  /** Contexts of different slates lie under different keys. */
  lemma SlateKeysDiffer(a: Bytes, b: Bytes)
    ensures ToKeyU64(a, 0) == ToKeyU64(b, 0) <==> a == b
  {
    var s, t := ToKeyU64(a, 0), ToKeyU64(b, 0);
    assert s[..|s| - 8] == a && t[..|t| - 8] == b;
  }

  class PrivateContexts<!R(!new)> {
    var table: map<Bytes, Bytes>
    const codec: Codec<R>
    const masks: Bytes -> (Key, Key)

    constructor (codec: Codec<R>, masks: Bytes -> (Key, Key))
      ensures this.codec == codec && this.masks == masks && table == map[]
    {
      this.codec, this.masks, this.table := codec, masks, map[];
    }

    /** What a load for this slate yields. */
    ghost function Holds(slateId: Bytes): Result<Secrets<R>, StoreError>
      reads this
    {
      if ToKeyU64(slateId, 0) !in table then Err(NotFound)
      else
        var c := Parsed(codec, table[ToKeyU64(slateId, 0)]);
        if c.Ok? then Ok(Masked(c.value, masks(slateId))) else c
    }

    /** What is on disk for this slate has both secrets masked, bit by bit, each with its own mask. */
    ghost predicate StoredMasked(slateId: Bytes, c: Secrets<R>)
      reads this
    {
      && ToKeyU64(slateId, 0) in table
      && var stored := Parsed(codec, table[ToKeyU64(slateId, 0)]);
        && stored.Ok? && stored.value.rest == c.rest
        && forall i :: 0 <= i < SECRET_KEY_SIZE ==>
             && stored.value.secKey[i] == c.secKey[i] ^ masks(slateId).0[i]
             && stored.value.secNonce[i] == c.secNonce[i] ^ masks(slateId).1[i]
    }

    /** Saves a context if it fits; from then on a load for this slate yields it, and loads for other
        slates what they did before. */
    method SavePrivateContext(slateId: Bytes, c: Secrets<R>) returns (r: Result<(), StoreError>)
      requires RoundTrips(codec)
      modifies this
      ensures r.Ok? <==> |codec.encode(Masked(c, masks(slateId)))| <= 4_194_304
      ensures r.Ok? ==> Holds(slateId) == Ok(c) && StoredMasked(slateId, c)
      ensures forall other :: other != slateId ==> Holds(other) == old(Holds(other))
      ensures r.Err? ==> table == old(table)
    {
      var masked := MaskContext(c, masks(slateId));
      WrittenParses(codec, masked);
      MaskedTwice(c, masks(slateId));
      assert forall i :: 0 <= i < SECRET_KEY_SIZE ==>
          masked.secKey[i] == c.secKey[i] ^ masks(slateId).0[i]
          && masked.secNonce[i] == c.secNonce[i] ^ masks(slateId).1[i];
      var data := Written(codec, masked);
      if data.Err? { return Err(data.error); }
      hide Parsed, Written, Masked, ToKeyU64;
      ghost var before := table;
      table := table[ToKeyU64(slateId, 0) := data.value];
      forall other | other != slateId ensures Holds(other) == old(Holds(other)) { SlateKeysDiffer(other, slateId); }
      r := Ok(());
    }

    /** Loads through a reader with any limit. */
    method GetPrivateContext(slateId: Bytes, limit: Option<nat>) returns (r: Result<Secrets<R>, StoreError>)
      ensures r == Holds(slateId)
    {
      if ToKeyU64(slateId, 0) !in table { return Err(NotFound); }
      var reader := new Reader(table[ToKeyU64(slateId, 0)], limit);
      var bytes := ReadBytesLenPrefix(reader);
      if bytes.Err? { return Err(bytes.error); }
      var masked := codec.decode(bytes.value);
      if masked.None? { return Err(Corrupted); }
      var c := MaskContext(masked.value, masks(slateId));
      r := Ok(c);
    }

    method DeletePrivateContext(slateId: Bytes)
      modifies this
      ensures Holds(slateId) == Err(NotFound)
      ensures forall other :: other != slateId ==> Holds(other) == old(Holds(other))
    {
      table := table - {ToKeyU64(slateId, 0)};
      forall other | other != slateId ensures Holds(other) == old(Holds(other)) { SlateKeysDiffer(other, slateId); }
    }
  }
}
