/** Keys and texts at which an onion address is not read back, or the parser fails. */
module OnionWitnesses {
  import opened Wrappers
  import opened Sums
  import opened Digits
  import opened Base32
  import opened Onion

  // ---------- Onion addresses ----------

  function Zeros(n: nat): Bytes { seq(n, _ => 0) }

  /** The last five bytes of the address: the last two of the key, its checksum and the version. */
  const LAST_BYTES: Bytes := [0, 125, 240, 104, 3]
  const LAST_VALUES: seq<nat> := [0, 1, 30, 31, 0, 26, 0, 3]

  /** The key of 31 zero bytes and a byte of 125. */
  function HexLookingKey(): Bytes { Zeros(31) + [125] }

  predicate LooksHex(text: string) {
    forall i | 0 <= i < |text| :: text[i] in "AB672D"
  }

  lemma LowerIsHex(text: string)
    requires LooksHex(text)
    ensures AllHex(Lower(text))
  {
  }

  lemma HexText()
    ensures |Encode(Zeros(30) + LAST_BYTES)| == 56 && LooksHex(Encode(Zeros(30) + LAST_BYTES))
  {
    hide Encode;
    ZeroBlocks(6);
    LastBlock();
    EncodeAppends(Zeros(5 * 6), LAST_BYTES);
  }

  /** Its checksum under SHA3-256 is 240 and 104, and its address 48 letters `a` and then `ab67a2ad`. */
  lemma HexKeyIsNotReadBack(checksum: Checksum, fromHex: string -> Option<Bytes>)
    requires InBytes(checksum) && ReadsHex(fromHex) && checksum(HexLookingKey()) == (240, 104)
    ensures var k := HexLookingKey();
      && IsKey(k) && AllHex(ToOv3(checksum, k))
      && TryFrom(checksum, fromHex, ToOv3(checksum, k)) != Ok(k)
  {
    hide Encode, TryFrom, InBytes, ReadsHex, AllHex, Lower;
    HexText();
    assert AddressBytes(checksum, HexLookingKey()) == Zeros(30) + LAST_BYTES;
    LowerIsHex(Encode(Zeros(30) + LAST_BYTES));
    BareRoundTripIff(checksum, fromHex, HexLookingKey());
  }

  lemma {:induction false} EncodeAppends(a: Bytes, b: Bytes)
    requires |a| % 5 == 0 && |b| % 5 == 0
    ensures Encode(a + b) == Encode(a) + Encode(b)
    decreases |a|
  {
    if a == [] {
      assert a + b == b;
    } else {
      assert (a + b)[..5] == a[..5] && (a + b)[5..] == a[5..] + b;
      EncodeAppends(a[5..], b);
      hide EncodeBlock;
      Assoc(EncodeBlock(a[..5]), Encode(a[5..]), Encode(b));
    }
  }

  lemma {:induction false} ZeroDigits(len: nat)
    ensures FromDigits(Zeros(len), 256) == 0
    ensures forall i :: 0 <= i < len ==> ToDigits(0, 32, len)[i] == 0
    decreases len
  {
    if len > 0 {
      ZeroDigits(len - 1);
      assert Zeros(len)[..len - 1] == Zeros(len - 1);
    }
  }

  lemma {:induction false} ZeroBlocks(n: nat)
    ensures |Encode(Zeros(5 * n))| == 8 * n
    ensures forall i :: 0 <= i < 8 * n ==> Encode(Zeros(5 * n))[i] == 'A'
    decreases n
  {
    if n > 0 {
      var bs := Zeros(5 * n);
      assert bs[..5] == Zeros(5) && bs[5..] == Zeros(5 * (n - 1));
      ZeroBlocks(n - 1);
      ZeroDigits(5);
      ZeroDigits(8);
      var block := EncodeBlock(Zeros(5));
      assert forall i :: 0 <= i < 8 ==> block[i] == 'A';
    }
  }

  lemma LastBlock()
    ensures |Encode(LAST_BYTES)| == 8 && LooksHex(Encode(LAST_BYTES))
  {
    LastChars();
    hide EncodeBlock;
    assert LAST_BYTES[..5] == LAST_BYTES && LAST_BYTES[5..] == [];
    assert Encode(LAST_BYTES) == EncodeBlock(LAST_BYTES) + Encode([]);
  }

  lemma LastChars()
    ensures LooksHex(EncodeBlock(LAST_BYTES))
  {
    hide ToDigits, FromDigits;
    SameNumber();
    DigitsRewritten(LAST_VALUES, 32);
    var vs := LAST_VALUES;
    assert EncodeBlock(LAST_BYTES) == Chars(vs);
    hide Chars, InBase;
    HexChars(vs);
  }

  lemma HexChars(vs: seq<nat>)
    requires InBase(vs, 32) && forall i :: 0 <= i < |vs| ==> vs[i] in {0, 1, 3, 26, 30, 31}
    ensures LooksHex(Chars(vs))
  {
  }

  /** Both write 2112907267. */
  lemma SameNumber()
    ensures FromDigits(LAST_BYTES, 256) == FromDigits(LAST_VALUES, 32)
  {
    assert [0, 1, 30, 31, 0] + [26] == [0, 1, 30, 31, 0, 26];
    assert [0, 1, 30, 31, 0, 26] + [0] == [0, 1, 30, 31, 0, 26, 0];
    assert [0, 1, 30, 31, 0, 26, 0] + [3] == LAST_VALUES;
    hide FromDigits;
    Five(0, 125, 240, 104, 3, 256);
    Five(0, 1, 30, 31, 0, 32);
    FromSnoc([0, 1, 30, 31, 0], 26, 32);
    FromSnoc([0, 1, 30, 31, 0, 26], 0, 32);
    FromSnoc([0, 1, 30, 31, 0, 26, 0], 3, 32);
  }

  lemma Five(v: nat, w: nat, x: nat, y: nat, z: nat, b: nat)
    ensures FromDigits([v, w, x, y, z], b) == (((v * b + w) * b + x) * b + y) * b + z
  {
    assert [v, w, x, y] + [z] == [v, w, x, y, z] && [v, w, x] + [y] == [v, w, x, y];
    assert [v, w] + [x] == [v, w, x] && [v] + [w] == [v, w];
    assert FromDigits([v], b) == FromDigits([v][..0], b) * b + v && FromDigits([], b) == 0;
    hide FromDigits;
    FromSnoc([v], w, b);
    FromSnoc([v, w], x, b);
    FromSnoc([v, w, x], y, b);
    FromSnoc([v, w, x, y], z, b);
  }

  /** The test vector "fooba" of section 10 of RFC 4648. */
  lemma KnownEncoding()
    ensures Encode([102, 111, 111, 98, 97]) == "MZXW6YTB"
  {
    var bs, vs := [102, 111, 111, 98, 97], [12, 25, 23, 22, 30, 24, 19, 1];
    KnownChars(vs);
    KnownBlock(bs, vs);
    hide EncodeBlock, Chars;
    assert bs[..5] == bs && bs[5..] == [];
    assert Encode(bs) == EncodeBlock(bs) + Encode([]);
  }

  lemma KnownBlock(bs: Bytes, vs: seq<nat>)
    requires bs == [102, 111, 111, 98, 97] && vs == [12, 25, 23, 22, 30, 24, 19, 1] && InBase(vs, 32)
    ensures EncodeBlock(bs) == Chars(vs)
  {
    hide FromDigits, ToDigits, Chars;
    KnownNumber(bs, vs);
    DigitsRewritten(vs, 32);
  }

  lemma KnownChars(vs: seq<nat>)
    requires vs == [12, 25, 23, 22, 30, 24, 19, 1]
    ensures InBase(vs, 32) && Chars(vs) == "MZXW6YTB"
  {
  }

  lemma KnownNumber(bs: Bytes, vs: seq<nat>)
    requires bs == [102, 111, 111, 98, 97] && vs == [12, 25, 23, 22, 30, 24, 19, 1]
    ensures FromDigits(bs, 256) == FromDigits(vs, 32)
  {
    assert [12, 25, 23, 22, 30] + [24] == [12, 25, 23, 22, 30, 24];
    assert [12, 25, 23, 22, 30, 24] + [19] == [12, 25, 23, 22, 30, 24, 19];
    assert [12, 25, 23, 22, 30, 24, 19] + [1] == vs;
    hide FromDigits;
    Five(102, 111, 111, 98, 97, 256);
    Five(12, 25, 23, 22, 30, 32);
    FromSnoc([12, 25, 23, 22, 30], 24, 32);
    FromSnoc([12, 25, 23, 22, 30, 24], 19, 32);
    FromSnoc([12, 25, 23, 22, 30, 24, 19], 1, 32);
  }

  // ---------- Padded text ----------

  const PADDED_BLOCK: string := "AA======"
  const ZERO_BLOCK: string := "AAAAAAAA"

  /** Test vectors of section 10 of RFC 4648: one letter "f", and the same with a spare bit set. */
  lemma KnownDecoding()
    ensures DecodeBlock("MY======") == Some([102]) && DecodeBlock("MZ======") == None
  {
    SixPads("MY======", "MY");
    SixPads("MZ======", "MZ");
    UnpackedTwo("MY", 12, 24);
    UnpackedTwo("MZ", 12, 25);
    hide Unpacked;
  }

  lemma UnpackedTwo(two: string, x: nat, y: nat)
    requires |two| == 2 && ValueOf(two[0]) == Some(x) && ValueOf(two[1]) == Some(y)
    ensures Unpacked(two) == if (x * 32 + y) % 4 != 0 then None else Some([(x * 32 + y) / 4 % 256])
  {
    assert Values(two).Some? && Values(two).value == [x, y];
    TwoDigits(x, y, 32);
    assert Pow(2, 2) == 4;
    var n := (x * 32 + y) / 4;
    assert ToDigits(n, 256, 1) == ToDigits(n / 256, 256, 0) + [n % 256] == [n % 256];
    assert |two| * 5 / 8 == 1 && |two| * 5 - 8 * 1 == 2;
    var vs := Values(two);
    assert vs == Some([x, y]);
    assert FromDigits(vs.value, 32) == x * 32 + y;
  }

  lemma TwoDigits(x: nat, y: nat, b: nat)
    ensures FromDigits([x, y], b) == x * b + y
  {
    assert [x, y][..1] == [x] && [x][..0] == [];
    assert FromDigits([x], b) == FromDigits([], b) * b + x;
  }

  function Padding(p: nat): string { seq(p, _ => '=') }

  lemma {:induction false} PadsAre(a: string, p: nat)
    requires a == "" || a[|a| - 1] != '='
    ensures Pads(a + Padding(p)) == p
  {
    var s := a + Padding(p);
    if p == 0 {
      assert s == a;
    } else {
      assert s[..|s| - 1] == a + Padding(p - 1);
      PadsAre(a, p - 1);
    }
  }

  lemma SixPads(s: string, two: string)
    requires |two| == 2 && two[1] != '=' && s == two + "======"
    ensures Pads(s) == 6 && s[..2] == two
  {
    assert Padding(6) == "======";
    PadsAre(two, 6);
  }

  /** A block may end in 0, 1, 3, 4 or 6 padding characters, and its letters then make 5, 4, 3, 2 or 1 bytes;
      no other number is accepted. */
  lemma PaddingIff(p: nat)
    requires p <= 8
    ensures var block := ZERO_BLOCK[..8 - p] + Padding(p);
      && |block| == 8 && (DecodeBlock(block).Some? <==> p in {0, 1, 3, 4, 6})
      && (p in {0, 1, 3, 4, 6} ==> DecodeBlock(block) == Some(Zeros((8 - p) * 5 / 8)))
  {
    var letters := ZERO_BLOCK[..8 - p];
    var block := letters + Padding(p);
    PadsAre(letters, p);
    assert block[..8 - p] == letters;
    if p in {0, 1, 3, 4, 6} { ZeroPrefixDecodes(8 - p); }
  }

  lemma ZeroPrefixDecodes(letters: nat)
    requires letters in {2, 4, 5, 7, 8}
    ensures Unpacked(ZERO_BLOCK[..letters]) == Some(Zeros(letters * 5 / 8))
  {
    var s, n := ZERO_BLOCK[..letters], letters * 5 / 8;
    var spare := Pow(2, letters * 5 - 8 * n);
    assert Values(s).Some? && Values(s).value == Zeros(letters);
    ZerosInBase(letters);
    ZeroBytes(n);
    assert 0 % spare == 0 && 0 / spare == 0;
  }

  lemma {:induction false} ZeroBytes(n: nat)
    ensures ToDigits(0, 256, n) == Zeros(n)
  {
    if n > 0 { ZeroBytes(n - 1); }
  }

  function Repeat(s: string, n: nat): string {
    if n == 0 then "" else s + Repeat(s, n - 1)
  }

  lemma PaddedBlocks()
    ensures DecodeBlock(PADDED_BLOCK) == Some([0]) && Loss(PADDED_BLOCK) == 4
    ensures DecodeBlock(ZERO_BLOCK).Some? && Loss(ZERO_BLOCK) == 0
  {
    PadsOfPadded();
    NoPads(ZERO_BLOCK);
    var two, eight := PADDED_BLOCK[..2], ZERO_BLOCK[..8];
    assert two == "AA" && eight == ZERO_BLOCK;
    assert Values(two).value == [0, 0] && Values(eight).value == [0, 0, 0, 0, 0, 0, 0, 0];
    SmallDigits();
    assert Pow(2, 2) == 4 && Pow(2, 0) == 1;
  }

  lemma PadsOfPadded()
    ensures Pads(PADDED_BLOCK) == 6
  {
    var s := PADDED_BLOCK;
    assert s[..7] == "AA=====" && s[..7][..6] == "AA====" && s[..7][..6][..5] == "AA===";
    assert "AA==="[..4] == "AA==" && "AA=="[..3] == "AA=" && "AA="[..2] == "AA";
    assert Pads("AA") == 0 && Pads("AA=") == 1 && Pads("AA==") == 2 && Pads("AA===") == 3;
    assert Pads("AA====") == 4 && Pads("AA=====") == 5;
  }

  lemma SmallDigits()
    ensures FromDigits([0, 0], 32) == 0 && ToDigits(0, 256, 1) == [0]
    ensures FromDigits([0, 0, 0, 0, 0, 0, 0, 0], 32) == 0
  {
    assert [0, 0][..1] == [0] && [0][..0] == [];
    assert FromDigits([0], 32) == FromDigits([], 32) * 32 + 0;
    ZerosInBase(8);
    assert [0, 0, 0, 0, 0, 0, 0, 0] == Zeros(8);
  }

  lemma {:induction false} ZerosInBase(n: nat)
    ensures FromDigits(Zeros(n), 32) == 0
  {
    if n > 0 {
      ZerosInBase(n - 1);
      assert Zeros(n)[..n - 1] == Zeros(n - 1);
    }
  }

  lemma OneMoreBlock(block: string, rest: string)
    requires |block| == 8 && DecodeBlock(block).Some? && |rest| % 8 == 0 && Decode(rest).Some?
    ensures |block + rest| % 8 == 0 && Decode(block + rest).Some? && Lost(block + rest) == Loss(block) + Lost(rest)
  {
    hide DecodeBlock, Loss;
    assert (block + rest)[..8] == block && (block + rest)[8..] == rest;
  }

  /** Repeating a block repeats its loss. */
  lemma {:induction false} DecodeRepeated(block: string, n: nat, tail: string)
    requires |block| == 8 && DecodeBlock(block).Some? && |tail| % 8 == 0 && Decode(tail).Some?
    ensures var s := Repeat(block, n) + tail;
      |s| == 8 * n + |tail| && |s| % 8 == 0 && Decode(s).Some? && Lost(s) == n * Loss(block) + Lost(tail)
    decreases n
  {
    hide Decode, DecodeBlock, Lost, Loss;
    if n == 0 {
      assert Repeat(block, n) + tail == tail;
    } else {
      DecodeRepeated(block, n - 1, tail);
      Assoc(block, Repeat(block, n - 1), tail);
      OneMoreBlock(block, Repeat(block, n - 1) + tail);
      assert n * Loss(block) == Loss(block) + (n - 1) * Loss(block);
    }
  }

  lemma {:induction false} RepeatedChars(block: string, n: nat)
    requires forall i :: 0 <= i < |block| ==> block[i] == 'A' || block[i] == '='
    ensures forall i :: 0 <= i < |Repeat(block, n)| ==> Repeat(block, n)[i] == 'A' || Repeat(block, n)[i] == '='
  {
    if n > 0 { RepeatedChars(block, n - 1); }
  }

  lemma NotHex(fromHex: string -> Option<Bytes>, input: string, i: nat)
    requires i < |input| && input[i] == '=' && forall j :: 0 <= j < |input| ==> input[j] == 'A' || input[j] == '='
    requires ReadsHex(fromHex)
    ensures fromHex(input) == None
  {
    assert !IsHexDigit(input[i]) && !AllHex(input);
    assert input[0] != '0' && !("0x" <= input) && '+' !in input;
  }

  lemma OwnUpper(input: string)
    requires forall i :: 0 <= i < |input| ==> input[i] == 'A' || input[i] == '='
    ensures Upper(input) == input && ':' !in input && '.' !in input
  {
  }

  lemma FailsOn(checksum: Checksum, fromHex: string -> Option<Bytes>, input: string)
    requires |input| == 56 && Decode(input).Some? && Lost(input) >= 4
    requires forall i :: 0 <= i < |input| ==> input[i] == 'A' || input[i] == '='
    requires fromHex(input) == None
    ensures TryFrom(checksum, fromHex, input) == Err(SliceOutOfRange)
  {
    hide Decode, Normal, Lost, Upper, TryFrom;
    OwnUpper(input);
    PlainNormal(input);
    SliceFailsIff(checksum, fromHex, input);
  }

  lemma DecodesAlone(block: string, n: nat)
    requires |block| == 8 && DecodeBlock(block).Some?
    ensures |Repeat(block, n)| == 8 * n && Decode(Repeat(block, n)).Some? && Lost(Repeat(block, n)) == n * Loss(block)
  {
    NothingDecoded();
    hide Decode, DecodeBlock, Lost, Loss;
    DecodeRepeated(block, n, "");
    assert Repeat(block, n) + "" == Repeat(block, n);
  }

  /** Seven blocks, `n` of them two letters and six padding characters and the others eight letters: 56
      characters that decode to `35 - 4 * n` bytes, never enough. The padded blocks may come first... */
  lemma PaddedStartFails(checksum: Checksum, fromHex: string -> Option<Bytes>, n: nat)
    requires ReadsHex(fromHex) && 1 <= n <= 7
    ensures TryFrom(checksum, fromHex, Repeat(PADDED_BLOCK, n) + Repeat(ZERO_BLOCK, 7 - n)) == Err(SliceOutOfRange)
  {
    hide Decode, DecodeBlock, Lost, Loss, ReadsHex, TryFrom, Repeat;
    var tail := Repeat(ZERO_BLOCK, 7 - n);
    var input := Repeat(PADDED_BLOCK, n) + tail;
    PaddedBlocks();
    RepeatedChars(PADDED_BLOCK, n);
    RepeatedChars(ZERO_BLOCK, 7 - n);
    StartsPadded(n, tail);
    DecodesAlone(ZERO_BLOCK, 7 - n);
    DecodeRepeated(PADDED_BLOCK, n, tail);
    NotHex(fromHex, input, 7);
    FailsOn(checksum, fromHex, input);
  }

  lemma StartsPadded(n: nat, tail: string)
    requires n >= 1
    ensures |Repeat(PADDED_BLOCK, n) + tail| >= 8 && (Repeat(PADDED_BLOCK, n) + tail)[7] == '='
  {
    assert Repeat(PADDED_BLOCK, n) == PADDED_BLOCK + Repeat(PADDED_BLOCK, n - 1);
  }

  /** ... or last. */
  lemma PaddedEndFails(checksum: Checksum, fromHex: string -> Option<Bytes>, n: nat)
    requires ReadsHex(fromHex) && 1 <= n <= 7
    ensures TryFrom(checksum, fromHex, Repeat(ZERO_BLOCK, 7 - n) + Repeat(PADDED_BLOCK, n)) == Err(SliceOutOfRange)
  {
    hide Decode, DecodeBlock, Lost, Loss, ReadsHex, TryFrom, Repeat;
    var tail := Repeat(PADDED_BLOCK, n);
    var input := Repeat(ZERO_BLOCK, 7 - n) + tail;
    PaddedBlocks();
    RepeatedChars(PADDED_BLOCK, n);
    RepeatedChars(ZERO_BLOCK, 7 - n);
    StartsPadded(n, "");
    assert tail + "" == tail;
    DecodesAlone(PADDED_BLOCK, n);
    DecodeRepeated(ZERO_BLOCK, 7 - n, tail);
    assert input[8 * (7 - n) + 7] == tail[7];
    NotHex(fromHex, input, 8 * (7 - n) + 7);
    FailsOn(checksum, fromHex, input);
  }
}
