/** The Base32 encoding of section 6 of RFC 4648. */
module Base32 {
  import opened Wrappers
  import opened Digits

  type Bytes = seq<nat>

  const ALPHABET: string := "ABCDEFGHIJKLMNOPQRSTUVWXYZ234567"

  function CharOf(v: nat): char
    requires v < 32
  {
    ALPHABET[v]
  }

  function ValueOf(c: char): Option<nat> {
    if 'A' <= c <= 'Z' then Some((c - 'A') as nat)
    else if '2' <= c <= '7' then Some((c - '2') as nat + 26)
    else None
  }

  function Chars(vs: seq<nat>): (s: string)
    requires InBase(vs, 32)
    ensures |s| == |vs|
  {
    seq(|vs|, i requires 0 <= i < |vs| => CharOf(vs[i]))
  }

  function Values(s: string): Option<seq<nat>> {
    if forall i | 0 <= i < |s| :: ValueOf(s[i]).Some?
    then Some(seq(|s|, i requires 0 <= i < |s| && ValueOf(s[i]).Some? => ValueOf(s[i]).value))
    else None
  }

  /** Five bytes as eight characters. */
  function EncodeBlock(bs: Bytes): (s: string)
    requires |bs| == 5
    ensures |s| == 8
  {
    DigitsInBase(FromDigits(bs, 256), 32, 8);
    Chars(ToDigits(FromDigits(bs, 256), 32, 8))
  }

  function Encode(bs: Bytes): (s: string)
    requires |bs| % 5 == 0
    decreases |bs|
  {
    if bs == [] then "" else EncodeBlock(bs[..5]) + Encode(bs[5..])
  }

  /** How many padding characters a string ends with. */
  function Pads(s: string): (n: nat)
    ensures n <= |s|
  {
    if s != "" && s[|s| - 1] == '=' then Pads(s[..|s| - 1]) + 1 else 0
  }

  /** The characters before the padding as bytes: bits that do not fill a byte must be zero. */
  function Unpacked(s: string): (r: Option<Bytes>)
    requires |s| in {2, 4, 5, 7, 8}
    ensures r.Some? ==> |r.value| == |s| * 5 / 8
  {
    var bytes := |s| * 5 / 8;
    var spare := Pow(2, |s| * 5 - 8 * bytes);
    var vs := Values(s);
    if vs.None? || FromDigits(vs.value, 32) % spare != 0 then None
    else Some(ToDigits(FromDigits(vs.value, 32) / spare, 256, bytes))
  }

  /** Every block may be padded, so encodings may also be decoded one after the other. */
  function DecodeBlock(s: string): (r: Option<Bytes>)
    requires |s| == 8
    ensures r.Some? ==> Pads(s) in {0, 1, 3, 4, 6} && |r.value| == 5 - Loss(s)
  {
    if Pads(s) in {0, 1, 3, 4, 6} then Unpacked(s[..8 - Pads(s)]) else None
  }

  /** How many of its five bytes a block's padding costs. */
  function Loss(block: string): nat {
    match Pads(block)
    case 0 => 0
    case 1 => 1
    case 3 => 2
    case 4 => 3
    case _ => 4
  }

  function Decode(s: string): (r: Option<Bytes>)
    requires |s| % 8 == 0
    decreases |s|
  {
    if s == "" then Some([])
    else
      var first := DecodeBlock(s[..8]);
      if first.None? then None
      else
        var rest := Decode(s[8..]);
        if rest.None? then None else Some(first.value + rest.value)
  }

  // ---------- Round trip ----------

  lemma CharsRead(vs: seq<nat>)
    requires InBase(vs, 32)
    ensures Values(Chars(vs)) == Some(vs)
    ensures '=' !in Chars(vs)
  {
    forall i | 0 <= i < |vs| ensures ValueOf(Chars(vs)[i]) == Some(vs[i]) && Chars(vs)[i] != '=' { CharReads(vs[i]); }
    assert Values(Chars(vs)).value == vs;
  }

  lemma CharReads(v: nat)
    requires v < 32
    ensures ValueOf(CharOf(v)) == Some(v) && CharOf(v) != '='
  {
  }

  /** Exactly the characters of the alphabet have a value, their place in it. */
  lemma AlphabetIff(c: char)
    ensures ValueOf(c).Some? <==> c in ALPHABET
    ensures ValueOf(c).Some? ==> ValueOf(c).value < 32 && ALPHABET[ValueOf(c).value] == c
  {
    if ValueOf(c).Some? { PlaceOf(c); }
    if c in ALPHABET {
      var v :| 0 <= v < 32 && ALPHABET[v] == c;
      CharReads(v);
    }
  }

  lemma PlaceOf(c: char)
    requires ValueOf(c).Some?
    ensures ValueOf(c).value < 32 && ALPHABET[ValueOf(c).value] == c
  {
  }

  lemma BlockSizes()
    ensures Pow(256, 5) == Pow(32, 8)
    ensures Pow(2, 0) == 1
  {
    assert Pow(256, 2) == 65536;
    assert Pow(256, 5) == 256 * (256 * (256 * Pow(256, 2)));
    assert Pow(32, 2) == 1024;
    assert Pow(32, 4) == 32 * (32 * Pow(32, 2));
    assert Pow(32, 6) == 32 * (32 * Pow(32, 4));
    assert Pow(32, 8) == 32 * (32 * Pow(32, 6));
  }

  lemma NoPads(s: string)
    requires '=' !in s
    ensures Pads(s) == 0
  {
  }

  /** The characters of a block write the same number as its bytes. */
  lemma EncodedBlock(bs: Bytes)
    requires |bs| == 5 && InBase(bs, 256)
    ensures var s := EncodeBlock(bs);
      && Pads(s) == 0 && Values(s).Some? && |Values(s).value| == 8
      && FromDigits(Values(s).value, 32) == FromDigits(bs, 256)
  {
    var x := FromDigits(bs, 256);
    DigitsRewritten(bs, 256);
    BlockSizes();
    DigitsInBase(x, 32, 8);
    DigitsReadBack(x, 32, 8);
    hide Pow, FromDigits, ToDigits, InBase, Pads, Values, Chars;
    CharsRead(ToDigits(x, 32, 8));
    NoPads(EncodeBlock(bs));
  }

  lemma BlockRoundTrip(bs: Bytes)
    requires |bs| == 5 && InBase(bs, 256)
    ensures DecodeBlock(EncodeBlock(bs)) == Some(bs)
  {
    var s := EncodeBlock(bs);
    EncodedBlock(bs);
    DigitsRewritten(bs, 256);
    hide EncodeBlock, Values, FromDigits, ToDigits, Pow, Pads, InBase, Unpacked;
    assert s[..8] == s;
    UnpackWhole(s, Values(s).value, FromDigits(bs, 256), bs);
  }

  lemma UnpackWhole(s: string, vs: seq<nat>, x: nat, bs: Bytes)
    requires |s| == 8 && Values(s) == Some(vs) && FromDigits(vs, 32) == x && ToDigits(x, 256, 5) == bs
    ensures Unpacked(s) == Some(bs)
  {
    hide Values, FromDigits, ToDigits;
    BlockSizes();
    assert |s| * 5 / 8 == 5;
  }

  /** Whole blocks decode to what was encoded. */
  lemma {:induction false} RoundTrip(bs: Bytes)
    requires |bs| % 5 == 0 && InBase(bs, 256)
    ensures |Encode(bs)| == |bs| / 5 * 8
    ensures Decode(Encode(bs)) == Some(bs)
    decreases |bs|
  {
    if bs != [] {
      hide EncodeBlock, DecodeBlock;
      RoundTrip(bs[5..]);
      BlockRoundTrip(bs[..5]);
      var s := Encode(bs);
      assert s[..8] == EncodeBlock(bs[..5]) && s[8..] == Encode(bs[5..]);
      assert bs == bs[..5] + bs[5..];
    }
  }

  /** The characters of an encoding are those of the alphabet. */
  lemma {:induction false} EncodedChars(bs: Bytes)
    requires |bs| % 5 == 0
    ensures forall i :: 0 <= i < |Encode(bs)| ==> ValueOf(Encode(bs)[i]).Some?
    decreases |bs|
  {
    if bs != [] {
      EncodedChars(bs[5..]);
      var vs := ToDigits(FromDigits(bs[..5], 256), 32, 8);
      DigitsInBase(FromDigits(bs[..5], 256), 32, 8);
      forall i | 0 <= i < 8 ensures ValueOf(EncodeBlock(bs[..5])[i]).Some? { CharReads(vs[i]); }
    }
  }

  // ---------- How much a padded string holds ----------

  /** What the padding of all blocks together costs. */
  function Lost(s: string): nat
    requires |s| % 8 == 0
    decreases |s|
  {
    if s == "" then 0 else Loss(s[..8]) + Lost(s[8..])
  }

  lemma DecodedBlock(s: string)
    requires |s| % 8 == 0 && s != "" && Decode(s).Some?
    ensures Decode(s[8..]).Some?
    ensures |Decode(s).value| + Loss(s[..8]) == 5 + |Decode(s[8..]).value|
    ensures Lost(s) == Loss(s[..8]) + Lost(s[8..])
  {
    hide DecodeBlock, Loss;
  }

  /** Well-formed text decodes to five bytes a block, less what the padding of its blocks costs. */
  lemma {:induction false} DecodedLength(s: string)
    requires |s| % 8 == 0 && Decode(s).Some?
    ensures 8 * (|Decode(s).value| + Lost(s)) == 5 * |s|
    decreases |s|
  {
    hide Decode, Lost, Loss;
    if s == "" {
      NothingDecoded();
    } else {
      DecodedBlock(s);
      DecodedLength(s[8..]);
    }
  }

  lemma NothingDecoded()
    ensures Decode("") == Some([]) && Lost("") == 0
  {
  }
}
