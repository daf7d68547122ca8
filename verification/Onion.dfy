/** Onion v3 addresses, as in section 6 of Tor's rend-spec-v3, "Encoding onion addresses"
    (util/src/ov3.rs). */
module Onion {
  import opened Wrappers
  import opened Digits
  import opened Base32
  import opened Sums

  const VERSION: nat := 3
  const ADDRESS_LENGTH: nat := 56

  /** The first two bytes of the hash of a key. */
  type Checksum = Bytes -> (nat, nat)

  datatype ParseError = HexWrongLength | WrongLength | NotBase32 | NoMatch | SliceOutOfRange

  /** A public key: 32 bytes. */
  predicate IsKey(k: Bytes) { |k| == 32 && InBase(k, 256) }

  ghost predicate InBytes(checksum: Checksum) {
    forall k: Bytes :: checksum(k).0 < 256 && checksum(k).1 < 256
  }

  // ---------- Text ----------

  function UpperChar(c: char): char { if 'a' <= c <= 'z' then c - 'a' + 'A' else c }
  function LowerChar(c: char): char { if 'A' <= c <= 'Z' then c - 'A' + 'a' else c }

  function Upper(s: string): (r: string) ensures |r| == |s| { seq(|s|, i requires 0 <= i < |s| => UpperChar(s[i])) }
  function Lower(s: string): (r: string) ensures |r| == |s| { seq(|s|, i requires 0 <= i < |s| => LowerChar(s[i])) }

  predicate IsHexDigit(c: char) { '0' <= c <= '9' || 'a' <= c <= 'f' || 'A' <= c <= 'F' }

  predicate AllHex(s: string) { forall i | 0 <= i < |s| :: IsHexDigit(s[i]) }

  /** A reader of hexadecimal: digits only, two to a byte; a prefix `0x` and signs are its own affair. */
  ghost predicate ReadsHex(fromHex: string -> Option<Bytes>) {
    && (forall s: string :: AllHex(s) && |s| % 2 == 0 ==> fromHex(s).Some? && |fromHex(s).value| == |s| / 2)
    && (forall s: string :: fromHex(s).Some? && !("0x" <= s) && '+' !in s ==> AllHex(s))
  }

  function StartsWith(s: string, p: string): bool { p <= s }
  function EndsWith(s: string, p: string): bool { |p| <= |s| && s[|s| - |p|..] == p }

  /** Every occurrence of a pattern taken out, from left to right. */
  function RemoveAll(s: string, p: string): string
    requires p != ""
    decreases |s|
  {
    if |s| < |p| then s
    else if s[..|p|] == p then RemoveAll(s[|p|..], p)
    else [s[0]] + RemoveAll(s[1..], p)
  }

  // ---------- The two directions ----------

  function AddressBytes(checksum: Checksum, k: Bytes): Bytes { k + [checksum(k).0, checksum(k).1, VERSION] }

  function ToOv3(checksum: Checksum, k: Bytes): string
    requires |k| == 32
  {
    Lower(Encode(AddressBytes(checksum, k)))
  }

  function ToHttp(checksum: Checksum, k: Bytes): string
    requires |k| == 32
  {
    "http://" + ToOv3(checksum, k) + ".onion"
  }

  /** What is left of an input once a scheme and the suffix are taken off. */
  function Normal(input: string): string {
    var s := Upper(input);
    var t := if StartsWith(s, "HTTP://") || StartsWith(s, "HTTPS://")
             then RemoveAll(RemoveAll(s, "HTTP://"), "HTTPS://") else s;
    if EndsWith(t, ".ONION") then RemoveAll(t, ".ONION") else t
  }

  function TryFrom(checksum: Checksum, fromHex: string -> Option<Bytes>, input: string): Result<Bytes, ParseError> {
    var hex := fromHex(input);
    if hex.Some? then if |hex.value| == 32 then Ok(hex.value) else Err(HexWrongLength)
    else
      var address := Normal(input);
      if |address| != ADDRESS_LENGTH then Err(WrongLength)
      else
        var decoded := Decode(address);
        if decoded.None? then Err(NotBase32)
        else if |decoded.value| < 32 then Err(SliceOutOfRange)
        else
          var k := decoded.value[..32];
          if Upper(ToOv3(checksum, k)) == Upper(address) then Ok(k) else Err(NoMatch)
  }

  method ToOv3Str(checksum: Checksum, k: Bytes) returns (s: string)
    requires IsKey(k)
    ensures s == ToOv3(checksum, k)
  {
    var sum := checksum(k);
    var bytes := k;
    bytes := bytes + [sum.0];
    bytes := bytes + [sum.1];
    bytes := bytes + [VERSION];
    assert bytes == AddressBytes(checksum, k);
    s := Lower(Encode(bytes));
  }

  method Parse(checksum: Checksum, fromHex: string -> Option<Bytes>, text: string)
    returns (r: Result<Bytes, ParseError>)
    ensures r == TryFrom(checksum, fromHex, text)
  {
    var hex := fromHex(text);
    if hex.Some? {
      if |hex.value| == 32 { return Ok(hex.value); } else { return Err(HexWrongLength); }
    }
    var input := Upper(text);
    if StartsWith(input, "HTTP://") || StartsWith(input, "HTTPS://") {
      input := RemoveAll(input, "HTTP://");
      input := RemoveAll(input, "HTTPS://");
    }
    if EndsWith(input, ".ONION") { input := RemoveAll(input, ".ONION"); }
    var raw := input;
    if |input| != ADDRESS_LENGTH { return Err(WrongLength); }
    var address := Decode(input);
    if address.None? { return Err(NotBase32); }
    if |address.value| < 32 { return Err(SliceOutOfRange); }
    var k := address.value[..32];
    if Upper(ToOv3(checksum, k)) != Upper(raw) { return Err(NoMatch); }
    r := Ok(k);
  }

  // ---------- Canonical text ----------

  /** The upper-case text of a key: 56 characters of the Base32 alphabet. */
  lemma CanonicalText(checksum: Checksum, k: Bytes)
    requires IsKey(k) && InBytes(checksum)
    ensures var text := Encode(AddressBytes(checksum, k));
      && |text| == ADDRESS_LENGTH && Upper(ToOv3(checksum, k)) == text && Upper(text) == text
      && (forall i :: 0 <= i < |text| ==> ValueOf(text[i]).Some?)
      && Decode(text) == Some(AddressBytes(checksum, k))
  {
    var bytes := AddressBytes(checksum, k);
    assert InBase(bytes, 256);
    RoundTrip(bytes);
    EncodedChars(bytes);
    hide Encode, Decode;
    var text := Encode(bytes);
    forall i | 0 <= i < |text| ensures UpperChar(LowerChar(text[i])) == text[i] && UpperChar(text[i]) == text[i] {
      AlphabetCase(text[i]);
    }
    assert Upper(Lower(text)) == text;
    assert Upper(text) == text;
  }

  lemma AlphabetCase(c: char)
    requires ValueOf(c).Some?
    ensures UpperChar(LowerChar(c)) == c && UpperChar(c) == c
  {
  }

  lemma {:induction false} NothingToRemove(s: string, p: string, mark: char)
    requires p != "" && mark in p && mark !in s
    ensures RemoveAll(s, p) == s
    decreases |s|
  {
    if |s| >= |p| {
      assert mark !in s[..|p|];
      NothingToRemove(s[1..], p, mark);
    }
  }

  lemma {:induction false} RemovedAtEnd(s: string, p: string)
    requires p != "" && p[0] !in s
    ensures RemoveAll(s + p, p) == s
    decreases |s|
  {
    if s == "" {
      assert s + p == p && p[..|p|] == p && p[|p|..] == "";
    } else {
      assert (s + p)[0] == s[0] && (s + p)[..|p|][0] == s[0];
      assert (s + p)[1..] == s[1..] + p;
      RemovedAtEnd(s[1..], p);
    }
  }

  lemma PrefixRemoved(p: string, s: string)
    requires p != ""
    ensures RemoveAll(p + s, p) == RemoveAll(s, p)
  {
    assert (p + s)[..|p|] == p && (p + s)[|p|..] == s;
  }

  predicate InAlphabet(s: string) { forall i | 0 <= i < |s| :: ValueOf(s[i]).Some? }

  lemma NotInAlphabet(s: string)
    requires InAlphabet(s)
    ensures ':' !in s && '.' !in s && '=' !in s && '+' !in s
  {
  }

  lemma HttpUpper(bare: string)
    ensures Upper("http://" + bare + ".onion") == "HTTP://" + Upper(bare) + ".ONION"
  {
  }

  lemma NoMark(s: string, p: string, mark: char)
    requires mark in p && mark !in s
    ensures !StartsWith(s, p) && !EndsWith(s, p)
  {
    if |p| <= |s| { assert mark !in s[..|p|] && mark !in s[|s| - |p|..]; }
  }

  // ---------- Round trips ----------

  lemma AddressLength(checksum: Checksum, k: Bytes)
    requires IsKey(k) && InBytes(checksum)
    ensures |ToOv3(checksum, k)| == 56
    ensures forall i :: 0 <= i < 56 ==> 'a' <= ToOv3(checksum, k)[i] <= 'z' || '2' <= ToOv3(checksum, k)[i] <= '7'
  {
    hide Encode;
    CanonicalText(checksum, k);
    LowerText(Encode(AddressBytes(checksum, k)));
  }

  lemma LowerText(text: string)
    requires InAlphabet(text)
    ensures forall i :: 0 <= i < |text| ==> 'a' <= Lower(text)[i] <= 'z' || '2' <= Lower(text)[i] <= '7'
  {
    forall i | 0 <= i < |text| ensures 'a' <= LowerChar(text[i]) <= 'z' || '2' <= LowerChar(text[i]) <= '7' {
      LowerOf(text[i]);
    }
  }

  lemma LowerOf(c: char)
    requires ValueOf(c).Some?
    ensures 'a' <= LowerChar(c) <= 'z' || '2' <= LowerChar(c) <= '7'
  {
  }

  /** An input that is not hexadecimal is accepted for a key exactly when it normalises to the text of
      that key. */
  lemma AcceptedIff(checksum: Checksum, fromHex: string -> Option<Bytes>, input: string, k: Bytes)
    requires IsKey(k) && InBytes(checksum) && fromHex(input) == None
    ensures TryFrom(checksum, fromHex, input) == Ok(k) <==> Upper(Normal(input)) == Upper(ToOv3(checksum, k))
  {
    hide Encode, Decode, Normal, Upper, ToOv3;
    CanonicalText(checksum, k);
    UpperNormal(input);
    assert AddressBytes(checksum, k)[..32] == k;
  }

  lemma {:induction false} RemovedUpper(s: string, p: string)
    requires p != "" && Upper(s) == s
    ensures Upper(RemoveAll(s, p)) == RemoveAll(s, p)
    decreases |s|
  {
    if |s| >= |p| {
      assert forall i :: 0 <= i < |s| ==>
          UpperChar(s[i]) == s[i] by { assert forall i :: 0 <= i < |s| ==> Upper(s)[i] == s[i]; }
      assert Upper(s[|p|..]) == s[|p|..] && Upper(s[1..]) == s[1..];
      if s[..|p|] == p {
        RemovedUpper(s[|p|..], p);
      } else {
        RemovedUpper(s[1..], p);
        var rest := RemoveAll(s[1..], p);
        assert Upper([s[0]] + rest) == [UpperChar(s[0])] + Upper(rest);
      }
    }
  }

  lemma UpperNormal(input: string)
    ensures Upper(Normal(input)) == Normal(input)
  {
    var s := Upper(input);
    assert Upper(s) == s;
    RemovedUpper(s, "HTTP://");
    RemovedUpper(RemoveAll(s, "HTTP://"), "HTTPS://");
    var t := if StartsWith(s, "HTTP://") || StartsWith(s, "HTTPS://")
             then RemoveAll(RemoveAll(s, "HTTP://"), "HTTPS://") else s;
    RemovedUpper(t, ".ONION");
  }

  /** What a scheme and the suffix look like in capitals. */
  predicate IsScheme(p: string) { p in {"", "HTTP://", "HTTPS://"} }
  predicate IsSuffix(p: string) { p in {"", ".ONION"} }

  predicate Occurs(s: string, p: string, i: nat) { i + |p| <= |s| && s[i..i + |p|] == p }

  lemma {:induction false} NowhereToRemove(s: string, p: string)
    requires p != "" && forall i: nat :: !Occurs(s, p, i)
    ensures RemoveAll(s, p) == s
    decreases |s|
  {
    if |s| >= |p| {
      assert !Occurs(s, p, 0) && s[0..0 + |p|] == s[..|p|];
      forall i: nat ensures !Occurs(s[1..], p, i) {
        if Occurs(s[1..], p, i) { assert s[1..][i..i + |p|] == s[i + 1..i + 1 + |p|] && Occurs(s, p, i + 1); }
      }
      NowhereToRemove(s[1..], p);
    }
  }

  /** The shorter scheme does not occur in the longer one. */
  lemma SecureSchemeStays(rest: string)
    requires ':' !in rest
    ensures RemoveAll("HTTPS://" + rest, "HTTP://") == "HTTPS://" + rest
  {
    var s, p := "HTTPS://" + rest, "HTTP://";
    forall i: nat ensures !Occurs(s, p, i) {
      if i + 7 <= |s| {
        assert s[i..i + 7][4] == s[i + 4] && s[i..i + 7][0] == s[i];
        if i >= 4 { assert s[i + 4] == rest[i - 4]; }
      }
    }
    NowhereToRemove(s, p);
  }

  lemma SchemeStripped(scheme: string, rest: string)
    requires IsScheme(scheme) && ':' !in rest
    ensures var s := scheme + rest;
      (if StartsWith(s, "HTTP://") || StartsWith(s, "HTTPS://") then RemoveAll(RemoveAll(s, "HTTP://"), "HTTPS://")
          else s)
      == rest
  {
    hide RemoveAll;
    NothingToRemove(rest, "HTTP://", ':');
    NothingToRemove(rest, "HTTPS://", ':');
    if scheme == "" {
      NoMark(rest, "HTTP://", ':');
      NoMark(rest, "HTTPS://", ':');
      assert scheme + rest == rest;
    } else if scheme == "HTTP://" {
      PrefixRemoved("HTTP://", rest);
      assert "HTTP://" <= scheme + rest;
    } else {
      SecureSchemeStays(rest);
      PrefixRemoved("HTTPS://", rest);
      assert "HTTPS://" <= scheme + rest;
    }
  }

  lemma SuffixStripped(text: string, suffix: string)
    requires IsSuffix(suffix) && '.' !in text
    ensures var t := text + suffix; (if EndsWith(t, ".ONION") then RemoveAll(t, ".ONION") else t) == text
  {
    if suffix == "" {
      assert text + suffix == text;
      NoMark(text, ".ONION", '.');
    } else {
      RemovedAtEnd(text, ".ONION");
    }
  }

  /** In any mixture of cases, with either scheme or none and with or without the suffix, the address reads as
      the key, unless the whole is taken for hexadecimal. */
  lemma AllFormsRead(checksum: Checksum, fromHex: string -> Option<Bytes>, k: Bytes, scheme: string, suffix: string,
                     input: string)
    requires IsKey(k) && InBytes(checksum) && fromHex(input) == None
    requires IsScheme(scheme) && IsSuffix(suffix)
    requires Upper(input) == scheme + Upper(ToOv3(checksum, k)) + suffix
    ensures TryFrom(checksum, fromHex, input) == Ok(k)
  {
    hide Encode, Decode, Upper, RemoveAll, ToOv3, TryFrom, StartsWith, EndsWith;
    CanonicalText(checksum, k);
    var text := Encode(AddressBytes(checksum, k));
    NotInAlphabet(text);
    Assoc(scheme, text, suffix);
    SchemeStripped(scheme, text + suffix);
    SuffixStripped(text, suffix);
    assert Normal(input) == text;
    hide Normal;
    AcceptedIff(checksum, fromHex, input, k);
  }

  /** The form with scheme and suffix always reads back as the key. */
  lemma HttpRoundTrip(checksum: Checksum, fromHex: string -> Option<Bytes>, k: Bytes)
    requires IsKey(k) && InBytes(checksum) && ReadsHex(fromHex)
    ensures TryFrom(checksum, fromHex, ToHttp(checksum, k)) == Ok(k)
  {
    hide Encode, TryFrom, Upper, InBytes, ToOv3;
    var input := ToHttp(checksum, k);
    HttpUpper(ToOv3(checksum, k));
    NoPlus(checksum, k);
    assert !IsHexDigit(input[0]) && !AllHex(input) && !("0x" <= input) && '+' !in input;
    AllFormsRead(checksum, fromHex, k, "HTTP://", ".ONION", input);
  }

  lemma NoPlus(checksum: Checksum, k: Bytes)
    requires IsKey(k) && InBytes(checksum)
    ensures '+' !in ToOv3(checksum, k) && |ToOv3(checksum, k)| == 56 && ToOv3(checksum, k)[0] != '0'
  {
    hide Encode, Decode;
    CanonicalText(checksum, k);
    LowerChars(Encode(AddressBytes(checksum, k)));
  }

  /** An input that reads as hexadecimal is a key if it has 32 bytes and is refused otherwise. */
  lemma HexIsKeyIff(checksum: Checksum, fromHex: string -> Option<Bytes>, input: string)
    requires fromHex(input).Some?
    ensures TryFrom(checksum, fromHex, input)
         == if |fromHex(input).value| == 32 then Ok(fromHex(input).value) else Err(HexWrongLength)
  {
  }

  lemma LowerChars(text: string)
    requires InAlphabet(text)
    ensures forall i :: 0 <= i < |text| ==> Lower(text)[i] != '+' && Lower(text)[i] != '0'
  {
  }

  /** The bare address reads back as the key exactly when it does not look like hexadecimal. */
  lemma BareRoundTripIff(checksum: Checksum, fromHex: string -> Option<Bytes>, k: Bytes)
    requires IsKey(k) && InBytes(checksum) && ReadsHex(fromHex)
    ensures TryFrom(checksum, fromHex, ToOv3(checksum, k)) == Ok(k) <==> !AllHex(ToOv3(checksum, k))
  {
    hide Encode, InBytes, ToOv3, Upper;
    var bare := ToOv3(checksum, k);
    NoPlus(checksum, k);
    assert !("0x" <= bare);
    if AllHex(bare) {
      HexIsKeyIff(checksum, fromHex, bare);
    } else {
      assert Upper(bare) == "" + Upper(bare) + "";
      AllFormsRead(checksum, fromHex, k, "", "", bare);
    }
  }

  /** Different keys have different addresses. */
  lemma AddressInjective(checksum: Checksum, j: Bytes, k: Bytes)
    requires IsKey(j) && IsKey(k) && InBytes(checksum)
    ensures ToOv3(checksum, j) == ToOv3(checksum, k) <==> j == k
  {
    hide Encode, Decode;
    CanonicalText(checksum, j);
    CanonicalText(checksum, k);
    assert AddressBytes(checksum, j)[..32] == j && AddressBytes(checksum, k)[..32] == k;
  }

  /** The code takes 32 bytes of whatever was decoded. That fails exactly for well-formed text whose
      blocks lose at least four bytes to padding: 1, 3, 4 and 6 padding characters at the end of a block
      cost it 1, 2, 3 and 4. */
  lemma SliceFailsIff(checksum: Checksum, fromHex: string -> Option<Bytes>, input: string)
    requires fromHex(input) == None
    ensures TryFrom(checksum, fromHex, input) == Err(SliceOutOfRange) <==>
            var address := Normal(input);
            |address| == ADDRESS_LENGTH && Decode(address).Some? && Lost(address) >= 4
  {
    hide Encode, Normal, Lost, Decode, Upper;
    var address := Normal(input);
    if |address| == ADDRESS_LENGTH && Decode(address).Some? {
      DecodedLength(address);
    }
  }

  /** Text without a scheme, a suffix or small letters is its own normal form. */
  lemma PlainNormal(s: string)
    requires Upper(s) == s && ':' !in s && '.' !in s
    ensures Normal(s) == s
  {
    NoMark(s, "HTTP://", ':');
    NoMark(s, "HTTPS://", ':');
    NoMark(s, ".ONION", '.');
  }
}
