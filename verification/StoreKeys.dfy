/** The byte keys of the database (libwallet/src/backend.rs, `to_key_u64`). */
module StoreKeys {
  import opened Wrappers
  import opened Digits
  import opened SlateTypes
  import opened DbSpec

  const U32_END: nat := 0x1_0000_0000
  const U64_END: nat := 0x1_0000_0000_0000_0000
  const MAX_DEPTH: nat := 4

  /** Big-endian bytes of a 64-bit number. */
  function U64Bytes(x: nat): seq<nat> { ToDigits(x, 256, 8) }

  function ToKeyU64(k: seq<nat>, x: nat): seq<nat> { k + U64Bytes(x) }

  /** A path that fits an identifier: at most four components of 32 bits. */
  predicate ValidPath(k: KeyId) {
    |k| <= MAX_DEPTH && forall i :: 0 <= i < |k| ==> k[i] < U32_END
  }

  /** The path components that are not in use are zero. */
  function Padded(k: KeyId): seq<nat>
    requires |k| <= MAX_DEPTH
  {
    k + seq(MAX_DEPTH - |k|, _ => 0)
  }

  function Components(ws: seq<nat>): seq<nat> {
    if ws == [] then [] else ToDigits(ws[0], 256, 4) + Components(ws[1..])
  }

  /** The 17 bytes of an identifier: its depth, then four 32-bit components. */
  function IdBytes(k: KeyId): seq<nat>
    requires ValidPath(k)
  {
    [|k|] + Components(Padded(k))
  }

  function OutKeyBytes(k: OutKey): seq<nat>
    requires ValidPath(k.id)
  {
    match k.mmrIndex
    case Some(i) => ToKeyU64(IdBytes(k.id), i)
    case None => IdBytes(k.id)
  }

  function LogKeyBytes(k: LogKey): seq<nat>
    requires ValidPath(k.parent)
  {
    ToKeyU64(IdBytes(k.parent), k.id)
  }

  lemma Pows()
    ensures Pow(256, 4) == U32_END && Pow(256, 8) == U64_END
  {
    assert Pow(256, 2) == 65536;
    assert Pow(256, 4) == 256 * (256 * Pow(256, 2));
    assert Pow(256, 6) == 256 * (256 * Pow(256, 4));
    assert Pow(256, 8) == 256 * (256 * Pow(256, 6));
  }

  lemma U64Injective(x: nat, y: nat)
    requires x < U64_END && y < U64_END && U64Bytes(x) == U64Bytes(y)
    ensures x == y
  {
    Pows();
    DigitsReadBack(x, 256, 8);
    DigitsReadBack(y, 256, 8);
  }

  lemma ComponentsStep(v: seq<nat>)
    requires v != []
    ensures |Components(v)| == 4 + |Components(v[1..])|
    ensures Components(v)[..4] == ToDigits(v[0], 256, 4) && Components(v)[4..] == Components(v[1..])
  {
  }

  lemma {:induction false} ComponentsInjective(v: seq<nat>, w: seq<nat>)
    requires |v| == |w| && forall i :: 0 <= i < |v| ==> v[i] < U32_END && w[i] < U32_END
    ensures |Components(v)| == |Components(w)| == 4 * |v|
    ensures Components(v) == Components(w) ==> v == w
    decreases |v|
  {
    hide Components, Pow, FromDigits, ToDigits;
    NoComponents();
    if v != [] {
      ComponentsInjective(v[1..], w[1..]);
      ComponentsStep(v);
      ComponentsStep(w);
      Pows();
      DigitsReadBack(v[0], 256, 4);
      DigitsReadBack(w[0], 256, 4);
      assert v == [v[0]] + v[1..] && w == [w[0]] + w[1..];
    }
  }

  lemma NoComponents()
    ensures Components([]) == []
  {
  }

  lemma IdInjective(j: KeyId, k: KeyId)
    requires ValidPath(j) && ValidPath(k)
    ensures |IdBytes(j)| == 17
    ensures IdBytes(j) == IdBytes(k) ==> j == k
  {
    ComponentsInjective(Padded(j), Padded(k));
    if IdBytes(j) == IdBytes(k) {
      assert IdBytes(j)[0] == |j| && IdBytes(k)[0] == |k|;
      assert IdBytes(j)[1..] == Components(Padded(j)) && IdBytes(k)[1..] == Components(Padded(k));
      assert Padded(j)[..|j|] == j && Padded(k)[..|j|] == k;
    }
  }

  lemma KeyU64Injective(j: KeyId, k: KeyId, x: nat, y: nat)
    requires ValidPath(j) && ValidPath(k) && x < U64_END && y < U64_END
    requires ToKeyU64(IdBytes(j), x) == ToKeyU64(IdBytes(k), y)
    ensures j == k && x == y
  {
    IdInjective(j, k);
    IdInjective(k, j);
    var s, t := ToKeyU64(IdBytes(j), x), ToKeyU64(IdBytes(k), y);
    assert s[..17] == IdBytes(j) && t[..17] == IdBytes(k);
    assert s[17..] == U64Bytes(x) && t[17..] == U64Bytes(y);
    U64Injective(x, y);
  }

  lemma {:induction false} ComponentAt(ws: seq<nat>, i: nat)
    requires i < |ws|
    ensures |Components(ws)| == 4 * |ws|
    ensures Components(ws)[4 * i..4 * i + 4] == ToDigits(ws[i], 256, 4)
  {
    hide Components, ToDigits;
    var rest := ws[1..];
    NoComponents();
    ComponentsStep(ws);
    if i > 0 {
      ComponentAt(rest, i - 1);
      assert Components(ws)[4..][4 * (i - 1)..4 * (i - 1) + 4] == Components(ws)[4 * i..4 * i + 4];
    } else if rest != [] {
      ComponentAt(rest, 0);
    }
  }

  /** How keys lie on disk: the depth in one byte, four components of 32 bits of which the unused ones are
      zero, and for a record with a position, or a log entry, a number of 64 bits; the most significant byte
      comes first. */
  lemma KeyLayout(k: KeyId, i: nat, x: nat)
    requires ValidPath(k) && i < 4 && x < U64_END
    ensures var id := IdBytes(k);
      && |id| == 17 && id[0] == |k|
      && FromDigits(id[1 + 4 * i..5 + 4 * i], 256) == (if i < |k| then k[i] else 0)
      && OutKeyBytes(OutKey(k, None)) == id
      && |OutKeyBytes(OutKey(k, Some(x)))| == 25 && OutKeyBytes(OutKey(k, Some(x)))[..17] == id
      && FromDigits(OutKeyBytes(OutKey(k, Some(x)))[17..], 256) == x
      && LogKeyBytes(LogKey(k, x)) == OutKeyBytes(OutKey(k, Some(x)))
  {
    hide Components, Pow, FromDigits, ToDigits;
    var ws, id := Padded(k), IdBytes(k);
    Pows();
    ComponentAt(ws, i);
    assert id[1 + 4 * i..5 + 4 * i] == Components(ws)[4 * i..4 * i + 4];
    DigitsReadBack(ws[i], 256, 4);
    DigitsReadBack(x, 256, 8);
    var all := ToKeyU64(id, x);
    assert all[..17] == id && all[17..] == U64Bytes(x);
  }

  /** Two records share a stored key exactly when they have the same identifier and position; two log
      entries exactly when they have the same parent and id. */
  lemma StoredKeysIff(j: OutKey, k: OutKey, l: LogKey, m: LogKey)
    requires ValidPath(j.id) && ValidPath(k.id) && ValidPath(l.parent) && ValidPath(m.parent)
    requires (j.mmrIndex.Some? ==> j.mmrIndex.value < U64_END) && (k.mmrIndex.Some? ==> k.mmrIndex.value < U64_END)
    requires l.id < U32_END && m.id < U32_END
    ensures OutKeyBytes(j) == OutKeyBytes(k) <==> j == k
    ensures LogKeyBytes(l) == LogKeyBytes(m) <==> l == m
  {
    IdInjective(j.id, k.id);
    IdInjective(k.id, j.id);
    if OutKeyBytes(j) == OutKeyBytes(k) && j.mmrIndex.Some? && k.mmrIndex.Some? {
      KeyU64Injective(j.id, k.id, j.mmrIndex.value, k.mmrIndex.value);
    }
    if LogKeyBytes(l) == LogKeyBytes(m) { KeyU64Injective(l.parent, m.parent, l.id, m.id); }
  }
}
