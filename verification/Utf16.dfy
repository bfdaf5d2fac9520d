/**
 UTF-16LE, as PowerShell's -EncodedCommand expects it: code units and surrogate pairs of RFC 2781
 (sections 2.1 and 2.2), low byte first (section 4.2).
 */
module Utf16 {
  type Unit = x: int | 0 <= x < 0x1_0000
  type Byte = x: int | 0 <= x < 0x100

  const REPLACEMENT: Unit := 0xFFFD

  predicate Scalar(r: int) {
    0 <= r < 0xD800 || 0xE000 <= r <= 0x10_FFFF
  }

  predicate HighSurrogate(u: Unit) { 0xD800 <= u < 0xDC00 }

  predicate LowSurrogate(u: Unit) { 0xDC00 <= u < 0xE000 }

  /** A value that is no scalar becomes U+FFFD. */
  function Encoded(r: int): seq<Unit> {
    if !Scalar(r) then [REPLACEMENT]
    else if r < 0x1_0000 then [r]
    else
      var v := r - 0x1_0000;
      [0xD800 + v / 0x400, 0xDC00 + v % 0x400]
  }

  function EncodeUnits(runes: seq<int>): seq<Unit> {
    if runes == [] then [] else EncodeUnits(runes[..|runes| - 1]) + Encoded(runes[|runes| - 1])
  }

  function LittleEndian(us: seq<Unit>): seq<Byte> {
    seq(2 * |us|, i requires 0 <= i < 2 * |us| => if i % 2 == 0 then us[i / 2] % 0x100 else us[i / 2] / 0x100)
  }

  // ---- The encoder ----

  method UnitsOf(runes: seq<int>) returns (us: seq<Unit>)
    ensures us == EncodeUnits(runes)
  {
    us := [];
    for i := 0 to |runes|
      invariant us == EncodeUnits(runes[..i])
    {
      assert runes[..i + 1][..i] == runes[..i];
      us := us + Encoded(runes[i]);
    }
    assert runes[..|runes|] == runes;
  }

  /** Fills a byte array two bytes per unit; a byte keeps the low eight bits of what it is given. */
  method Utf16Encode(runes: seq<int>) returns (bytes: array<Byte>)
    ensures bytes[..] == LittleEndian(EncodeUnits(runes))
    ensures bytes.Length == 2 * |EncodeUnits(runes)|
    ensures (forall i | 0 <= i < |runes| :: Scalar(runes[i])) ==> DecodeBytes(bytes[..]) == Decoded(runes)
  {
    var us := UnitsOf(runes);
    bytes := new Byte[|us| * 2];
    for i := 0 to |us|
      invariant forall j | 0 <= j < 2 * i :: bytes[j] == LittleEndian(us)[j]
    {
      bytes[i * 2] := us[i] % 0x100;
      bytes[i * 2 + 1] := us[i] / 0x100 % 0x100;
    }
    assert bytes[..] == LittleEndian(us);
    RoundTrip(runes);
  }

  // ---- The decoder ----

  datatype Outcome = Decoded(runes: seq<int>) | IllFormed

  function UnitAt(bytes: seq<Byte>, i: nat): Unit
    requires 2 * i + 1 < |bytes|
  {
    var low: int, high: int := bytes[2 * i], bytes[2 * i + 1];
    low + 0x100 * high
  }

  function FromBytes(bytes: seq<Byte>): seq<Unit> {
    seq(|bytes| / 2, i requires 0 <= i < |bytes| / 2 => UnitAt(bytes, i))
  }

  function Pair(high: Unit, low: Unit): int {
    0x1_0000 + (high - 0xD800) * 0x400 + (low - 0xDC00)
  }

  function DecodeUnits(us: seq<Unit>): Outcome {
    if us == [] then Decoded([])
    else if !HighSurrogate(us[0]) && !LowSurrogate(us[0]) then Prepend(us[0], DecodeUnits(us[1..]))
    else if HighSurrogate(us[0]) && |us| > 1 && LowSurrogate(us[1])
    then Prepend(Pair(us[0], us[1]), DecodeUnits(us[2..]))
    else IllFormed
  }

  function Prepend(r: int, rest: Outcome): Outcome {
    if rest.IllFormed? then IllFormed else Decoded([r] + rest.runes)
  }

  function DecodeBytes(bytes: seq<Byte>): Outcome {
    if |bytes| % 2 == 1 then IllFormed else DecodeUnits(FromBytes(bytes))
  }

  /** Known bytes: a letter, a character outside the first plane, a lone surrogate. */
  lemma KnownBytes()
    ensures LittleEndian(EncodeUnits([0x48, 0x1_F600])) == [0x48, 0x00, 0x3D, 0xD8, 0x00, 0xDE]
    ensures LittleEndian(EncodeUnits([0xD800])) == [0xFD, 0xFF]
  {
    var two, one := [0x48, 0x1_F600], [0xD800];
    assert two[..1] == [0x48] && [0x48][..0] == [] && one[..0] == [];
    assert EncodeUnits([0x48]) == [0x48];
    assert EncodeUnits(two) == [0x48, 0xD83D, 0xDE00];
    assert EncodeUnits(one) == [0xFFFD];
  }

  // ---- Round trips ----

  function Sanitized(runes: seq<int>): seq<int> {
    seq(|runes|, i requires 0 <= i < |runes| => if Scalar(runes[i]) then runes[i] else REPLACEMENT)
  }

  lemma BytesRoundTrip(us: seq<Unit>)
    ensures FromBytes(LittleEndian(us)) == us
  {
  }

  lemma {:induction false} EncodeCons(r: int, rest: seq<int>)
    ensures EncodeUnits([r] + rest) == Encoded(r) + EncodeUnits(rest)
  {
    var all := [r] + rest;
    if rest == [] {
      assert all == [r] && all[..0] == [];
      assert EncodeUnits(all) == [] + Encoded(r);
    } else {
      var n := |rest| - 1;
      var init := rest[..n];
      EncodeCons(r, init);
      assert all[..n + 1] == [r] + init && all[n + 1] == rest[n];
      assert EncodeUnits(all) == (Encoded(r) + EncodeUnits(init)) + Encoded(rest[n]);
      assert EncodeUnits(rest) == EncodeUnits(init) + Encoded(rest[n]);
    }
  }

  /** One encoded value at the front decodes to that value, whatever follows. */
  lemma DecodeEncoded(r: int, rest: seq<Unit>)
    ensures DecodeUnits(Encoded(r) + rest) == Prepend(if Scalar(r) then r else REPLACEMENT, DecodeUnits(rest))
  {
  }

  lemma SanitizedCons(runes: seq<int>)
    requires runes != []
    ensures Sanitized(runes) == [if Scalar(runes[0]) then runes[0] else REPLACEMENT] + Sanitized(runes[1..])
  {
  }

  lemma {:induction false} UnitsRoundTrip(runes: seq<int>)
    ensures DecodeUnits(EncodeUnits(runes)) == Decoded(Sanitized(runes))
  {
    if runes != [] {
      var r, rest := runes[0], runes[1..];
      assert EncodeUnits(runes) == Encoded(r) + EncodeUnits(rest) by {
        EncodeCons(r, rest);
        assert runes == [r] + rest;
      }
      DecodeEncoded(r, EncodeUnits(rest));
      UnitsRoundTrip(rest);
      SanitizedCons(runes);
    }
  }

  /** Decoding the encoded bytes gives the text back; what is no scalar value reads U+FFFD. */
  lemma RoundTrip(runes: seq<int>)
    ensures DecodeBytes(LittleEndian(EncodeUnits(runes))) == Decoded(Sanitized(runes))
    ensures (forall i | 0 <= i < |runes| :: Scalar(runes[i])) ==> Sanitized(runes) == runes
  {
    BytesRoundTrip(EncodeUnits(runes));
    UnitsRoundTrip(runes);
  }

  /** Conversely, every well-formed unit sequence is the encoding of the scalar values it decodes to. */
  lemma {:induction false} EncodeDecoded(us: seq<Unit>)
    requires DecodeUnits(us).Decoded?
    ensures EncodeUnits(DecodeUnits(us).runes) == us
    ensures forall i | 0 <= i < |DecodeUnits(us).runes| :: Scalar(DecodeUnits(us).runes[i])
    decreases |us|
  {
    if us != [] {
      if HighSurrogate(us[0]) {
        EncodeDecoded(us[2..]);
        EncodeCons(Pair(us[0], us[1]), DecodeUnits(us[2..]).runes);
        PairEncodes(us[0], us[1]);
        assert us == [us[0], us[1]] + us[2..];
      } else {
        EncodeDecoded(us[1..]);
        EncodeCons(us[0], DecodeUnits(us[1..]).runes);
        assert us == [us[0]] + us[1..];
      }
    }
  }

  lemma PairEncodes(high: Unit, low: Unit)
    requires HighSurrogate(high) && LowSurrogate(low)
    ensures Scalar(Pair(high, low)) && Encoded(Pair(high, low)) == [high, low]
  {
  }
}
