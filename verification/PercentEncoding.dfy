/** Percent-encoding of query parameters, undone by the decoder of section 2.1 of
    RFC 3986. */
module PercentEncoding {
  import opened Types

  type Bytes = seq<bv8>

  const PERCENT: bv8 := 0x25

  predicate IsAlnum(c: bv8) {
    0x30 <= c <= 0x39 || 0x41 <= c <= 0x5A || 0x61 <= c <= 0x7A
  }

  /** Section 2.3 of RFC 3986: letters, digits, '-', '_', '.', '~'. */
  predicate IsUnreserved(c: bv8) {
    IsAlnum(c) || c == 0x2D || c == 0x5F || c == 0x2E || c == 0x7E
  }

  /** The upper-case hexadecimal digit of a nibble. */
  function HexChar(nibble: bv8): bv8
    requires nibble < 16
  {
    if nibble < 10 then 0x30 + nibble else 0x37 + nibble
  }

  predicate IsHex(c: bv8) {
    0x30 <= c <= 0x39 || 0x41 <= c <= 0x46 || 0x61 <= c <= 0x66
  }

  /** The value of a hexadecimal digit of either case. */
  function HexValue(c: bv8): bv8
    requires IsHex(c)
  {
    if c <= 0x39 then c - 0x30 else if c <= 0x46 then c - 0x37 else c - 0x57
  }

  function EncodeByte(c: bv8): Bytes {
    if IsUnreserved(c) then [c]
    else if c == 0x20 then [PERCENT, 0x32, 0x30]
    else [PERCENT, HexChar((c >> 4) & 0x0F), HexChar(c & 0x0F)]
  }

  function Encode(s: Bytes): Bytes {
    if s == [] then [] else EncodeByte(s[0]) + Encode(s[1..])
  }

  /** A percent sign must be followed by two hexadecimal digits; other bytes stand for
      themselves. */
  function Decode(s: Bytes): Result<Bytes, nat>
    decreases |s|
  {
    if s == [] then Ok([])
    else if s[0] != PERCENT then
      (match Decode(s[1..])
       case Ok(rest) => Ok([s[0]] + rest)
       case Err(e) => Err(e))
    else if |s| < 3 || !IsHex(s[1]) || !IsHex(s[2]) then Err(|s|)
    else
      (match Decode(s[3..])
       case Ok(rest) => Ok([(HexValue(s[1]) << 4) | HexValue(s[2])] + rest)
       case Err(e) => Err(e))
  }

  lemma NibbleRange(c: bv8)
    ensures (c >> 4) & 0x0F < 16 && c & 0x0F < 16
  {
  }

  lemma NibblesRestore(c: bv8)
    ensures (c >> 4) & 0x0F < 16 && c & 0x0F < 16
    ensures IsHex(HexChar((c >> 4) & 0x0F)) && IsHex(HexChar(c & 0x0F))
    ensures (HexValue(HexChar((c >> 4) & 0x0F)) << 4) | HexValue(HexChar(c & 0x0F)) == c
  {
  }

  /** One encoded byte in front of anything decodes to that byte. */
  lemma DecodeOne(c: bv8, rest: Bytes)
    ensures Decode(EncodeByte(c) + rest) ==
            match Decode(rest) case Ok(d) => Ok([c] + d) case Err(e) => Err(e)
  {
    NibblesRestore(c);
    var enc := EncodeByte(c);
    if IsUnreserved(c) {
      assert (enc + rest)[1..] == rest;
    } else {
      assert (enc + rest)[3..] == rest;
      assert enc[0] == PERCENT && IsHex(enc[1]) && IsHex(enc[2]);
      assert (HexValue(enc[1]) << 4) | HexValue(enc[2]) == c;
    }
  }

  /** Encoding is undone by decoding, for every byte string. */
  lemma {:induction false} RoundTrip(s: Bytes)
    ensures Decode(Encode(s)) == Ok(s)
  {
    if s != [] {
      RoundTrip(s[1..]);
      DecodeOne(s[0], Encode(s[1..]));
      assert [s[0]] + s[1..] == s;
    }
  }

  lemma Injective(a: Bytes, b: Bytes)
    requires Encode(a) == Encode(b)
    ensures a == b
  {
    RoundTrip(a);
    RoundTrip(b);
  }

  /** Output consists of unreserved characters and percent signs only. */
  lemma {:induction false} OutputIsSafe(s: Bytes)
    ensures forall i | 0 <= i < |Encode(s)| :: IsUnreserved(Encode(s)[i]) || Encode(s)[i] == PERCENT
    ensures |s| <= |Encode(s)| <= 3 * |s|
  {
    if s != [] {
      OutputIsSafe(s[1..]);
      NibblesRestore(s[0]);
    }
  }

  /** A percent sign in the output is followed by two upper-case hexadecimal digits. */
  ghost predicate UpperEscapes(s: Bytes) {
    forall i | 0 <= i < |s| && s[i] == PERCENT :: i + 2 < |s| && IsUpperHex(s[i + 1]) && IsUpperHex(s[i + 2])
  }

  predicate IsUpperHex(c: bv8) { 0x30 <= c <= 0x39 || 0x41 <= c <= 0x46 }

  lemma {:induction false} EscapesAreUpper(s: Bytes)
    ensures UpperEscapes(Encode(s))
  {
    if s != [] {
      EscapesAreUpper(s[1..]);
      ByteEscapesAreUpper(s[0]);
      var one, rest := EncodeByte(s[0]), Encode(s[1..]);
      forall i | 0 <= i < |one + rest| && (one + rest)[i] == PERCENT
        ensures i + 2 < |one + rest| && IsUpperHex((one + rest)[i + 1]) && IsUpperHex((one + rest)[i + 2])
      {
        if i >= |one| {
          assert rest[i - |one|] == PERCENT;
        } else {
          assert one[i] == PERCENT;
        }
      }
    }
  }

  lemma ByteEscapesAreUpper(c: bv8)
    ensures UpperEscapes(EncodeByte(c))
  {
    NibbleRange(c);
    assert IsUpperHex(HexChar((c >> 4) & 0x0F)) && IsUpperHex(HexChar(c & 0x0F));
  }

  lemma EncodeOne(c: bv8)
    ensures Encode([c]) == EncodeByte(c)
  {
    EncodeEmpty();
    assert [c][1..] == [];
  }

  /** Every kind of byte: letters, digits and - _ . ~ stand for themselves; a space, a slash
      and a byte beyond ASCII are written out. */
  lemma EncodesEachKind()
    ensures Encode([0x61]) == [0x61] && Encode([0x7A]) == [0x7A] && Encode([0x41]) == [0x41] && Encode([0x5A]) == [0x5A]
    ensures Encode([0x30]) == [0x30] && Encode([0x39]) == [0x39]
    ensures Encode([0x2D]) == [0x2D] && Encode([0x5F]) == [0x5F] && Encode([0x2E]) == [0x2E] && Encode([0x7E]) == [0x7E]
    ensures Encode([0x20]) == [0x25, 0x32, 0x30] && Encode([0x2F]) == [0x25, 0x32, 0x46] && Encode([0xE9]) == [0x25, 0x45, 0x39]
  {
    hide Encode;
    EncodeOne(0x61);
    EncodeOne(0x7A);
    EncodeOne(0x41);
    EncodeOne(0x5A);
    EncodeOne(0x30);
    EncodeOne(0x39);
    EncodeOne(0x2D);
    EncodeOne(0x5F);
    EncodeOne(0x2E);
    EncodeOne(0x7E);
    EncodeOne(0x20);
    EncodeOne(0x2F);
    EncodeOne(0xE9);
  }

  /** A string is left alone exactly when it is unreserved throughout. */
  lemma {:induction false} UnchangedIffUnreserved(s: Bytes)
    ensures Encode(s) == s <==> forall i | 0 <= i < |s| :: IsUnreserved(s[i])
    ensures |Encode(s)| == |s| <==> forall i | 0 <= i < |s| :: IsUnreserved(s[i])
  {
    if s != [] {
      UnchangedIffUnreserved(s[1..]);
      OutputIsSafe(s[1..]);
      if IsUnreserved(s[0]) {
        assert forall i | 0 <= i < |s[1..]| :: s[1..][i] == s[i + 1];
        assert [s[0]] + s[1..] == s;
      } else {
        assert |Encode(s)| > |s|;
      }
    }
  }

  lemma EncodeEmpty()
    ensures Encode([]) == []
  {
  }

  lemma EncodeUnfold(s: Bytes, i: nat)
    requires i < |s|
    ensures Encode(s[i..]) == EncodeByte(s[i]) + Encode(s[i + 1..])
  {
    assert s[i..][1..] == s[i + 1..];
  }

  method UrlEncode(s: Bytes) returns (result: Bytes)
    ensures result == Encode(s)
  {
    hide Encode;
    result := [];
    assert s[0..] == s;
    for i := 0 to |s|
      invariant result + Encode(s[i..]) == Encode(s)
    {
      var c := s[i];
      ghost var was, rest := result, Encode(s[i + 1..]);
      EncodeUnfold(s, i);
      if IsUnreserved(c) {
        result := result + [c];
      } else if c == 0x20 {
        result := result + [PERCENT, 0x32, 0x30];
      } else {
        NibbleRange(c);
        result := result + [PERCENT];
        result := result + [HexChar((c >> 4) & 0x0F)];
        result := result + [HexChar(c & 0x0F)];
      }
      assert result == was + EncodeByte(c);
      assert was + (EncodeByte(c) + rest) == result + rest;
    }
    assert s[|s|..] == [];
    EncodeEmpty();
  }
}
