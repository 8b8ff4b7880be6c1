/** Decoding UTF-8 one code point at a time, and the number of terminal columns a byte
    string takes: two for the box-drawing symbols, one for everything else. Any byte
    string is accepted. The layout is that of section 3 of RFC 3629. */
module Utf8Width {

  type Bytes = seq<bv8>

  const REPLACEMENT: bv32 := 0xFFFD

  datatype Decoded = Decoded(codePoint: bv32, used: nat)

  predicate IsContinuation(b: bv8) { b & 0xC0 == 0x80 }

  /** Continuation bytes that a lead byte announces; none for ASCII and invalid leads. */
  function Extra(c: bv8): nat {
    if c & 0xE0 == 0xC0 then 1
    else if c & 0xF0 == 0xE0 then 2
    else if c & 0xF8 == 0xF0 then 3
    else 0
  }

  function LeadBits(c: bv8): bv8 {
    if c & 0xE0 == 0xC0 then c & 0x1F else if c & 0xF0 == 0xE0 then c & 0x0F else c & 0x07
  }

  /** Six more bits from a continuation byte. */
  function More(cp: bv32, b: bv8): bv32 { (cp << 6) | ((b & 0x3F) as bv32) }

  /** Consumes `left` continuation bytes from position p on. */
  function Continue(s: Bytes, p: nat, left: nat, cp: bv32): (d: Decoded)
    requires p <= |s|
    ensures p <= d.used <= |s| && d.used <= p + left
    decreases left
  {
    if left == 0 then Decoded(cp, p)
    else if p >= |s| || !IsContinuation(s[p]) then Decoded(REPLACEMENT, p)
    else Continue(s, p + 1, left - 1, More(cp, s[p]))
  }

  /** The first code point of s and how many bytes it took. The decoder always advances. */
  function Decode(s: Bytes): (d: Decoded)
    ensures s != [] ==> 1 <= d.used <= |s| && d.used <= 1 + Extra(s[0])
  {
    if s == [] then Decoded(0, 0)
    else if s[0] < 0x80 then Decoded(s[0] as bv32, 1)
    else if Extra(s[0]) == 0 then Decoded(REPLACEMENT, 1)
    else Continue(s, 1, Extra(s[0]), LeadBits(s[0]) as bv32)
  }

  predicate IsDoubleWidth(cp: bv32) {
    cp == 0x2500 || cp == 0x2502 || cp == 0x250C || cp == 0x2510 || cp == 0x2514 ||
    cp == 0x2518 || cp == 0x252C || cp == 0x251C || cp == 0x25BC || cp == 0x25BA
  }

  function Columns(cp: bv32): nat { if IsDoubleWidth(cp) then 2 else 1 }

  function Width(s: Bytes): nat {
    if s == [] then 0
    else var d := Decode(s); Columns(d.codePoint) + Width(s[d.used..])
  }

  /** The first code point of s runs out of input. */
  predicate CutShort(s: Bytes)
    requires s != []
  {
    Decode(s).used == |s| && |s| < 1 + Extra(s[0])
  }

  /** No code point of s runs out of input. */
  predicate Complete(s: Bytes) {
    s == [] || (!CutShort(s) && Complete(s[Decode(s).used..]))
  }

  /** `b` cannot be read as the rest of a code point begun before it. */
  predicate StartsFresh(b: Bytes) {
    b == [] || !IsContinuation(b[0])
  }

  // -------------------------------------------------------------------------
  // Width is additive where no code point can straddle the seam
  // -------------------------------------------------------------------------

  lemma {:induction false} ContinueAppend(a: Bytes, b: Bytes, p: nat, left: nat, cp: bv32)
    requires p <= |a|
    requires StartsFresh(b) || Continue(a, p, left, cp).used < |a| || |a| >= p + left
    ensures Continue(a + b, p, left, cp) == Continue(a, p, left, cp)
    decreases left
  {
    if left > 0 && p < |a| && IsContinuation(a[p]) {
      ContinueAppend(a, b, p + 1, left - 1, More(cp, a[p]));
    }
  }

  lemma DecodeAppend(a: Bytes, b: Bytes)
    requires a != [] && (StartsFresh(b) || !CutShort(a))
    ensures Decode(a + b) == Decode(a)
  {
    if Extra(a[0]) > 0 && a[0] >= 0x80 {
      ContinueAppend(a, b, 1, Extra(a[0]), LeadBits(a[0]) as bv32);
    }
  }

  /** Width adds up over a concatenation when the left part decodes completely or the
      right part does not start with a continuation byte. */
  lemma {:induction false} WidthAppend(a: Bytes, b: Bytes)
    requires Complete(a) || StartsFresh(b)
    ensures Width(a + b) == Width(a) + Width(b)
    ensures Complete(a) && Complete(b) ==> Complete(a + b)
  {
    if a == [] {
      assert a + b == b;
    } else {
      DecodeAppend(a, b);
      var used := Decode(a).used;
      assert (a + b)[used..] == a[used..] + b;
      WidthAppend(a[used..], b);
    }
  }

  /** Otherwise it need not: the two halves of a euro sign take a column each, the whole
      sign takes one. */
  lemma WidthNotAdditiveAcrossCut()
    ensures
      var a, b: Bytes := [0xE2, 0x82], [0xAC];
      !Complete(a) && !StartsFresh(b) && Width(a) + Width(b) == 2 && Width(a + b) == 1
  {
    var a, b: Bytes := [0xE2, 0x82], [0xAC];
    assert Extra(0xE2) == 2 && Extra(0xAC) == 0 && IsContinuation(0x82) && IsContinuation(0xAC);
    assert Continue(a, 2, 1, 0x82) == Decoded(REPLACEMENT, 2);
    assert Decode(a) == Decoded(REPLACEMENT, 2);
    assert a[2..] == [] && b[1..] == [];
    assert a + b == [0xE2, 0x82, 0xAC];
    assert Continue(a + b, 3, 0, 0x20AC) == Decoded(0x20AC, 3);
    assert Continue(a + b, 2, 1, 0x82) == Decoded(0x20AC, 3);
    assert Decode(a + b) == Decoded(0x20AC, 3);
    assert (a + b)[3..] == [];
  }

  // -------------------------------------------------------------------------
  // Malformed bytes
  // -------------------------------------------------------------------------

  lemma {:induction false} BrokenContinuation(s: Bytes, p: nat, left: nat, cp: bv32)
    requires p <= |s|
    ensures
      var d := Continue(s, p, left, cp);
      d.used < p + left ==> d.codePoint == 0xFFFD && (d.used == |s| || !IsContinuation(s[d.used]))
    decreases left
  {
    hide More, IsContinuation;
    if left > 0 && p < |s| && IsContinuation(s[p]) {
      BrokenContinuation(s, p + 1, left - 1, More(cp, s[p]));
    }
  }

  /** A byte that starts nothing, and a sequence that breaks off, count as one replacement
      character; the byte at which it broke off is read afresh. */
  lemma MalformedIsReplaced(s: Bytes)
    requires s != [] && s[0] >= 0x80
    ensures Extra(s[0]) == 0 ==> Decode(s) == Decoded(0xFFFD, 1)
    ensures
      var d := Decode(s);
      d.used < 1 + Extra(s[0]) ==> d.codePoint == 0xFFFD && (d.used == |s| || !IsContinuation(s[d.used]))
  {
    hide IsContinuation, LeadBits, Continue;
    if Extra(s[0]) > 0 {
      BrokenContinuation(s, 1, Extra(s[0]), LeadBits(s[0]) as bv32);
    }
  }

  // -------------------------------------------------------------------------
  // Well-formed text
  // -------------------------------------------------------------------------

  /** The encoding of section 3 of RFC 3629. */
  function Encode(cp: bv32): Bytes {
    if cp < 0x80 then [cp as bv8]
    else if cp < 0x800 then [0xC0 | (((cp >> 6) & 0x1F) as bv8), Low(cp)]
    else if cp < 0x1_0000 then [0xE0 | (((cp >> 12) & 0x0F) as bv8), Low(cp >> 6), Low(cp)]
    else [0xF0 | (((cp >> 18) & 0x07) as bv8), Low(cp >> 12), Low(cp >> 6), Low(cp)]
  }

  function Low(cp: bv32): bv8 { 0x80 | ((cp & 0x3F) as bv8) }

  lemma LowIsContinuation(cp: bv32)
    ensures IsContinuation(Low(cp))
  {
  }

  lemma TwoBytes(cp: bv32)
    requires 0x80 <= cp < 0x800
    ensures
      var lead: bv8 := 0xC0 | (((cp >> 6) & 0x1F) as bv8);
      lead >= 0x80 && Extra(lead) == 1 && More(LeadBits(lead) as bv32, Low(cp)) == cp
  {
  }

  lemma ThreeBytes(cp: bv32)
    requires 0x800 <= cp < 0x1_0000
    ensures
      var lead: bv8 := 0xE0 | (((cp >> 12) & 0x0F) as bv8);
      lead >= 0x80 && Extra(lead) == 2 && More(More(LeadBits(lead) as bv32, Low(cp >> 6)), Low(cp)) == cp
  {
  }

  lemma FourBytes(cp: bv32)
    requires 0x1_0000 <= cp < 0x11_0000
    ensures
      var lead: bv8 := 0xF0 | (((cp >> 18) & 0x07) as bv8);
      && lead >= 0x80 && Extra(lead) == 3
      && More(More(More(LeadBits(lead) as bv32, Low(cp >> 12)), Low(cp >> 6)), Low(cp)) == cp
  {
  }

  lemma ContinueOne(s: Bytes, p: nat, left: nat, cp: bv32)
    requires p < |s| && IsContinuation(s[p]) && left > 0
    ensures Continue(s, p, left, cp) == Continue(s, p + 1, left - 1, More(cp, s[p]))
  {
    hide More, IsContinuation;
  }

  lemma DecodeLead(s: Bytes)
    requires s != [] && s[0] >= 0x80 && Extra(s[0]) > 0
    ensures Decode(s) == Continue(s, 1, Extra(s[0]), LeadBits(s[0]) as bv32)
  {
    hide Continue, Extra, LeadBits;
  }

  lemma DecodeTwo(lead: bv8, a: bv8, rest: Bytes)
    requires lead >= 0x80 && Extra(lead) == 1 && IsContinuation(a)
    ensures Decode([lead, a] + rest) == Decoded(More(LeadBits(lead) as bv32, a), 2)
  {
    hide Decode, Continue, Extra, LeadBits, More, IsContinuation;
    var s, cp := [lead, a] + rest, LeadBits(lead) as bv32;
    DecodeLead(s);
    ContinueOne(s, 1, 1, cp);
    ContinueNone(s, 2, More(cp, a));
  }

  lemma DecodeThree(lead: bv8, a: bv8, b: bv8, rest: Bytes)
    requires lead >= 0x80 && Extra(lead) == 2 && IsContinuation(a) && IsContinuation(b)
    ensures Decode([lead, a, b] + rest) == Decoded(More(More(LeadBits(lead) as bv32, a), b), 3)
  {
    hide Decode, Continue, Extra, LeadBits, More, IsContinuation;
    var s, cp := [lead, a, b] + rest, LeadBits(lead) as bv32;
    DecodeLead(s);
    ContinueOne(s, 1, 2, cp);
    ContinueOne(s, 2, 1, More(cp, a));
    ContinueNone(s, 3, More(More(cp, a), b));
  }

  lemma DecodeFour(lead: bv8, a: bv8, b: bv8, c: bv8, rest: Bytes)
    requires lead >= 0x80 && Extra(lead) == 3 && IsContinuation(a) && IsContinuation(b) && IsContinuation(c)
    ensures Decode([lead, a, b, c] + rest) == Decoded(More(More(More(LeadBits(lead) as bv32, a), b), c), 4)
  {
    hide Decode, Continue, Extra, LeadBits, More, IsContinuation;
    var s, cp := [lead, a, b, c] + rest, LeadBits(lead) as bv32;
    DecodeLead(s);
    ContinueOne(s, 1, 3, cp);
    ContinueOne(s, 2, 2, More(cp, a));
    ContinueOne(s, 3, 1, More(More(cp, a), b));
    ContinueNone(s, 4, More(More(More(cp, a), b), c));
  }

  lemma DecodeAscii(cp: bv32, rest: Bytes)
    requires cp < 0x80
    ensures Decode([cp as bv8] + rest) == Decoded(cp, 1)
  {
  }

  lemma DecodesTwoBytes(cp: bv32, rest: Bytes)
    requires 0x80 <= cp < 0x800
    ensures Decode(Encode(cp) + rest) == Decoded(cp, 2) && |Encode(cp)| == 2
  {
    hide Decode, Extra, LeadBits, Low, More, IsContinuation;
    TwoBytes(cp);
    LowIsContinuation(cp);
    DecodeTwo(0xC0 | (((cp >> 6) & 0x1F) as bv8), Low(cp), rest);
  }

  lemma DecodesThreeBytes(cp: bv32, rest: Bytes)
    requires 0x800 <= cp < 0x1_0000
    ensures Decode(Encode(cp) + rest) == Decoded(cp, 3) && |Encode(cp)| == 3
  {
    hide Decode, Extra, LeadBits, Low, More, IsContinuation;
    ThreeBytes(cp);
    LowIsContinuation(cp);
    LowIsContinuation(cp >> 6);
    DecodeThree(0xE0 | (((cp >> 12) & 0x0F) as bv8), Low(cp >> 6), Low(cp), rest);
  }

  lemma DecodesFourBytes(cp: bv32, rest: Bytes)
    requires 0x1_0000 <= cp < 0x11_0000
    ensures Decode(Encode(cp) + rest) == Decoded(cp, 4) && |Encode(cp)| == 4
  {
    hide Decode, Extra, LeadBits, Low, More, IsContinuation;
    FourBytes(cp);
    LowIsContinuation(cp);
    LowIsContinuation(cp >> 6);
    LowIsContinuation(cp >> 12);
    DecodeFour(0xF0 | (((cp >> 18) & 0x07) as bv8), Low(cp >> 12), Low(cp >> 6), Low(cp), rest);
  }

  /** The decoder reads every code point back, whatever follows. */
  lemma DecodesEncoded(cp: bv32, rest: Bytes)
    requires cp < 0x11_0000
    ensures Decode(Encode(cp) + rest) == Decoded(cp, |Encode(cp)|)
  {
    hide Decode, Low;
    if cp < 0x80 {
      DecodeAscii(cp, rest);
    } else if cp < 0x800 {
      DecodesTwoBytes(cp, rest);
    } else if cp < 0x1_0000 {
      DecodesThreeBytes(cp, rest);
    } else {
      DecodesFourBytes(cp, rest);
    }
  }

  lemma ContinueNone(s: Bytes, p: nat, cp: bv32)
    requires p <= |s|
    ensures Continue(s, p, 0, cp) == Decoded(cp, p)
  {
  }

  function EncodeAll(text: seq<bv32>): Bytes {
    if text == [] then [] else Encode(text[0]) + EncodeAll(text[1..])
  }

  /** The symbols drawn two columns wide: lines, corners, tees and arrow heads. */
  const DOUBLE: seq<bv32> := [0x2500, 0x2502, 0x250C, 0x2510, 0x2514, 0x2518, 0x252C, 0x251C, 0x25BC, 0x25BA]

  function ColumnsOf(text: seq<bv32>): nat {
    if text == [] then 0 else (if text[0] in DOUBLE then 2 else 1) + ColumnsOf(text[1..])
  }

  /** The width of any well-formed text is the sum of its characters' columns. */
  lemma {:induction false} WidthOfText(text: seq<bv32>)
    requires forall i | 0 <= i < |text| :: text[i] < 0x11_0000
    ensures Width(EncodeAll(text)) == ColumnsOf(text)
  {
    if text != [] {
      var one, rest := Encode(text[0]), EncodeAll(text[1..]);
      DecodesEncoded(text[0], rest);
      WidthOfText(text[1..]);
      assert (one + rest)[|one|..] == rest;
      DoubleWidthSymbols(text[0]);
    }
  }

  lemma DoubleWidthSymbols(cp: bv32)
    ensures IsDoubleWidth(cp) <==> cp in DOUBLE
  {
  }

  // -------------------------------------------------------------------------
  // The loops
  // -------------------------------------------------------------------------

  /** Advances p past one code point of s. */
  method Utf8Next(s: Bytes, p: nat) returns (cp: bv32, p': nat)
    requires p <= |s|
    ensures p <= p' <= |s| && Decoded(cp, p' - p) == Decode(s[p..])
  {
    p' := p;
    if p >= |s| {
      return 0, p;
    }
    var c := s[p];
    if c < 0x80 {
      return c as bv32, p + 1;
    }
    var extra := Extra(c);
    if extra == 0 {
      return REPLACEMENT, p + 1;
    }
    cp := LeadBits(c) as bv32;
    p' := p + 1;
    for i := 0 to extra
      invariant p' == p + 1 + i <= |s|
      invariant Continue(s[p..], 1 + i, extra - i, cp) == Decode(s[p..])
    {
      if p' >= |s| || !IsContinuation(s[p']) {
        return REPLACEMENT, p';
      }
      cp := (cp << 6) | ((s[p'] & 0x3F) as bv32);
      p' := p' + 1;
    }
  }

  method VisualWidth(s: Bytes) returns (w: nat)
    ensures w == Width(s)
  {
    w := 0;
    var p := 0;
    while p < |s|
      invariant p <= |s| && w + Width(s[p..]) == Width(s)
      decreases |s| - p
    {
      var cp, next := Utf8Next(s, p);
      assert s[p..][next - p..] == s[next..];
      w := w + Columns(cp);
      p := next;
    }
  }
}
