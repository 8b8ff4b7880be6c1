/** The box-diagram generator: every line it emits has one exact visual width. */
module Diagram {
  import opened Types
  import opened Utf8Width

  const HLINE: Bytes := [0xE2, 0x94, 0x80]
  const VLINE: Bytes := [0xE2, 0x94, 0x82]
  const TOP_LEFT: Bytes := [0xE2, 0x94, 0x8C]
  const TOP_RIGHT: Bytes := [0xE2, 0x94, 0x90]
  const BOTTOM_LEFT: Bytes := [0xE2, 0x94, 0x94]
  const BOTTOM_RIGHT: Bytes := [0xE2, 0x94, 0x98]
  const ARROW: Bytes := [0xE2, 0x96, 0xBC]

  // -------------------------------------------------------------------------
  // Strings
  // -------------------------------------------------------------------------

  function Spaces(n: nat): Bytes { seq(n, _ => 0x20) }

  function Hline(n: nat): Bytes { if n == 0 then [] else Hline(n - 1) + HLINE }

  function Pad(s: Bytes, target: int): Bytes {
    if Width(s) < target then s + Spaces(target - Width(s)) else s
  }

  /** Widths follow from the totals alone. */
  datatype Layout = Layout(totalVw: nat)
  {
    function InnerVw(): int { totalVw - 4 }
    function OuterHlines(): int { (totalVw - 4) / 2 }
    function InnerHlines(): int { (InnerVw() - 8) / 2 }
    function InnerTrailing(): int { InnerVw() - 2 - 2 - InnerHlines() * 2 - 2 }
    function InnerTextVw(): int { InnerVw() - 8 }
    function ConnectorPrefix(): int { 2 + 2 + InnerHlines() }
  }

  type Usable = l: Layout | l.totalVw >= 20 witness Layout(20)

  function OuterRow(content: Bytes): Bytes { VLINE + content + VLINE }

  function BlankRow(l: Usable): Bytes { OuterRow(Spaces(l.InnerVw())) }

  function OuterBorder(l: Usable, left: Bytes, right: Bytes): Bytes { left + Hline(l.OuterHlines()) + right }

  function InnerBorder(l: Usable, left: Bytes, right: Bytes): Bytes {
    OuterRow(Spaces(2) + left + Hline(l.InnerHlines()) + right + Spaces(l.InnerTrailing()))
  }

  function InnerRow(l: Usable, text: Bytes): Bytes {
    OuterRow(Spaces(2) + VLINE + Pad(text, l.InnerTextVw()) + VLINE + Spaces(2))
  }

  function Connector(l: Usable, symbol: Bytes, caption: Bytes): Bytes {
    OuterRow(Pad(Spaces(l.ConnectorPrefix()) + symbol + Spaces(1) + caption, l.InnerVw()))
  }

  /** A title centred in the inner width; None when a padding would be negative, where
      the string constructor throws. */
  function TitleRow(l: Usable, title: Bytes): Option<Bytes> {
    var spare := l.InnerVw() - Width(title);
    var left := Quotient(spare, 2);
    if left < 0 || spare - left < 0 then None
    else Some(OuterRow(Spaces(left) + title + Spaces(spare - left)))
  }

  // -------------------------------------------------------------------------
  // Builder calls
  // -------------------------------------------------------------------------

  datatype Call =
    | OuterBoxBegin(title: Bytes)
    | OuterBoxEnd
    | InnerBox(line1: Bytes, line2: Bytes, line3: Bytes)
    | ConnectorDown(caption: Bytes)
    | ConnectorArrow(caption: Bytes)
    | BlankLine

  /** The lines a call adds, and whether it returned rather than threw. */
  function LinesOf(l: Usable, call: Call): (seq<Bytes>, bool) {
    match call
    case OuterBoxBegin(title) =>
      var top := [OuterBorder(l, TOP_LEFT, TOP_RIGHT)];
      if title == [] then (top + [BlankRow(l)], true)
      else (match TitleRow(l, title)
            case None => (top, false)
            case Some(row) => (top + [row, BlankRow(l)], true))
    case OuterBoxEnd => ([BlankRow(l), OuterBorder(l, BOTTOM_LEFT, BOTTOM_RIGHT)], true)
    case InnerBox(line1, line2, line3) =>
      ([InnerBorder(l, TOP_LEFT, TOP_RIGHT), InnerRow(l, Spaces(2) + line1)]
       + (if line2 == [] then [] else [InnerRow(l, Spaces(4) + line2)])
       + (if line3 == [] then [] else [InnerRow(l, Spaces(4) + line3)])
       + [InnerBorder(l, BOTTOM_LEFT, BOTTOM_RIGHT)], true)
    case ConnectorDown(caption) => ([Connector(l, VLINE, caption)], true)
    case ConnectorArrow(caption) => ([Connector(l, ARROW, caption)], true)
    case BlankLine => ([BlankRow(l)], true)
  }

  function AllLines(l: Usable, calls: seq<Call>): seq<Bytes> {
    if calls == [] then [] else AllLines(l, calls[..|calls| - 1]) + LinesOf(l, calls[|calls| - 1]).0
  }

  // -------------------------------------------------------------------------
  // Widths of the pieces
  // -------------------------------------------------------------------------

  lemma {:induction false} SpacesWidth(n: nat)
    ensures Width(Spaces(n)) == n && Complete(Spaces(n)) && StartsFresh(Spaces(n))
  {
    if n > 0 {
      var s := Spaces(n);
      assert s[0] == 0x20 && Decode(s) == Decoded(0x20, 1);
      assert s[1..] == Spaces(n - 1);
      SpacesWidth(n - 1);
    }
  }

  /** Three-byte symbols E2 x y: two columns, complete, and never mistaken for the rest
      of something else. */
  ghost predicate IsSymbol(s: Bytes) {
    Width(s) == 2 && Complete(s) && s != [] && StartsFresh(s)
  }

  lemma SymbolDecodes(s: Bytes)
    requires |s| == 3 && s[0] == 0xE2 && IsContinuation(s[1]) && IsContinuation(s[2])
    requires IsDoubleWidth((((0x02 as bv32 << 6) | ((s[1] & 0x3F) as bv32)) << 6) | ((s[2] & 0x3F) as bv32))
    ensures IsSymbol(s)
  {
    var one := (0x02 as bv32 << 6) | ((s[1] & 0x3F) as bv32);
    var two := (one << 6) | ((s[2] & 0x3F) as bv32);
    assert Extra(s[0]) == 2 && LeadBits(s[0]) == 0x02 && !IsContinuation(s[0]);
    assert Continue(s, 3, 0, two) == Decoded(two, 3);
    assert Continue(s, 2, 1, one) == Decoded(two, 3);
    assert Decode(s) == Decoded(two, 3);
    assert s[3..] == [];
  }

  lemma Symbols()
    ensures IsSymbol(HLINE) && IsSymbol(VLINE) && IsSymbol(ARROW)
    ensures IsSymbol(TOP_LEFT) && IsSymbol(TOP_RIGHT) && IsSymbol(BOTTOM_LEFT) && IsSymbol(BOTTOM_RIGHT)
  {
    SymbolDecodes(HLINE);
    SymbolDecodes(VLINE);
    SymbolDecodes(ARROW);
    SymbolDecodes(TOP_LEFT);
    SymbolDecodes(TOP_RIGHT);
    SymbolDecodes(BOTTOM_LEFT);
    SymbolDecodes(BOTTOM_RIGHT);
  }

  lemma {:induction false} HlineWidth(n: nat)
    ensures Width(Hline(n)) == 2 * n && Complete(Hline(n))
  {
    hide Width, Complete;
    EmptyWidth();
    if n > 0 {
      Symbols();
      HlineWidth(n - 1);
      WidthAppend(Hline(n - 1), HLINE);
    }
  }

  lemma EmptyWidth()
    ensures Width([]) == 0 && Complete([])
  {
  }

  lemma OuterRowWidth(content: Bytes)
    ensures Width(OuterRow(content)) == 4 + Width(content)
  {
    Symbols();
    WidthAppend(VLINE, content);
    WidthAppend(VLINE + content, VLINE);
  }

  /** Padding reaches the target exactly, unless the text is already wider. */
  lemma PadWidth(s: Bytes, target: int)
    ensures Width(Pad(s, target)) == Max(Width(s), target)
  {
    if Width(s) < target {
      SpacesWidth(target - Width(s));
      WidthAppend(s, Spaces(target - Width(s)));
    }
  }

  /** Spaces and symbols to the left, any bytes to the right. */
  lemma PrefixWidth(n: nat, symbol: Bytes, text: Bytes)
    requires IsSymbol(symbol)
    ensures Width(Spaces(n) + symbol + text) == n + 2 + Width(text)
    ensures Width(Spaces(n) + text) == n + Width(text)
    ensures Complete(Spaces(n) + symbol)
  {
    SpacesWidth(n);
    WidthAppend(Spaces(n), symbol);
    WidthAppend(Spaces(n) + symbol, text);
    WidthAppend(Spaces(n), text);
  }

  /** Any bytes to the left, a symbol and spaces to the right. */
  lemma SuffixWidth(text: Bytes, symbol: Bytes, n: nat)
    requires IsSymbol(symbol)
    ensures Width(text + symbol + Spaces(n)) == Width(text) + 2 + n
  {
    SpacesWidth(n);
    WidthAppend(text, symbol);
    WidthAppend(text + symbol, Spaces(n));
  }

  // -------------------------------------------------------------------------
  // Widths of the rows
  // -------------------------------------------------------------------------

  lemma BlankRowWidth(l: Usable)
    ensures Width(BlankRow(l)) == l.totalVw
  {
    SpacesWidth(l.InnerVw());
    OuterRowWidth(Spaces(l.InnerVw()));
  }

  /** The outer border comes in steps of two, so it is exact only for even widths. */
  lemma OuterBorderWidth(l: Usable, left: Bytes, right: Bytes)
    requires IsSymbol(left) && IsSymbol(right)
    ensures Width(OuterBorder(l, left, right)) == l.totalVw - l.totalVw % 2
  {
    HlineWidth(l.OuterHlines());
    WidthAppend(left, Hline(l.OuterHlines()));
    WidthAppend(left + Hline(l.OuterHlines()), right);
  }

  lemma InnerBorderWidth(l: Usable, left: Bytes, right: Bytes)
    requires IsSymbol(left) && IsSymbol(right)
    ensures Width(InnerBorder(l, left, right)) == l.totalVw
  {
    var bar, rest := Hline(l.InnerHlines()), Spaces(l.InnerTrailing());
    HlineWidth(l.InnerHlines());
    PrefixWidth(2, left, bar);
    SuffixWidth(Spaces(2) + left + bar, right, l.InnerTrailing());
    OuterRowWidth(Spaces(2) + left + bar + right + rest);
  }

  lemma InnerRowWidth(l: Usable, text: Bytes)
    ensures Width(InnerRow(l, text)) == 12 + Max(Width(text), l.totalVw - 12)
  {
    Symbols();
    var padded := Pad(text, l.InnerTextVw());
    PadWidth(text, l.InnerTextVw());
    PrefixWidth(2, VLINE, padded);
    SuffixWidth(Spaces(2) + VLINE + padded, VLINE, 2);
    OuterRowWidth(Spaces(2) + VLINE + padded + VLINE + Spaces(2));
  }

  lemma ConnectorWidth(l: Usable, symbol: Bytes, caption: Bytes)
    requires IsSymbol(symbol)
    ensures Width(Connector(l, symbol, caption)) == 4 + Max(l.ConnectorPrefix() + 3 + Width(caption), l.totalVw - 4)
  {
    hide Width, Complete;
    var prefix := Spaces(l.ConnectorPrefix());
    PrefixWidth(l.ConnectorPrefix(), symbol, Spaces(1));
    SpacesWidth(1);
    WidthAppend(prefix + symbol, Spaces(1));
    WidthAppend(prefix + symbol + Spaces(1), caption);
    var content := prefix + symbol + Spaces(1) + caption;
    PadWidth(content, l.InnerVw());
    OuterRowWidth(Pad(content, l.InnerVw()));
  }

  /** A title either throws, exactly when it is wider than the inner width, or fills its row. */
  lemma TitleRowWidth(l: Usable, title: Bytes)
    ensures TitleRow(l, title).None? <==> Width(title) > l.InnerVw()
    ensures TitleRow(l, title).Some? ==> Width(TitleRow(l, title).value) == l.totalVw
  {
    hide Width, Complete;
    var spare := l.InnerVw() - Width(title);
    var left := Quotient(spare, 2);
    if left >= 0 && spare - left >= 0 {
      SpacesWidth(left);
      SpacesWidth(spare - left);
      WidthAppend(Spaces(left), title);
      WidthAppend(Spaces(left) + title, Spaces(spare - left));
      OuterRowWidth(Spaces(left) + title + Spaces(spare - left));
    }
  }

  // -------------------------------------------------------------------------
  // Main results
  // -------------------------------------------------------------------------

  ghost predicate AllExact(lines: seq<Bytes>, vw: nat) {
    forall i | 0 <= i < |lines| :: Width(lines[i]) == vw
  }

  /** What a caller can check beforehand: an even width for the outer borders, and texts
      narrow enough for their rows. */
  ghost predicate Fits(l: Usable, call: Call) {
    match call
    case OuterBoxBegin(_) => l.totalVw % 2 == 0
    case OuterBoxEnd => l.totalVw % 2 == 0
    case InnerBox(line1, line2, line3) =>
      && 2 + Width(line1) <= l.InnerTextVw()
      && (line2 != [] ==> 4 + Width(line2) <= l.InnerTextVw())
      && (line3 != [] ==> 4 + Width(line3) <= l.InnerTextVw())
    case ConnectorDown(caption) => l.ConnectorPrefix() + 3 + Width(caption) <= l.InnerVw()
    case ConnectorArrow(caption) => l.ConnectorPrefix() + 3 + Width(caption) <= l.InnerVw()
    case BlankLine => true
  }

  lemma IndentedWidth(n: nat, text: Bytes)
    ensures Width(Spaces(n) + text) == n + Width(text)
  {
    SpacesWidth(n);
    WidthAppend(Spaces(n), text);
  }

  lemma ExactConcat(a: seq<Bytes>, b: seq<Bytes>, vw: nat)
    ensures AllExact(a + b, vw) <==> AllExact(a, vw) && AllExact(b, vw)
  {
    assert forall i | 0 <= i < |b| :: (a + b)[|a| + i] == b[i];
    assert forall i | 0 <= i < |a| :: (a + b)[i] == a[i];
  }

  lemma ExactOne(line: Bytes, vw: nat)
    ensures AllExact([line], vw) <==> Width(line) == vw
  {
    assert [line][0] == line;
  }

  lemma ExactTwo(a: Bytes, b: Bytes, vw: nat)
    ensures AllExact([a, b], vw) <==> Width(a) == vw && Width(b) == vw
  {
    assert [a, b][0] == a && [a, b][1] == b;
  }

  lemma InnerBoxExact(l: Usable, line1: Bytes, line2: Bytes, line3: Bytes)
    ensures AllExact(LinesOf(l, InnerBox(line1, line2, line3)).0, l.totalVw) <==> Fits(l, InnerBox(line1, line2, line3))
  {
    hide Width, Complete, InnerBorder, InnerRow;
    var vw := l.totalVw;
    Symbols();
    InnerBorderWidth(l, TOP_LEFT, TOP_RIGHT);
    InnerBorderWidth(l, BOTTOM_LEFT, BOTTOM_RIGHT);
    IndentedWidth(2, line1);
    IndentedWidth(4, line2);
    IndentedWidth(4, line3);
    InnerRowWidth(l, Spaces(2) + line1);
    InnerRowWidth(l, Spaces(4) + line2);
    InnerRowWidth(l, Spaces(4) + line3);
    var head := [InnerBorder(l, TOP_LEFT, TOP_RIGHT), InnerRow(l, Spaces(2) + line1)];
    var second := if line2 == [] then [] else [InnerRow(l, Spaces(4) + line2)];
    var third := if line3 == [] then [] else [InnerRow(l, Spaces(4) + line3)];
    var last := [InnerBorder(l, BOTTOM_LEFT, BOTTOM_RIGHT)];
    ExactConcat(head + second + third, last, vw);
    ExactConcat(head + second, third, vw);
    ExactConcat(head, second, vw);
    ExactTwo(head[0], head[1], vw);
    ExactOne(last[0], vw);
    if second != [] { ExactOne(second[0], vw); }
    if third != [] { ExactOne(third[0], vw); }
  }

  lemma OuterBoxExact(l: Usable, call: Call)
    requires call.OuterBoxBegin? || call.OuterBoxEnd?
    ensures AllExact(LinesOf(l, call).0, l.totalVw) <==> Fits(l, call)
  {
    hide Width, Complete, OuterBorder, BlankRow, TitleRow;
    Symbols();
    BlankRowWidth(l);
    OuterBorderWidth(l, TOP_LEFT, TOP_RIGHT);
    OuterBorderWidth(l, BOTTOM_LEFT, BOTTOM_RIGHT);
    var top, bottom, blank := OuterBorder(l, TOP_LEFT, TOP_RIGHT), OuterBorder(l, BOTTOM_LEFT, BOTTOM_RIGHT), BlankRow(l);
    ExactTwo(blank, bottom, l.totalVw);
    ExactOne(top, l.totalVw);
    if call.OuterBoxBegin? {
      TitleRowWidth(l, call.title);
      ExactConcat([top], [blank], l.totalVw);
      ExactOne(blank, l.totalVw);
      if call.title != [] && TitleRow(l, call.title).Some? {
        var row := TitleRow(l, call.title).value;
        ExactConcat([top], [row, blank], l.totalVw);
        ExactTwo(row, blank, l.totalVw);
      }
    }
  }

  /** For every width from 20 on and any byte strings, the lines of a call all have the
      exact width if and only if the call fits. */
  lemma CallExactIffFits(l: Usable, call: Call)
    ensures AllExact(LinesOf(l, call).0, l.totalVw) <==> Fits(l, call)
  {
    hide Width, Complete, OuterBorder, InnerBorder, InnerRow, Connector, BlankRow;
    match call
    case InnerBox(line1, line2, line3) => InnerBoxExact(l, line1, line2, line3);
    case ConnectorDown(caption) =>
      Symbols();
      ConnectorWidth(l, VLINE, caption);
      ExactOne(Connector(l, VLINE, caption), l.totalVw);
    case ConnectorArrow(caption) =>
      Symbols();
      ConnectorWidth(l, ARROW, caption);
      ExactOne(Connector(l, ARROW, caption), l.totalVw);
    case BlankLine =>
      BlankRowWidth(l);
      ExactOne(BlankRow(l), l.totalVw);
    case _ => OuterBoxExact(l, call);
  }

  /** Every line of every sequence of builder calls is exact if and only if every call fits. */
  lemma {:induction false} EveryLineExact(l: Usable, calls: seq<Call>)
    ensures AllExact(AllLines(l, calls), l.totalVw) <==> forall i | 0 <= i < |calls| :: Fits(l, calls[i])
  {
    if calls != [] {
      var n := |calls| - 1;
      EveryLineExact(l, calls[..n]);
      CallExactIffFits(l, calls[n]);
      ExactConcat(AllLines(l, calls[..n]), LinesOf(l, calls[n]).0, l.totalVw);
      assert forall i | 0 <= i < n :: calls[..n][i] == calls[i];
    }
  }

  // -------------------------------------------------------------------------
  // What is drawn
  // -------------------------------------------------------------------------

  /** n times the same character. */
  function Repeated(cp: bv32, n: nat): Bytes { EncodeAll(seq(n, _ => cp)) }

  lemma {:induction false} EncodeAllConcat(a: seq<bv32>, b: seq<bv32>)
    ensures EncodeAll(a + b) == EncodeAll(a) + EncodeAll(b)
  {
    hide Utf8Width.Encode;
    if a == [] {
      assert a + b == b;
    } else {
      assert (a + b)[1..] == a[1..] + b;
      EncodeAllConcat(a[1..], b);
    }
  }

  /** The symbols are the characters they are named for. */
  lemma SymbolsAre()
    ensures HLINE == Encode(0x2500) && VLINE == Encode(0x2502) && ARROW == Encode(0x25BC)
    ensures TOP_LEFT == Encode(0x250C) && TOP_RIGHT == Encode(0x2510)
    ensures BOTTOM_LEFT == Encode(0x2514) && BOTTOM_RIGHT == Encode(0x2518)
  {
  }

  lemma {:induction false} HlineIs(n: nat)
    ensures Hline(n) == Repeated(0x2500, n)
  {
    hide Utf8Width.Encode;
    if n > 0 {
      SymbolsAre();
      HlineIs(n - 1);
      var one: seq<bv32> := [0x2500];
      assert seq(n, _ => 0x2500 as bv32) == seq(n - 1, _ => 0x2500 as bv32) + one;
      EncodeAllConcat(seq(n - 1, _ => 0x2500 as bv32), one);
      assert one[1..] == [] && EncodeAll(one) == Encode(0x2500) + [];
    }
  }

  /** A line of the outer box: two bars with something between. */
  predicate IsFramed(line: Bytes, content: Bytes) {
    line == Encode(0x2502) + content + Encode(0x2502)
  }

  ghost predicate IsOuterBorder(l: Usable, line: Bytes, left: bv32, right: bv32) {
    line == Encode(left) + Repeated(0x2500, (l.totalVw - 4) / 2) + Encode(right)
  }

  ghost predicate IsInnerBorder(l: Usable, line: Bytes, left: bv32, right: bv32) {
    IsFramed(line, Spaces(2) + Encode(left) + Repeated(0x2500, (l.totalVw - 12) / 2) + Encode(right) + Spaces(2 + l.totalVw % 2))
  }

  /** The text itself in the inner box, filled up with spaces where it is short. */
  ghost predicate IsTextRow(l: Usable, line: Bytes, text: Bytes) {
    var fill: nat := Max(0, l.totalVw - 12 - Width(text));
    IsFramed(line, Spaces(2) + Encode(0x2502) + (text + Spaces(fill)) + Encode(0x2502) + Spaces(2))
  }

  /** The title itself, with as many spaces before it as behind, or one less. */
  ghost predicate IsTitleRow(l: Usable, line: Bytes, title: Bytes) {
    exists left: nat, right: nat ::
      && IsFramed(line, Spaces(left) + title + Spaces(right))
      && left + Width(title) + right == l.totalVw - 4 && left <= right <= left + 1
  }

  /** The symbol under the middle of the inner box, and the caption behind it. */
  ghost predicate IsConnector(l: Usable, line: Bytes, symbol: bv32, caption: Bytes) {
    var content := Spaces(4 + (l.totalVw - 12) / 2) + Encode(symbol) + Spaces(1) + caption;
    IsFramed(line, content + Spaces(Max(0, l.totalVw - 4 - Width(content))))
  }

  ghost predicate IsBlank(l: Usable, line: Bytes) {
    IsFramed(line, Spaces(l.totalVw - 4))
  }

  /** The texts of an inner box: the first always, the others unless empty. */
  function Texts(line1: Bytes, line2: Bytes, line3: Bytes): seq<Bytes> {
    [Spaces(2) + line1]
    + (if line2 == [] then [] else [Spaces(4) + line2])
    + (if line3 == [] then [] else [Spaces(4) + line3])
  }

  lemma PadIs(text: Bytes, target: int)
    ensures Pad(text, target) == text + Spaces(Max(0, target - Width(text)))
  {
    hide Width;
    assert text + Spaces(0) == text;
  }

  lemma InnerRowIs(l: Usable, text: Bytes)
    ensures IsTextRow(l, InnerRow(l, text), text)
  {
    hide Width, Utf8Width.Encode;
    SymbolsAre();
    PadIs(text, l.InnerTextVw());
  }

  lemma InnerBorderIs(l: Usable)
    ensures IsInnerBorder(l, InnerBorder(l, TOP_LEFT, TOP_RIGHT), 0x250C, 0x2510)
    ensures IsInnerBorder(l, InnerBorder(l, BOTTOM_LEFT, BOTTOM_RIGHT), 0x2514, 0x2518)
  {
    hide Width, Utf8Width.Encode, Hline, EncodeAll;
    SymbolsAre();
    HlineIs(l.InnerHlines());
    assert l.InnerTrailing() == 2 + l.totalVw % 2 && l.InnerHlines() == (l.totalVw - 12) / 2;
  }

  lemma OuterBorderIs(l: Usable)
    ensures IsOuterBorder(l, OuterBorder(l, TOP_LEFT, TOP_RIGHT), 0x250C, 0x2510)
    ensures IsOuterBorder(l, OuterBorder(l, BOTTOM_LEFT, BOTTOM_RIGHT), 0x2514, 0x2518)
  {
    hide Width, Utf8Width.Encode, Hline, EncodeAll;
    SymbolsAre();
    HlineIs(l.OuterHlines());
  }

  lemma TitleRowIs(l: Usable, title: Bytes)
    requires TitleRow(l, title).Some?
    ensures IsTitleRow(l, TitleRow(l, title).value, title)
  {
    hide Width, Utf8Width.Encode;
    SymbolsAre();
    var spare := l.InnerVw() - Width(title);
    QuotientCutsOff(spare, 2);
    var left := Quotient(spare, 2);
    assert IsFramed(TitleRow(l, title).value, Spaces(left) + title + Spaces(spare - left));
  }

  lemma ConnectorIs(l: Usable, caption: Bytes)
    ensures IsConnector(l, Connector(l, VLINE, caption), 0x2502, caption)
    ensures IsConnector(l, Connector(l, ARROW, caption), 0x25BC, caption)
  {
    hide Width, Utf8Width.Encode;
    SymbolsAre();
    assert l.ConnectorPrefix() == 4 + (l.totalVw - 12) / 2;
    PadIs(Spaces(l.ConnectorPrefix()) + VLINE + Spaces(1) + caption, l.InnerVw());
    PadIs(Spaces(l.ConnectorPrefix()) + ARROW + Spaces(1) + caption, l.InnerVw());
  }

  lemma BlankRowIs(l: Usable)
    ensures IsBlank(l, BlankRow(l))
  {
    hide Width, Utf8Width.Encode;
    SymbolsAre();
  }

  /** What each call draws, line by line: its borders, and every text it was given whole
      and in its place. */
  ghost predicate Draws(l: Usable, call: Call, lines: seq<Bytes>, returned: bool) {
    match call
    case OuterBoxBegin(title) =>
      && (returned <==> Width(title) <= l.totalVw - 4 || title == [])
      && |lines| == (if !returned then 1 else if title == [] then 2 else 3)
      && IsOuterBorder(l, lines[0], 0x250C, 0x2510)
      && (returned ==> IsBlank(l, lines[|lines| - 1]))
      && (|lines| == 3 ==> IsTitleRow(l, lines[1], title))
    case OuterBoxEnd =>
      returned && |lines| == 2 && IsBlank(l, lines[0]) && IsOuterBorder(l, lines[1], 0x2514, 0x2518)
    case InnerBox(line1, line2, line3) =>
      var texts := Texts(line1, line2, line3);
      && returned && |lines| == |texts| + 2
      && IsInnerBorder(l, lines[0], 0x250C, 0x2510) && IsInnerBorder(l, lines[|lines| - 1], 0x2514, 0x2518)
      && forall i | 0 <= i < |texts| :: IsTextRow(l, lines[i + 1], texts[i])
    case ConnectorDown(caption) => returned && |lines| == 1 && IsConnector(l, lines[0], 0x2502, caption)
    case ConnectorArrow(caption) => returned && |lines| == 1 && IsConnector(l, lines[0], 0x25BC, caption)
    case BlankLine => returned && |lines| == 1 && IsBlank(l, lines[0])
  }

  lemma CallDraws(l: Usable, call: Call)
    ensures Draws(l, call, LinesOf(l, call).0, LinesOf(l, call).1)
  {
    hide Width, Spaces, InnerRow, InnerBorder, OuterBorder, BlankRow, Connector, TitleRow,
         IsTextRow, IsTitleRow, IsConnector, IsBlank, IsInnerBorder, IsOuterBorder;
    BlankRowIs(l);
    OuterBorderIs(l);
    InnerBorderIs(l);
    match call
    case OuterBoxBegin(title) =>
      TitleRowWidth(l, title);
      if TitleRow(l, title).Some? { TitleRowIs(l, title); }
    case InnerBox(line1, line2, line3) =>
      InnerRowIs(l, Spaces(2) + line1);
      InnerRowIs(l, Spaces(4) + line2);
      InnerRowIs(l, Spaces(4) + line3);
    case ConnectorDown(caption) => ConnectorIs(l, caption);
    case ConnectorArrow(caption) => ConnectorIs(l, caption);
    case _ =>
  }

  // -------------------------------------------------------------------------
  // The generator object
  // -------------------------------------------------------------------------

  method MakeHline(n: nat) returns (result: Bytes)
    ensures result == Hline(n)
  {
    result := [];
    for i := 0 to n
      invariant result == Hline(i)
    {
      result := result + HLINE;
    }
  }

  method PadToVisual(s: Bytes, target: int) returns (result: Bytes)
    ensures result == Pad(s, target)
  {
    var current := VisualWidth(s);
    result := s;
    if current < target {
      result := result + Spaces(target - current);
    }
  }

  class Generator {
    const layout: Usable
    var lines: seq<Bytes>

    constructor (layout: Usable)
      ensures this.layout == layout && lines == []
    {
      this.layout := layout;
      lines := [];
    }

    /** Widths below 20 are refused. */
    static method Make(totalVw: int) returns (g: Option<Generator>)
      ensures g.Some? <==> totalVw >= 20
      ensures g.Some? ==> fresh(g.value) && g.value.layout == Layout(totalVw) && g.value.lines == []
    {
      if totalVw < 20 {
        return None;
      }
      var made := new Generator(Layout(totalVw));
      return Some(made);
    }

    /** False when the title does not fit and the call throws after its first line. */
    method BeginOuterBox(title: Bytes) returns (ok: bool)
      modifies this`lines
      ensures lines == old(lines) + LinesOf(layout, OuterBoxBegin(title)).0
      ensures ok == LinesOf(layout, OuterBoxBegin(title)).1
    {
      hide Width, Hline;
      var bar := MakeHline(layout.OuterHlines());
      lines := lines + [TOP_LEFT + bar + TOP_RIGHT];
      if title != [] {
        var tv := VisualWidth(title);
        var lpad := Quotient(layout.InnerVw() - tv, 2);
        var rpad := layout.InnerVw() - tv - lpad;
        if lpad < 0 || rpad < 0 {
          return false;
        }
        lines := lines + [OuterRow(Spaces(lpad) + title + Spaces(rpad))];
      }
      lines := lines + [BlankRow(layout)];
      return true;
    }

    method EndOuterBox()
      modifies this`lines
      ensures lines == old(lines) + LinesOf(layout, OuterBoxEnd).0
    {
      var bar := MakeHline(layout.OuterHlines());
      lines := lines + [BlankRow(layout)];
      lines := lines + [BOTTOM_LEFT + bar + BOTTOM_RIGHT];
    }

    method AddInnerBox(line1: Bytes, line2: Bytes, line3: Bytes)
      modifies this`lines
      ensures lines == old(lines) + LinesOf(layout, InnerBox(line1, line2, line3)).0
    {
      var bar := MakeHline(layout.InnerHlines());
      var trailing := Spaces(layout.InnerTrailing());
      lines := lines + [OuterRow(Spaces(2) + TOP_LEFT + bar + TOP_RIGHT + trailing)];
      AddInnerRow(Spaces(2) + line1);
      if line2 != [] {
        AddInnerRow(Spaces(4) + line2);
      }
      if line3 != [] {
        AddInnerRow(Spaces(4) + line3);
      }
      lines := lines + [OuterRow(Spaces(2) + BOTTOM_LEFT + bar + BOTTOM_RIGHT + trailing)];
    }

    method AddInnerRow(text: Bytes)
      modifies this`lines
      ensures lines == old(lines) + [InnerRow(layout, text)]
    {
      var innerText := PadToVisual(text, layout.InnerTextVw());
      lines := lines + [OuterRow(Spaces(2) + VLINE + innerText + VLINE + Spaces(2))];
    }

    method AddConnector(symbol: Bytes, caption: Bytes)
      modifies this`lines
      ensures lines == old(lines) + [Connector(layout, symbol, caption)]
    {
      var content := Spaces(layout.ConnectorPrefix()) + symbol + Spaces(1) + caption;
      var current := VisualWidth(content);
      var trailing := layout.InnerVw() - current;
      if 0 < trailing {
        content := content + Spaces(trailing);
      }
      lines := lines + [OuterRow(content)];
    }

    method AddConnectorDown(caption: Bytes)
      modifies this`lines
      ensures lines == old(lines) + LinesOf(layout, ConnectorDown(caption)).0
    {
      AddConnector(VLINE, caption);
    }

    method AddConnectorArrow(caption: Bytes)
      modifies this`lines
      ensures lines == old(lines) + LinesOf(layout, ConnectorArrow(caption)).0
    {
      AddConnector(ARROW, caption);
    }

    method AddBlankLine()
      modifies this`lines
      ensures lines == old(lines) + LinesOf(layout, BlankLine).0
    {
      lines := lines + [BlankRow(layout)];
    }
  }
}
