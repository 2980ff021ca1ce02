/** Styled output to the terminal: the attribute tracking and the text writing of fep/output.c. */
module Output {
  import opened Bytes
  import opened Sgr
  import opened Numbers
  import opened Terminal
  import Codec
  import Csi
  import Strings

  // ----- the terminal's codes

  predicate IsColourParam(p: int) {
    p >= 0 && (IsColour(p) || (p >= 10 && IsColour(p - 10)))
  }

  predicate GoodCode(p: int) {
    !IsColourParam(p)
  }

  /**
   Codes a terminal can have: each is lacking (0), negative, which stands for a terminal string that has
   not exactly one parameter, or no colour parameter and unlike the others.
   */
  predicate Sane(c: Codes) {
    && GoodCode(c.enterUnderline) && GoodCode(c.enterStandout) && GoodCode(c.enterBold) && GoodCode(c.enterBlink)
    && (c.enterUnderline > 0 ==> c.enterUnderline !in {c.enterStandout, c.enterBold, c.enterBlink})
    && (c.enterStandout > 0 ==> c.enterStandout !in {c.enterBold, c.enterBlink})
    && (c.enterBold > 0 ==> c.enterBold != c.enterBlink)
  }

  /** The bit of an attribute that a terminal with the code `enter` can show. */
  function Bit(a: SgrAttr, bit: bv8, enter: int): bv8 {
    BitIf(a.attr & bit != 0 && enter != 0, bit)
  }

  function BitIf(condition: bool, bit: bv8): bv8 {
    if condition then bit else 0
  }

  /** The part of an attribute the terminal can show. */
  function Visible(a: SgrAttr, c: Codes): SgrAttr {
    SgrAttr(Bit(a, UNDERLINE_BIT, c.enterUnderline) | Bit(a, STANDOUT_BIT, c.enterStandout)
            | Bit(a, BOLD_BIT, c.enterBold) | Bit(a, BLINK_BIT, c.enterBlink), a.foreground, a.background)
  }

  /** What is tracked is what the terminal shows, exactly when each text bit in it has a code. */
  lemma VisibleIsAll(a: SgrAttr, c: Codes)
    requires Proper(a)
    ensures Visible(a, c) == a
            <==> && (a.attr & UNDERLINE_BIT != 0 ==> c.enterUnderline != 0)
                 && (a.attr & STANDOUT_BIT != 0 ==> c.enterStandout != 0)
                 && (a.attr & BOLD_BIT != 0 ==> c.enterBold != 0)
                 && (a.attr & BLINK_BIT != 0 ==> c.enterBlink != 0)
  {
    assert a.attr == (a.attr & 1) | (a.attr & 2) | (a.attr & 4) | (a.attr & 8);
  }

  // ----- setting attributes

  /** The bytes _fep_output_set_attributes writes. */
  function SetBytes(a: SgrAttr, c: Codes): seq<byte> {
    Csi.Format(Csi.Csi(Strings.Join(Tokens(Params(a, c)), [Csi.SEMICOLON]), [], SGR))
  }

  /** A rendition with the bits of an attribute added and its colours, if any, in place. */
  function Overlay(pen: SgrAttr, v: SgrAttr): SgrAttr {
    SgrAttr(pen.attr | v.attr,
            if v.foreground != 0 then v.foreground else pen.foreground,
            if v.background != 0 then v.background else pen.background)
  }

  lemma {:induction false} TokensPrinted(ps: seq<int>, ns: seq<nat>)
    requires ps == ns
    ensures Tokens(ps) == Printed(ns)
  {
    hide Print;
    if ps != [] {
      TokensPrinted(ps[1..], ns[1..]);
    }
  }

  /** Whether an attribute contains no text bit whose code is negative. */
  predicate Printable(a: SgrAttr, c: Codes) {
    && (a.attr & UNDERLINE_BIT != 0 ==> c.enterUnderline >= 0)
    && (a.attr & STANDOUT_BIT != 0 ==> c.enterStandout >= 0)
    && (a.attr & BOLD_BIT != 0 ==> c.enterBold >= 0)
    && (a.attr & BLINK_BIT != 0 ==> c.enterBlink >= 0)
  }

  /** A code is printed when its bit is in the attribute. */
  lemma CodePrintable(a: SgrAttr, bit: bv8, enter: int)
    ensures (forall p :: p in IfSet(Wants(a, bit, enter), enter) ==> p >= 0) <==> (a.attr & bit != 0 ==> enter >= 0)
  {
    assert Wants(a, bit, enter) ==> enter in IfSet(Wants(a, bit, enter), enter);
  }

  /** The parameters are numbers exactly when no code printed is negative. */
  lemma ParamsPrintable(a: SgrAttr, c: Codes)
    ensures Printable(a, c) <==> forall p :: p in Params(a, c) ==> p >= 0
  {
    CodePrintable(a, UNDERLINE_BIT, c.enterUnderline);
    CodePrintable(a, STANDOUT_BIT, c.enterStandout);
    CodePrintable(a, BOLD_BIT, c.enterBold);
    CodePrintable(a, BLINK_BIT, c.enterBlink);
    var p0, p1 := IfSet(Wants(a, UNDERLINE_BIT, c.enterUnderline), c.enterUnderline),
                  IfSet(Wants(a, STANDOUT_BIT, c.enterStandout), c.enterStandout);
    var p2, p3 := IfSet(Wants(a, BOLD_BIT, c.enterBold), c.enterBold),
                  IfSet(Wants(a, BLINK_BIT, c.enterBlink), c.enterBlink);
    var p4, p5 := IfSet(a.foreground != 0, a.foreground), IfSet(a.background != 0, a.background + 10);
    assert forall p :: p in p4 || p in p5 ==> p >= 0;
    hide Wants, IfSet;
    assert forall p :: p in Params(a, c) <==> p in p0 || p in p1 || p in p2 || p in p3 || p in p4 || p in p5;
  }

  lemma {:induction false} DigitsPrinted(n: nat)
    ensures forall b :: b in Print(n) ==> IsDigit(b)
  {
    if n >= 10 {
      DigitsPrinted(n / 10);
    }
  }

  /** The parameters of a sequence are bytes that may stand there, and a negative one brings a "-". */
  lemma {:induction false} TokenBytes(ps: seq<int>)
    ensures var body := Strings.Join(Tokens(ps), [Csi.SEMICOLON]);
            && (forall b :: b in body ==> IsBodyByte(b))
            && (forall p :: p in ps && p < 0 ==> MINUS in body)
  {
    hide Print;
    if ps != [] {
      TokenBytes(ps[1..]);
      DigitsPrinted(if ps[0] < 0 then -ps[0] else ps[0]);
      Strings.JoinCons(PrintInt(ps[0]), Tokens(ps[1..]), [Csi.SEMICOLON]);
      assert ps == [ps[0]] + ps[1..];
      assert ps[0] < 0 ==> PrintInt(ps[0])[0] == MINUS;
      assert Tokens(ps[1..]) == [] ==> ps[1..] == [];
    }
  }

  const MINUS: byte := 0x2d

  /** Setting an attribute with a negative code has no effect at all. */
  lemma SetIgnored(t: Term, a: SgrAttr, c: Codes)
    requires t.mode == Ground && !Printable(a, c)
    ensures Show(t, SetBytes(a, c), c) == t
  {
    hide Params, PrintInt, Printable, Strings.Join;
    ParamsPrintable(a, c);
    TokenBytes(Params(a, c));
    var body := Strings.Join(Tokens(Params(a, c)), [Csi.SEMICOLON]);
    assert SetBytes(a, c) == [Csi.ESC, Csi.BRACKET] + body + [SGR];
    ShowSpoiled(t, body, c);
  }

  function RenderIf(pen: SgrAttr, condition: bool, p: int, c: Codes): SgrAttr {
    if condition then Render(pen, p, c) else pen
  }

  lemma RenderOne(pen: SgrAttr, condition: bool, p: int, c: Codes)
    ensures RenderAll(pen, IfSet(condition, p), c) == RenderIf(pen, condition, p, c)
  {
    hide Render;
    assert RenderAll(Render(pen, p, c), [], c) == Render(pen, p, c);
  }

  lemma RenderSix(pen: SgrAttr, b: seq<bool>, p: seq<int>, c: Codes)
    requires |b| == |p| == 6
    ensures RenderAll(pen, IfSet(b[0], p[0]) + IfSet(b[1], p[1]) + IfSet(b[2], p[2]) + IfSet(b[3], p[3])
                           + IfSet(b[4], p[4]) + IfSet(b[5], p[5]), c)
         == RenderIf(RenderIf(RenderIf(RenderIf(RenderIf(RenderIf(pen, b[0], p[0], c), b[1], p[1], c), b[2], p[2], c),
                                       b[3], p[3], c), b[4], p[4], c), b[5], p[5], c)
  {
    hide Render, RenderAll, IfSet, RenderIf;
    var s0, s1, s2, s3, s4, s5 := IfSet(b[0], p[0]), IfSet(b[1], p[1]), IfSet(b[2], p[2]),
                                  IfSet(b[3], p[3]), IfSet(b[4], p[4]), IfSet(b[5], p[5]);
    RenderConcat(pen, s0 + s1 + s2 + s3 + s4, s5, c);
    RenderConcat(pen, s0 + s1 + s2 + s3, s4, c);
    RenderConcat(pen, s0 + s1 + s2, s3, c);
    RenderConcat(pen, s0 + s1, s2, c);
    RenderConcat(pen, s0, s1, c);
    var r0 := RenderIf(pen, b[0], p[0], c);
    var r1 := RenderIf(r0, b[1], p[1], c);
    var r2 := RenderIf(r1, b[2], p[2], c);
    var r3 := RenderIf(r2, b[3], p[3], c);
    var r4 := RenderIf(r3, b[4], p[4], c);
    RenderOne(pen, b[0], p[0], c);
    RenderOne(r0, b[1], p[1], c);
    RenderOne(r1, b[2], p[2], c);
    RenderOne(r2, b[3], p[3], c);
    RenderOne(r3, b[4], p[4], c);
    RenderOne(r4, b[5], p[5], c);
  }

  function With(pen: SgrAttr, bits: bv8): SgrAttr {
    pen.(attr := pen.attr | bits)
  }

  function WithColours(pen: SgrAttr, fore: nat, back: nat): SgrAttr {
    pen.(foreground := if fore != 0 then fore else pen.foreground,
         background := if back != 0 then back else pen.background)
  }

  /** The code of a text attribute adds its own bit and nothing else. */
  lemma RenderBit(pen: SgrAttr, condition: bool, enter: int, bit: bv8, c: Codes)
    requires Sane(c) && (condition ==> enter > 0)
    requires || (enter == c.enterUnderline && bit == UNDERLINE_BIT) || (enter == c.enterStandout && bit == STANDOUT_BIT)
             || (enter == c.enterBold && bit == BOLD_BIT) || (enter == c.enterBlink && bit == BLINK_BIT)
    ensures RenderIf(pen, condition, enter, c) == With(pen, BitIf(condition, bit))
  {
    OrZero(pen.attr);
  }

  lemma OrZero(b: bv8)
    ensures b | 0 == b
  {
  }

  lemma RenderColours(pen: SgrAttr, a: SgrAttr, c: Codes)
    requires Sane(c) && Proper(a)
    ensures RenderIf(RenderIf(pen, a.foreground != 0, a.foreground, c), a.background != 0, a.background + 10, c)
         == WithColours(pen, a.foreground, a.background)
  {
    assert a.foreground != 0 ==> IsColourParam(a.foreground);
    assert a.background != 0 ==> IsColourParam(a.background + 10);
  }

  lemma Layers(pen: SgrAttr, u: bv8, s: bv8, o: bv8, k: bv8, fore: nat, back: nat)
    ensures WithColours(With(With(With(With(pen, u), s), o), k), fore, back)
         == Overlay(pen, SgrAttr(u | s | o | k, fore, back))
  {
    OrAssoc(pen.attr, u, s, o, k);
  }

  lemma OrAssoc(p: bv8, a: bv8, b: bv8, c: bv8, d: bv8)
    ensures p | a | b | c | d == p | (a | b | c | d)
  {
  }

  /** The six parameters one after the other, each under its condition. */
  lemma RenderChain(pen: SgrAttr, a: SgrAttr, b0: bool, b1: bool, b2: bool, b3: bool, c: Codes)
    requires Sane(c) && Proper(a)
    requires (b0 ==> c.enterUnderline > 0) && (b1 ==> c.enterStandout > 0)
    requires (b2 ==> c.enterBold > 0) && (b3 ==> c.enterBlink > 0)
    ensures RenderAll(pen, IfSet(b0, c.enterUnderline) + IfSet(b1, c.enterStandout) + IfSet(b2, c.enterBold)
                           + IfSet(b3, c.enterBlink) + IfSet(a.foreground != 0, a.foreground)
                           + IfSet(a.background != 0, a.background + 10), c)
         == Overlay(pen, SgrAttr(BitIf(b0, UNDERLINE_BIT) | BitIf(b1, STANDOUT_BIT) | BitIf(b2, BOLD_BIT)
                                 | BitIf(b3, BLINK_BIT), a.foreground, a.background))
  {
    RenderSix(pen, [b0, b1, b2, b3, a.foreground != 0, a.background != 0],
              [c.enterUnderline, c.enterStandout, c.enterBold, c.enterBlink, a.foreground, a.background + 10], c);
    hide RenderAll, RenderIf, BitIf, IfSet, Sane, Proper, With, WithColours, Overlay;
    var u, s, o, k := BitIf(b0, UNDERLINE_BIT), BitIf(b1, STANDOUT_BIT), BitIf(b2, BOLD_BIT), BitIf(b3, BLINK_BIT);
    RenderBit(pen, b0, c.enterUnderline, UNDERLINE_BIT, c);
    RenderBit(With(pen, u), b1, c.enterStandout, STANDOUT_BIT, c);
    RenderBit(With(With(pen, u), s), b2, c.enterBold, BOLD_BIT, c);
    RenderBit(With(With(With(pen, u), s), o), b3, c.enterBlink, BLINK_BIT, c);
    RenderColours(With(With(With(With(pen, u), s), o), k), a, c);
    Layers(pen, u, s, o, k, a.foreground, a.background);
  }

  /** Each parameter of an attribute does to the rendition what its part of Overlay says. */
  lemma RenderParams(pen: SgrAttr, a: SgrAttr, c: Codes)
    requires Sane(c) && Proper(a) && Printable(a, c)
    ensures RenderAll(pen, Params(a, c), c) == Overlay(pen, Visible(a, c))
  {
    hide RenderAll, IfSet, Sane, Proper;
    RenderChain(pen, a, Wants(a, UNDERLINE_BIT, c.enterUnderline),
                Wants(a, STANDOUT_BIT, c.enterStandout), Wants(a, BOLD_BIT, c.enterBold),
                Wants(a, BLINK_BIT, c.enterBlink), c);
  }

  /** The terminal after _fep_output_set_attributes: the attribute laid over it, or plain if it has no parameters. */
  lemma SetShown(t: Term, a: SgrAttr, c: Codes)
    requires t.mode == Ground && Sane(c) && Proper(a) && Printable(a, c)
    ensures Show(t, SetBytes(a, c), c)
         == t.(pen := if Params(a, c) == [] then EMPTY else Overlay(t.pen, Visible(a, c)))
  {
    ParamsPrintable(a, c);
    hide Params, Visible, Sane, Print, Proper, Printable;
    assert forall i :: 0 <= i < |Params(a, c)| ==> Params(a, c)[i] in Params(a, c);
    var ns: seq<nat> := Params(a, c);
    TokensPrinted(Params(a, c), ns);
    ShowSgr(t, ns, c);
    RenderParams(t.pen, a, c);
    ResetShown(t.pen, c);
  }

  lemma ResetShown(pen: SgrAttr, c: Codes)
    ensures RenderAll(pen, [0], c) == EMPTY
  {
    assert RenderAll(EMPTY, [], c) == EMPTY;
  }

  // ----- applying attributes

  /** Whether going from one attribute to the next clears a text bit or a colour. */
  predicate Clears(from: SgrAttr, to: SgrAttr) {
    || from.attr & !to.attr & TEXT_BITS != 0
    || (from.foreground != 0 && to.foreground == 0)
    || (from.background != 0 && to.background == 0)
  }

  /** The bytes apply_attr writes, with the attribute tracked before. */
  function ApplyBytes(tracked: SgrAttr, to: SgrAttr, c: Codes, exitAttributeMode: seq<byte>): seq<byte> {
    if Clears(tracked, to) then exitAttributeMode + SetBytes(to, c)
    else if tracked != to then SetBytes(to, c)
    else []
  }

  /** A string that puts a terminal outside any sequence back to its plain rendition, and shows nothing. */
  ghost predicate Resets(s: seq<byte>, c: Codes) {
    forall t: Term :: t.mode == Ground ==> Show(t, s, c) == t.(pen := EMPTY)
  }

  /** Adding what is missing reaches the target when nothing is to be cleared, and only then. */
  lemma OverlayReaches(p: bv8, v: bv8)
    requires p & !TEXT_BITS == 0 && v & !TEXT_BITS == 0
    ensures p | v == v <==> p & !v & TEXT_BITS == 0
  {
  }

  lemma VisibleProper(a: SgrAttr, c: Codes)
    requires Proper(a)
    ensures Proper(Visible(a, c))
  {
  }

  lemma VisibleMonotone(a: SgrAttr, b: SgrAttr, c: Codes)
    requires !Clears(a, b)
    ensures !Clears(Visible(a, c), Visible(b, c))
  {
    BitMonotone(a.attr, b.attr, UNDERLINE_BIT);
    BitMonotone(a.attr, b.attr, STANDOUT_BIT);
    BitMonotone(a.attr, b.attr, BOLD_BIT);
    BitMonotone(a.attr, b.attr, BLINK_BIT);
  }

  lemma BitMonotone(a: bv8, b: bv8, bit: bv8)
    requires a & !b & TEXT_BITS == 0 && bit in {UNDERLINE_BIT, STANDOUT_BIT, BOLD_BIT, BLINK_BIT}
    ensures a & bit != 0 ==> b & bit != 0
  {
  }

  lemma NoParamsNothingVisible(a: SgrAttr, c: Codes)
    requires Params(a, c) == []
    ensures Visible(a, c) == EMPTY
  {
    assert |Params(a, c)| == 0;
  }

  /** An attribute with a negative code has something to show. */
  lemma NegativeVisible(a: SgrAttr, c: Codes)
    requires !Printable(a, c)
    ensures Visible(a, c).attr != 0
  {
  }

  /**
   _fep_output_set_attributes brings the terminal to the attribute exactly when it has no parameters
   at all, or only numbers and nothing the terminal shows is to be cleared; or it shows it already.
   */
  lemma SetReaches(t: Term, a: SgrAttr, c: Codes)
    requires t.mode == Ground && Sane(c) && Proper(a) && Proper(t.pen)
    ensures Show(t, SetBytes(a, c), c) == t.(pen := Visible(a, c))
            <==> if Printable(a, c) then Params(a, c) == [] || !Clears(t.pen, Visible(a, c))
                 else t.pen == Visible(a, c)
  {
    if Printable(a, c) {
      SetShown(t, a, c);
      VisibleProper(a, c);
      OverlayReaches(t.pen.attr, Visible(a, c).attr);
      if Params(a, c) == [] {
        NoParamsNothingVisible(a, c);
      }
    } else {
      SetIgnored(t, a, c);
    }
    hide Show, SetBytes, Params, Visible, Sane, Printable;
  }

  /**
   From any tracked attribute that the terminal shows, apply_attr brings the terminal to the target, so
   that what is tracked afterwards is again what the terminal shows.  It fails exactly when a code is
   negative and the target asks for something the terminal does not show already.
   */
  lemma ApplyShown(t: Term, tracked: SgrAttr, to: SgrAttr, c: Codes, exitAttributeMode: seq<byte>)
    requires Sane(c) && Resets(exitAttributeMode, c) && Proper(tracked) && Proper(to)
    requires t.mode == Ground && t.pen == Visible(tracked, c)
    ensures Show(t, ApplyBytes(tracked, to, c, exitAttributeMode), c) == t.(pen := Visible(to, c))
            <==> Printable(to, c) || (!Clears(tracked, to) && Visible(to, c) == Visible(tracked, c))
  {
    VisibleProper(tracked, c);
    if !Printable(to, c) {
      NegativeVisible(to, c);
    }
    hide Sane, Visible, SetBytes, Params, Printable;
    if Clears(tracked, to) {
      ShowConcat(t, exitAttributeMode, SetBytes(to, c), c);
      ShowFromEmpty(t.(pen := EMPTY), to, c);
    } else if tracked != to {
      VisibleMonotone(tracked, to, c);
      SetReaches(t, to, c);
    }
  }

  /** What a plain terminal shows once an attribute is set: all it can show of it, or nothing if a code is negative. */
  function Rendered(a: SgrAttr, c: Codes): SgrAttr {
    if Printable(a, c) then Visible(a, c) else EMPTY
  }

  lemma ShowFromEmpty(t: Term, a: SgrAttr, c: Codes)
    requires t.mode == Ground && t.pen == EMPTY && Sane(c) && Proper(a)
    ensures Show(t, SetBytes(a, c), c) == t.(pen := Rendered(a, c))
  {
    hide Show, SetBytes, Params, Visible, Sane, Printable;
    if Printable(a, c) {
      SetReaches(t, a, c);
      assert !Clears(EMPTY, Visible(a, c));
    } else {
      SetIgnored(t, a, c);
    }
  }

  // ----- text

  /** A character: its bytes in the terminal's encoding and its width, negative for one not printable. */
  datatype Wchar = Wchar(bytes: seq<byte>, width: int)

  function Width(s: seq<Wchar>): int {
    if s == [] then 0 else Width(s[..|s| - 1]) + s[|s| - 1].width
  }

  function Encoded(s: seq<Wchar>): seq<byte> {
    if s == [] then [] else s[0].bytes + Encoded(s[1..])
  }

  /** n characters of s fit, at every point on the way, and one more does not. */
  ghost predicate Fits(s: seq<Wchar>, width: int, n: nat) {
    && n <= |s|
    && (forall k :: 1 <= k <= n ==> Width(s[..k]) <= width)
    && (n < |s| ==> Width(s[..n + 1]) > width)
  }

  lemma FitsUnique(s: seq<Wchar>, width: int, m: nat, n: nat)
    requires Fits(s, width, m) && Fits(s, width, n)
    ensures m == n
  {
  }

  lemma {:induction false} WidthGrows(s: seq<Wchar>, m: nat, n: nat)
    requires m <= n <= |s| && forall i :: 0 <= i < |s| ==> s[i].width >= 0
    ensures Width(s[..m]) <= Width(s[..n])
    decreases n
  {
    if m < n {
      WidthGrows(s, m, n - 1);
      assert s[..n][..n - 1] == s[..n - 1];
    }
  }

  /** When no width is negative, that is the longest prefix that fits. */
  lemma FitsLongest(s: seq<Wchar>, width: nat, n: nat)
    requires Fits(s, width, n) && forall i :: 0 <= i < |s| ==> s[i].width >= 0
    ensures forall k :: 0 <= k <= |s| ==> (Width(s[..k]) <= width <==> k <= n)
  {
    forall k | 0 <= k <= |s| ensures Width(s[..k]) <= width <==> k <= n {
      if k > n {
        WidthGrows(s, n + 1, k);
      } else if k == 0 {
        assert s[..0] == [];
      }
    }
  }

  /** The loop of _fep_strtrunc. */
  method StrTrunc(s: seq<Wchar>, width: int) returns (r: seq<Wchar>)
    ensures r <= s && Fits(s, width, |r|)
  {
    var i, total := 0, 0;
    while i < |s|
      invariant 0 <= i <= |s| && total == Width(s[..i])
      invariant forall k :: 1 <= k <= i ==> Width(s[..k]) <= width
    {
      assert s[..i + 1][..i] == s[..i];
      if total + s[i].width > width {
        break;
      }
      total := total + s[i].width;
      i := i + 1;
    }
    return s[..i];
  }

  /** _fep_substring: the characters between two indices in either order, nothing if one is out of range. */
  function Substring(s: seq<Wchar>, from: nat, to: nat): Option<seq<Wchar>> {
    var lo, hi := Min(from, to), Max(from, to);
    if hi > |s| then None else Some(s[lo..hi])
  }

  // ----- styled text

  /** The clipped ends of the attribute's range, in order. */
  function Low(n: nat, a: Codec.Attribute): (k: nat)
    ensures k <= n
  {
    Min(Min(n, a.start), Min(n, a.end))
  }

  function High(n: nat, a: Codec.Attribute): (k: nat)
    ensures Low(n, a) <= k <= n
  {
    Max(Min(n, a.start), Min(n, a.end))
  }

  /** Bytes written only under a condition. */
  function When(condition: bool, s: seq<byte>): seq<byte> {
    if condition then s else []
  }

  /** What _fep_output_string_with_attribute writes for the text that fits, once the plain rendition is set. */
  function StyledBytes(s: seq<Wchar>, a: Codec.Attribute, c: Codes): seq<byte> {
    var lo, hi, typed := Low(|s|, a), High(|s|, a), a.kind != Codec.NO_ATTRIBUTE;
    When(lo > 0 && typed, Encoded(s[..lo]))
    + When(lo < hi && typed, SetBytes(FromAttribute(a), c))
    + When(lo < hi, Encoded(s[lo..hi]))
    + When(lo < hi && typed, SetBytes(EMPTY, c))
    + When(hi < |s|, Encoded(s[hi..]))
  }

  /** The text among those bytes. */
  function StyledText(s: seq<Wchar>, a: Codec.Attribute): seq<byte> {
    var lo, hi := Low(|s|, a), High(|s|, a);
    When(lo > 0 && a.kind != Codec.NO_ATTRIBUTE, Encoded(s[..lo])) + Encoded(s[lo..hi]) + Encoded(s[hi..])
  }

  lemma {:induction false} EncodedConcat(a: seq<Wchar>, b: seq<Wchar>)
    ensures Encoded(a + b) == Encoded(a) + Encoded(b)
  {
    if a == [] {
      assert a + b == b;
    } else {
      EncodedConcat(a[1..], b);
      assert (a + b)[1..] == a[1..] + b;
      Assoc(a[0].bytes, Encoded(a[1..]), Encoded(b));
    }
  }

  lemma EncodedCut(s: seq<Wchar>, lo: nat, hi: nat)
    requires lo <= hi <= |s|
    ensures Encoded(s) == Encoded(s[..lo]) + (Encoded(s[lo..hi]) + Encoded(s[hi..]))
  {
    hide Encoded;
    ThreeParts(s, lo, hi);
    EncodedConcat(s[..lo], s[lo..hi] + s[hi..]);
    EncodedConcat(s[lo..hi], s[hi..]);
  }

  lemma ThreeParts<T>(s: seq<T>, lo: nat, hi: nat)
    requires lo <= hi <= |s|
    ensures s == s[..lo] + (s[lo..hi] + s[hi..])
  {
  }

  /**
   The three pieces of text make up the text that fits exactly when the attribute has a type or the
   range starts at the first character: with no type the piece before the range is not written.
   */
  lemma StyledTextWhole(s: seq<Wchar>, a: Codec.Attribute)
    requires forall i :: 0 <= i < |s| ==> s[i].bytes != []
    ensures StyledText(s, a) == Encoded(s) <==> a.kind != Codec.NO_ATTRIBUTE || Low(|s|, a) == 0
  {
    var lo, hi := Low(|s|, a), High(|s|, a);
    EncodedCut(s, lo, hi);
    Assoc(Encoded(s[..lo]), Encoded(s[lo..hi]), Encoded(s[hi..]));
    if lo > 0 {
      assert s[..lo][0].bytes != [];
      assert |Encoded(s[..lo])| > 0;
    } else {
      assert Encoded(s[..lo]) == [];
      assert [] + Encoded(s[lo..hi]) == Encoded(s[lo..hi]);
    }
  }

  ghost predicate NoEscape(s: seq<Wchar>) {
    forall i :: 0 <= i < |s| ==> Csi.ESC !in s[i].bytes
  }

  lemma {:induction false} EncodedNoEscape(s: seq<Wchar>)
    requires NoEscape(s)
    ensures Csi.ESC !in Encoded(s)
  {
    if s != [] {
      EncodedNoEscape(s[1..]);
    }
  }

  lemma ShowWhen(t: Term, condition: bool, s: seq<byte>, c: Codes)
    ensures Show(t, When(condition, s), c) == if condition then Show(t, s, c) else t
  {
  }

  /** A piece of text shown as it is. */
  function Piece(s: seq<Wchar>, pen: SgrAttr): seq<(byte, SgrAttr)> {
    Shown(Encoded(s), pen)
  }

  /** Writing a piece of text under a condition that holds if the piece is not empty. */
  lemma ShowPiece(t: Term, condition: bool, s: seq<Wchar>, c: Codes)
    requires t.mode == Ground && NoEscape(s) && (condition || s == [])
    ensures Show(t, When(condition, Encoded(s)), c) == t.(cells := t.cells + Piece(s, t.pen))
  {
    EncodedNoEscape(s);
    hide Show;
    ShowWhen(t, condition, Encoded(s), c);
    if s == [] {
      assert t.cells + Piece([], t.pen) == t.cells;
    }
    ShowText(t, Encoded(s), c);
  }

  /** Five runs of bytes, one after the other. */
  lemma ShowFive(t: Term, s1: seq<byte>, s2: seq<byte>, s3: seq<byte>, s4: seq<byte>, s5: seq<byte>, c: Codes)
    ensures Show(t, s1 + s2 + s3 + s4 + s5, c) == Show(Show(Show(Show(Show(t, s1, c), s2, c), s3, c), s4, c), s5, c)
  {
    hide Show;
    ShowConcat(t, s1 + s2 + s3 + s4, s5, c);
    ShowConcat(t, s1 + s2 + s3, s4, c);
    ShowConcat(t, s1 + s2, s3, c);
    ShowConcat(t, s1, s2, c);
  }

  /** The middle piece, with the attribute set before it and the plain rendition after it. */
  lemma ShowMiddle(t: Term, s: seq<Wchar>, typed: bool, a: SgrAttr, c: Codes)
    requires t.mode == Ground && t.pen == EMPTY && NoEscape(s) && Sane(c) && Proper(a)
    requires !typed ==> Rendered(a, c) == EMPTY
    ensures Show(Show(Show(t, When(s != [] && typed, SetBytes(a, c)), c), When(s != [], Encoded(s)), c),
                 When(s != [] && typed, SetBytes(EMPTY, c)), c)
         == t.(cells := t.cells + Piece(s, Rendered(a, c)))
  {
    hide Show, SetBytes, Sane, Rendered, Encoded;
    var t1 := t.(pen := Rendered(a, c));
    var t2 := t1.(cells := t1.cells + Piece(s, t1.pen));
    if s == [] {
      ShowWhen(t, false, SetBytes(a, c), c);
      ShowPiece(t, false, s, c);
      ShowWhen(t, false, SetBytes(EMPTY, c), c);
      assert Piece(s, EMPTY) == Piece(s, Rendered(a, c)) by { PieceOfNothing(EMPTY, Rendered(a, c)); }
      ShowWhen(t.(cells := t.cells + Piece(s, EMPTY)), false, SetBytes(EMPTY, c), c);
    } else {
      ShowFromEmpty(t, a, c);
      ShowWhen(t, typed, SetBytes(a, c), c);
      ShowPiece(t1, true, s, c);
      BackToPlain(t2, c);
      ShowWhen(t2, typed, SetBytes(EMPTY, c), c);
    }
  }

  lemma PieceOfNothing(p: SgrAttr, q: SgrAttr)
    ensures Piece([], p) == Piece([], q)
  {
    assert Encoded([]) == [];
  }

  lemma BackToPlain(t: Term, c: Codes)
    requires t.mode == Ground && Sane(c)
    ensures Show(t, SetBytes(EMPTY, c), c) == t.(pen := EMPTY)
  {
    assert Params(EMPTY, c) == [] && Printable(EMPTY, c);
    hide Show, SetBytes, Printable;
    SetShown(t, EMPTY, c);
  }

  lemma UntypedIsPlain(a: Codec.Attribute, c: Codes)
    requires a.kind == Codec.NO_ATTRIBUTE
    ensures Rendered(FromAttribute(a), c) == EMPTY
  {
  }

  /**
   What the terminal shows for styled text: exactly the characters with index in the clipped range
   under the attribute and all others plain, in order; the rendition is plain again at the end.
   */
  lemma StyledShown(t: Term, s: seq<Wchar>, a: Codec.Attribute, c: Codes)
    requires t.mode == Ground && t.pen == EMPTY && NoEscape(s) && Sane(c)
    requires a.kind != Codec.NO_ATTRIBUTE || Low(|s|, a) == 0
    ensures Show(t, StyledBytes(s, a, c), c)
         == t.(cells := t.cells + Piece(s[..Low(|s|, a)], EMPTY)
                        + Piece(s[Low(|s|, a)..High(|s|, a)], Rendered(FromAttribute(a), c))
                        + Piece(s[High(|s|, a)..], EMPTY))
  {
    var lo, hi, typed := Low(|s|, a), High(|s|, a), a.kind != Codec.NO_ATTRIBUTE;
    var b := FromAttribute(a);
    if !typed {
      UntypedIsPlain(a, c);
    }
    PiecesPlain(s, lo, hi);
    hide Show, SetBytes, Sane, Rendered, Piece, FromAttribute, Low, High, When, Encoded, NoEscape;
    var x, y, z := s[..lo], s[lo..hi], s[hi..];
    ShowFive(t, When(lo > 0 && typed, Encoded(x)), When(lo < hi && typed, SetBytes(b, c)),
             When(lo < hi, Encoded(y)), When(lo < hi && typed, SetBytes(EMPTY, c)), When(hi < |s|, Encoded(z)), c);
    ShowPiece(t, lo > 0 && typed, x, c);
    var t1 := t.(cells := t.cells + Piece(x, EMPTY));
    ShowMiddle(t1, y, typed, b, c);
    ShowPiece(t1.(cells := t1.cells + Piece(y, Rendered(b, c))), hi < |s|, z, c);
  }

  lemma PiecesPlain(s: seq<Wchar>, lo: nat, hi: nat)
    requires lo <= hi <= |s| && NoEscape(s)
    ensures NoEscape(s[..lo]) && NoEscape(s[lo..hi]) && NoEscape(s[hi..])
    ensures (lo == 0 <==> s[..lo] == []) && (lo == hi <==> s[lo..hi] == []) && (hi == |s| <==> s[hi..] == [])
  {
  }

  /**
   Showing a text from any tracked attribute: the text that fits appears with exactly the characters
   of the range under the attribute, and the terminal ends plain, as is then tracked.
   */
  lemma StringShown(
    t: Term, tracked: SgrAttr, s: seq<Wchar>, a: Codec.Attribute, c: Codes, exitAttributeMode: seq<byte>)
    requires Sane(c) && Resets(exitAttributeMode, c) && Proper(tracked) && NoEscape(s)
    requires t.mode == Ground && t.pen == Visible(tracked, c)
    requires a.kind != Codec.NO_ATTRIBUTE || Low(|s|, a) == 0
    ensures Show(t, ApplyBytes(tracked, EMPTY, c, exitAttributeMode) + StyledBytes(s, a, c), c)
         == t.(pen := EMPTY, cells := t.cells + Piece(s[..Low(|s|, a)], EMPTY)
                        + Piece(s[Low(|s|, a)..High(|s|, a)], Rendered(FromAttribute(a), c))
                        + Piece(s[High(|s|, a)..], EMPTY))
  {
    EmptyIsVisible(c);
    hide Show, StyledBytes, ApplyBytes, Sane, Resets, Visible, NoEscape, Piece, Rendered;
    ApplyShown(t, tracked, EMPTY, c, exitAttributeMode);
    ShowConcat(t, ApplyBytes(tracked, EMPTY, c, exitAttributeMode), StyledBytes(s, a, c), c);
    StyledShown(t.(pen := EMPTY), s, a, c);
  }

  // ----- what is shown, character by character

  /** The rendition of the character at an index: the pen from lo on and below hi, and plain otherwise. */
  function PenAt(i: nat, lo: int, hi: int, pen: SgrAttr): SgrAttr {
    if lo <= i < hi then pen else EMPTY
  }

  /** The cells of a text: each character's bytes under the rendition its index gives. */
  function CellsOf(s: seq<Wchar>, from: nat, lo: int, hi: int, pen: SgrAttr): seq<(byte, SgrAttr)> {
    if s == [] then []
    else Shown(s[0].bytes, PenAt(from, lo, hi, pen)) + CellsOf(s[1..], from + 1, lo, hi, pen)
  }

  lemma {:induction false} CellsConcat(a: seq<Wchar>, b: seq<Wchar>, from: nat, lo: int, hi: int, pen: SgrAttr)
    ensures CellsOf(a + b, from, lo, hi, pen) == CellsOf(a, from, lo, hi, pen) + CellsOf(b, from + |a|, lo, hi, pen)
  {
    if a == [] {
      assert a + b == b;
    } else {
      assert (a + b)[1..] == a[1..] + b;
      CellsConcat(a[1..], b, from + 1, lo, hi, pen);
      Assoc(Shown(a[0].bytes, PenAt(from, lo, hi, pen)), CellsOf(a[1..], from + 1, lo, hi, pen),
            CellsOf(b, from + |a|, lo, hi, pen));
    }
  }

  lemma ShownConcat(a: seq<byte>, b: seq<byte>, pen: SgrAttr)
    ensures Shown(a + b, pen) == Shown(a, pen) + Shown(b, pen)
  {
  }

  /** Characters that are all inside the range, or all outside, make one piece. */
  lemma {:induction false} CellsPiece(s: seq<Wchar>, from: nat, lo: int, hi: int, pen: SgrAttr, q: SgrAttr)
    requires forall i: nat :: from <= i < from + |s| ==> PenAt(i, lo, hi, pen) == q
    ensures CellsOf(s, from, lo, hi, pen) == Piece(s, q)
  {
    if s == [] {
      PieceOfNothing(q, q);
      assert Piece([], q) == [];
    } else {
      CellsPiece(s[1..], from + 1, lo, hi, pen, q);
      ShownConcat(s[0].bytes, Encoded(s[1..]), q);
    }
  }

  lemma CellsInThree(s: seq<Wchar>, a: Codec.Attribute, pen: SgrAttr)
    ensures var lo, hi := Low(|s|, a), High(|s|, a);
            CellsOf(s, 0, Min(a.start, a.end), Max(a.start, a.end), pen)
            == Piece(s[..lo], EMPTY) + Piece(s[lo..hi], pen) + Piece(s[hi..], EMPTY)
  {
    var lo, hi, from, to := Low(|s|, a), High(|s|, a), Min(a.start, a.end), Max(a.start, a.end);
    ThreeParts(s, lo, hi);
    hide CellsOf, Piece;
    CellsConcat(s[..lo], s[lo..hi] + s[hi..], 0, from, to, pen);
    CellsConcat(s[lo..hi], s[hi..], lo, from, to, pen);
    CellsPiece(s[..lo], 0, from, to, pen, EMPTY);
    CellsPiece(s[lo..hi], lo, from, to, pen, pen);
    CellsPiece(s[hi..], hi, from, to, pen, EMPTY);
    Assoc(Piece(s[..lo], EMPTY), Piece(s[lo..hi], pen), Piece(s[hi..], EMPTY));
  }

  /** The decoration of an attribute: the bit of its type, if its value is not 0 and there is a code, and no colour. */
  ghost predicate Decorates(pen: SgrAttr, a: Codec.Attribute, c: Codes) {
    && (pen.attr & UNDERLINE_BIT != 0 <==> a.kind == Codec.UNDERLINE && a.value != 0 && c.enterUnderline > 0)
    && (pen.attr & STANDOUT_BIT != 0 <==> a.kind == Codec.STANDOUT && a.value != 0 && c.enterStandout > 0)
    && (pen.attr & BOLD_BIT != 0 <==> a.kind == Codec.BOLD && a.value != 0 && c.enterBold > 0)
    && (pen.attr & BLINK_BIT != 0 <==> a.kind == Codec.BLINK && a.value != 0 && c.enterBlink > 0)
    && pen.attr & !TEXT_BITS == 0 && pen.foreground == 0 && pen.background == 0
  }

  lemma RenderedDecorates(a: Codec.Attribute, c: Codes)
    ensures Decorates(Rendered(FromAttribute(a), c), a, c)
  {
  }

  /**
   Showing a text from any tracked attribute: the terminal shows every character's bytes, in order, those with an
   index between the two ends of the attribute under its decoration and the others plain.
   */
  lemma TextDecorated(t: Term, tracked: SgrAttr, s: seq<Wchar>, a: Codec.Attribute, c: Codes,
                      exitAttributeMode: seq<byte>) returns (pen: SgrAttr)
    requires Sane(c) && Resets(exitAttributeMode, c) && Proper(tracked) && NoEscape(s)
    requires t.mode == Ground && t.pen == Visible(tracked, c)
    requires a.kind != Codec.NO_ATTRIBUTE || |s| == 0 || Min(a.start, a.end) == 0
    ensures Decorates(pen, a, c)
    ensures Show(t, ApplyBytes(tracked, EMPTY, c, exitAttributeMode) + StyledBytes(s, a, c), c)
         == t.(pen := EMPTY, cells := t.cells + CellsOf(s, 0, Min(a.start, a.end), Max(a.start, a.end), pen))
  {
    pen := Rendered(FromAttribute(a), c);
    RenderedDecorates(a, c);
    StringShown(t, tracked, s, a, c, exitAttributeMode);
    CellsInThree(s, a, pen);
    var lo, hi := Low(|s|, a), High(|s|, a);
    hide Show, StyledBytes, ApplyBytes, Sane, Resets, Visible, NoEscape, Piece, Rendered, FromAttribute, CellsOf;
    Assoc(t.cells, Piece(s[..lo], EMPTY), Piece(s[lo..hi], pen));
    Assoc(t.cells, Piece(s[..lo], EMPTY) + Piece(s[lo..hi], pen), Piece(s[hi..], EMPTY));
  }

  /** Both measures of a text add up over its characters. */
  lemma {:induction false} WidthConcat(a: seq<Wchar>, b: seq<Wchar>)
    ensures Width(a + b) == Width(a) + Width(b)
    decreases |b|
  {
    if b == [] {
      assert a + b == a;
    } else {
      var n := |b| - 1;
      assert (a + b)[..|a + b| - 1] == a + b[..n];
      WidthConcat(a, b[..n]);
    }
  }

  lemma OneCharacter(w: Wchar)
    ensures Width([w]) == w.width && Encoded([w]) == w.bytes
  {
    assert [w][..0] == [] && Width([]) == 0;
    assert [w][1..] == [] && Encoded([]) == [] && w.bytes + [] == w.bytes;
  }

  /** A terminal that is plain and outside any sequence is so again after styled text. */
  lemma StaysPlain(tty: seq<byte>, s: seq<Wchar>, a: Codec.Attribute, c: Codes)
    requires NoEscape(s) && Sane(c) && (a.kind != Codec.NO_ATTRIBUTE || Low(|s|, a) == 0)
    requires var t := Show(Term(Ground, EMPTY, []), tty, c); t.mode == Ground && t.pen == EMPTY
    ensures var t := Show(Term(Ground, EMPTY, []), tty + StyledBytes(s, a, c), c); t.mode == Ground && t.pen == EMPTY
  {
    hide Show, StyledBytes, Sane, Piece;
    ShowConcat(Term(Ground, EMPTY, []), tty, StyledBytes(s, a, c), c);
    StyledShown(Show(Term(Ground, EMPTY, []), tty, c), s, a, c);
  }

  lemma EmptyIsVisible(c: Codes)
    ensures Visible(EMPTY, c) == EMPTY && Proper(EMPTY) && Printable(EMPTY, c)
  {
  }

  // ----- the methods

  /** A text to be shown: the empty string, one the terminal's encoding cannot express, or its characters. */
  datatype Text = NoText | Undecodable | Decoded(chars: seq<Wchar>)

  class Screen {
    const codes: Codes
    const exitAttributeMode: seq<byte>
    var attr: SgrAttr
    /** The bytes written to the terminal. */
    var tty: seq<byte>

    constructor (codes: Codes, exitAttributeMode: seq<byte>)
      ensures this.codes == codes && this.exitAttributeMode == exitAttributeMode
      ensures attr == EMPTY && tty == []
    {
      this.codes, this.exitAttributeMode, attr, tty := codes, exitAttributeMode, EMPTY, [];
    }

    /** The terminal that has been fed everything written shows the attribute tracked. */
    ghost predicate InSync()
      reads this
    {
      var t := Show(Term(Ground, EMPTY, []), tty, codes);
      t.mode == Ground && t.pen == Visible(attr, codes) && Proper(attr)
    }

    ghost predicate GoodTerminal() {
      Sane(codes) && Resets(exitAttributeMode, codes)
    }

    method Put(s: seq<byte>)
      modifies this`tty
      ensures tty == old(tty) + s
    {
      tty := tty + s;
    }

    /** _fep_output_set_attributes. */
    method SetAttributes(a: SgrAttr)
      modifies this`attr, this`tty
      ensures attr == a && tty == old(tty) + SetBytes(a, codes)
    {
      hide Params, Print, Strings.Join;
      var slots := ParamsFromAttr(a, codes);
      var tokens, i := [], 0;
      while i < slots.Length && slots[i].Some?
        invariant 0 <= i <= |Tokens(Params(a, codes))| && tokens == Tokens(Params(a, codes))[..i]
      {
        tokens, i := tokens + [slots[i].value], i + 1;
      }
      assert tokens == Tokens(Params(a, codes));
      var params, _ := Strings.StrJoin(tokens, [Csi.SEMICOLON]);
      attr := a;
      Put(Csi.Format(Csi.Csi(params, [], SGR)));
    }

    /** apply_attr. */
    method ApplyAttr(a: SgrAttr)
      modifies this`attr, this`tty
      ensures attr == a && tty == old(tty) + ApplyBytes(old(attr), a, codes, exitAttributeMode)
      ensures GoodTerminal() && old(InSync()) && Proper(a) && Printable(a, codes) ==> InSync()
    {
      if GoodTerminal() && InSync() && Proper(a) && Printable(a, codes) {
        ghost var t := Show(Term(Ground, EMPTY, []), tty, codes);
        ApplyShown(t, attr, a, codes, exitAttributeMode);
        ShowConcat(Term(Ground, EMPTY, []), tty, ApplyBytes(attr, a, codes, exitAttributeMode), codes);
      }
      hide Show, Visible, SetBytes, Proper, Sane, Resets, Printable;
      if attr.attr & !a.attr & TEXT_BITS != 0
         || (attr.foreground != 0 && a.foreground == 0) || (attr.background != 0 && a.background == 0)
      {
        Put(exitAttributeMode);
        Assoc(old(tty), exitAttributeMode, SetBytes(a, codes));
        SetAttributes(a);
      } else if attr != a {
        SetAttributes(a);
      } else {
        assert tty == tty + [];
      }
    }

    /**
     _fep_output_string_with_attribute; the attribute outside the range is always the empty one.  The text
     that fits is given by its length n, which Fits determines.
     */
    method StringWithAttribute(text: Text, width: int, a: Codec.Attribute)
      modifies this`attr, this`tty
      ensures text.NoText? ==> tty == old(tty) && attr == old(attr)
      ensures !text.NoText? ==> attr == EMPTY
      ensures text.Undecodable? ==> tty == old(tty) + ApplyBytes(old(attr), EMPTY, codes, exitAttributeMode)
      ensures text.Decoded? ==>
                forall n: nat :: Fits(text.chars, width, n) ==>
                            tty == old(tty) + ApplyBytes(old(attr), EMPTY, codes, exitAttributeMode)
                                   + StyledBytes(text.chars[..n], a, codes)
      ensures text.Decoded? ==> exists n: nat :: Fits(text.chars, width, n)
      ensures && GoodTerminal() && old(InSync())
              && (text.Decoded? ==>
                    && NoEscape(text.chars)
                    && (a.kind == Codec.NO_ATTRIBUTE ==>
                          forall n: nat :: Fits(text.chars, width, n) ==> Low(n, a) == 0))
              ==> InSync()
    {
      hide SetBytes, Encoded, ApplyBytes;
      if text.NoText? {
        return;
      }
      ApplyAttr(EMPTY);
      if text.Undecodable? {
        return;
      }
      var trunc := StrTrunc(text.chars, width);
      assert trunc == text.chars[..|trunc|];
      ghost var start := tty;
      var length := |trunc|;
      var startIndex, endIndex := Min(length, a.start), Min(length, a.end);
      if startIndex > endIndex {
        startIndex, endIndex := endIndex, startIndex;
      }
      var typed := a.kind != Codec.NO_ATTRIBUTE;
      WriteStyled(trunc, a, startIndex, endIndex, typed);
      forall n: nat | Fits(text.chars, width, n) ensures n == |trunc| {
        FitsUnique(text.chars, width, n, |trunc|);
      }
      if GoodTerminal() && old(InSync()) && NoEscape(text.chars)
         && (a.kind == Codec.NO_ATTRIBUTE ==> Low(length, a) == 0)
      {
        StaysPlain(start, trunc, a, codes);
      }
    }

    /** The three pieces, once the ends of the range are clipped and in order. */
    method WriteStyled(s: seq<Wchar>, a: Codec.Attribute, startIndex: nat, endIndex: nat, typed: bool)
      requires startIndex == Low(|s|, a) && endIndex == High(|s|, a) && typed == (a.kind != Codec.NO_ATTRIBUTE)
      requires attr == EMPTY
      modifies this`attr, this`tty
      ensures attr == EMPTY && tty == old(tty) + StyledBytes(s, a, codes)
    {
      hide SetBytes, Encoded, Low, High;
      ghost var p1, p2 := When(startIndex > 0 && typed, Encoded(s[..startIndex])),
                          When(startIndex < endIndex && typed, SetBytes(FromAttribute(a), codes));
      ghost var p3, p4 := When(startIndex < endIndex, Encoded(s[startIndex..endIndex])),
                          When(startIndex < endIndex && typed, SetBytes(EMPTY, codes));
      ghost var p5 := When(endIndex < |s|, Encoded(s[endIndex..]));
      ghost var start := tty;
      if startIndex > 0 && typed {
        Put(Encoded(Substring(s, 0, startIndex).value));
      }
      assert tty == start + p1;
      if startIndex < endIndex {
        if typed {
          SetAttributes(FromAttribute(a));
        }
        assert tty == start + p1 + p2;
        Put(Encoded(Substring(s, startIndex, endIndex).value));
        if typed {
          SetAttributes(EMPTY);
        }
      }
      assert tty == start + p1 + p2 + p3 + p4;
      assert s[endIndex..|s|] == s[endIndex..];
      if endIndex < |s| {
        Put(Encoded(Substring(s, endIndex, |s|).value));
      }
      assert tty == start + p1 + p2 + p3 + p4 + p5;
      Assoc(start, p1, p2);
      Assoc(start, p1 + p2, p3);
      Assoc(start, p1 + p2 + p3, p4);
      Assoc(start, p1 + p2 + p3 + p4, p5);
    }
  }
}
