/** Select Graphic Rendition (section 8.3.117 of ECMA-48): attributes and SGR parameters, as in fep/sgr.c. */
module Sgr {
  import opened Bytes
  import opened Numbers
  import Codec

  const UNDERLINE_BIT: bv8 := 1
  const STANDOUT_BIT: bv8 := 2
  const BOLD_BIT: bv8 := 4
  const BLINK_BIT: bv8 := 8
  const TEXT_BITS: bv8 := 0x0f

  /** FepSgrAttr: text bits, and colours as the parameters that set the foreground, 0 for none. */
  datatype SgrAttr = SgrAttr(attr: bv8, foreground: nat, background: nat)

  const EMPTY := SgrAttr(0, 0, 0)

  predicate IsColour(c: nat) {
    30 <= c <= 37 || 90 <= c <= 97
  }

  /** The attributes that occur: the four text bits, and colours or none. */
  predicate Proper(a: SgrAttr) {
    && a.attr & !TEXT_BITS == 0
    && (a.foreground == 0 || IsColour(a.foreground))
    && (a.background == 0 || IsColour(a.background))
  }

  /** sgr_codes: the SGR parameters the terminal uses, 0 for those it lacks. */
  datatype Codes = Codes(
    enterUnderline: int, exitUnderline: int, enterStandout: int, exitStandout: int,
    enterBold: int, enterBlink: int, origPair: int, origFore: int, origBack: int)

  // ----- attributes to parameters

  /** _fep_sgr_attr_from_attribute. */
  function FromAttribute(a: Codec.Attribute): (r: SgrAttr)
    ensures Proper(r)
  {
    SgrAttr(
      if a.value == 0 then 0
      else if a.kind == Codec.UNDERLINE then UNDERLINE_BIT
      else if a.kind == Codec.STANDOUT then STANDOUT_BIT
      else if a.kind == Codec.BOLD then BOLD_BIT
      else if a.kind == Codec.BLINK then BLINK_BIT
      else 0, 0, 0)
  }

  function IfSet(condition: bool, param: int): seq<int> {
    if condition then [param] else []
  }

  /** Whether an attribute contains a text bit for which the terminal has a code. */
  predicate Wants(a: SgrAttr, bit: bv8, enter: int) {
    a.attr & bit != 0 && enter != 0
  }

  /** The parameters of _fep_sgr_params_from_attr, in the order it lists them. */
  function Params(a: SgrAttr, c: Codes): (ps: seq<int>)
    ensures |ps| <= 6
  {
    IfSet(Wants(a, UNDERLINE_BIT, c.enterUnderline), c.enterUnderline)
    + IfSet(Wants(a, STANDOUT_BIT, c.enterStandout), c.enterStandout)
    + IfSet(Wants(a, BOLD_BIT, c.enterBold), c.enterBold)
    + IfSet(Wants(a, BLINK_BIT, c.enterBlink), c.enterBlink)
    + IfSet(a.foreground != 0, a.foreground)
    + IfSet(a.background != 0, a.background + 10)
  }

  function Tokens(ps: seq<int>): seq<seq<byte>> {
    if ps == [] then [] else [PrintInt(ps[0])] + Tokens(ps[1..])
  }

  lemma {:induction false} TokensAt(ps: seq<int>)
    ensures |Tokens(ps)| == |ps| && forall i :: 0 <= i < |ps| ==> Tokens(ps)[i] == PrintInt(ps[i])
  {
    hide PrintInt;
    if ps != [] {
      TokensAt(ps[1..]);
    }
  }

  lemma TokensAppend(ps: seq<int>, p: int)
    ensures Tokens(ps + [p]) == Tokens(ps) + [PrintInt(p)]
  {
    hide PrintInt;
    TokensAt(ps);
    TokensAt(ps + [p]);
  }

  // ----- parameters to attributes

  /** One round of _fep_sgr_params_to_attr, which uses the attribute types 0, 4, 5 and 6 as bit masks. */
  function Step(r: SgrAttr, p: int, c: Codes): SgrAttr {
    if p == 0 then EMPTY
    else if p == c.enterUnderline then r.(attr := r.attr | 0)
    else if p == c.exitUnderline then r.(attr := r.attr & !0)
    else if p == c.enterStandout then r.(attr := r.attr | 4)
    else if p == c.exitStandout then r.(attr := r.attr & !4)
    else if p == c.enterBold then r.(attr := r.attr | 5)
    else if p == c.enterBlink then r.(attr := r.attr | 6)
    else if p == c.origPair then r.(foreground := 0, background := 0)
    else if p == c.origFore then r.(foreground := 0)
    else if p == c.origBack then r.(background := 0)
    else if p == 22 then r.(attr := r.attr & !5)
    else if p == 25 then r.(attr := r.attr & !6)
    else if 30 <= p <= 37 || 90 <= p <= 97 then r.(foreground := p)
    else if 40 <= p <= 47 || 100 <= p <= 107 then r.(background := p - 10)
    else r
  }

  function Fold(r: SgrAttr, ps: seq<int>, c: Codes): SgrAttr
    decreases |ps|
  {
    if ps == [] then r else Fold(Step(r, ps[0], c), ps[1..], c)
  }

  /** What reading a list of parameters yields. */
  function Read(ps: seq<int>, c: Codes): SgrAttr {
    Fold(EMPTY, ps, c)
  }

  lemma {:induction false} FoldConcat(r: SgrAttr, p: seq<int>, q: seq<int>, c: Codes)
    ensures Fold(r, p + q, c) == Fold(Fold(r, p, c), q, c)
    decreases |p|
  {
    hide Step;
    if p == [] {
      assert p + q == q;
    } else {
      assert (p + q)[1..] == p[1..] + q;
      FoldConcat(Step(r, p[0], c), p[1..], q, c);
    }
  }

  /** A parameter 0 forgets everything before it. */
  lemma ResetForgets(p: seq<int>, q: seq<int>, c: Codes)
    ensures Read(p + [0] + q, c) == Read(q, c)
  {
    FoldConcat(EMPTY, p + [0], q, c);
    FoldConcat(EMPTY, p, [0], c);
    assert Fold(Fold(EMPTY, p, c), [0], c) == Fold(EMPTY, [], c);
  }

  predicate IsCode(p: int, c: Codes) {
    || p == c.enterUnderline || p == c.exitUnderline || p == c.enterStandout || p == c.exitStandout
    || p == c.enterBold || p == c.enterBlink || p == c.origPair || p == c.origFore || p == c.origBack
  }

  /** No colour parameter of the attribute is one of the terminal's own codes. */
  predicate ColoursApart(a: SgrAttr, c: Codes) {
    && (a.foreground != 0 ==> !IsCode(a.foreground, c))
    && (a.background != 0 ==> !IsCode(a.background + 10, c))
  }

  function StepIf(r: SgrAttr, condition: bool, p: int, c: Codes): SgrAttr {
    if condition then Step(r, p, c) else r
  }

  lemma FoldOne(r: SgrAttr, condition: bool, p: int, c: Codes)
    ensures Fold(r, IfSet(condition, p), c) == StepIf(r, condition, p, c)
  {
    hide Step;
    assert Fold(Step(r, p, c), [], c) == Step(r, p, c);
  }

  /** Reading the parameters of an attribute, one after the other. */
  function ReadBack(a: SgrAttr, c: Codes): SgrAttr {
    var r1 := StepIf(EMPTY, Wants(a, UNDERLINE_BIT, c.enterUnderline), c.enterUnderline, c);
    var r2 := StepIf(r1, Wants(a, STANDOUT_BIT, c.enterStandout), c.enterStandout, c);
    var r3 := StepIf(r2, Wants(a, BOLD_BIT, c.enterBold), c.enterBold, c);
    var r4 := StepIf(r3, Wants(a, BLINK_BIT, c.enterBlink), c.enterBlink, c);
    var r5 := StepIf(r4, a.foreground != 0, a.foreground, c);
    StepIf(r5, a.background != 0, a.background + 10, c)
  }

  lemma FoldSix(b: seq<bool>, p: seq<int>, c: Codes)
    requires |b| == |p| == 6
    ensures Fold(EMPTY, IfSet(b[0], p[0]) + IfSet(b[1], p[1]) + IfSet(b[2], p[2]) + IfSet(b[3], p[3])
                        + IfSet(b[4], p[4]) + IfSet(b[5], p[5]), c)
         == StepIf(StepIf(StepIf(StepIf(StepIf(StepIf(EMPTY, b[0], p[0], c), b[1], p[1], c), b[2], p[2], c),
                                 b[3], p[3], c), b[4], p[4], c), b[5], p[5], c)
  {
    hide Step, Fold, IfSet, StepIf;
    var s0, s1, s2, s3, s4, s5 := IfSet(b[0], p[0]), IfSet(b[1], p[1]), IfSet(b[2], p[2]),
                                  IfSet(b[3], p[3]), IfSet(b[4], p[4]), IfSet(b[5], p[5]);
    FoldConcat(EMPTY, s0 + s1 + s2 + s3 + s4, s5, c);
    FoldConcat(EMPTY, s0 + s1 + s2 + s3, s4, c);
    FoldConcat(EMPTY, s0 + s1 + s2, s3, c);
    FoldConcat(EMPTY, s0 + s1, s2, c);
    FoldConcat(EMPTY, s0, s1, c);
    var r0 := StepIf(EMPTY, b[0], p[0], c);
    var r1 := StepIf(r0, b[1], p[1], c);
    var r2 := StepIf(r1, b[2], p[2], c);
    var r3 := StepIf(r2, b[3], p[3], c);
    var r4 := StepIf(r3, b[4], p[4], c);
    FoldOne(EMPTY, b[0], p[0], c);
    FoldOne(r0, b[1], p[1], c);
    FoldOne(r1, b[2], p[2], c);
    FoldOne(r2, b[3], p[3], c);
    FoldOne(r3, b[4], p[4], c);
    FoldOne(r4, b[5], p[5], c);
  }

  lemma ReadIsReadBack(a: SgrAttr, c: Codes)
    ensures Read(Params(a, c), c) == ReadBack(a, c)
  {
    FoldSix([Wants(a, UNDERLINE_BIT, c.enterUnderline), Wants(a, STANDOUT_BIT, c.enterStandout),
             Wants(a, BOLD_BIT, c.enterBold), Wants(a, BLINK_BIT, c.enterBlink),
             a.foreground != 0, a.background != 0],
            [c.enterUnderline, c.enterStandout, c.enterBold, c.enterBlink, a.foreground, a.background + 10], c);
    hide Fold, IfSet, StepIf;
  }

  /** A code that enters a text attribute leaves the colours alone, whatever other code it equals. */
  lemma TextCodeKeepsColours(r: SgrAttr, condition: bool, p: int, c: Codes)
    requires condition ==> p != 0 && p in {c.enterUnderline, c.enterStandout, c.enterBold, c.enterBlink}
    ensures var r1 := StepIf(r, condition, p, c);
            r1.foreground == r.foreground && r1.background == r.background
  {
  }

  /** Reading a foreground parameter and then a background parameter, from no colours. */
  lemma ColourSteps(r: SgrAttr, fore: nat, back: nat, c: Codes)
    requires r.foreground == r.background == 0
    requires (fore == 0 || IsColour(fore)) && (back == 0 || IsColour(back))
    ensures var r2 := StepIf(StepIf(r, fore != 0, fore, c), back != 0, back + 10, c);
            r2.foreground == fore && r2.background == back
            <==> (fore != 0 ==> !IsCode(fore, c)) && (back != 0 ==> !IsCode(back + 10, c))
  {
    if fore != 0 {
      ColourStep(r, fore, c);
    }
    if back != 0 {
      ColourStep(StepIf(r, fore != 0, fore, c), back + 10, c);
    }
  }

  /** A colour parameter that is one of the codes sets no colour; otherwise it sets its own. */
  lemma ColourStep(r: SgrAttr, p: nat, c: Codes)
    requires IsColour(p) || (p >= 10 && IsColour(p - 10))
    ensures IsCode(p, c) ==>
              Step(r, p, c).foreground in {0, r.foreground} && Step(r, p, c).background in {0, r.background}
    ensures !IsCode(p, c) && IsColour(p) ==> Step(r, p, c) == r.(foreground := p)
    ensures !IsCode(p, c) && !IsColour(p) ==> Step(r, p, c) == r.(background := p - 10)
  {
  }

  /** The colours come back exactly when no colour parameter is one of the terminal's own codes. */
  lemma ColoursRoundTrip(a: SgrAttr, c: Codes)
    requires Proper(a)
    ensures var r := Read(Params(a, c), c);
            r.foreground == a.foreground && r.background == a.background
            <==> ColoursApart(a, c)
  {
    ReadIsReadBack(a, c);
    hide Read, Params, Step, StepIf, IsCode;
    var b1, b2 := Wants(a, UNDERLINE_BIT, c.enterUnderline), Wants(a, STANDOUT_BIT, c.enterStandout);
    var b3, b4 := Wants(a, BOLD_BIT, c.enterBold), Wants(a, BLINK_BIT, c.enterBlink);
    var r1 := StepIf(EMPTY, b1, c.enterUnderline, c);
    var r2 := StepIf(r1, b2, c.enterStandout, c);
    var r3 := StepIf(r2, b3, c.enterBold, c);
    var r4 := StepIf(r3, b4, c.enterBlink, c);
    TextCodeKeepsColours(EMPTY, b1, c.enterUnderline, c);
    TextCodeKeepsColours(r1, b2, c.enterStandout, c);
    TextCodeKeepsColours(r2, b3, c.enterBold, c);
    TextCodeKeepsColours(r3, b4, c.enterBlink, c);
    ColourSteps(r4, a.foreground, a.background, c);
  }

  /**
   The text bits come back, next to any colours that do, exactly when there are none, when they are underline
   and bold and the code for bold is looked up as such, or when they are bold and its code is taken for standout's.
   */
  lemma TextBitsRoundTrip(a: SgrAttr, c: Codes)
    requires Proper(a) && ColoursApart(a, c)
    ensures Read(Params(a, c), c).attr == a.attr
            <==> || a.attr == 0
                 || (a.attr == UNDERLINE_BIT | BOLD_BIT
                     && Unlike(c.enterBold, {c.enterUnderline, c.exitUnderline, c.enterStandout, c.exitStandout}))
                 || (a.attr == BOLD_BIT
                     && c.enterBold == c.enterStandout && Unlike(c.enterBold, {c.enterUnderline, c.exitUnderline}))
  {
    ReadIsReadBack(a, c);
    hide Read, Params;
  }

  /** Whether a code is present and none of those looked up before it. */
  predicate Unlike(p: int, earlier: set<int>) {
    p != 0 && p !in earlier
  }

  /** Underline alone is lost: its type, used as a mask, is 0. */
  lemma UnderlineLost(c: Codes)
    ensures Read(Params(SgrAttr(UNDERLINE_BIT, 0, 0), c), c) == EMPTY
  {
    ReadIsReadBack(SgrAttr(UNDERLINE_BIT, 0, 0), c);
  }

  /** Entering an attribute and leaving it again gives what leaving it alone does, and from nothing nothing. */
  predicate Undone(before: seq<int>, enter: int, exit: int, c: Codes) {
    Read(before + [enter, exit], c) == Read(before + [exit], c) && Read([enter, exit], c) == EMPTY
  }

  /** All the codes, which are looked up before the fixed parameters 22 and 25. */
  function AllCodes(c: Codes): set<int> {
    {c.enterUnderline, c.exitUnderline, c.enterStandout, c.exitStandout, c.enterBold, c.enterBlink,
     c.origPair, c.origFore, c.origBack}
  }

  /**
   Whatever was read before, leaving an attribute undoes entering it, as long as the parameter that leaves it
   is not one looked up before, and blink is not entered like bold.
   */
  lemma ExitUndoes(before: seq<int>, c: Codes)
    ensures c.enterUnderline != 0 ==> Undone(before, c.enterUnderline, c.exitUnderline, c)
    ensures c.enterStandout != 0 && Unlike(c.exitStandout, {c.enterUnderline, c.exitUnderline, c.enterStandout}) ==>
              Undone(before, c.enterStandout, c.exitStandout, c)
    ensures c.enterBold != 0 && 22 !in AllCodes(c) ==> Undone(before, c.enterBold, 22, c)
    ensures c.enterBlink !in {0, c.enterBold} && 25 !in AllCodes(c) ==> Undone(before, c.enterBlink, 25, c)
  {
    var r := Read(before, c);
    StepUndoes(r, c);
    StepUndoes(EMPTY, c);
    if c.enterBold != 0 && 22 !in AllCodes(c) {
      BoldUndone(r, c);
      BoldUndone(EMPTY, c);
    }
    if c.enterBlink !in {0, c.enterBold} && 25 !in AllCodes(c) {
      BlinkUndone(r, c);
      BlinkUndone(EMPTY, c);
    }
    ReadTwo(before, c.enterUnderline, c.exitUnderline, c);
    ReadTwo(before, c.enterStandout, c.exitStandout, c);
    ReadTwo(before, c.enterBold, 22, c);
    ReadTwo(before, c.enterBlink, 25, c);
    hide Read, Step;
  }

  lemma StepUndoes(r: SgrAttr, c: Codes)
    ensures c.enterUnderline != 0 ==>
              Step(Step(r, c.enterUnderline, c), c.exitUnderline, c) == Step(r, c.exitUnderline, c)
    ensures c.enterStandout != 0 && Unlike(c.exitStandout, {c.enterUnderline, c.exitUnderline, c.enterStandout}) ==>
              Step(Step(r, c.enterStandout, c), c.exitStandout, c) == Step(r, c.exitStandout, c)
    ensures Step(EMPTY, c.exitUnderline, c) == EMPTY
    ensures Unlike(c.exitStandout, {c.enterStandout}) ==> Step(EMPTY, c.exitStandout, c) == EMPTY
  {
  }

  lemma BoldUndone(r: SgrAttr, c: Codes)
    requires c.enterBold != 0 && 22 !in AllCodes(c)
    ensures Step(Step(r, c.enterBold, c), 22, c) == Step(r, 22, c) && Step(EMPTY, 22, c) == EMPTY
  {
  }

  lemma BlinkUndone(r: SgrAttr, c: Codes)
    requires c.enterBlink !in {0, c.enterBold} && 25 !in AllCodes(c)
    ensures Step(Step(r, c.enterBlink, c), 25, c) == Step(r, 25, c) && Step(EMPTY, 25, c) == EMPTY
  {
  }

  lemma ReadTwo(before: seq<int>, p: int, q: int, c: Codes)
    ensures Read(before + [p, q], c) == Step(Step(Read(before, c), p, c), q, c)
    ensures Read(before + [q], c) == Step(Read(before, c), q, c)
    ensures Read([p, q], c) == Step(Step(EMPTY, p, c), q, c) && Read([p], c) == Step(EMPTY, p, c)
  {
    FoldConcat(EMPTY, before, [p, q], c);
    FoldConcat(EMPTY, before, [q], c);
    FoldTwo(Read(before, c), p, q, c);
    FoldTwo(Read(before, c), q, p, c);
    FoldTwo(EMPTY, p, q, c);
    hide Step;
  }

  /**
   A parameter that is not 0 touches the colours only if it is a code for original colours or a colour parameter,
   and the text bits only if it is a code for text attributes, 22 or 25.
   */
  lemma OthersStay(before: seq<int>, p: int, c: Codes)
    requires p != 0
    ensures var r, r1 := Read(before, c), Read(before + [p], c);
            && (p !in TextCodes(c) && p != 22 && p != 25 ==> r1.attr == r.attr)
            && (p in TextCodes(c) ==> r1.foreground == r.foreground && r1.background == r.background)
            && (!(30 <= p <= 37 || 90 <= p <= 97) && p != c.origPair && p != c.origFore ==>
                  r1.foreground == r.foreground)
            && (!(40 <= p <= 47 || 100 <= p <= 107) && p != c.origPair && p != c.origBack ==>
                  r1.background == r.background)
  {
    hide Read, Step;
    ReadTwo(before, 0, p, c);
    ColoursStay(Read(before, c), p, c);
    BitsStay(Read(before, c), p, c);
  }

  lemma ColoursStay(r: SgrAttr, p: int, c: Codes)
    requires p != 0
    ensures var r1 := Step(r, p, c);
            && (p in TextCodes(c) ==> r1.foreground == r.foreground && r1.background == r.background)
            && (!(30 <= p <= 37 || 90 <= p <= 97) && p != c.origPair && p != c.origFore ==>
                  r1.foreground == r.foreground)
            && (!(40 <= p <= 47 || 100 <= p <= 107) && p != c.origPair && p != c.origBack ==>
                  r1.background == r.background)
  {
  }

  lemma BitsStay(r: SgrAttr, p: int, c: Codes)
    requires p != 0
    ensures p !in TextCodes(c) && p != 22 && p != 25 ==> Step(r, p, c).attr == r.attr
  {
  }

  /** The bits an attribute sets or clears are those of its type, each if its code is not looked up as another. */
  lemma TypesAsBits(before: seq<int>, c: Codes)
    ensures var a := Read(before, c).attr;
            && (Unlike(c.enterStandout, {c.enterUnderline, c.exitUnderline}) ==>
                  Read(before + [c.enterStandout], c).attr == a | (Codec.STANDOUT as bv8))
            && (Unlike(c.enterBold, {c.enterUnderline, c.exitUnderline, c.enterStandout, c.exitStandout}) ==>
                  Read(before + [c.enterBold], c).attr == a | (Codec.BOLD as bv8))
            && (Unlike(c.enterBlink,
                       {c.enterUnderline, c.exitUnderline, c.enterStandout, c.exitStandout, c.enterBold}) ==>
                  Read(before + [c.enterBlink], c).attr == a | (Codec.BLINK as bv8))
    ensures var a := Read(before, c).attr;
            && (Unlike(c.exitUnderline, {}) ==> Read(before + [c.exitUnderline], c).attr == a)
            && (Unlike(c.exitStandout, {c.enterUnderline, c.exitUnderline, c.enterStandout}) ==>
                  Read(before + [c.exitStandout], c).attr == a & !(Codec.STANDOUT as bv8))
            && (22 !in AllCodes(c) ==> Read(before + [22], c).attr == a & !(Codec.BOLD as bv8))
            && (25 !in AllCodes(c) ==> Read(before + [25], c).attr == a & !(Codec.BLINK as bv8))
  {
    hide Read, Step;
    ReadTwo(before, 0, c.enterStandout, c);
    ReadTwo(before, 0, c.enterBold, c);
    ReadTwo(before, 0, c.enterBlink, c);
    ReadTwo(before, 0, c.exitUnderline, c);
    ReadTwo(before, 0, c.exitStandout, c);
    ReadTwo(before, 0, 22, c);
    ReadTwo(before, 0, 25, c);
    EnterSteps(Read(before, c), c);
    ExitSteps(Read(before, c), c);
    FixedSteps(Read(before, c), c);
  }

  lemma EnterSteps(r: SgrAttr, c: Codes)
    ensures Unlike(c.enterStandout, {c.enterUnderline, c.exitUnderline}) ==>
              Step(r, c.enterStandout, c).attr == r.attr | (Codec.STANDOUT as bv8)
    ensures Unlike(c.enterBold, {c.enterUnderline, c.exitUnderline, c.enterStandout, c.exitStandout}) ==>
              Step(r, c.enterBold, c).attr == r.attr | (Codec.BOLD as bv8)
    ensures Unlike(c.enterBlink, {c.enterUnderline, c.exitUnderline, c.enterStandout, c.exitStandout, c.enterBold}) ==>
              Step(r, c.enterBlink, c).attr == r.attr | (Codec.BLINK as bv8)
  {
  }

  lemma ExitSteps(r: SgrAttr, c: Codes)
    ensures Unlike(c.exitUnderline, {}) ==> Step(r, c.exitUnderline, c).attr == r.attr
    ensures Unlike(c.exitStandout, {c.enterUnderline, c.exitUnderline, c.enterStandout}) ==>
              Step(r, c.exitStandout, c).attr == r.attr & !(Codec.STANDOUT as bv8)
  {
  }

  lemma FixedSteps(r: SgrAttr, c: Codes)
    ensures 22 !in AllCodes(c) ==> Step(r, 22, c).attr == r.attr & !(Codec.BOLD as bv8)
    ensures 25 !in AllCodes(c) ==> Step(r, 25, c).attr == r.attr & !(Codec.BLINK as bv8)
  {
  }

  /** Which codes, entering an attribute, show at all: never that of underline. */
  lemma EnterShows(c: Codes)
    ensures Read([c.enterUnderline], c) == EMPTY
    ensures Read([c.enterStandout], c) == EMPTY <==> c.enterStandout in {0, c.enterUnderline, c.exitUnderline}
    ensures Read([c.enterBold], c) == EMPTY
            <==> || c.enterBold in {0, c.enterUnderline, c.exitUnderline}
                 || (c.enterBold == c.exitStandout && c.enterBold != c.enterStandout)
    ensures Read([c.enterBlink], c) == EMPTY
            <==> || c.enterBlink in {0, c.enterUnderline, c.exitUnderline}
                 || (c.enterBlink == c.exitStandout && c.enterBlink != c.enterStandout)
  {
    ReadTwo([], c.enterUnderline, 0, c);
    ReadTwo([], c.enterStandout, 0, c);
    ReadTwo([], c.enterBold, 0, c);
    ReadTwo([], c.enterBlink, 0, c);
    hide Read;
  }

  /** The codes that leave or enter text attributes, which are looked up before those for colours. */
  function TextCodes(c: Codes): set<int> {
    {c.enterUnderline, c.exitUnderline, c.enterStandout, c.exitStandout, c.enterBold, c.enterBlink}
  }

  /**
   The codes for the original colours take away the colours they name and nothing else, whatever was read
   before, each as long as it is not one looked up before it.  A terminal has the first or the other two.
   */
  lemma OriginalColours(before: seq<int>, c: Codes)
    ensures var r := Read(before, c);
            && (Unlike(c.origPair, TextCodes(c)) ==> Read(before + [c.origPair], c) == SgrAttr(r.attr, 0, 0))
            && (Unlike(c.origFore, TextCodes(c) + {c.origPair}) ==>
                  Read(before + [c.origFore], c) == SgrAttr(r.attr, 0, r.background))
            && (Unlike(c.origBack, TextCodes(c) + {c.origPair, c.origFore}) ==>
                  Read(before + [c.origBack], c) == SgrAttr(r.attr, r.foreground, 0))
  {
    ReadTwo(before, 0, c.origPair, c);
    ReadTwo(before, 0, c.origFore, c);
    ReadTwo(before, 0, c.origBack, c);
    hide Read;
  }

  lemma FoldTwo(r: SgrAttr, p: int, q: int, c: Codes)
    ensures Fold(r, [p], c) == Step(r, p, c) && Fold(r, [p, q], c) == Step(Step(r, p, c), q, c)
  {
    hide Step;
    assert [p][1..] == [] && [p, q][1..] == [q] && [q][1..] == [];
    assert Fold(Step(r, p, c), [q], c) == Step(Step(r, p, c), q, c);
  }

  // ----- the loops

  /** The tokens fill the first slots, and the others are NULL. */
  ghost predicate Filled(slots: array<Option<seq<byte>>>, tokens: seq<seq<byte>>)
    reads slots
  {
    && |tokens| <= slots.Length
    && (forall i :: 0 <= i < |tokens| ==> slots[i] == Some(tokens[i]))
    && (forall i :: |tokens| <= i < slots.Length ==> slots[i] == None)
  }

  /** One parameter put in the next free slot, under a condition. */
  method AddParam(slots: array<Option<seq<byte>>>, p: nat, condition: bool, param: int, ghost done: seq<int>)
    returns (p': nat)
    requires p == |done| < slots.Length && Filled(slots, Tokens(done))
    modifies slots
    ensures p' == |done + IfSet(condition, param)| && p <= p' <= p + 1
    ensures Filled(slots, Tokens(done + IfSet(condition, param)))
  {
    hide PrintInt, Tokens;
    p' := p;
    TokensAt(done);
    TokensAppend(done, param);
    assert done + [] == done;
    if condition {
      slots[p] := Some(PrintInt(param));
      p' := p + 1;
    }
  }

  lemma NoParams(c: Codes)
    ensures Params(EMPTY, c) == [] && Tokens([]) == []
  {
  }

  /** The six parameters, each under its condition, put into an empty vector. */
  method AddParams(slots: array<Option<seq<byte>>>, b: seq<bool>, p: seq<int>)
    requires |b| == |p| == 6 && slots.Length == 7 && Filled(slots, Tokens([]))
    modifies slots
    ensures var ps := IfSet(b[0], p[0]) + IfSet(b[1], p[1]) + IfSet(b[2], p[2]) + IfSet(b[3], p[3])
                      + IfSet(b[4], p[4]) + IfSet(b[5], p[5]);
            |Tokens(ps)| <= 6 && Filled(slots, Tokens(ps))
  {
    hide Tokens, PrintInt, Filled, IfSet;
    ghost var s := IfSet(b[0], p[0]);
    assert [] + s == s;
    var k := AddParam(slots, 0, b[0], p[0], []);
    k := AddParam(slots, k, b[1], p[1], s);
    s := s + IfSet(b[1], p[1]);
    k := AddParam(slots, k, b[2], p[2], s);
    s := s + IfSet(b[2], p[2]);
    k := AddParam(slots, k, b[3], p[3], s);
    s := s + IfSet(b[3], p[3]);
    k := AddParam(slots, k, b[4], p[4], s);
    s := s + IfSet(b[4], p[4]);
    k := AddParam(slots, k, b[5], p[5], s);
    s := s + IfSet(b[5], p[5]);
    TokensAt(s);
  }

  /** _fep_sgr_params_from_attr: a vector of seven slots always has room for the parameters and a NULL. */
  method ParamsFromAttr(a: SgrAttr, c: Codes) returns (slots: array<Option<seq<byte>>>)
    ensures fresh(slots) && slots.Length == 7
    ensures |Tokens(Params(a, c))| < slots.Length && Filled(slots, Tokens(Params(a, c)))
  {
    hide Tokens, PrintInt, Wants, Filled, IfSet, Params;
    slots := new Option<seq<byte>>[7](_ => None);
    NoParams(c);
    NothingFilled(slots);
    if a != EMPTY {
      var conditions := [Wants(a, UNDERLINE_BIT, c.enterUnderline), Wants(a, STANDOUT_BIT, c.enterStandout),
                         Wants(a, BOLD_BIT, c.enterBold), Wants(a, BLINK_BIT, c.enterBlink),
                         a.foreground != 0, a.background != 0];
      var params: seq<int> := [c.enterUnderline, c.enterStandout, c.enterBold, c.enterBlink,
                               a.foreground, a.background + 10];
      ParamsInOrder(a, c, conditions, params);
      AddParams(slots, conditions, params);
    }
  }

  lemma ParamsInOrder(a: SgrAttr, c: Codes, b: seq<bool>, p: seq<int>)
    requires b == [Wants(a, UNDERLINE_BIT, c.enterUnderline), Wants(a, STANDOUT_BIT, c.enterStandout),
                   Wants(a, BOLD_BIT, c.enterBold), Wants(a, BLINK_BIT, c.enterBlink),
                   a.foreground != 0, a.background != 0]
    requires p == [c.enterUnderline, c.enterStandout, c.enterBold, c.enterBlink, a.foreground, a.background + 10]
    ensures Params(a, c) == IfSet(b[0], p[0]) + IfSet(b[1], p[1]) + IfSet(b[2], p[2]) + IfSet(b[3], p[3])
                            + IfSet(b[4], p[4]) + IfSet(b[5], p[5])
  {
    hide Wants, IfSet;
  }

  lemma NothingFilled(slots: array<Option<seq<byte>>>)
    requires forall i :: 0 <= i < slots.Length ==> slots[i] == None
    ensures Filled(slots, Tokens([]))
  {
  }

  /** The numbers of the tokens, if all of them are numbers. */
  function Values(tokens: seq<seq<byte>>): Option<seq<int>> {
    if tokens == [] then Some([])
    else
      match (ToInt(tokens[0]), Values(tokens[1..]))
      case (Some(n), Some(ns)) => Some([n] + ns)
      case _ => None
  }

  /** _fep_sgr_params_to_attr; a token that is not a number fails an assertion. */
  method ParamsToAttr(tokens: seq<seq<byte>>, c: Codes) returns (aborted: bool, r: SgrAttr)
    ensures aborted <==> Values(tokens) == None
    ensures !aborted ==> r == Read(Values(tokens).value, c)
  {
    hide Step, ToInt;
    r := EMPTY;
    var rest := tokens;
    while rest != []
      invariant Values(tokens) == None <==> Values(rest) == None
      invariant Values(rest).Some? ==> Read(Values(tokens).value, c) == Fold(r, Values(rest).value, c)
      decreases |rest|
    {
      var param := ToInt(rest[0]);
      if param == None {
        return true, r;
      }
      if Values(rest).Some? {
        assert Values(rest).value[1..] == Values(rest[1..]).value;
      }
      r, rest := Step(r, param.value, c), rest[1..];
    }
    aborted := false;
  }
}
