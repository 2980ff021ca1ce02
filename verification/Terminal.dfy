/**
 A terminal, as far as its display is concerned: a machine that takes bytes one at a time and shows
 each printed byte with the rendition in force.  It knows nothing of the code that writes to it.
 Escape sequences have the forms of section 5.4 of ECMA-48 and of ISO/IEC 2022.
 */
module Terminal {
  import opened Bytes
  import opened Sgr
  import opened Numbers
  import Csi
  import Strings

  /**
   Outside any sequence; after ESC; after ESC and intermediate bytes; or inside a control sequence,
   with the parameters finished, the one being read, and whether only digits and ";" were seen.
   */
  datatype Mode = Ground | Escape | Designating | Control(params: seq<nat>, current: nat, plain: bool)

  /** The rendition in force is `pen`; `cells` are the bytes shown so far. */
  datatype Term = Term(mode: Mode, pen: SgrAttr, cells: seq<(byte, SgrAttr)>)

  const SGR: byte := 0x6d

  /** What one SGR parameter does to the rendition. */
  function Render(pen: SgrAttr, p: int, c: Codes): SgrAttr {
    if p == 0 then EMPTY
    else if p == c.enterUnderline then pen.(attr := pen.attr | UNDERLINE_BIT)
    else if p == c.enterStandout then pen.(attr := pen.attr | STANDOUT_BIT)
    else if p == c.enterBold then pen.(attr := pen.attr | BOLD_BIT)
    else if p == c.enterBlink then pen.(attr := pen.attr | BLINK_BIT)
    else if p >= 0 && IsColour(p) then pen.(foreground := p)
    else if p >= 10 && IsColour(p - 10) then pen.(background := p - 10)
    else pen
  }

  function RenderAll(pen: SgrAttr, ps: seq<int>, c: Codes): SgrAttr
    decreases |ps|
  {
    if ps == [] then pen else RenderAll(Render(pen, ps[0], c), ps[1..], c)
  }

  function Feed(t: Term, b: byte, c: Codes): Term {
    match t.mode
    case Ground =>
      if b == Csi.ESC then t.(mode := Escape) else t.(cells := t.cells + [(b, t.pen)])
    case Escape =>
      if b == Csi.BRACKET then t.(mode := Control([], 0, true))
      else if b == Csi.ESC then t
      else if Csi.IsIntermediate(b) then t.(mode := Designating)
      else t.(mode := Ground)
    case Designating =>
      if Csi.IsIntermediate(b) then t else t.(mode := Ground)
    case Control(params, current, plain) =>
      if IsDigit(b) then t.(mode := Control(params, current * 10 + (b - 0x30), plain))
      else if b == Csi.SEMICOLON then t.(mode := Control(params + [current], 0, plain))
      else if Csi.IsParam(b) || Csi.IsIntermediate(b) then t.(mode := Control(params, current, false))
      else if b == SGR && plain then t.(mode := Ground, pen := RenderAll(t.pen, params + [current], c))
      else t.(mode := Ground)
  }

  function Show(t: Term, s: seq<byte>, c: Codes): Term
    decreases |s|
  {
    if s == [] then t else Show(Feed(t, s[0], c), s[1..], c)
  }

  lemma {:induction false} ShowConcat(t: Term, a: seq<byte>, b: seq<byte>, c: Codes)
    ensures Show(t, a + b, c) == Show(Show(t, a, c), b, c)
    decreases |a|
  {
    hide Feed;
    if a == [] {
      assert a + b == b;
    } else {
      assert (a + b)[1..] == a[1..] + b;
      ShowConcat(Feed(t, a[0], c), a[1..], b, c);
    }
  }

  // ----- text

  /** The bytes of a text, each shown with the same rendition. */
  function Shown(s: seq<byte>, pen: SgrAttr): seq<(byte, SgrAttr)> {
    seq(|s|, i requires 0 <= i < |s| => (s[i], pen))
  }

  lemma {:induction false} ShowText(t: Term, s: seq<byte>, c: Codes)
    requires t.mode == Ground && Csi.ESC !in s
    ensures Show(t, s, c) == t.(cells := t.cells + Shown(s, t.pen))
    decreases |s|
  {
    if s == [] {
      assert t.cells + Shown(s, t.pen) == t.cells;
    } else {
      var t1 := Feed(t, s[0], c);
      ShowText(t1, s[1..], c);
      assert Shown(s, t.pen) == [(s[0], t.pen)] + Shown(s[1..], t.pen);
      Assoc(t.cells, [(s[0], t.pen)], Shown(s[1..], t.pen));
    }
  }

  // ----- SGR sequences

  /** The number read so far, after some more digits. */
  function AfterDigits(n: nat, s: seq<byte>): nat
    requires AllDigits(s)
  {
    if s == [] then n else AfterDigits(n, s[..|s| - 1]) * 10 + (s[|s| - 1] - 0x30)
  }

  lemma {:induction false} AfterDigitsValue(s: seq<byte>)
    requires AllDigits(s)
    ensures AfterDigits(0, s) == ValueOf(s)
  {
    if s != [] {
      AfterDigitsValue(s[..|s| - 1]);
    }
  }

  lemma {:induction false} ShowDigits(t: Term, s: seq<byte>, c: Codes)
    requires t.mode.Control? && AllDigits(s)
    ensures Show(t, s, c)
         == t.(mode := Control(t.mode.params, AfterDigits(t.mode.current, s), t.mode.plain))
  {
    if s != [] {
      var a, b := s[..|s| - 1], s[|s| - 1];
      assert s == a + [b];
      ShowConcat(t, a, [b], c);
      ShowDigits(t, a, c);
      var t1 := Show(t, a, c);
      assert Show(Feed(t1, b, c), [], c) == Feed(t1, b, c);
    }
  }

  lemma ShowNumber(t: Term, n: nat, c: Codes)
    requires t.mode.Control? && t.mode.current == 0
    ensures Show(t, Print(n), c) == t.(mode := Control(t.mode.params, n, t.mode.plain))
  {
    PrintRoundTrip(n);
    hide Print;
    ShowDigits(t, Print(n), c);
    AfterDigitsValue(Print(n));
  }

  /** The tokens of a list of parameters. */
  function Printed(ps: seq<nat>): seq<seq<byte>> {
    if ps == [] then [] else [Print(ps[0])] + Printed(ps[1..])
  }

  /** The bytes of an SGR sequence: ESC [ parameters m. */
  function SgrBytes(ps: seq<nat>): seq<byte> {
    Csi.Format(Csi.Csi(Strings.Join(Printed(ps), [Csi.SEMICOLON]), [], SGR))
  }

  lemma ShowByte(t: Term, b: byte, c: Codes)
    ensures Show(t, [b], c) == Feed(t, b, c)
  {
    hide Feed;
    assert Show(Feed(t, b, c), [], c) == Feed(t, b, c);
  }

  /** The parameters are taken one by one; an absent list counts as a single 0. */
  lemma {:induction false} ShowParams(t: Term, ps: seq<nat>, c: Codes)
    requires t.mode.Control? && t.mode.current == 0 && t.mode.plain
    ensures Show(t, Strings.Join(Printed(ps), [Csi.SEMICOLON]) + [SGR], c)
         == t.(mode := Ground, pen := RenderAll(t.pen, t.mode.params + (if ps == [] then [0] else ps), c))
    decreases |ps|
  {
    hide RenderAll, Print, Strings.Join;
    var done := t.mode.params;
    if ps == [] {
      Strings.JoinSmall([], [Csi.SEMICOLON]);
      assert [] + [SGR] == [SGR];
      ShowByte(t, SGR, c);
    } else {
      var n, rest := ps[0], ps[1..];
      Strings.JoinCons(Print(n), Printed(rest), [Csi.SEMICOLON]);
      ShowNumber(t, n, c);
      var t1 := Show(t, Print(n), c);
      if rest == [] {
        ShowConcat(t, Print(n), [SGR], c);
        ShowByte(t1, SGR, c);
        assert ps == [n];
      } else {
        var tail := Strings.Join(Printed(rest), [Csi.SEMICOLON]) + [SGR];
        Assoc(Print(n) + [Csi.SEMICOLON], Strings.Join(Printed(rest), [Csi.SEMICOLON]), [SGR]);
        Assoc(Print(n), [Csi.SEMICOLON], tail);
        ShowConcat(t, Print(n), [Csi.SEMICOLON] + tail, c);
        ShowConcat(t1, [Csi.SEMICOLON], tail, c);
        ShowByte(t1, Csi.SEMICOLON, c);
        var t2 := Feed(t1, Csi.SEMICOLON, c);
        ShowParams(t2, rest, c);
        assert ps == [n] + rest;
        Assoc(done, [n], rest);
      }
    }
  }

  /** An SGR sequence changes the rendition by its parameters, or resets it if it has none. */
  lemma ShowSgr(t: Term, ps: seq<nat>, c: Codes)
    requires t.mode == Ground
    ensures Show(t, SgrBytes(ps), c) == t.(pen := RenderAll(t.pen, if ps == [] then [0] else ps, c))
  {
    hide RenderAll, Print, Strings.Join;
    var params := Strings.Join(Printed(ps), [Csi.SEMICOLON]);
    var t1, t2 := t.(mode := Escape), t.(mode := Control([], 0, true));
    assert SgrBytes(ps) == [Csi.ESC] + ([Csi.BRACKET] + (params + [SGR]));
    ShowConcat(t, [Csi.ESC], [Csi.BRACKET] + (params + [SGR]), c);
    ShowByte(t, Csi.ESC, c);
    ShowConcat(t1, [Csi.BRACKET], params + [SGR], c);
    ShowByte(t1, Csi.BRACKET, c);
    ShowParams(t2, ps, c);
    assert [] + (if ps == [] then [0] else ps) == if ps == [] then [0] else ps;
  }

  // ----- sequences without effect

  predicate IsBodyByte(b: byte) {
    Csi.IsParam(b) || Csi.IsIntermediate(b)
  }

  predicate IsPlainByte(b: byte) {
    IsDigit(b) || b == Csi.SEMICOLON
  }

  lemma {:induction false} ShowBody(t: Term, s: seq<byte>, c: Codes)
    requires t.mode.Control? && forall b :: b in s ==> IsBodyByte(b)
    ensures var t1 := Show(t, s, c);
            && t1.mode.Control? && t1.pen == t.pen && t1.cells == t.cells
            && (t1.mode.plain ==> t.mode.plain && forall b :: b in s ==> IsPlainByte(b))
    decreases |s|
  {
    if s != [] {
      assert s[0] in s && forall b :: b in s[1..] ==> b in s;
      ShowBody(Feed(t, s[0], c), s[1..], c);
      assert s == [s[0]] + s[1..];
    }
  }

  /** A control sequence whose parameters are not just numbers has no effect. */
  lemma ShowSpoiled(t: Term, body: seq<byte>, c: Codes)
    requires t.mode == Ground && (forall b :: b in body ==> IsBodyByte(b))
    requires exists b :: b in body && !IsPlainByte(b)
    ensures Show(t, [Csi.ESC, Csi.BRACKET] + body + [SGR], c) == t
  {
    var t1, t2 := t.(mode := Escape), t.(mode := Control([], 0, true));
    assert [Csi.ESC, Csi.BRACKET] + body + [SGR] == [Csi.ESC] + ([Csi.BRACKET] + (body + [SGR]));
    ShowConcat(t, [Csi.ESC], [Csi.BRACKET] + (body + [SGR]), c);
    ShowByte(t, Csi.ESC, c);
    ShowConcat(t1, [Csi.BRACKET], body + [SGR], c);
    ShowByte(t1, Csi.BRACKET, c);
    ShowBody(t2, body, c);
    ShowConcat(t2, body, [SGR], c);
    ShowByte(Show(t2, body, c), SGR, c);
  }

  lemma {:induction false} RenderConcat(pen: SgrAttr, p: seq<int>, q: seq<int>, c: Codes)
    ensures RenderAll(pen, p + q, c) == RenderAll(RenderAll(pen, p, c), q, c)
    decreases |p|
  {
    hide Render;
    if p == [] {
      assert p + q == q;
    } else {
      assert (p + q)[1..] == p[1..] + q;
      RenderConcat(Render(pen, p[0], c), p[1..], q, c);
    }
  }
}
