/** Keys and the bytes of the terminal: decoding and encoding in fep/key.c, and the key loop of fep/fep.c. */
module Keys {
  import opened Bytes
  import opened Csi
  import opened Numbers
  import Strings

  const SHIFT := 0x1
  const CONTROL := 0x4
  const META := 0x1000_0000

  const BACKSPACE := 0xff08
  const TAB := 0xff09
  const RETURN := 0xff0d
  const ESCAPE := 0xff1b
  const HOME := 0xff50
  const LEFT := 0xff51
  const UP := 0xff52
  const RIGHT := 0xff53
  const DOWN := 0xff54
  const PRIOR := 0xff55
  const NEXT := 0xff56
  const END := 0xff57
  const INSERT := 0xff63
  const F1 := 0xffbe
  const DELETE := 0xffff

  /** Whether a modifier word contains the bit `mask`, a power of two. */
  predicate HasBit(state: nat, mask: nat)
    requires mask > 0
  {
    state / mask % 2 == 1
  }

  // ----- the tables

  /** cursor_keyvals. */
  const CURSOR_KEYS: seq<(byte, nat)> :=
    [(0x41, UP), (0x42, DOWN), (0x43, RIGHT), (0x44, LEFT), (0x46, END), (0x48, HOME)]

  /** The capabilities of cap_keyvals, in order. */
  const CAP_NAMES: seq<string> :=
    ["key_backspace", "key_dc", "key_ppage", "key_npage", "key_home", "key_end", "key_ic",
     "key_f1", "key_f2", "key_f3", "key_f4", "key_f5", "key_f6", "key_f7", "key_f8", "key_f9",
     "key_f10", "key_f11", "key_f12"]

  /** Their keys: the terminfo strings that go with them are a parameter. */
  const CAP_KEYS: seq<nat> :=
    [BACKSPACE, DELETE, PRIOR, NEXT, HOME, END, INSERT,
     F1, F1 + 1, F1 + 2, F1 + 3, F1 + 4, F1 + 5, F1 + 6, F1 + 7, F1 + 8, F1 + 9, F1 + 10, F1 + 11]

  /** The strings of the capabilities of cap_keyvals; some terminals lack some. */
  type Caps = c: seq<Option<seq<byte>>> | |c| == |CAP_KEYS| witness seq(|CAP_KEYS|, _ => None)

  function CursorKey(final: byte): Option<nat> {
    if final == 0x41 then Some(UP)
    else if final == 0x42 then Some(DOWN)
    else if final == 0x43 then Some(RIGHT)
    else if final == 0x44 then Some(LEFT)
    else if final == 0x46 then Some(END)
    else if final == 0x48 then Some(HOME)
    else None
  }

  function CursorFinal(key: nat): Option<byte> {
    if key == UP then Some(0x41)
    else if key == DOWN then Some(0x42)
    else if key == RIGHT then Some(0x43)
    else if key == LEFT then Some(0x44)
    else if key == END then Some(0x46)
    else if key == HOME then Some(0x48)
    else None
  }

  /** The first capability from i on whose string the sequence begins with. */
  function MatchingCap(s: seq<byte>, caps: Caps, i: nat): (r: Option<nat>)
    requires i <= |CAP_KEYS|
    ensures r.Some? ==> r.value < |CAP_KEYS|
    decreases |CAP_KEYS| - i
  {
    if i == |CAP_KEYS| then None
    else if caps[i].Some? && caps[i].value <= s then Some(i)
    else MatchingCap(s, caps, i + 1)
  }

  /** The first entry from i on for a key. */
  function CapOf(key: nat, i: nat): (r: Option<nat>)
    requires i <= |CAP_KEYS|
    ensures r.Some? ==> r.value < |CAP_KEYS|
    decreases |CAP_KEYS| - i
  {
    if i == |CAP_KEYS| then None
    else if CAP_KEYS[i] == key then Some(i)
    else CapOf(key, i + 1)
  }

  // ----- decoding

  /** A decoded key with the number of bytes it took; no key; or the failing assertion on a bad parameter. */
  datatype KeyResult = Recognised(key: nat, modifiers: nat, len: nat) | Unrecognised | Aborts

  /** _fep_get_state_from_cursor: the second of two parameters; nothing when it is not a number. */
  function CursorState(csi: Csi): Option<nat> {
    var params := Strings.Split(csi.params, [SEMICOLON]);
    if |params| != 2 then Some(0)
    else
      match ToInt(params[1])
      case None => None
      case Some(param) => Some(if param == 2 then SHIFT else if param == 5 then CONTROL else 0)
  }

  function CursorResult(csi: Csi, key: nat, len: nat): KeyResult {
    match CursorState(csi)
    case None => Aborts
    case Some(state) => Recognised(key, state, len)
  }

  /** _fep_csi_to_key. */
  function CsiToKey(csi: Csi, caps: Caps, len: nat): KeyResult {
    match CursorKey(csi.final)
    case Some(key) => CursorResult(csi, key, len)
    case None =>
      match MatchingCap(Format(csi), caps, 0)
      case Some(i) => Recognised(CAP_KEYS[i], 0, len)
      case None => Unrecognised
  }

  /** _fep_esc_to_key: ESC O and ESC o introduce cursor keys only, ESC [ any key. */
  function EscToKey(s: seq<byte>, caps: Caps): (r: KeyResult)
    ensures r.Recognised? ==> 3 <= r.len <= |s|
  {
    match Parse(s, 0x4f)
    case Some((csi, n)) =>
      if CursorKey(csi.final).Some? then CursorResult(csi, CursorKey(csi.final).value, n) else Unrecognised
    case None =>
      match Parse(s, 0x6f)
      case Some((csi, n)) =>
        if 0x61 <= csi.final <= 0x64 then
          CursorResult(csi.(final := csi.final - 0x20), CursorKey(csi.final - 0x20).value, n)
        else Unrecognised
      case None =>
        match Parse(s, BRACKET)
        case Some((csi, n)) => CsiToKey(csi, caps, n)
        case None => Unrecognised
  }

  /** _fep_char_to_key: the key and modifiers of a single byte. */
  function CharToKey(b: byte): (nat, nat) {
    var meta := if b >= 0x80 then META else 0;
    var c := b % 0x80;
    if c == 0 then (0x20, meta + CONTROL)
    else if c == 0x09 then (TAB, meta)
    else if c == 0x0d then (RETURN, meta)
    else if c == 0x1b then (ESCAPE, meta)
    else if c == 0x7f then (BACKSPACE, meta)
    else if c <= 26 then (c + 0x60, meta + CONTROL)
    else if 28 <= c <= 31 then (c + 0x40, meta + CONTROL)
    else if 0x41 <= c <= 0x5a then (c, meta + SHIFT)
    else (c, 0)
  }

  // ----- encoding

  /** The parameters of an encoded cursor key: "0;2", "0;5" or none. */
  function CursorParams(state: nat): seq<byte> {
    if HasBit(state, SHIFT) then [0x30, SEMICOLON] + Print(2)
    else if HasBit(state, CONTROL) then [0x30, SEMICOLON] + Print(5)
    else []
  }

  predicate IsCursorCase(key: nat) {
    key == LEFT || key == UP || key == RIGHT || key == DOWN || key == DELETE || key == HOME || key == END
  }

  /** The byte of an ordinary key, if there is one. */
  function PlainByte(key: nat, state: nat): seq<byte> {
    if HasBit(state, CONTROL) then
      if 0x61 <= key <= 0x7a then [key - 0x60]
      else if 0x5c <= key <= 0x5f then [key - 0x40]
      else []
    else if HasBit(state, SHIFT) then
      if 0x61 <= key <= 0x7a then [key - 0x20]
      else if 0x21 <= key <= 0x7e then [key]
      else []
    else if 0x21 <= key <= 0x7e then [key]
    else []
  }

  /** _fep_key_to_string; an empty result stands for the NULL it then returns. */
  function KeyToString(key: nat, state: nat, caps: Caps): seq<byte> {
    if IsCursorCase(key) then Format(Csi(CursorParams(state), [], CursorFinal(key).GetOr(0)))
    else if key == 0x20 then [if HasBit(state, CONTROL) then 0 else 0x20]
    else if key == RETURN then [0x0d]
    else if key == BACKSPACE then [0x7f]
    else if key == ESCAPE then [0x1b]
    else if key == TAB then [0x09]
    else
      var plain := PlainByte(key, state);
      if plain != [] then plain
      else
        match CapOf(key, 0)
        case Some(i) => caps[i].GetOr([])
        case None => []
  }

  // ----- decoding undoes encoding

  /** The one modifier the encoding of a cursor key keeps. */
  function KeptModifier(state: nat): nat {
    if HasBit(state, SHIFT) then SHIFT else if HasBit(state, CONTROL) then CONTROL else 0
  }

  lemma NoParamsState(final: byte)
    ensures CursorState(Csi([], [], final)) == Some(0)
  {
    assert Strings.Split([], [SEMICOLON]) == [];
  }

  /** The parameters "0;2" and "0;5". */
  lemma TwoParamsState(n: nat, final: byte)
    requires n == 2 || n == 5
    ensures CursorState(Csi([0x30, SEMICOLON] + Print(n), [], final)) == Some(if n == 2 then SHIFT else CONTROL)
    ensures All(IsParam, [0x30, SEMICOLON] + Print(n))
  {
    PrintToInt(n);
    assert Print(n) == [0x30 + n];
    hide Print, ToInt, Strings.Split;
    var params := [0x30, SEMICOLON] + Print(n);
    assert params == Strings.Join([[0x30], Print(n)], [SEMICOLON]);
    Strings.SplitJoin([[0x30], Print(n)], SEMICOLON);
  }

  lemma CursorParamsState(state: nat, final: byte)
    ensures All(IsParam, CursorParams(state))
    ensures CursorState(Csi(CursorParams(state), [], final)) == Some(KeptModifier(state))
  {
    hide HasBit, Print, CursorState;
    NoParamsState(final);
    TwoParamsState(2, final);
    TwoParamsState(5, final);
  }

  /**
   Decoding an encoded cursor key, whatever follows, takes exactly the encoding and returns the key
   with Shift if it was set, else Control if it was set, else nothing; and so for every key encoded
   as a cursor key but Delete, which has no final byte.
   */
  lemma CursorRoundTrip(key: nat, state: nat, caps: Caps, t: seq<byte>)
    requires IsCursorCase(key)
    ensures var u := KeyToString(key, state, caps);
            EscToKey(u + t, caps) == Recognised(key, KeptModifier(state), |u|) <==> key != DELETE
  {
    hide HasBit, Span, Parse, Print;
    var csi := Csi(CursorParams(state), [], CursorFinal(key).GetOr(0));
    CursorParamsState(state, csi.final);
    SpanWhole(IsParam, csi.params);
    SpanWhole(IsIntermediate, csi.intermediate);
    var s := Format(csi) + t;
    OtherIntroducer(s, 0x4f);
    OtherIntroducer(s, 0x6f);
    if key == DELETE {
      if Parse(s, BRACKET).Some? {
        ParseParts(s, BRACKET);
        assert Format(csi) == [ESC, BRACKET] + csi.params;
        LongerThanParams(csi.params, t);
      }
    } else {
      ParseFormat(csi, t);
    }
  }

  /** The modifier in the parameters of a cursor key: that of the second of two. */
  lemma CursorModifier(first: seq<byte>, n: nat, final: byte)
    requires SEMICOLON !in first && n < 0x8000_0000
    ensures CursorState(Csi(first + [SEMICOLON] + Print(n), [], final))
         == Some(if n == 2 then SHIFT else if n == 5 then CONTROL else 0)
    ensures CursorState(Csi(first, [], final)) == Some(0)
  {
    PrintToInt(n);
    PrintRoundTrip(n);
    hide Print, ToInt, Strings.Split, Strings.Cuts, Strings.Find;
    var params := first + [SEMICOLON] + Print(n);
    assert SEMICOLON !in Print(n);
    assert Strings.Join([first, Print(n)], [SEMICOLON]) == params by {
      assert [first, Print(n)][1..] == [Print(n)];
    }
    Strings.SplitJoin([first, Print(n)], SEMICOLON);
    OneToken(first);
  }

  /** A second parameter that is no number fails the assertion. */
  lemma NoModifier(first: seq<byte>, second: seq<byte>, final: byte)
    requires SEMICOLON !in first && SEMICOLON !in second && !AllDigits(second)
    ensures CursorState(Csi(first + [SEMICOLON] + second, [], final)) == None
  {
    hide ValueOf, Strings.Split, Strings.Cuts, Strings.Find;
    var params := first + [SEMICOLON] + second;
    assert Strings.Join([first, second], [SEMICOLON]) == params by {
      assert [first, second][1..] == [second];
    }
    Strings.SplitJoin([first, second], SEMICOLON);
  }

  lemma OneToken(first: seq<byte>)
    requires SEMICOLON !in first
    ensures |Strings.Split(first, [SEMICOLON])| <= 1
  {
    if first == [] {
      assert Strings.Split([], [SEMICOLON]) == [];
    } else {
      hide Strings.Split, Strings.Cuts, Strings.Find;
      assert Strings.Join([first], [SEMICOLON]) == first;
      Strings.SplitJoin([first], SEMICOLON);
    }
  }

  /**
   The cursor keys of a terminal in application mode, introduced by ESC O, are decoded like those introduced by
   ESC [, whatever follows.
   */
  lemma ApplicationRoundTrip(key: nat, state: nat, caps: Caps, t: seq<byte>)
    requires IsCursorCase(key) && key != DELETE
    ensures var u := [ESC, 0x4f] + KeyToString(key, state, caps)[2..];
            EscToKey(u + t, caps) == Recognised(key, KeptModifier(state), |u|)
  {
    hide EscToKey, KeyToString, HasBit, Print, CursorFinal, CursorKey, CursorParams;
    ApplicationBytes(key, state, caps);
    CursorParamsState(state, CursorFinal(key).value);
    ApplicationDecoded(key, Csi(CursorParams(state), [], CursorFinal(key).value), KeptModifier(state), caps, t);
  }

  lemma ApplicationBytes(key: nat, state: nat, caps: Caps)
    requires IsCursorCase(key) && key != DELETE
    ensures CursorFinal(key).Some? && CursorFinal(key).value != 0 && CursorKey(CursorFinal(key).value) == Some(key)
    ensures KeyToString(key, state, caps)[2..] == CursorParams(state) + [CursorFinal(key).value]
  {
    hide HasBit, Print;
  }

  lemma ApplicationDecoded(key: nat, csi: Csi, state: nat, caps: Caps, t: seq<byte>)
    requires All(IsParam, csi.params) && csi.intermediate == [] && CursorKey(csi.final) == Some(key)
    requires CursorState(csi) == Some(state)
    ensures var u := [ESC, 0x4f] + (csi.params + [csi.final]); EscToKey(u + t, caps) == Recognised(key, state, |u|)
  {
    SpanWhole(IsParam, csi.params);
    SpanWhole(IsIntermediate, csi.intermediate);
    hide Span, Parse, CursorState;
    assert Parsable(csi);
    ParsePrinted(csi, 0x4f, t);
    assert [ESC, 0x4f] + (csi.params + [csi.final]) == [ESC, 0x4f] + csi.params + csi.intermediate + [csi.final];
  }

  /** Behind ESC O nothing is recognised but what ends in one of A, B, C, D, F and H. */
  lemma ApplicationFinals(s: seq<byte>, caps: Caps)
    requires Parse(s, 0x4f).Some?
    ensures var f := s[Parse(s, 0x4f).value.1 - 1];
            EscToKey(s, caps) == Unrecognised <==> f !in {0x41, 0x42, 0x43, 0x44, 0x46, 0x48}
  {
    ParseBytes(s, 0x4f);
    hide Parse, CursorState;
    var (csi, n) := Parse(s, 0x4f).value;
    assert s[..n][n - 1] == csi.final;
  }

  /** The arrow keys introduced by ESC o end in the lower-case letter, and are decoded like the others. */
  lemma LowerCaseRoundTrip(i: nat, state: nat, caps: Caps, t: seq<byte>)
    requires i < 4
    ensures var key, final := [UP, DOWN, RIGHT, LEFT][i], [0x61, 0x62, 0x63, 0x64][i];
            var s := KeyToString(key, state, caps);
            var u := [ESC, 0x6f] + s[2..|s| - 1] + [final];
            EscToKey(u + t, caps) == Recognised(key, KeptModifier(state), |u|)
  {
    var key, final: byte := [UP, DOWN, RIGHT, LEFT][i], [0x61, 0x62, 0x63, 0x64][i];
    assert final == 0x61 + i && CursorKey(final - 0x20) == Some(key) && CursorFinal(key) == Some(final - 0x20);
    hide HasBit, Span, Parse, Print, CursorKey, CursorFinal;
    var csi := Csi(CursorParams(state), [], final);
    CursorParamsState(state, final - 0x20);
    SpanWhole(IsParam, csi.params);
    SpanWhole(IsIntermediate, csi.intermediate);
    ParsePrinted(csi, 0x6f, t);
    var s := KeyToString(key, state, caps);
    assert s == [ESC, BRACKET] + csi.params + [] + [final - 0x20];
    assert s[2..|s| - 1] == csi.params;
    var u := [ESC, 0x6f] + csi.params + csi.intermediate + [final];
    assert u == [ESC, 0x6f] + s[2..|s| - 1] + [final];
    OtherIntroducer(u + t, 0x4f);
  }

  /** Behind ESC o nothing is recognised but what ends in one of a, b, c and d. */
  lemma LowerCaseFinals(s: seq<byte>, caps: Caps)
    requires Parse(s, 0x6f).Some?
    ensures var f := s[Parse(s, 0x6f).value.1 - 1];
            EscToKey(s, caps) == Unrecognised <==> f !in {0x61, 0x62, 0x63, 0x64}
  {
    ParseBytes(s, 0x6f);
    OtherIntroducer(s, 0x4f);
    assert forall f: byte :: 0x41 <= f <= 0x44 ==> CursorKey(f).Some?;
    assert s[1] == 0x6f;
    hide Parse, CursorState;
    var (csi, n) := Parse(s, 0x6f).value;
    assert s[..n][n - 1] == csi.final;
  }

  /** A single control sequence introduced by ESC [ that does not end like a cursor key. */
  ghost predicate OwnSequence(u: seq<byte>) {
    exists csi :: Parsable(csi) && csi.final != 0 && CursorKey(csi.final) == None && u == Format(csi)
  }

  /** No capability before the one at i is a prefix of the string. */
  ghost predicate NoneEarlier(u: seq<byte>, caps: Caps, i: nat)
    requires i < |CAP_KEYS|
  {
    forall k :: 0 <= k < i ==> caps[k] == None || !(caps[k].value <= u)
  }

  /**
   A key encoded by a terminal's own string decodes to itself, whatever follows, exactly when the string
   is a control sequence introduced by ESC [ that does not end like a cursor key, and no earlier
   capability is a prefix of it.
   */
  lemma CapRoundTrip(i: nat, u: seq<byte>, state: nat, caps: Caps, t: seq<byte>)
    requires i < |CAP_KEYS| && CAP_KEYS[i] !in {BACKSPACE, DELETE, HOME, END} && caps[i] == Some(u)
    ensures KeyToString(CAP_KEYS[i], state, caps) == u
    ensures EscToKey(u + t, caps) == Recognised(CAP_KEYS[i], 0, |u|) <==> OwnSequence(u) && NoneEarlier(u, caps, i)
  {
    CapEncoded(i, state, caps);
    hide EscToKey, KeyToString, CursorKey, Parsable;
    if OwnSequence(u) {
      OwnSequenceDecodes(i, u, caps, t);
    }
    if EscToKey(u + t, caps) == Recognised(CAP_KEYS[i], 0, |u|) {
      CapRecognised(i, u, caps, t);
    }
  }

  /** A control sequence of the terminal's own is looked up among the capabilities. */
  lemma OwnSequenceDecodes(i: nat, u: seq<byte>, caps: Caps, t: seq<byte>)
    requires i < |CAP_KEYS| && caps[i] == Some(u) && OwnSequence(u)
    ensures EscToKey(u + t, caps) == Recognised(CAP_KEYS[i], 0, |u|) <==> NoneEarlier(u, caps, i)
  {
    hide EscToKey, MatchingCap, CursorKey, Parsable, Format;
    var csi :| Parsable(csi) && csi.final != 0 && CursorKey(csi.final) == None && u == Format(csi);
    LookedUp(csi, caps, t);
    FirstMatch(u, caps, i, 0);
    CapKeysDistinct();
  }

  /** A printed sequence that does not end like a cursor key is looked up among the capabilities. */
  lemma LookedUp(csi: Csi, caps: Caps, t: seq<byte>)
    requires Parsable(csi) && csi.final != 0 && CursorKey(csi.final) == None
    ensures var u := Format(csi);
            EscToKey(u + t, caps)
            == match MatchingCap(u, caps, 0) case Some(i) => Recognised(CAP_KEYS[i], 0, |u|) case None => Unrecognised
  {
    ParseFormat(csi, t);
    OtherIntroducer(Format(csi) + t, 0x4f);
    OtherIntroducer(Format(csi) + t, 0x6f);
    hide Parse, MatchingCap, CursorState, CursorKey, Parsable, Format;
  }

  /** A cursor key is never taken for one of the other keys. */
  lemma RecognisedByCap(s: seq<byte>, key: nat, modifiers: nat, len: nat, caps: Caps)
    requires EscToKey(s, caps) == Recognised(key, modifiers, len) && forall f :: CursorKey(f) != Some(key)
    ensures Parse(s, BRACKET).Some? && Parse(s, BRACKET).value.1 == len
    ensures var csi := Parse(s, BRACKET).value.0;
            var r := MatchingCap(Format(csi), caps, 0);
            CursorKey(csi.final) == None && r.Some? && CAP_KEYS[r.value] == key
  {
    assert forall f: byte :: 0x41 <= f <= 0x44 ==> CursorKey(f).Some?;
    hide Parse, MatchingCap, CursorState, CursorKey, Format;
  }

  /** A key recognised by its capability and to the last byte has a control sequence of its own. */
  lemma CapRecognised(i: nat, u: seq<byte>, caps: Caps, t: seq<byte>)
    requires i < |CAP_KEYS| && CAP_KEYS[i] !in {HOME, END} && caps[i] == Some(u)
    requires EscToKey(u + t, caps) == Recognised(CAP_KEYS[i], 0, |u|)
    ensures OwnSequence(u)
  {
    hide EscToKey, Parse, MatchingCap, CursorKey, Parsable, Format;
    CapIsNoCursor(i);
    RecognisedByCap(u + t, CAP_KEYS[i], 0, |u|, caps);
    ParseParts(u + t, BRACKET);
    assert (u + t)[..|u|] == u;
    var csi := Parse(u + t, BRACKET).value.0;
    MatchIsPrefix(Format(csi), caps, 0);
    CapKeysDistinct();
    PrintsWhole(u, csi);
  }

  /** A sequence that is a prefix of what its parts print is all of it. */
  lemma PrintsWhole(u: seq<byte>, csi: Csi)
    requires u == [ESC, BRACKET] + csi.params + csi.intermediate + [csi.final] && u <= Format(csi)
    ensures csi.final != 0 && u == Format(csi)
  {
  }

  lemma CapIsNoCursor(i: nat)
    requires i < |CAP_KEYS| && CAP_KEYS[i] !in {HOME, END}
    ensures forall f :: CursorKey(f) != Some(CAP_KEYS[i])
  {
    hide CursorKey;
    forall f ensures CursorKey(f) != Some(CAP_KEYS[i]) {
      CursorKeysAreNotCaps(f, i);
    }
  }

  lemma {:induction false} MatchIsPrefix(s: seq<byte>, caps: Caps, from: nat)
    requires from <= |CAP_KEYS|
    ensures var r := MatchingCap(s, caps, from); r.Some? ==> caps[r.value].Some? && caps[r.value].value <= s
    decreases |CAP_KEYS| - from
  {
    if from < |CAP_KEYS| {
      MatchIsPrefix(s, caps, from + 1);
    }
  }

  /** A function key whose string is ESC O P, as that of F1 often is, is encoded by it but not recognised. */
  lemma KeypadStringLost(i: nat, state: nat, caps: Caps, t: seq<byte>)
    requires i < |CAP_KEYS| && CAP_KEYS[i] !in {BACKSPACE, DELETE, HOME, END} && caps[i] == Some([ESC, 0x4f, 0x50])
    ensures KeyToString(CAP_KEYS[i], state, caps) == [ESC, 0x4f, 0x50]
    ensures EscToKey([ESC, 0x4f, 0x50] + t, caps) == Unrecognised
  {
    CapEncoded(i, state, caps);
    hide KeyToString, MatchingCap, CursorState;
    var s := [ESC, 0x4f, 0x50] + t;
    assert s[2..] == [0x50] + t;
    assert Span(IsParam, s[2..]) == 0 && Span(IsIntermediate, s[2..][0..]) == 0;
  }

  lemma NoPlainByte(key: nat, state: nat)
    requires key > 0x7e
    ensures PlainByte(key, state) == []
  {
    hide HasBit;
  }

  lemma CapKeyCases(i: nat)
    requires i < |CAP_KEYS| && CAP_KEYS[i] !in {BACKSPACE, DELETE, HOME, END}
    ensures !IsCursorCase(CAP_KEYS[i]) && CAP_KEYS[i] !in {0x20, RETURN, BACKSPACE, ESCAPE, TAB} && CAP_KEYS[i] > 0x7e
  {
  }

  lemma EncodedByCap(key: nat, state: nat, caps: Caps)
    requires !IsCursorCase(key) && key !in {0x20, RETURN, BACKSPACE, ESCAPE, TAB} && PlainByte(key, state) == []
    ensures KeyToString(key, state, caps) == match CapOf(key, 0) case Some(i) => caps[i].GetOr([]) case None => []
  {
    hide PlainByte, CapOf, IsCursorCase;
  }

  lemma CapEncoded(i: nat, state: nat, caps: Caps)
    requires i < |CAP_KEYS| && CAP_KEYS[i] !in {BACKSPACE, DELETE, HOME, END} && caps[i].Some?
    ensures KeyToString(CAP_KEYS[i], state, caps) == caps[i].value
  {
    hide HasBit, PlainByte, CapOf, IsCursorCase, KeyToString;
    CapKeyCases(i);
    NoPlainByte(CAP_KEYS[i], state);
    EncodedByCap(CAP_KEYS[i], state, caps);
    CapKeysDistinct();
    FirstEntry(CAP_KEYS[i], i, 0);
  }

  lemma CapKeysDistinct()
    ensures forall i, k :: 0 <= i < k < |CAP_KEYS| ==> CAP_KEYS[i] != CAP_KEYS[k]
  {
  }

  lemma CursorKeysAreNotCaps(final: byte, i: nat)
    requires i < |CAP_KEYS| && CAP_KEYS[i] !in {HOME, END}
    ensures CursorKey(final) != Some(CAP_KEYS[i])
  {
  }

  lemma {:induction false} FirstEntry(key: nat, i: nat, from: nat)
    requires from <= i < |CAP_KEYS| && CAP_KEYS[i] == key && forall k :: from <= k < i ==> CAP_KEYS[k] != key
    ensures CapOf(key, from) == Some(i)
    decreases i - from
  {
    if from < i {
      FirstEntry(key, i, from + 1);
    }
  }

  /** The capability at i is the first match exactly when no earlier one, from `from` on, is a prefix. */
  lemma {:induction false} FirstMatch(u: seq<byte>, caps: Caps, i: nat, from: nat)
    requires from <= i < |CAP_KEYS| && caps[i].Some? && caps[i].value <= u
    ensures MatchingCap(u, caps, from) == Some(i)
            <==> forall k :: from <= k < i ==> caps[k] == None || !(caps[k].value <= u)
    ensures MatchingCap(u, caps, from).Some?
    decreases i - from
  {
    if from < i {
      FirstMatch(u, caps, i, from + 1);
    }
  }

  lemma OtherIntroducer(s: seq<byte>, introducer: byte)
    requires |s| >= 2 && s[1] != introducer
    ensures Parse(s, introducer) == None
  {
  }

  /** Parameter bytes alone do not end a sequence. */
  lemma LongerThanParams(params: seq<byte>, t: seq<byte>)
    requires All(IsParam, params)
    requires Parse([ESC, BRACKET] + params + t, BRACKET).Some?
    ensures Parse([ESC, BRACKET] + params + t, BRACKET).value.1 > |params| + 2
  {
    var s := [ESC, BRACKET] + params + t;
    assert s[2..] == params + t;
    SpanOver(IsParam, params, t);
  }

  /** Encoding the key of a single byte gives the byte back, less its top bit: all of it exactly for 7-bit bytes. */
  lemma ByteRoundTrip(b: byte, caps: Caps)
    ensures var (key, state) := CharToKey(b);
            && KeyToString(key, state, caps) == [b % 0x80]
            && (KeyToString(key, state, caps) == [b] <==> b < 0x80)
            && (HasBit(state, META) <==> b >= 0x80 && (b % 0x80 < 0x20 || b % 0x80 == 0x7f || 0x41 <= b % 0x80 <= 0x5a))
            && (HasBit(state, CONTROL) <==> b % 0x80 < 0x20 && b % 0x80 !in {0x09, 0x0d, 0x1b})
            && (HasBit(state, SHIFT) <==> 0x41 <= b % 0x80 <= 0x5a)
  {
    assert META / META % 2 == 1 && (META + CONTROL) / META % 2 == 1 && (META + SHIFT) / META % 2 == 1;
    assert 0 / META % 2 == 0 && CONTROL / META % 2 == 0 && SHIFT / META % 2 == 0;
    assert (META + CONTROL) / CONTROL % 2 == 1 && META / CONTROL % 2 == 0;
    assert (META + CONTROL) / SHIFT % 2 == 0 && META / SHIFT % 2 == 0 && CONTROL / SHIFT % 2 == 0;
    assert (META + SHIFT) / CONTROL % 2 == 0 && (META + SHIFT) / SHIFT % 2 == 1;
  }

  /**
   Reading back the byte of a lower-case letter: Control is kept but for the letters whose control
   byte is another key's, otherwise Shift gives the upper-case letter.
   */
  lemma LetterRoundTrip(key: nat, state: nat, caps: Caps)
    requires 0x61 <= key <= 0x7a
    ensures var u := KeyToString(key, state, caps);
            && |u| == 1
            && if HasBit(state, CONTROL) then
                 CharToKey(u[0])
                 == (if key == 0x69 then (TAB, 0) else if key == 0x6d then (RETURN, 0) else (key, CONTROL))
               else if HasBit(state, SHIFT) then CharToKey(u[0]) == (key - 0x20, SHIFT)
               else CharToKey(u[0]) == (key, 0)
  {
    hide HasBit;
  }

  /**
   Any other printable character is its own byte, which reads back as that key, but with Control, when it has a
   byte only if it is one of four.
   */
  lemma PrintableRoundTrip(key: nat, state: nat, caps: Caps)
    requires 0x21 <= key <= 0x7e && !(0x61 <= key <= 0x7a)
    ensures var u := KeyToString(key, state, caps);
            if !HasBit(state, CONTROL) then u == [key] && CharToKey(u[0]).0 == key
            else if 0x5c <= key <= 0x5f then |u| == 1 && CharToKey(u[0]) == (key, CONTROL)
            else u == []
  {
    hide HasBit;
    if HasBit(state, CONTROL) {
      NoCap(key, 0);
    }
  }

  lemma {:induction false} NoCap(key: nat, from: nat)
    requires key <= 0x7e && from <= |CAP_KEYS|
    ensures CapOf(key, from) == None
    decreases |CAP_KEYS| - from
  {
    if from < |CAP_KEYS| {
      assert CAP_KEYS[from] > 0x7e;
      NoCap(key, from + 1);
    }
  }

  /** The keys with a byte of their own read back as themselves; only Control and Space go together. */
  lemma NamedRoundTrip(key: nat, state: nat, caps: Caps)
    requires key in {0x20, RETURN, BACKSPACE, ESCAPE, TAB}
    ensures var u := KeyToString(key, state, caps);
            |u| == 1 && CharToKey(u[0]) == (key, if key == 0x20 && HasBit(state, CONTROL) then CONTROL else 0)
  {
    hide HasBit;
  }

  // ----- the table searches

  /** The search of cursor_keyvals for a final byte. */
  method SearchFinal(final: byte) returns (key: Option<nat>)
    ensures key == CursorKey(final)
  {
    var i := 0;
    while i < |CURSOR_KEYS|
      invariant 0 <= i <= |CURSOR_KEYS|
      invariant forall k :: 0 <= k < i ==> CURSOR_KEYS[k].0 != final
    {
      if CURSOR_KEYS[i].0 == final {
        return Some(CURSOR_KEYS[i].1);
      }
      i := i + 1;
    }
    assert CURSOR_KEYS[0].0 != final && CURSOR_KEYS[1].0 != final && CURSOR_KEYS[2].0 != final;
    assert CURSOR_KEYS[3].0 != final && CURSOR_KEYS[4].0 != final && CURSOR_KEYS[5].0 != final;
    return None;
  }

  /** The search of cursor_keyvals for a key; the final byte stays 0 when there is none. */
  method SearchKey(key: nat) returns (final: byte)
    ensures final == CursorFinal(key).GetOr(0)
  {
    var i := 0;
    while i < |CURSOR_KEYS|
      invariant 0 <= i <= |CURSOR_KEYS|
      invariant forall k :: 0 <= k < i ==> CURSOR_KEYS[k].1 != key
    {
      if CURSOR_KEYS[i].1 == key {
        return CURSOR_KEYS[i].0;
      }
      i := i + 1;
    }
    assert CURSOR_KEYS[0].1 != key && CURSOR_KEYS[1].1 != key && CURSOR_KEYS[2].1 != key;
    assert CURSOR_KEYS[3].1 != key && CURSOR_KEYS[4].1 != key && CURSOR_KEYS[5].1 != key;
    return 0;
  }

  /** The search of cap_keyvals for a string that begins the sequence. */
  method SearchCap(s: seq<byte>, caps: Caps) returns (r: Option<nat>)
    ensures r == MatchingCap(s, caps, 0)
  {
    var i := 0;
    while i < |CAP_KEYS|
      invariant 0 <= i <= |CAP_KEYS| && MatchingCap(s, caps, 0) == MatchingCap(s, caps, i)
    {
      if caps[i].Some? && caps[i].value <= s {
        return Some(i);
      }
      i := i + 1;
    }
    return None;
  }

  /** _fep_csi_to_cursor_key, with _fep_get_state_from_cursor. */
  method DecodeCursor(csi: Csi, len: nat) returns (r: KeyResult)
    ensures CursorKey(csi.final) == None ==> r == Unrecognised
    ensures CursorKey(csi.final).Some? ==> r == CursorResult(csi, CursorKey(csi.final).value, len)
  {
    hide ToInt, CursorKey, Strings.Split, Strings.Cuts;
    var key := SearchFinal(csi.final);
    if key == None {
      return Unrecognised;
    }
    var state := 0;
    var params := Strings.StrSplit(csi.params, [SEMICOLON]);
    ghost var tokens := Strings.Split(csi.params, [SEMICOLON]);
    if params.Length > 2 && params[0].Some? && params[1].Some? && params[2] == None {
      assert |tokens| == 2 && params[1].value == tokens[1];
      var param := ToInt(params[1].value);
      if param == None {
        return Aborts;
      }
      state := if param.value == 2 then SHIFT else if param.value == 5 then CONTROL else 0;
    } else {
      assert |tokens| != 2;
    }
    return Recognised(key.value, state, len);
  }

  /** _fep_esc_to_key. */
  method DecodeEscape(s: seq<byte>, caps: Caps) returns (r: KeyResult)
    ensures r == EscToKey(s, caps)
  {
    hide Parse, CursorState;
    var csi, end := CsiParse(s, 0x4f);
    if csi.Some? {
      r := DecodeCursor(csi.value, end);
      return;
    }
    csi, end := CsiParse(s, 0x6f);
    if csi.Some? {
      var c := csi.value;
      if 0x61 <= c.final <= 0x64 {
        r := DecodeCursor(c.(final := c.final - 0x20), end);
      } else {
        r := Unrecognised;
      }
      return;
    }
    csi, end := CsiParse(s, BRACKET);
    if csi == None {
      return Unrecognised;
    }
    r := DecodeCursor(csi.value, end);
    if r == Unrecognised {
      var i := SearchCap(Format(csi.value), caps);
      if i.Some? {
        r := Recognised(CAP_KEYS[i.value], 0, end);
      }
    }
  }

  /** _fep_key_to_string, into a growing buffer. */
  method EncodeKey(key: nat, state: nat, caps: Caps) returns (str: Strings.FepString)
    ensures fresh(str) && str.Valid() && str.Contents() == KeyToString(key, state, caps)
  {
    hide Print, HasBit, CursorFinal;
    str := new Strings.FepString();
    if IsCursorCase(key) {
      var final := SearchKey(key);
      str.Append(Format(Csi(CursorParams(state), [], final)));
    } else if key == 0x20 {
      str.Append([if HasBit(state, CONTROL) then 0 else 0x20]);
    } else if key == RETURN {
      str.Append([0x0d]);
    } else if key == BACKSPACE {
      str.Append([0x7f]);
    } else if key == ESCAPE {
      str.Append([0x1b]);
    } else if key == TAB {
      str.Append([0x09]);
    } else {
      str.Append(PlainByte(key, state));
      if str.len == 0 {
        var i := 0;
        while i < |CAP_KEYS| && CAP_KEYS[i] != key
          invariant 0 <= i <= |CAP_KEYS| && CapOf(key, 0) == CapOf(key, i)
        {
          i := i + 1;
        }
        if i < |CAP_KEYS| && caps[i].Some? {
          str.Append(caps[i].value);
        }
      }
    }
  }

  // ----- the key loop

  /** One key cut from the terminal input: its value, its modifiers and the bytes it was cut from. */
  datatype KeyInput = KeyInput(keyval: nat, modifiers: nat, source: seq<byte>)

  /** The key at the start of a non-empty input: an escape sequence when one is recognised, else one byte. */
  function FirstKey(s: seq<byte>, caps: Caps): (r: Option<KeyInput>)
    requires s != []
    ensures r.Some? ==> r.value.source != [] && r.value.source <= s
  {
    match EscToKey(s, caps)
    case Recognised(key, modifiers, n) => Some(KeyInput(key, modifiers, s[..n]))
    case Unrecognised => Some(KeyInput(CharToKey(s[0]).0, CharToKey(s[0]).1, s[..1]))
    case Aborts => None
  }

  /** The keys of an input buffer, unless one of them stops the process. */
  function Cut(s: seq<byte>, caps: Caps): Option<seq<KeyInput>>
    decreases |s|
  {
    if s == [] then Some([])
    else
      match FirstKey(s, caps)
      case None => None
      case Some(k) =>
        match Cut(s[|k.source|..], caps)
        case None => None
        case Some(ks) => Some([k] + ks)
  }

  function SourceOfKey(k: KeyInput): Option<seq<byte>> {
    Some(k.source)
  }

  /** The bytes the keys were cut from, key by key. */
  function Sources(keys: seq<KeyInput>): seq<seq<byte>> {
    Pick(SourceOfKey, keys)
  }

  /** The slices are not empty and their concatenation is the buffer; every key has a value, so each is sent. */
  lemma {:induction false} CutWhole(s: seq<byte>, caps: Caps)
    requires Cut(s, caps).Some?
    ensures Flatten(Sources(Cut(s, caps).value)) == s
    ensures forall k :: k in Cut(s, caps).value ==> k.source != [] && k.keyval != 0
    decreases |s|
  {
    if s != [] {
      hide FirstKey, Pick, Flatten;
      var k := FirstKey(s, caps).value;
      var rest := s[|k.source|..];
      var ks := Cut(rest, caps).value;
      CutWhole(rest, caps);
      KeyHasValue(s, caps);
      PickCons(SourceOfKey, k, ks);
      FlattenCons(k.source, Sources(ks));
      assert s == k.source + rest;
    } else {
      assert Flatten(Sources([])) == [];
    }
  }

  lemma {:induction false} CutSmall(s: seq<byte>, caps: Caps)
    requires Cut(s, caps).Some?
    ensures forall k :: k in Cut(s, caps).value ==> |k.source| <= |s|
    decreases |s|
  {
    hide FirstKey;
    if s != [] {
      CutSmall(s[|FirstKey(s, caps).value.source|..], caps);
    }
  }

  lemma KeyHasValue(s: seq<byte>, caps: Caps)
    requires s != [] && FirstKey(s, caps).Some?
    ensures FirstKey(s, caps).value.keyval != 0
  {
    hide Parse, MatchingCap, CursorState;
    assert forall i :: 0 <= i < |CAP_KEYS| ==> CAP_KEYS[i] != 0;
  }

  /**
   The keys that come back whatever is typed behind them: the cursor keys with at most one modifier, those of a single
   byte other than Escape, and those with a sequence of the terminal's own.
   */
  ghost predicate ComesBack(key: nat, state: nat, caps: Caps) {
    || (IsCursorCase(key) && key != DELETE && state in {0, SHIFT, CONTROL})
    || (exists b: byte :: b < 0x80 && b != ESC && CharToKey(b) == (key, state))
    || (exists i: nat :: i < |CAP_KEYS| && CAP_KEYS[i] == key && HasOwn(i, caps) && state == 0)
  }

  ghost predicate HasOwn(i: nat, caps: Caps)
    requires i < |CAP_KEYS|
  {
    && CAP_KEYS[i] !in {BACKSPACE, DELETE, HOME, END} && caps[i].Some?
    && OwnSequence(caps[i].value) && NoneEarlier(caps[i].value, caps, i)
  }

  lemma FirstBack(key: nat, state: nat, caps: Caps, t: seq<byte>)
    requires ComesBack(key, state, caps)
    ensures var u := KeyToString(key, state, caps); u != [] && FirstKey(u + t, caps) == Some(KeyInput(key, state, u))
  {
    hide KeyToString, EscToKey, OwnSequence, NoneEarlier, CharToKey, IsCursorCase;
    var u := KeyToString(key, state, caps);
    assert (u + t)[..|u|] == u;
    if IsCursorCase(key) && key != DELETE && state in {0, SHIFT, CONTROL} {
      CursorRoundTrip(key, state, caps, t);
      KeptAlone(state);
    } else if b: byte :| b < 0x80 && b != ESC && CharToKey(b) == (key, state) {
      ByteRoundTrip(b, caps);
      assert u == [b] && (u + t)[0] == b;
      NoEscapeByte(u + t, caps);
    } else {
      var i: nat :| i < |CAP_KEYS| && CAP_KEYS[i] == key && HasOwn(i, caps) && state == 0;
      CapRoundTrip(i, caps[i].value, state, caps, t);
    }
  }

  lemma KeptAlone(state: nat)
    requires state in {0, SHIFT, CONTROL}
    ensures KeptModifier(state) == state
  {
    assert !HasBit(0, SHIFT) && !HasBit(0, CONTROL) && HasBit(1, SHIFT) && !HasBit(4, SHIFT) && HasBit(4, CONTROL);
  }

  lemma NoEscapeByte(s: seq<byte>, caps: Caps)
    requires s != [] && s[0] != ESC
    ensures EscToKey(s, caps) == Unrecognised
  {
  }

  /** The bytes of some keys with their modifiers, one after the other. */
  function Encoded(keys: seq<(nat, nat)>, caps: Caps): seq<byte> {
    if keys == [] then [] else KeyToString(keys[0].0, keys[0].1, caps) + Encoded(keys[1..], caps)
  }

  function Inputs(keys: seq<(nat, nat)>, caps: Caps): seq<KeyInput> {
    if keys == [] then []
    else [KeyInput(keys[0].0, keys[0].1, KeyToString(keys[0].0, keys[0].1, caps))] + Inputs(keys[1..], caps)
  }

  /** Any such keys typed one behind the other are cut into exactly these keys, with their modifiers. */
  lemma {:induction false} KeysComeBack(keys: seq<(nat, nat)>, caps: Caps)
    requires forall k :: k in keys ==> ComesBack(k.0, k.1, caps)
    ensures Cut(Encoded(keys, caps), caps) == Some(Inputs(keys, caps))
  {
    hide FirstKey, KeyToString, ComesBack;
    if keys != [] {
      var u, t := KeyToString(keys[0].0, keys[0].1, caps), Encoded(keys[1..], caps);
      FirstBack(keys[0].0, keys[0].1, caps, t);
      KeysComeBack(keys[1..], caps);
      assert (u + t)[|u|..] == t;
    }
  }

  /** Keys cut earlier, put in front of those of the rest. */
  function After(keys: seq<KeyInput>, r: Option<seq<KeyInput>>): Option<seq<KeyInput>> {
    match r
    case None => None
    case Some(ks) => Some(keys + ks)
  }

  lemma CutNext(keys: seq<KeyInput>, s: seq<byte>, caps: Caps)
    requires s != []
    ensures After(keys, Cut(s, caps))
         == match FirstKey(s, caps)
            case None => None
            case Some(k) => After(keys + [k], Cut(s[|k.source|..], caps))
  {
    hide FirstKey;
    if FirstKey(s, caps).Some? {
      var k := FirstKey(s, caps).value;
      var r := Cut(s[|k.source|..], caps);
      if r.Some? {
        Assoc(keys, [k], r.value);
      }
    }
  }

  lemma CutEnds(keys: seq<KeyInput>, caps: Caps)
    ensures After(keys, Cut([], caps)) == Some(keys)
  {
    assert keys + [] == keys;
  }

  /** The loop of main_loop over a buffer of terminal input, as far as it cuts keys; p is the rest of the buffer. */
  method CutKeys(buf: seq<byte>, caps: Caps) returns (aborted: bool, keys: seq<KeyInput>)
    ensures aborted <==> Cut(buf, caps) == None
    ensures !aborted ==> keys == Cut(buf, caps).value
  {
    hide EscToKey, CharToKey, Cut;
    keys := [];
    var p := buf;
    assert Cut(buf, caps).Some? ==> [] + Cut(buf, caps).value == Cut(buf, caps).value;
    while p != []
      invariant Cut(buf, caps) == After(keys, Cut(p, caps))
      decreases |p|
    {
      CutNext(keys, p, caps);
      var k;
      var r := DecodeEscape(p, caps);
      match r {
        case Aborts =>
          return true, [];
        case Recognised(key, state, n) =>
          k := KeyInput(key, state, p[..n]);
        case Unrecognised =>
          var (key, state) := CharToKey(p[0]);
          k := KeyInput(key, state, p[..1]);
      }
      keys, p := keys + [k], p[|k.source|..];
    }
    CutEnds(keys, caps);
    return false, keys;
  }
}
