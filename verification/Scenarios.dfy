/** Inputs at which the code does less than it might seem to: single calls, and whole runs of the protocol. */
module Scenarios {
  import opened Bytes
  import opened Codec
  import opened Sockets
  import opened Protocol
  import opened Delivery
  import opened Runs
  import opened Rest
  import Client
  import Csi
  import Keys
  import Output
  import Sgr
  import Strings
  import Terminal

  // ----- single calls

  /** A length of 128, 32768 or 8388608 is read back as one of nearly 4 GB. */
  lemma Length128()
    ensures !LengthSurvives(128) && WordLength(Word(128)) == 0xFFFF_FF80
    ensures !LengthSurvives(0x8000) && WordLength(Word(0x8000)) == 0xFFFF_8000
    ensures !LengthSurvives(0x80_0000) && WordLength(Word(0x80_0000)) == 0xFF80_0000
  {
  }

  /**
   The bytes on the wire of messages: the command, then each argument behind its length, least byte first; and how many
   arguments each of the commands of a client takes.
   */
  lemma WireFormat()
    ensures Encode(KeyRequest(0x61, 0x1000_0004, [0x61]))
         == [6, 4, 0, 0, 0, 0x61, 0, 0, 0, 4, 0, 0, 0, 4, 0, 0, 0x10, 1, 0, 0, 0, 0x61]
    ensures Encode(ResizeRequest(80, 300)) == [7, 4, 0, 0, 0, 80, 0, 0, 0, 4, 0, 0, 0, 44, 1, 0, 0]
    ensures Encode(Message(RESPONSE, [[KEY_EVENT], Word(1)])) == [8, 1, 0, 0, 0, 6, 4, 0, 0, 0, 1, 0, 0, 0]
    ensures Encode(SendData([0x61, 0x62])) == [4, 2, 0, 0, 0, 0x61, 0x62]
    ensures AttributeArg(Attribute(BOLD, 1, 2, 3)) == [5, 0, 0, 0, 1, 0, 0, 0, 2, 0, 0, 0, 3, 0, 0, 0]
    ensures AttributeArg(Client.OrEmpty(None)) == [3, 0, 0, 0, 0, 0, 0, 0, 0, 0, 0, 0, 0, 0, 0, 0]
    ensures (SET_CURSOR_TEXT, SET_STATUS_TEXT, SEND_TEXT, FORWARD_KEY_EVENT) == (1, 2, 3, 5)
    ensures forall a, b :: FromClient(Message(1, [a, b])) && FromClient(Message(2, [a, b]))
    ensures forall a, b :: FromClient(Message(5, [a, b]))
    ensures forall a :: FromClient(Message(3, [a])) && FromClient(Message(4, [a]))
  {
    KeyOnWire();
    ResizeOnWire();
    ResponseOnWire();
    hide Encode, Word;
    DataOnWire();
    AttributeOnWire();
  }

  lemma KeyOnWire()
    ensures Encode(KeyRequest(0x61, 0x1000_0004, [0x61]))
         == [6, 4, 0, 0, 0, 0x61, 0, 0, 0, 4, 0, 0, 0, 4, 0, 0, 0x10, 1, 0, 0, 0, 0x61]
  {
    hide EncodeArgs;
    EncodeThree(Word(0x61), Word(0x1000_0004), [0x61]);
    assert Word(0x61) == [0x61, 0, 0, 0] && Word(0x1000_0004) == [4, 0, 0, 0x10];
    assert Word(4) == [4, 0, 0, 0] && Word(1) == [1, 0, 0, 0];
    hide Word;
  }

  lemma ResizeOnWire()
    ensures Encode(ResizeRequest(80, 300)) == [7, 4, 0, 0, 0, 80, 0, 0, 0, 4, 0, 0, 0, 44, 1, 0, 0]
  {
    hide EncodeArgs;
    EncodeTwo(Word(80), Word(300));
    assert Word(80) == [80, 0, 0, 0] && Word(300) == [44, 1, 0, 0] && Word(4) == [4, 0, 0, 0];
    hide Word;
  }

  lemma ResponseOnWire()
    ensures Encode(Message(RESPONSE, [[KEY_EVENT], Word(1)])) == [8, 1, 0, 0, 0, 6, 4, 0, 0, 0, 1, 0, 0, 0]
  {
    hide EncodeArgs;
    EncodeTwo([KEY_EVENT], Word(1));
    assert Word(4) == [4, 0, 0, 0] && Word(1) == [1, 0, 0, 0];
    hide Word;
  }

  lemma DataOnWire()
    ensures Encode(SendData([0x61, 0x62])) == [4, 2, 0, 0, 0, 0x61, 0x62]
  {
    hide EncodeArgs;
    EncodeOne([0x61, 0x62]);
  }

  lemma AttributeOnWire()
    ensures AttributeArg(Attribute(BOLD, 1, 2, 3)) == [5, 0, 0, 0, 1, 0, 0, 0, 2, 0, 0, 0, 3, 0, 0, 0]
    ensures AttributeArg(Client.OrEmpty(None)) == [3, 0, 0, 0, 0, 0, 0, 0, 0, 0, 0, 0, 0, 0, 0, 0]
  {
    assert Word(0) == [0, 0, 0, 0];
    assert Word(BOLD) == [5, 0, 0, 0] && Word(1) == [1, 0, 0, 0] && Word(2) == [2, 0, 0, 0] && Word(3) == [3, 0, 0, 0];
    hide Word;
  }

  lemma EncodeOne(a: seq<byte>)
    ensures EncodeArgs([a]) == Word(|a|) + a
  {
    hide Word;
    assert EncodeArgs([a]) == Word(|a|) + a + EncodeArgs([]);
  }

  lemma EncodeTwo(a: seq<byte>, b: seq<byte>)
    ensures EncodeArgs([a, b]) == Word(|a|) + a + (Word(|b|) + b)
  {
    hide Word;
    EncodeOne(b);
    assert [a, b][1..] == [b];
  }

  lemma EncodeThree(a: seq<byte>, b: seq<byte>, c: seq<byte>)
    ensures EncodeArgs([a, b, c]) == Word(|a|) + a + (Word(|b|) + b + (Word(|c|) + c))
  {
    hide Word;
    EncodeTwo(b, c);
    assert [a, b, c][1..] == [b, c];
  }

  /** The cursor keys without modifiers, by their bytes, in the three forms terminals send. */
  lemma CursorSequences(caps: Keys.Caps)
    ensures var finals, keys := [0x41, 0x42, 0x43, 0x44, 0x46, 0x48],
                                [Keys.UP, Keys.DOWN, Keys.RIGHT, Keys.LEFT, Keys.END, Keys.HOME];
            forall i :: 0 <= i < 6 ==>
              && Keys.EscToKey([0x1b, 0x5b, finals[i]], caps) == Keys.Recognised(keys[i], 0, 3)
              && Keys.EscToKey([0x1b, 0x4f, finals[i]], caps) == Keys.Recognised(keys[i], 0, 3)
              && (i < 4 ==> Keys.EscToKey([0x1b, 0x6f, finals[i] + 0x20], caps) == Keys.Recognised(keys[i], 0, 3))
  {
    var finals: seq<byte>, keys := [0x41, 0x42, 0x43, 0x44, 0x46, 0x48],
                                   [Keys.UP, Keys.DOWN, Keys.RIGHT, Keys.LEFT, Keys.END, Keys.HOME];
    hide Keys.EscToKey;
    forall i | 0 <= i < 6
      ensures Keys.EscToKey([0x1b, 0x5b, finals[i]], caps) == Keys.Recognised(keys[i], 0, 3)
      ensures Keys.EscToKey([0x1b, 0x4f, finals[i]], caps) == Keys.Recognised(keys[i], 0, 3)
      ensures i < 4 ==> Keys.EscToKey([0x1b, 0x6f, finals[i] + 0x20], caps) == Keys.Recognised(keys[i], 0, 3)
    {
      PlainCursor(keys[i], finals[i], caps);
      if i < 4 {
        PlainLowerCase(i, keys[i], finals[i], caps);
      }
    }
  }

  lemma PlainCursor(key: nat, final: byte, caps: Keys.Caps)
    requires Keys.IsCursorCase(key) && Keys.CursorFinal(key) == Some(final) && final != 0
    ensures Keys.KeyToString(key, 0, caps) == [0x1b, 0x5b, final]
    ensures Keys.EscToKey([0x1b, 0x5b, final], caps) == Keys.Recognised(key, 0, 3)
    ensures Keys.EscToKey([0x1b, 0x4f, final], caps) == Keys.Recognised(key, 0, 3)
  {
    assert !Keys.HasBit(0, Keys.SHIFT) && !Keys.HasBit(0, Keys.CONTROL);
    hide Keys.EscToKey, Keys.CursorFinal, Keys.HasBit;
    assert Keys.KeyToString(key, 0, caps) == [0x1b, 0x5b, final];
    Keys.CursorRoundTrip(key, 0, caps, []);
    Keys.ApplicationRoundTrip(key, 0, caps, []);
    assert [0x1b, 0x5b, final] + [] == [0x1b, 0x5b, final];
    assert [0x1b, 0x4f] + [0x1b, 0x5b, final][2..] + [] == [0x1b, 0x4f, final];
  }

  lemma PlainLowerCase(i: nat, key: nat, final: byte, caps: Keys.Caps)
    requires i < 4 && key == [Keys.UP, Keys.DOWN, Keys.RIGHT, Keys.LEFT][i] && final == 0x41 + i
    requires Keys.KeyToString(key, 0, caps) == [0x1b, 0x5b, final]
    ensures Keys.EscToKey([0x1b, 0x6f, final + 0x20], caps) == Keys.Recognised(key, 0, 3)
  {
    assert !Keys.HasBit(0, Keys.SHIFT) && !Keys.HasBit(0, Keys.CONTROL);
    hide Keys.EscToKey, Keys.KeyToString, Keys.HasBit;
    Keys.LowerCaseRoundTrip(i, 0, caps, []);
    assert [0x1b, 0x6f] + [0x1b, 0x5b, final][2..2] + [final + 0x20] + [] == [0x1b, 0x6f, final + 0x20];
  }

  /** The capability of the nth function key. */
  function FunctionKeyName(n: nat): string
    requires n < 20
  {
    "key_f" + if n < 10 then ['0' + n as char] else ['1', '0' + (n - 10) as char]
  }

  /** The keys whose terminal strings have these names. */
  lemma NamedKeys()
    ensures |Keys.CAP_NAMES| == |Keys.CAP_KEYS| == 19
    ensures Keys.CAP_NAMES[..7]
         == ["key_backspace", "key_dc", "key_ppage", "key_npage", "key_home", "key_end", "key_ic"]
    ensures Keys.CAP_KEYS[..7]
         == [Keys.BACKSPACE, Keys.DELETE, Keys.PRIOR, Keys.NEXT, Keys.HOME, Keys.END, Keys.INSERT]
    ensures forall i :: 7 <= i < 19 ==> Keys.CAP_NAMES[i] == FunctionKeyName(i - 6)
    ensures forall i :: 7 <= i < 19 ==> Keys.CAP_KEYS[i] == Keys.F1 + (i - 7)
  {
  }

  /** A stream that ends before the payload it announces, and a command that is not in the table. */
  lemma CutStreams()
    ensures Decode([SEND_DATA, 1, 0, 0, 0], Eof) == Spins && Decode([SEND_DATA, 1, 0, 0, 0], Error) == Failed
    ensures Decode([9], Eof) == Dies
  {
  }

  /** An attribute that begins at character 256 arrives as one that begins at the first character. */
  lemma Attribute256(m: Message)
    requires m.args == [AttributeArg(Attribute(UNDERLINE, 1, 256, 258))]
    ensures ReadAttribute(m, 0) == Some(Attribute(UNDERLINE, 1, 0, 2))
  {
    var arg := m.args[0];
    assert arg[0] == Word(UNDERLINE)[0] && arg[4] == Word(1)[0] && arg[8] == Word(256)[0] && arg[12] == Word(258)[0];
  }

  /** Delete is encoded as a control sequence without a final byte, and the byte 0x81 loses its Meta bit. */
  lemma DeleteAndMeta(caps: Keys.Caps)
    ensures Keys.KeyToString(Keys.DELETE, 0, caps) == [Csi.ESC, Csi.BRACKET]
    ensures Keys.EscToKey([Csi.ESC, Csi.BRACKET], caps) == Keys.Unrecognised
    ensures var (key, state) := Keys.CharToKey(0x81); Keys.KeyToString(key, state, caps) == [0x01]
  {
    Keys.ByteRoundTrip(0x81, caps);
    assert !Keys.HasBit(0, Keys.SHIFT) && !Keys.HasBit(0, Keys.CONTROL);
  }

  /** With the code -1 for standout the sequence that sets it is spoiled. */
  lemma NegativeCode(t: Terminal.Term)
    requires t.mode == Terminal.Ground
    ensures var c := Sgr.Codes(4, 24, -1, 27, 1, 5, 0, 39, 49);
            Terminal.Show(t, Output.SetBytes(Sgr.SgrAttr(Sgr.STANDOUT_BIT, 0, 0), c), c) == t
  {
    Output.SetIgnored(t, Sgr.SgrAttr(Sgr.STANDOUT_BIT, 0, 0), Sgr.Codes(4, 24, -1, 27, 1, 5, 0, 39, 49));
  }

  /** Of "ab" under an attribute of no type on the second character only that character is written. */
  lemma UntypedText()
    ensures var s := [Output.Wchar([0x61], 1), Output.Wchar([0x62], 1)];
            Output.StyledText(s, Attribute(NO_ATTRIBUTE, 0, 1, 2)) == [0x62]
  {
    var s := [Output.Wchar([0x61], 1), Output.Wchar([0x62], 1)];
    assert s[1..2] == [s[1]] && s[2..] == [];
    assert Output.Encoded([]) == [] && Output.Encoded([s[1]]) == s[1].bytes + Output.Encoded([s[1]][1..]);
  }

  // ----- runs in which the server hangs

  lemma Start(s: State)
    requires s == Initial()
    ensures Reachable(s)
  {
    assert Run(s, []) && After(s, []) == s;
  }

  /** The state in which one client has joined. */
  function Joined(): State {
    Initial().(conns := [NewConn(0)])
  }

  lemma JoinedReachable()
    ensures Reachable(Joined())
  {
    Start(Initial());
    ReachableStep(Initial(), Accept);
    assert Apply(Initial(), Accept) == Joined();
  }

  /** Every run of the protocol's own steps that comes to its end from a state ends hung. */
  ghost predicate AlwaysHangs(s: State) {
    forall steps :: Run(s, steps) && AllInternal(steps) && Exhausted(After(s, steps)) ==>
                      Progress.Hung(After(s, steps))
  }

  /** No such run does. */
  ghost predicate NeverHangs(s: State) {
    forall steps :: Run(s, steps) && AllInternal(steps) && Exhausted(After(s, steps)) ==>
                      !Progress.Hung(After(s, steps))
  }

  /** What is carried decides. */
  lemma Decided(s: State)
    requires Reachable(s)
    ensures if Carried(s) then NeverHangs(s) else AlwaysHangs(s)
  {
    hide Reachable, Run, After, Progress.Hung, AllAtRest, Exhausted, Carried;
    forall steps | Run(s, steps) && AllInternal(steps) && Exhausted(After(s, steps))
      ensures Progress.Hung(After(s, steps)) <==> !Carried(s)
    {
      RestExactly(s, steps);
    }
  }

  /** The state in which the only client has raised a message, outside any request. */
  function Sent(m: Message): State {
    Joined().(conns := [RaiseMessage(NewConn(0), m)])
  }

  /** Any message of a client, if some length in it does not survive, makes the server hang, and otherwise does not. */
  lemma SentDecides(m: Message)
    requires FromClient(m) && Sendable(m)
    ensures Reachable(Sent(m)) && (Carried(Sent(m)) <==> Survives(m))
    ensures if Survives(m) then NeverHangs(Sent(m)) else AlwaysHangs(Sent(m))
  {
    hide Reachable, Survives, Encode, AlwaysHangs, NeverHangs;
    JoinedReachable();
    ReachableStep(Joined(), Raise(0, m));
    assert Apply(Joined(), Raise(0, m)) == Sent(m);
    var c := RaiseMessage(NewConn(0), m);
    assert c.inflight == [m] && Sent(m).conns[0] == c;
    assert ConnCarried(c) <==> Survives(m);
    Decided(Sent(m));
  }

  function Zeros(n: nat): Message {
    SendData(seq(n, _ => 0))
  }

  /** A client that sends 127 bytes of data does no harm; one that sends 128 makes the server hang. */
  lemma LongDataHangs()
    ensures Reachable(Sent(Zeros(128))) && !Carried(Sent(Zeros(128))) && AlwaysHangs(Sent(Zeros(128)))
    ensures Reachable(Sent(Zeros(127))) && Carried(Sent(Zeros(127))) && NeverHangs(Sent(Zeros(127)))
  {
    hide Reachable, Carried, AlwaysHangs, NeverHangs, Sent;
    ZerosSurvive(127);
    ZerosSurvive(128);
    SentDecides(Zeros(127));
    SentDecides(Zeros(128));
  }

  lemma ZerosSurvive(n: nat)
    requires n < 256
    ensures FromClient(Zeros(n)) && Sendable(Zeros(n)) && (Survives(Zeros(n)) <==> n < 128)
  {
    var m := Zeros(n);
    ArgsLength(m.args);
    hide EncodeArgs;
    assert |m.args| == 1 && |m.args[0]| == n;
  }

  /** The bytes of an "up" key with 125 digits. */
  function LongUp(): seq<byte> {
    Csi.Format(Csi.Csi(seq(125, _ => 0x30), [], 0x41))
  }

  lemma LongUpDecodes(caps: Keys.Caps)
    ensures |LongUp()| == 128 && Keys.EscToKey(LongUp(), caps) == Keys.Recognised(Keys.UP, 0, 128)
  {
    hide Csi.Parse, Csi.Span, Strings.Split, Strings.Cuts, Strings.Find, Keys.MatchingCap;
    var csi := Csi.Csi(seq(125, _ => 0x30), [], 0x41);
    Csi.SpanWhole(Csi.IsParam, csi.params);
    Csi.SpanWhole(Csi.IsIntermediate, csi.intermediate);
    Csi.ParseFormat(csi, []);
    assert LongUp() + [] == LongUp();
    Keys.OtherIntroducer(LongUp(), 0x4f);
    Keys.OtherIntroducer(LongUp(), 0x6f);
    assert Strings.Join([csi.params], [Csi.SEMICOLON]) == csi.params;
    Strings.SplitJoin([csi.params], Csi.SEMICOLON);
  }

  lemma LongUpCut(caps: Keys.Caps)
    ensures Keys.Cut(LongUp(), caps) == Some([Keys.KeyInput(Keys.UP, 0, LongUp())])
  {
    LongUpDecodes(caps);
    hide Keys.EscToKey, LongUp;
    assert LongUp()[..128] == LongUp();
    CutOne(LongUp(), Keys.KeyInput(Keys.UP, 0, LongUp()), caps);
  }

  /** A buffer that is one key. */
  lemma CutOne(s: seq<byte>, k: KeyInput, caps: Keys.Caps)
    requires s != [] && Keys.FirstKey(s, caps) == Some(k) && k.source == s
    ensures Keys.Cut(s, caps) == Some([k])
  {
    hide Keys.FirstKey;
    assert s[|s|..] == [] && Keys.Cut([], caps) == Some([]);
    assert [k] + [] == [k];
  }

  /** The state in which the only client has just joined and one key has been typed. */
  function Pressed(k: KeyInput): State {
    Joined().(jobs := [Key(k)], input := k.source, typed := [k])
  }

  /** A buffer that is one key makes the server hang exactly when its bytes number 128 or more, modulo 256. */
  lemma PressedDecides(k: KeyInput, caps: Keys.Caps)
    requires |k.source| < BUFSIZ && Keys.Cut(k.source, caps) == Some([k])
    ensures Reachable(Pressed(k)) && (Carried(Pressed(k)) <==> |k.source| % 256 < 128)
    ensures if |k.source| % 256 < 128 then NeverHangs(Pressed(k)) else AlwaysHangs(Pressed(k))
  {
    hide Reachable, AlwaysHangs, NeverHangs, Keys.Cut, Survives, RequestOf, Decode;
    JoinedReachable();
    assert [] + [k] == [k] && [] + k.source == k.source;
    assert Apply(Joined(), Type(k.source, caps)).jobs == [Key(k)];
    StepTo(Joined(), Type(k.source, caps), Pressed(k));
    RequestSurvives(Key(k));
    assert Pressed(k).conns[0].closed == None && ConnCarried(Pressed(k).conns[0]);
    Decided(Pressed(k));
  }

  /** An "up" key of 128 bytes, with a client connected, makes the server hang. */
  lemma LongKeyHangs(caps: Keys.Caps)
    ensures var s := Pressed(Keys.KeyInput(Keys.UP, 0, LongUp()));
            |LongUp()| == 128 && Reachable(s) && |s.conns| == 1 && !Carried(s) && AlwaysHangs(s)
  {
    hide Reachable, Carried, AlwaysHangs, NeverHangs, Keys.Cut, Keys.EscToKey, LongUp;
    LongUpDecodes(caps);
    LongUpCut(caps);
    PressedDecides(Keys.KeyInput(Keys.UP, 0, LongUp()), caps);
  }

  /** The key "a" does no harm. */
  lemma ShortKeyDoesNot(caps: Keys.Caps)
    ensures Reachable(Pressed(A)) && |Pressed(A).conns| == 1 && Carried(Pressed(A)) && NeverHangs(Pressed(A))
  {
    hide Reachable, Carried, AlwaysHangs, NeverHangs, Keys.Cut;
    TypedA(caps);
    PressedDecides(A, caps);
  }

  // ----- runs with one key

  /** The key "a". */
  const A: KeyInput := Keys.KeyInput(0x61, 0, [0x61])

  lemma TypedA(caps: Keys.Caps)
    ensures Keys.Cut([0x61], caps) == Some([A])
  {
    assert [0x61][..1] == [0x61];
    CutOne([0x61], A, caps);
  }

  /** The request about it. */
  function AboutA(): Message {
    RequestOf(Key(A))
  }

  lemma RequestA()
    ensures var m := AboutA();
            && Survives(m) && WellFormed(m) && Client.Readable(m) && m.command == KEY_EVENT && m.args[2] == [0x61]
  {
    RequestSurvives(Key(A));
    hide Word;
  }

  lemma StepTo(s: State, step: Step, s1: State)
    requires Reachable(s) && Enabled(s, step) && Apply(s, step) == s1
    ensures Reachable(s1)
  {
    hide Reachable, Enabled, Apply;
    ReachableStep(s, step);
  }

  lemma ActTo(s: State, step: Step, c: Conn, s1: State)
    requires Reachable(s) && ByClient(step) && step.client < |s.conns|
    requires CanAct(s.conns[step.client], step) && Act(s.conns[step.client], step) == c
    requires s1 == s.(conns := s.conns[step.client := c])
    ensures Reachable(s1)
  {
    hide Reachable, CanAct, Act;
    Progress.ActIsEnabled(s, step);
    ClientApplied(s, step);
    hide Enabled, Apply;
    StepTo(s, step, s1);
  }

  /** A client with nothing under way. */
  predicate Fresh(c: Conn) {
    && c.phase == Idle && c.queue == [] && c.outbox == [] && c.up == [] && c.down == [] && c.inflight == []
    && c.closed == None && c.listed
  }

  function Told(c: Conn): Conn {
    c.(asked := c.asked + [AboutA()], down := Encode(AboutA()))
  }

  /** The client running its filter. */
  function Considering(c: Conn): Conn {
    c.(asked := c.asked + [AboutA()], phase := Filtering(AboutA()))
  }

  /** The server begins to ask the client at `next` about the key. */
  lemma BeginsToAsk(s: State, s1: State)
    requires Reachable(s) && Turn(s) && s.jobs[0] == Key(A) && Fresh(s.conns[s.next])
    requires var c := s.conns[s.next];
             s1 == s.(talk := Asking(AboutA(), Encode(AboutA())),
                      conns := s.conns[s.next := c.(asked := c.asked + [AboutA()])])
    ensures Reachable(s1)
  {
    assert AboutA() == RequestOf(Key(A));
    hide Reachable, Encode, RequestOf, AboutA;
    StepTo(s, Ask, s1);
  }

  /** All of the request is written at once. */
  lemma WritesRequest(s: State, m: Message, c: Conn, s1: State)
    requires Reachable(s) && s.talk == Asking(m, Encode(m)) && |Encode(m)| > 0
    requires s.next < |s.conns| && s.conns[s.next] == c && c.closed == None && c.down == []
    requires s1 == s.(talk := Waiting(m, []), conns := s.conns[s.next := c.(down := Encode(m))])
    ensures Reachable(s1)
  {
    hide Reachable, Encode;
    var bytes := Encode(m);
    assert bytes[..|bytes|] == bytes && [] + bytes == bytes;
    StepTo(s, SendPart(|bytes|), s1);
  }

  /** The server asks the client at `next` about the key. */
  lemma Tells(s: State, s1: State)
    requires Reachable(s) && Turn(s) && s.jobs[0] == Key(A) && Fresh(s.conns[s.next])
    requires s1 == s.(talk := Waiting(AboutA(), []), conns := s.conns[s.next := Told(s.conns[s.next])])
    ensures Reachable(s1)
  {
    var m, j, c := AboutA(), s.next, s.conns[s.next];
    EncodedSome(m);
    hide Reachable, Encode, AboutA, Turn;
    var c1 := c.(asked := c.asked + [m]);
    var sa := s.(talk := Asking(m, Encode(m)), conns := s.conns[j := c1]);
    BeginsToAsk(s, sa);
    assert sa.conns[j := Told(c)] == s1.conns;
    WritesRequest(sa, m, c1, s1);
  }

  lemma EncodedSome(m: Message)
    ensures |Encode(m)| > 0
  {
  }

  /** The client reads the request. */
  lemma Takes(s: State, c: Conn, s1: State)
    requires Reachable(s) && s.next < |s.conns| && Fresh(c) && s.conns[s.next] == Told(c)
    requires s1 == s.(conns := s.conns[s.next := Considering(c)])
    ensures Reachable(s1)
  {
    RequestA();
    RoundTrip(AboutA(), [], Error);
    hide Reachable, Encode, Decode, Survives, AboutA;
    assert Encode(AboutA()) + [] == Encode(AboutA());
    assert Told(c).(down := [], phase := Filtering(AboutA())) == Considering(c);
    ActTo(s, Take(s.next), Considering(c), s1);
  }

  lemma Asks(s: State, s1: State)
    requires Reachable(s) && Turn(s) && s.jobs[0] == Key(A) && Fresh(s.conns[s.next])
    requires s1 == s.(talk := Waiting(AboutA(), []), conns := s.conns[s.next := Considering(s.conns[s.next])])
    ensures Reachable(s1)
  {
    hide Reachable, AboutA, Considering, Told, Fresh;
    var c := s.conns[s.next];
    var sa := s.(talk := Waiting(AboutA(), []), conns := s.conns[s.next := Told(c)]);
    Tells(s, sa);
    assert sa.conns[s.next := Considering(c)] == s1.conns;
    Takes(sa, c, s1);
  }

  function ResponseA(verdict: nat): Message {
    Client.Response(AboutA(), Some(verdict))
  }

  function EchoA(verdict: nat): seq<Message> {
    if verdict == 0 then [SendData([0x61])] else []
  }

  /** The client, whose filter returned the verdict, with the response still to be written. */
  function Replying(c: Conn, verdict: nat): Conn {
    c.(asked := c.asked + [AboutA()], phase := Emptying, queue := EchoA(verdict),
       raised := if verdict == 0 then c.raised + [Echo([0x61])] else c.raised,
       answered := c.answered + [Answer(AboutA(), verdict)],
       inflight := [ResponseA(verdict)], outbox := Encode(ResponseA(verdict)))
  }

  lemma Replies(s: State, c: Conn, verdict: nat, s1: State)
    requires Reachable(s) && s.next < |s.conns| && Fresh(c) && s.conns[s.next] == Considering(c)
    requires verdict < 2 && s1 == s.(conns := s.conns[s.next := Replying(c, verdict)])
    ensures Reachable(s1)
  {
    RequestA();
    hide Reachable, Encode, Decode, Survives, AboutA;
    assert [] + EchoA(verdict) == EchoA(verdict) && [] + [ResponseA(verdict)] == [ResponseA(verdict)];
    assert SendReply(Considering(c), Some(verdict)) == Replying(c, verdict);
    ActTo(s, Reply(s.next, Some(verdict)), Replying(c, verdict), s1);
  }

  /** A client with nothing else under way takes its only queued message, */
  lemma Unqueues(s: State, j: nat, c: Conn, m: Message, s1: State)
    requires Reachable(s) && j < |s.conns| && s.conns[j] == c && c.closed == None && c.phase == Emptying
    requires c.queue == [m] && c.outbox == [] && c.inflight == []
    requires s1 == s.(conns := s.conns[j := c.(queue := [], inflight := [m], outbox := Encode(m))])
    ensures Reachable(s1)
  {
    hide Reachable, Encode;
    assert [m][1..] == [] && [] + [m] == [m];
    ActTo(s, Empty(j), c.(queue := [], inflight := [m], outbox := Encode(m)), s1);
  }

  /** writes it, */
  lemma Writes(s: State, j: nat, c: Conn, m: Message, s1: State)
    requires Reachable(s) && j < |s.conns| && s.conns[j] == c && c.closed == None
    requires c.up == [] && c.outbox == Encode(m) && 0 < |Encode(m)| < GARBLED
    requires s1 == s.(conns := s.conns[j := c.(up := Encode(m), outbox := [])])
    ensures Reachable(s1)
  {
    hide Reachable, Encode;
    var bytes := Encode(m);
    assert [] + bytes[..|bytes|] == bytes && bytes[|bytes|..] == [];
    ActTo(s, WritePart(j, |bytes|), c.(up := bytes, outbox := []), s1);
  }

  /** and is done. */
  lemma GetsIdle(s: State, j: nat, c: Conn, s1: State)
    requires Reachable(s) && j < |s.conns| && s.conns[j] == c && c.closed == None && c.phase == Emptying
    requires c.queue == [] && c.outbox == [] && s1 == s.(conns := s.conns[j := c.(phase := Idle)])
    ensures Reachable(s1)
  {
    hide Reachable;
    ActTo(s, Empty(j), c.(phase := Idle), s1);
  }

  // ----- a key taken, and written all the same

  /** The state in which the key has been typed, with some clients that have just joined. */
  function WithKey(clients: nat): State {
    Initial().(conns := seq(clients, _ => NewConn(0)), jobs := [Key(A)], input := [0x61], typed := [A])
  }

  lemma WithOneKey(caps: Keys.Caps)
    ensures Reachable(WithKey(1))
  {
    JoinedReachable();
    TypedA(caps);
    hide Reachable, Keys.Cut;
    assert WithKey(1).conns == [NewConn(0)] && [] + [A] == [A] && [] + [0x61] == [0x61];
    assert Apply(Joined(), Type([0x61], caps)).jobs == [Key(A)];
    StepTo(Joined(), Type([0x61], caps), WithKey(1));
  }

  /** A client goes whose response the server waits for, and none of it has been written. */
  lemma Goes(s: State, s1: State)
    requires Reachable(s) && s.talk.Waiting? && s.talk.held == [] && s.next < |s.conns|
    requires s.conns[s.next].closed == None && s.conns[s.next].up == []
    requires s1 == s.(talk := Quiet, next := s.next + 1,
                      conns := s.conns[s.next := s.conns[s.next].(closed := Some(Error))])
    ensures Reachable(s1)
  {
    hide Reachable;
    var sa := s.(conns := s1.conns);
    StepTo(s, Close(s.next, Error), sa);
    assert Ended(sa.conns[s.next]);
    var sb := sa.(talk := Flushing([], false));
    StepTo(sa, ReadFails, sb);
    StepTo(sb, Next, s1);
  }

  /**
   A client takes a key, by its filter's verdict, but goes before its response is written: the server writes
   the key to the pty all the same.
   */
  lemma TakenAndWritten(caps: Keys.Caps) returns (s: State)
    ensures Reachable(s) && Resting(s) && s.typed == [A] && |s.conns| == 1
    ensures s.conns[0].answered == [Answer(AboutA(), 1)] && s.effects == [Direct(0, [0x61])]
  {
    WithOneKey(caps);
    hide Reachable, AboutA, Encode;
    var s0, c := WithKey(1), NewConn(0);
    var s1 := s0.(talk := Waiting(AboutA(), []), conns := [Considering(c)]);
    Asks(s0, s1);
    var s2 := s1.(conns := [Replying(c, 1)]);
    Replies(s1, c, 1, s2);
    var s3 := s2.(talk := Quiet, next := 1, conns := [Replying(c, 1).(closed := Some(Error))]);
    Goes(s2, s3);
    s := s3.(jobs := [], next := 0, done := [A], effects := [Direct(0, [0x61])]);
    assert [] + [A] == [A] && s3.jobs[1..] == [];
    StepTo(s3, Finish, s);
  }

  // ----- a key that one client takes and another declines

  /** The client after the server has read its response. */
  function Answered(c: Conn, verdict: nat): Conn {
    Replying(c, verdict).(inflight := [], outbox := [], responses := c.responses + 1, served := c.served + 1)
  }

  lemma ResponseFits(verdict: nat)
    ensures var m := ResponseA(verdict);
            && m.command == RESPONSE && m.args != [] && m.args[0] == [KEY_EVENT] && AboutA().command == KEY_EVENT
            && 0 < |Encode(m)| < GARBLED && Front(Encode(m)) == Received(m, [])
  {
    RequestA();
    var m := ResponseA(verdict);
    ArgsLength(m.args);
    hide EncodeArgs, AboutA, Word, Decode;
    RoundTrip(m, [], Error);
    assert Encode(m) + [] == Encode(m);
  }

  /** The client once it has written its response. */
  function Written(c: Conn, verdict: nat): Conn {
    Replying(c, verdict).(up := Encode(ResponseA(verdict)), outbox := [])
  }

  lemma WrittenParts(c: Conn, verdict: nat)
    requires Fresh(c)
    ensures var w := Written(c, verdict);
            w.up == Encode(ResponseA(verdict)) && Taken(Consumed(w, []), AboutA(), true) == Answered(c, verdict)
    ensures var r := Replying(c, verdict);
            r.closed == None && r.up == [] && r.outbox == Encode(ResponseA(verdict))
            && r.(up := Encode(ResponseA(verdict)), outbox := []) == Written(c, verdict)
  {
    RequestA();
    hide Encode, AboutA, ResponseA;
    assert [ResponseA(verdict)][1..] == [];
  }

  /** The server reads the response, */
  lemma ReadsResponse(s: State, c: Conn, m: Message, s1: State)
    requires Reachable(s) && s.talk == Waiting(AboutA(), []) && s.next < |s.conns| && s.conns[s.next] == c
    requires Front(c.up) == Received(m, []) && m.command == RESPONSE && m.args != []
    requires m.args[0] == [KEY_EVENT] && AboutA().command == KEY_EVENT
    requires s1 == s.(talk := Flushing([], true),
                      conns := s.conns[s.next := Taken(Consumed(c, []), AboutA(), true)])
    ensures Reachable(s1)
  {
    hide Reachable, Encode, Front, AboutA, Taken, Consumed;
    StepTo(s, Read, s1);
  }

  /** and turns to the next client. */
  lemma TurnsOn(s: State, s1: State)
    requires Reachable(s) && s.talk == Flushing([], true) && s.next < |s.conns|
    requires s1 == s.(talk := Quiet, next := s.next + 1, handled := true)
    ensures Reachable(s1)
  {
    hide Reachable;
    StepTo(s, Next, s1);
  }

  /** The response is written and read. */
  lemma Hears(s: State, c: Conn, verdict: nat, s1: State)
    requires Reachable(s) && s.talk == Waiting(AboutA(), []) && s.next < |s.conns|
    requires Fresh(c) && s.conns[s.next] == Replying(c, verdict)
    requires s1 == s.(talk := Quiet, next := s.next + 1, handled := true,
                      conns := s.conns[s.next := Answered(c, verdict)])
    ensures Reachable(s1)
  {
    hide Reachable, Encode, Front, ResponseA, AboutA, Taken, Consumed, Answered, Written, Replying, Fresh;
    ResponseFits(verdict);
    WrittenParts(c, verdict);
    var m, j, w := ResponseA(verdict), s.next, Written(c, verdict);
    var sa := s.(conns := s.conns[j := w]);
    Writes(s, j, Replying(c, verdict), m, sa);
    var sb := s.(talk := Flushing([], true), conns := s1.conns);
    assert sa.conns[j := Answered(c, verdict)] == s1.conns;
    ReadsResponse(sa, w, m, sb);
    TurnsOn(sb, s1);
  }

  /** One client's whole turn. */
  lemma Turns(s: State, verdict: nat, s1: State)
    requires Reachable(s) && Turn(s) && s.jobs[0] == Key(A) && Fresh(s.conns[s.next]) && verdict < 2
    requires s1 == s.(talk := Quiet, next := s.next + 1, handled := true,
                      conns := s.conns[s.next := Answered(s.conns[s.next], verdict)])
    ensures Reachable(s1)
  {
    hide Reachable, AboutA, Fresh, Considering, Replying, Answered;
    var j, c := s.next, s.conns[s.next];
    var sa := s.(talk := Waiting(AboutA(), []), conns := s.conns[j := Considering(c)]);
    Asks(s, sa);
    var sb := sa.(conns := s.conns[j := Replying(c, verdict)]);
    assert sb.conns == sa.conns[j := Replying(c, verdict)];
    Replies(sa, c, verdict, sb);
    assert s1.conns == sb.conns[j := Answered(c, verdict)];
    Hears(sb, c, verdict, s1);
  }

  lemma WithTwoKeys(caps: Keys.Caps)
    ensures Reachable(WithKey(2))
  {
    JoinedReachable();
    TypedA(caps);
    hide Reachable, Keys.Cut;
    var s := Initial().(conns := [NewConn(0), NewConn(0)]);
    assert Joined().conns + [NewConn(0)] == s.conns;
    assert InTable(Joined().conns) <= 1 by { assert Joined().conns[1..] == [] && InTable([]) == 0; }
    StepTo(Joined(), Accept, s);
    assert WithKey(2).conns == s.conns && [] + [A] == [A] && [] + [0x61] == [0x61];
    assert Apply(s, Type([0x61], caps)).jobs == [Key(A)];
    StepTo(s, Type([0x61], caps), WithKey(2));
  }

  /** So a client with nothing else under way empties its queue of one message. */
  lemma Empties(s: State, j: nat, c: Conn, m: Message, s1: State)
    requires Reachable(s) && j < |s.conns| && s.conns[j] == c && c.closed == None && c.phase == Emptying
    requires c.queue == [m] && c.outbox == [] && c.up == [] && c.inflight == [] && 0 < |Encode(m)| < GARBLED
    requires s1 == s.(conns := s.conns[j := c.(phase := Idle, queue := [], inflight := [m], up := Encode(m))])
    ensures Reachable(s1)
  {
    hide Reachable, Encode;
    var ca := c.(queue := [], inflight := [m], outbox := Encode(m));
    var cb := c.(queue := [], inflight := [m], up := Encode(m));
    var sa, sb := s.(conns := s.conns[j := ca]), s.(conns := s.conns[j := cb]);
    assert sb.conns == sa.conns[j := cb] && s1.conns == sb.conns[j := cb.(phase := Idle)];
    Unqueues(s, j, c, m, sa);
    Writes(sa, j, ca, m, sb);
    GetsIdle(sb, j, cb, s1);
  }

  /** The echo of a client is written, and the server reads and dispatches it. */
  lemma EchoArrives(s: State, c: Conn, s1: State)
    requires Reachable(s) && Resting(s) && |s.conns| == 2 && s.conns[1] == c && c.listed
    requires c.closed == None && c.phase == Emptying && c.queue == [SendData([0x61])]
    requires c.outbox == [] && c.up == [] && c.inflight == []
    requires s1 == s.(effects := s.effects + [From(1, SendData([0x61]))],
                      conns := s.conns[1 := c.(phase := Idle, queue := [],
                                               dispatched := c.dispatched + [SendData([0x61])])])
    ensures Reachable(s1)
  {
    var m := SendData([0x61]);
    EchoFits(m);
    hide Reachable, Encode, Front;
    var sa := s.(conns := s.conns[1 := c.(phase := Idle, queue := [], inflight := [m], up := Encode(m))]);
    Empties(s, 1, c, m, sa);
    EchoRead(sa, c.(phase := Idle, queue := []), m, s1);
  }

  lemma EchoFits(m: Message)
    requires m == SendData([0x61])
    ensures 0 < |Encode(m)| < GARBLED && Front(Encode(m)) == Received(m, []) && FromClient(m)
  {
    ArgsLength(m.args);
    hide EncodeArgs, Decode;
    RoundTrip(m, [], Error);
    assert Encode(m) + [] == Encode(m);
  }

  lemma EchoRead(s: State, c: Conn, m: Message, s1: State)
    requires Reachable(s) && Resting(s) && |s.conns| == 2 && c.listed && c.up == [] && c.inflight == []
    requires s.conns[1] == c.(up := Encode(m), inflight := [m])
    requires |Encode(m)| > 0 && Front(Encode(m)) == Received(m, []) && FromClient(m)
    requires s1.conns == s.conns[1 := c.(dispatched := c.dispatched + [m])]
    requires s1 == s.(effects := s.effects + [From(1, m)], conns := s1.conns)
    ensures Reachable(s1)
  {
    hide Reachable, Encode, Front, FromClient;
    var sa := s.(talk := Polling(1));
    StepTo(s, Poll(1), sa);
    assert [m][1..] == [] && Consumed(s.conns[1], []) == c;
    assert s.conns[1 := c][1 := c.(dispatched := c.dispatched + [m])] == s1.conns;
    StepTo(sa, Receive, s1);
  }

  /** The first client takes the key, the second declines it, and the key is finished. */
  lemma BothAnswer(caps: Keys.Caps, s: State)
    requires s == Initial().(conns := [Answered(NewConn(0), 1), Answered(NewConn(0), 0)],
                             input := [0x61], typed := [A], done := [A])
    ensures Reachable(s)
  {
    WithTwoKeys(caps);
    hide Reachable, AboutA, Encode;
    var s0, c := WithKey(2), NewConn(0);
    assert s0.conns == [c, c];
    var s1 := s0.(next := 1, handled := true, conns := [Answered(c, 1), c]);
    Turns(s0, 1, s1);
    var s2 := s0.(next := 2, handled := true, conns := [Answered(c, 1), Answered(c, 0)]);
    Turns(s1, 0, s2);
    assert [] + [A] == [A] && s2.jobs[1..] == [];
    StepTo(s2, Finish, s);
  }

  /**
   Of two clients the first takes a key and the second declines it: everything at rest, the key has arrived.
   The server does not look at the verdicts.
   */
  lemma TakenAndDeclined(caps: Keys.Caps) returns (s: State)
    ensures Reachable(s) && AllAtRest(s) && s.typed == [A] && |s.conns| == 2
    ensures s.conns[0].answered == [Answer(AboutA(), 1)] && s.conns[1].answered == [Answer(AboutA(), 0)]
    ensures s.effects == [From(1, SendData([0x61]))]
  {
    hide Reachable, AboutA, Encode;
    var c, d := Answered(NewConn(0), 1), Answered(NewConn(0), 0);
    var s1 := Initial().(conns := [c, d], input := [0x61], typed := [A], done := [A]);
    BothAnswer(caps, s1);
    var s2 := s1.(conns := [c.(phase := Idle), d]);
    assert s2.conns == s1.conns[0 := c.(phase := Idle)];
    GetsIdle(s1, 0, c, s2);
    var e := d.(phase := Idle, queue := [], dispatched := [SendData([0x61])]);
    s := s2.(effects := [From(1, SendData([0x61]))], conns := [c.(phase := Idle), e]);
    assert [] + [SendData([0x61])] == [SendData([0x61])] && s.conns == s2.conns[1 := e];
    EchoArrives(s2, d, s);
  }
}
