/** The control message codec of libfep/control.c: the byte form of a message and its reader and writer. */
module Codec {
  import opened Bytes
  import opened Sockets
  import opened Strings

  const SET_CURSOR_TEXT: byte := 1
  const SET_STATUS_TEXT: byte := 2
  const SEND_TEXT: byte := 3
  const SEND_DATA: byte := 4
  const FORWARD_KEY_EVENT: byte := 5
  const KEY_EVENT: byte := 6
  const RESIZE_EVENT: byte := 7
  const RESPONSE: byte := 8

  datatype Message = Message(command: byte, args: seq<seq<byte>>)

  /** The `commands` table: the number of arguments of a command, -1 for an unknown one. */
  function Arity(command: byte): int {
    if command == SET_CURSOR_TEXT || command == SET_STATUS_TEXT then 2
    else if command == SEND_TEXT || command == SEND_DATA then 1
    else if command == FORWARD_KEY_EVENT then 2
    else if command == KEY_EVENT then 3
    else if command == RESIZE_EVENT || command == RESPONSE then 2
    else -1
  }

  /** A message whose argument count is the table's. */
  predicate WellFormed(m: Message) {
    Arity(m.command) == |m.args|
  }

  // ----- the messages the two sides exchange

  function KeyRequest(keyval: nat, modifiers: nat, source: seq<byte>): Message {
    Message(KEY_EVENT, [Word(keyval), Word(modifiers), source])
  }

  function ResizeRequest(cols: nat, rows: nat): Message {
    Message(RESIZE_EVENT, [Word(cols), Word(rows)])
  }

  function SendData(data: seq<byte>): Message {
    Message(SEND_DATA, [data])
  }

  /** The commands a client raises by itself: the five senders' . */
  predicate FromClient(m: Message) {
    WellFormed(m) && m.command <= FORWARD_KEY_EVENT
  }

  // ----- the bytes of a message

  /** The four bytes of a value truncated to 32 bits, least significant first. */
  function Word(n: nat): (w: seq<byte>)
    ensures |w| == 4
  {
    [n % 0x100, n / 0x100 % 0x100, n / 0x1_0000 % 0x100, n / 0x100_0000 % 0x100]
  }

  /**
   The length the reader takes from four bytes.  It combines them as signed chars, so a byte of
   128 or more in one of the three low positions sets every bit above it.
   */
  function WordLength(w: seq<byte>): (n: nat)
    requires |w| == 4
    ensures n < 0x1_0000_0000
  {
    var b0, b1, b2, b3 := w[0] as int, w[1] as int, w[2] as int, w[3] as int;
    if b0 >= 0x80 then 0xFFFF_FF00 + b0
    else if b1 >= 0x80 then 0xFFFF_0000 + b1 * 0x100 + b0
    else if b2 >= 0x80 then 0xFF00_0000 + b2 * 0x1_0000 + b1 * 0x100 + b0
    else b3 * 0x100_0000 + b2 * 0x1_0000 + b1 * 0x100 + b0
  }

  /** The lengths that come through: no low byte with its top bit set, unless all bits above are set too. */
  predicate LengthSurvives(n: nat) {
    && n < 0x1_0000_0000
    && (n % 0x100 >= 0x80 ==> n >= 0xFFFF_FF00)
    && (n / 0x100 % 0x100 >= 0x80 ==> n >= 0xFFFF_0000)
    && (n / 0x1_0000 % 0x100 >= 0x80 ==> n >= 0xFF00_0000)
  }

  predicate Survives(m: Message) {
    WellFormed(m) && forall i :: 0 <= i < |m.args| ==> LengthSurvives(|m.args[i]|)
  }

  function EncodeArgs(args: seq<seq<byte>>): seq<byte> {
    if args == [] then [] else Word(|args[0]|) + args[0] + EncodeArgs(args[1..])
  }

  function Encode(m: Message): seq<byte> {
    [m.command] + EncodeArgs(m.args)
  }

  function EncodeAll(ms: seq<Message>): seq<byte> {
    if ms == [] then [] else Encode(ms[0]) + EncodeAll(ms[1..])
  }

  lemma ArgsLength(args: seq<seq<byte>>)
    ensures |args| == 1 ==> |EncodeArgs(args)| == 4 + |args[0]|
    ensures |args| == 2 ==> |EncodeArgs(args)| == 8 + |args[0]| + |args[1]|
    ensures |args| == 3 ==> |EncodeArgs(args)| == 12 + |args[0]| + |args[1]| + |args[2]|
  {
    hide Word;
    assert EncodeArgs([]) == [];
    if |args| == 2 {
      assert args[1..] == [args[1]] && |EncodeArgs([args[1]])| == 4 + |args[1]|;
    } else if |args| == 3 {
      assert args[1..] == [args[1], args[2]] && [args[1], args[2]][1..] == [args[2]];
      assert |EncodeArgs([args[2]])| == 4 + |args[2]|;
      assert |EncodeArgs([args[1], args[2]])| == 8 + |args[1]| + |args[2]|;
    }
  }

  // ----- what the reader does with a stream

  /**
   The end of one call of the reader: a message and the unread rest; a failure, which leaves
   nothing unread; a read(2) that keeps returning 0 inside a payload, so that the loop never ends;
   or an unknown command byte, whose argument table cannot be allocated.
   */
  datatype Outcome = Received(message: Message, rest: seq<byte>) | Failed | Spins | Dies

  datatype ArgsOutcome = Args(args: seq<seq<byte>>, rest: seq<byte>) | NoArgs(why: Outcome)

  function DecodeArgs(n: nat, s: seq<byte>, e: Ending): (r: ArgsOutcome)
    ensures r.Args? ==> |r.args| == n && |r.rest| <= |s|
    ensures r.NoArgs? ==> r.why == Failed || (r.why == Spins && e == Eof)
  {
    if n == 0 then Args([], s)
    else if |s| < 4 then NoArgs(Failed)
    else
      var len := WordLength(s[..4]);
      if |s| - 4 < len then NoArgs(if e.Eof? then Spins else Failed)
      else
        Prepend([s[4..4 + len]], DecodeArgs(n - 1, s[4 + len..], e))
  }

  /** An outcome with arguments read earlier put in front. */
  function Prepend(args: seq<seq<byte>>, r: ArgsOutcome): ArgsOutcome {
    match r
    case Args(more, rest) => Args(args + more, rest)
    case NoArgs(why) => NoArgs(why)
  }

  lemma PrependPrepend(a: seq<seq<byte>>, b: seq<seq<byte>>, r: ArgsOutcome)
    ensures Prepend(a, Prepend(b, r)) == Prepend(a + b, r)
  {
    if r.Args? {
      assert a + (b + r.args) == (a + b) + r.args;
    }
  }

  function Decode(s: seq<byte>, e: Ending): (r: Outcome)
    ensures r.Received? ==> |r.rest| < |s| && WellFormed(r.message)
  {
    if s == [] then Failed
    else if Arity(s[0]) < 0 then Dies
    else
      match DecodeArgs(Arity(s[0]), s[1..], e)
      case Args(args, rest) => Received(Message(s[0], args), rest)
      case NoArgs(why) => why
  }

  // ----- lengths

  /** The exact condition under which a length comes back unchanged. */
  lemma LengthRoundTrip(n: nat)
    ensures WordLength(Word(n)) == n <==> LengthSurvives(n)
  {
    var b0, b1, b2, b3 := n % 0x100, n / 0x100 % 0x100, n / 0x1_0000 % 0x100, n / 0x100_0000 % 0x100;
    var q1, q2, q3 := n / 0x100, n / 0x1_0000, n / 0x100_0000;
    assert q2 == q1 / 0x100 && q3 == q2 / 0x100;
    assert n < 0x1_0000_0000 ==> n == b3 * 0x100_0000 + b2 * 0x1_0000 + b1 * 0x100 + b0;
  }

  // ----- one message

  lemma ArgsCons(w: seq<byte>, a: seq<byte>, t: seq<byte>, n: nat, e: Ending)
    requires |w| == 4 && WordLength(w) == |a|
    ensures DecodeArgs(n + 1, w + a + t, e) == Prepend([a], DecodeArgs(n, t, e))
  {
    hide WordLength;
    var s := w + a + t;
    assert s[..4] == w && s[4..4 + |a|] == a && s[4 + |a|..] == t;
  }

  /** The first argument is read back when its length survives; otherwise an argument of another length is. */
  lemma FirstArg(a: seq<byte>, t: seq<byte>, n: nat, e: Ending)
    ensures LengthSurvives(|a|) ==>
              DecodeArgs(n + 1, Word(|a|) + a + t, e) == Prepend([a], DecodeArgs(n, t, e))
    ensures !LengthSurvives(|a|) ==>
              var r := DecodeArgs(n + 1, Word(|a|) + a + t, e);
              r.Args? ==> r.args[0] != a
  {
    LengthRoundTrip(|a|);
    hide Word, WordLength, LengthSurvives;
    if WordLength(Word(|a|)) == |a| {
      ArgsCons(Word(|a|), a, t, n, e);
    } else {
      assert (Word(|a|) + a + t)[..4] == Word(|a|);
    }
  }

  lemma {:induction false} ArgsRoundTrip(args: seq<seq<byte>>, t: seq<byte>, e: Ending)
    ensures DecodeArgs(|args|, EncodeArgs(args) + t, e) == Args(args, t)
            <==> forall i :: 0 <= i < |args| ==> LengthSurvives(|args[i]|)
  {
    if args != [] {
      hide Word, WordLength, LengthSurvives, DecodeArgs;
      var a, rest := args[0], args[1..];
      assert args == [a] + rest;
      assert EncodeArgs(args) + t == Word(|a|) + a + (EncodeArgs(rest) + t);
      FirstArg(a, EncodeArgs(rest) + t, |rest|, e);
      ArgsRoundTrip(rest, t, e);
      var r := DecodeArgs(|rest|, EncodeArgs(rest) + t, e);
      assert r.Args? && [a] + r.args == args ==> r.args == ([a] + r.args)[1..] == rest;
    }
  }

  /** A message comes back unchanged, whatever follows it, exactly when all its lengths survive. */
  lemma RoundTrip(m: Message, t: seq<byte>, e: Ending)
    requires WellFormed(m)
    ensures Decode(Encode(m) + t, e) == Received(m, t) <==> Survives(m)
  {
    ArgsRoundTrip(m.args, t, e);
    assert (Encode(m) + t)[1..] == EncodeArgs(m.args) + t;
  }

  // ----- streams

  lemma ArgsUncons(n: nat, s: seq<byte>, e: Ending) returns (w: seq<byte>, a: seq<byte>, u: seq<byte>)
    requires n > 0 && DecodeArgs(n, s, e).Args?
    ensures |w| == 4 && WordLength(w) == |a| && s == w + a + u && |u| < |s|
    ensures DecodeArgs(n, s, e) == Prepend([a], DecodeArgs(n - 1, u, e))
  {
    hide WordLength;
    w := s[..4];
    var len := WordLength(w);
    a, u := s[4..4 + len], s[4 + len..];
  }

  /** Decoded arguments with more bytes left over. */
  function AndMore(r: ArgsOutcome, t: seq<byte>): ArgsOutcome {
    match r
    case Args(args, rest) => Args(args, rest + t)
    case NoArgs(_) => r
  }

  lemma PrependMore(args: seq<seq<byte>>, r: ArgsOutcome, t: seq<byte>)
    ensures Prepend(args, AndMore(r, t)) == AndMore(Prepend(args, r), t)
  {
  }

  lemma NoArgsStable(s: seq<byte>, t: seq<byte>, e: Ending, e': Ending)
    ensures DecodeArgs(0, s + t, e') == AndMore(DecodeArgs(0, s, e), t)
  {
  }

  lemma {:induction false} ArgsStable(n: nat, s: seq<byte>, t: seq<byte>, e: Ending, e': Ending)
    requires DecodeArgs(n, s, e).Args?
    ensures DecodeArgs(n, s + t, e') == AndMore(DecodeArgs(n, s, e), t)
  {
    hide WordLength, AndMore, DecodeArgs;
    if n == 0 {
      NoArgsStable(s, t, e, e');
    } else {
      var w, a, u := ArgsUncons(n, s, e);
      ArgsStable(n - 1, u, t, e, e');
      assert s + t == w + a + (u + t) by { Assoc(w + a, u, t); }
      ArgsCons(w, a, u + t, n - 1, e');
      PrependMore([a], DecodeArgs(n - 1, u, e), t);
    }
  }

  /** Bytes that arrive later do not change a message already complete, nor does how the stream will end. */
  lemma DecodeStable(s: seq<byte>, t: seq<byte>, e: Ending, e': Ending)
    requires Decode(s, e).Received?
    ensures Decode(s + t, e') == Received(Decode(s, e).message, Decode(s, e).rest + t)
  {
    ArgsStable(Arity(s[0]), s[1..], t, e, e');
    assert (s + t)[1..] == s[1..] + t;
  }

  /** Whether the first n bytes of EncodeArgs(args) end inside a payload. */
  predicate CutInPayload(args: seq<seq<byte>>, n: nat) {
    args != [] && n >= 4 && (n - 4 < |args[0]| || CutInPayload(args[1..], n - 4 - |args[0]|))
  }

  lemma {:induction false} CutArgs(args: seq<seq<byte>>, p: seq<byte>, e: Ending)
    requires forall i :: 0 <= i < |args| ==> LengthSurvives(|args[i]|)
    requires p < EncodeArgs(args)
    ensures DecodeArgs(|args|, p, e)
         == NoArgs(if e.Eof? && CutInPayload(args, |p|) then Spins else Failed)
  {
    var a, rest := args[0], args[1..];
    LengthRoundTrip(|a|);
    hide Word, WordLength, LengthSurvives;
    var w := Word(|a|);
    if |p| >= 4 + |a| {
      var u := p[4 + |a|..];
      PrefixParts(p, w + a, EncodeArgs(rest));
      CutArgs(rest, u, e);
      hide DecodeArgs;
      ArgsCons(w, a, u, |rest|, e);
    } else if |p| >= 4 {
      assert p[..4] == EncodeArgs(args)[..4] == w;
    }
  }

  /** A stream that ends inside a message: an endless loop at end of file within a payload, else a failure. */
  lemma CutMessage(m: Message, p: seq<byte>, e: Ending)
    requires Survives(m)
    requires p < Encode(m)
    ensures Decode(p, e) == if e.Eof? && p != [] && CutInPayload(m.args, |p| - 1) then Spins else Failed
  {
    if p != [] {
      assert p[1..] < EncodeArgs(m.args) by {
        assert Encode(m)[1..] == EncodeArgs(m.args);
      }
      CutArgs(m.args, p[1..], e);
    }
  }

  /** The least number that a length word which does not survive is read as. */
  const GARBLED := 0xFF80_0000

  lemma GarbledLength(n: nat)
    requires n < 0x1_0000_0000 && !LengthSurvives(n)
    ensures WordLength(Word(n)) >= GARBLED
  {
    assert n / 0x1_0000 == n / 0x100 / 0x100;
  }

  lemma {:induction false} GarbledArgs(args: seq<seq<byte>>, t: seq<byte>, e: Ending)
    requires |EncodeArgs(args) + t| < GARBLED
    requires exists i :: 0 <= i < |args| && !LengthSurvives(|args[i]|)
    ensures DecodeArgs(|args|, EncodeArgs(args) + t, e).NoArgs?
  {
    hide Word, WordLength, LengthSurvives;
    var a, rest := args[0], args[1..];
    var w, u := Word(|a|), EncodeArgs(rest) + t;
    assert EncodeArgs(args) + t == w + a + u;
    if LengthSurvives(|a|) {
      assert exists i :: 0 <= i < |rest| && !LengthSurvives(|rest[i]|) by {
        var i :| 0 <= i < |args| && !LengthSurvives(|args[i]|);
        assert rest[i - 1] == args[i];
      }
      GarbledArgs(rest, t, e);
      LengthRoundTrip(|a|);
      ArgsCons(w, a, u, |rest|, e);
    } else {
      GarbledLength(|a|);
      assert (w + a + u)[..4] == w;
    }
  }

  /** A message one of whose lengths does not survive is never read, whole or not, whatever follows it. */
  lemma Garbled(m: Message, p: seq<byte>, e: Ending)
    requires WellFormed(m) && !Survives(m) && |Encode(m)| < GARBLED
    requires |p| < GARBLED && (p <= Encode(m) || Encode(m) <= p)
    ensures !Decode(p, e).Received?
  {
    if Encode(m) <= p {
      var t := p[|Encode(m)|..];
      assert p[1..] == EncodeArgs(m.args) + t;
      GarbledArgs(m.args, t, e);
    } else if Decode(p, e).Received? {
      var t := Encode(m)[|p|..];
      assert Encode(m) == p + t;
      DecodeStable(p, t, e, e);
      assert Encode(m)[1..] == EncodeArgs(m.args) + [];
      GarbledArgs(m.args, [], e);
    }
  }

  /** Small enough for the lengths in it to be told from garbled ones. */
  predicate Sendable(m: Message) {
    WellFormed(m) && |Encode(m)| < GARBLED
  }

  /**
   Whatever part of an encoded run of messages has arrived, a message read from it is the first one
   sent, whose lengths survive, and what stays unread is the matching part of the encoding of the others.
   */
  lemma DecodeArrived(ms: seq<Message>, arrived: seq<byte>, later: seq<byte>, e: Ending)
    requires forall i :: 0 <= i < |ms| ==> Sendable(ms[i])
    requires arrived + later == EncodeAll(ms) && |arrived| < GARBLED
    requires Decode(arrived, e).Received?
    ensures ms != [] && Survives(ms[0]) && Decode(arrived, e).message == ms[0]
    ensures Decode(arrived, e).rest + later == EncodeAll(ms[1..])
  {
    hide Decode, Encode;
    assert |arrived + later| > 0 by { NotEmpty(arrived, e); }
    var m, rest := ms[0], EncodeAll(ms[1..]);
    assert arrived <= Encode(m) || Encode(m) <= arrived by { Comparable(arrived, later, Encode(m), rest); }
    if !Survives(m) {
      Garbled(m, arrived, e);
    }
    DecodeStable(arrived, later, e, e);
    RoundTrip(m, rest, e);
  }

  lemma NotEmpty(s: seq<byte>, e: Ending)
    requires Decode(s, e).Received?
    ensures s != []
  {
  }

  /** Of two ways to cut a sequence in two, one first part is a prefix of the other. */
  lemma Comparable<T>(a: seq<T>, b: seq<T>, c: seq<T>, d: seq<T>)
    requires a + b == c + d
    ensures a <= c || c <= a
  {
    if |a| <= |c| {
      assert a == (a + b)[..|a|] == c[..|a|];
    } else {
      assert c == (c + d)[..|c|] == a[..|c|];
    }
  }

  /** Reading until the stream fails: the messages read. */
  function DecodeAll(s: seq<byte>, e: Ending): (seq<Message>, Outcome)
    decreases |s|
  {
    match Decode(s, e)
    case Received(m, rest) => var (ms, last) := DecodeAll(rest, e); ([m] + ms, last)
    case other => ([], other)
  }

  /** Any run of messages comes back, in order, with nothing left over. */
  lemma {:induction false} StreamRoundTrip(ms: seq<Message>, e: Ending)
    requires forall i :: 0 <= i < |ms| ==> Survives(ms[i])
    ensures DecodeAll(EncodeAll(ms), e) == (ms, Failed)
  {
    hide Encode, WellFormed;
    if ms != [] {
      RoundTrip(ms[0], EncodeAll(ms[1..]), e);
      StreamRoundTrip(ms[1..], e);
      assert ms == [ms[0]] + ms[1..];
    }
  }

  lemma {:induction false} EncodeAllConcat(a: seq<Message>, b: seq<Message>)
    ensures EncodeAll(a + b) == EncodeAll(a) + EncodeAll(b)
  {
    hide Encode;
    if a == [] {
      assert a + b == b;
    } else {
      EncodeAllConcat(a[1..], b);
      assert (a + b)[1..] == a[1..] + b;
      Assoc(Encode(a[0]), EncodeAll(a[1..]), EncodeAll(b));
    }
  }

  lemma EncodeAllSingle(m: Message)
    ensures EncodeAll([m]) == Encode(m)
  {
    assert EncodeAll([m]) == Encode(m) + EncodeAll([]);
  }

  // ----- argument values

  function WordValue(w: seq<byte>): nat
    requires |w| == 4
  {
    var b0, b1, b2, b3 := w[0] as int, w[1] as int, w[2] as int, w[3] as int;
    b3 * 0x100_0000 + b2 * 0x1_0000 + b1 * 0x100 + b0
  }

  lemma WordRoundTrip(n: nat)
    requires n < 0x1_0000_0000
    ensures WordValue(Word(n)) == n
  {
    assert n / 0x1_0000 == n / 0x100 / 0x100 && n / 0x100_0000 == n / 0x1_0000 / 0x100;
  }

  /** _fep_control_message_read_uint32_arg, on an argument the message has. */
  function ReadUint32(m: Message, i: nat): Option<nat>
    requires i < |m.args|
  {
    if |m.args[i]| == 4 then Some(WordValue(m.args[i])) else None
  }

  /** FepAttribute: how a stretch of characters is to be decorated. */
  datatype Attribute = Attribute(kind: nat, value: nat, start: nat, end: nat)

  const UNDERLINE := 0
  const NO_ATTRIBUTE := 3
  const STANDOUT := 4
  const BOLD := 5
  const BLINK := 6

  function AttributeArg(a: Attribute): seq<byte> {
    Word(a.kind) + Word(a.value) + Word(a.start) + Word(a.end)
  }

  /** _fep_control_message_read_attribute_arg: each field passes through an 8-bit variable. */
  function ReadAttribute(m: Message, i: nat): Option<Attribute>
    requires i < |m.args|
  {
    var arg := m.args[i];
    if |arg| == 16 then Some(Attribute(arg[0], arg[4], arg[8], arg[12])) else None
  }

  /** An attribute crosses the wire unchanged exactly when each field fits in 8 bits. */
  lemma AttributeRoundTrip(a: Attribute, m: Message, i: nat)
    requires i < |m.args| && m.args[i] == AttributeArg(a)
    ensures ReadAttribute(m, i) == Some(a)
            <==> a.kind < 0x100 && a.value < 0x100 && a.start < 0x100 && a.end < 0x100
  {
    var arg := m.args[i];
    assert arg[0] == Word(a.kind)[0] && arg[4] == Word(a.value)[0];
    assert arg[8] == Word(a.start)[0] && arg[12] == Word(a.end)[0];
  }

  // ----- the reader and the writer

  /** The payload loop of the reader: len bytes gathered from reads of any positive size. */
  method ReadPayload(fd: Socket, length: nat) returns (r: Option<Outcome>, arg: seq<byte>)
    modifies fd`input
    ensures |old(fd.input)| < length ==> r == Some(if fd.ending.Eof? then Spins else Failed)
    ensures |old(fd.input)| >= length ==> r == None && arg == old(fd.input)[..length]
    ensures |old(fd.input)| >= length ==> fd.input == old(fd.input)[length..]
  {
    ghost var start := fd.input;
    var buf := new FepString();
    var len := length;
    while len > 0
      invariant buf.Valid() && fresh(buf) && fresh(buf.str)
      invariant 0 <= len <= length && length - len <= |start|
      invariant buf.Contents() == start[..length - len] && fd.input == start[length - len..]
    {
      var k, bs := fd.ReadSome(len);
      if k < 0 {
        return Some(Failed), [];
      }
      if k == 0 {
        return Some(Spins), [];
      }
      buf.Append(bs);
      len := len - k;
    }
    r, arg := None, buf.str[..buf.len];
    assert arg == buf.Contents();
  }

  lemma PrependNone(r: ArgsOutcome)
    ensures Prepend([], r) == r
  {
    if r.Args? {
      assert [] + r.args == r.args;
    }
  }

  lemma ArgsDone(args: seq<seq<byte>>, s: seq<byte>, e: Ending)
    ensures Prepend(args, DecodeArgs(0, s, e)) == Args(args, s)
  {
    assert args + [] == args;
  }

  /** Decoding one argument. */
  lemma NextArg(n: nat, s: seq<byte>, e: Ending)
    requires n > 0
    ensures DecodeArgs(n, s, e)
         == if |s| < 4 then NoArgs(Failed)
            else
              var len := WordLength(s[..4]);
              if |s| - 4 < len then NoArgs(if e.Eof? then Spins else Failed)
              else Prepend([s[4..4 + len]], DecodeArgs(n - 1, s[4 + len..], e))
  {
    hide WordLength;
  }

  /** _fep_read_control_message: takes from the stream what Decode says. */
  method ReadControlMessage(fd: Socket) returns (r: Outcome)
    modifies fd`input
    ensures r == Decode(old(fd.input), fd.ending)
    ensures r.Received? ==> fd.input == r.rest
  {
    hide WordLength, DecodeArgs;
    ghost var start := fd.input;
    var k, buf := fd.ReadWhole(1);
    if k <= 0 {
      return Failed;
    }
    var command := buf[0];
    if Arity(command) < 0 {
      return Dies;
    }
    var args, i, n := [], 0, Arity(command);
    PrependNone(DecodeArgs(n, fd.input, fd.ending));
    while i < n
      invariant 0 <= i <= n && |args| == i
      invariant DecodeArgs(n, start[1..], fd.ending) == Prepend(args, DecodeArgs(n - i, fd.input, fd.ending))
    {
      ghost var before := fd.input;
      NextArg(n - i, before, fd.ending);
      k, buf := fd.ReadWhole(4);
      if k < 4 {
        return Failed;
      }
      var why, arg := ReadPayload(fd, WordLength(buf));
      if why.Some? {
        return why.value;
      }
      ghost var len := WordLength(buf);
      assert before[4..4 + len] == arg && before[4 + len..] == fd.input;
      PrependPrepend(args, [arg], DecodeArgs(n - i - 1, fd.input, fd.ending));
      args, i := args + [arg], i + 1;
    }
    ArgsDone(args, fd.input, fd.ending);
    r := Received(Message(command, args), fd.input);
  }

  /** The payload loop of the writer. */
  method WritePayload(fd: Socket, arg: seq<byte>) returns (ok: bool)
    modifies fd`output, fd`room
    ensures ok ==> fd.output == old(fd.output) + arg && fd.room == old(fd.room) - |arg|
    ensures !ok ==> fd.room == 0 && old(fd.room) < |arg|
    ensures !ok ==> fd.output == old(fd.output) + arg[..old(fd.room)]
  {
    ghost var start := fd.output;
    var total := 0;
    assert start == start + arg[..0];
    while total < |arg|
      invariant 0 <= total <= |arg|
      invariant fd.output == start + arg[..total] && fd.room == old(fd.room) - total
    {
      var k := fd.WriteSome(arg[total..]);
      if k < 0 {
        return false;
      }
      Assoc(start, arg[..total], arg[total..][..k]);
      assert arg[..total] + arg[total..][..k] == arg[..total + k];
      total := total + k;
    }
    assert arg[..total] == arg;
    return true;
  }

  /**
   What became of writing some bytes to a connection that took `room` bytes at most: all of them, or
   a proper prefix, after which the connection takes nothing.
   */
  ghost predicate Sent(before: seq<byte>, room: nat, after: seq<byte>, room': nat, bytes: seq<byte>) {
    if |bytes| <= room then after == before + bytes && room' == room - |bytes|
    else room' == 0 && exists p :: p < bytes && |p| <= room && after == before + p
  }

  lemma SentTwice(b0: seq<byte>, r0: nat, x: seq<byte>, b1: seq<byte>, r1: nat, y: seq<byte>, b2: seq<byte>, r2: nat)
    requires Sent(b0, r0, b1, r1, x) && Sent(b1, r1, b2, r2, y)
    ensures Sent(b0, r0, b2, r2, x + y)
  {
    if |x| <= r0 {
      Assoc(b0, x, y);
      if |y| > r1 {
        var p :| p < y && |p| <= r1 && b2 == b1 + p;
        Assoc(b0, x, p);
        assert x + p < x + y;
      }
    } else {
      var p :| p < x && |p| <= r0 && b1 == b0 + p;
      assert p < x + y;
      assert b2 == b1;
    }
  }

  /** _fep_write_control_message: the whole encoding, or a failure after a proper prefix of it. */
  method WriteControlMessage(fd: Socket, m: Message) returns (r: int)
    modifies fd`output, fd`room
    ensures r == if |Encode(m)| <= old(fd.room) then 0 else -1
    ensures Sent(old(fd.output), old(fd.room), fd.output, fd.room, Encode(m))
  {
    hide Word;
    ghost var start, all := fd.output, Encode(m);
    var k := fd.WriteWhole([m.command]);
    if k < 1 {
      assert [] < all && fd.output == start + [];
      return -1;
    }
    ghost var sent := [m.command];
    var i := 0;
    assert m.args[0..] == m.args;
    while i < |m.args|
      invariant 0 <= i <= |m.args|
      invariant sent + EncodeArgs(m.args[i..]) == all
      invariant fd.output == start + sent && fd.room == old(fd.room) - |sent|
    {
      var arg := m.args[i];
      ghost var tail := EncodeArgs(m.args[i + 1..]);
      assert m.args[i..][1..] == m.args[i + 1..];
      Assoc(sent, Word(|arg|) + arg, tail);
      Assoc(sent, Word(|arg|), arg);
      k := fd.WriteWhole(Word(|arg|));
      if k < 0 {
        assert sent < all;
        return -1;
      }
      Assoc(start, sent, Word(|arg|));
      sent := sent + Word(|arg|);
      ghost var room := fd.room;
      var ok := WritePayload(fd, arg);
      if !ok {
        Assoc(start, sent, arg[..room]);
        assert sent + arg[..room] < all;
        return -1;
      }
      Assoc(start, sent, arg);
      sent := sent + arg;
      i := i + 1;
    }
    r := 0;
  }
}
