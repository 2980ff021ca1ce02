/** The server's side of the control protocol, fep/control.c: sending a request, waiting, and dispatching messages. */
module Server {
  import opened Bytes
  import opened Codec
  import opened Sockets
  import opened Lists
  import opened Client
  import Keys

  // ----- what dispatching a message writes to the pty

  /** The server's surroundings: terminfo strings, and the conversion from UTF-8, which can fail. */
  datatype Config = Config(caps: Keys.Caps, iconv: seq<byte> -> Option<seq<byte>>)

  /** The bytes of an encoded key, if its two numbers can be read. */
  function ForwardedBytes(m: Message, caps: Keys.Caps): seq<byte>
    requires |m.args| == 2
  {
    var keyval, modifiers := ReadUint32(m, 0), ReadUint32(m, 1);
    if keyval.Some? && modifiers.Some? then Keys.KeyToString(keyval.value, modifiers.value, caps) else []
  }

  function PtyBytes(m: Message, config: Config): seq<byte>
    requires WellFormed(m)
  {
    if m.command == SEND_DATA then m.args[0]
    else if m.command == SEND_TEXT then config.iconv(CString(m.args[0])).GetOr([])
    else if m.command == FORWARD_KEY_EVENT then ForwardedBytes(m, config.caps)
    else []
  }

  predicate AllWellFormed(ms: seq<Message>) {
    forall i :: 0 <= i < |ms| ==> WellFormed(ms[i])
  }

  function PtyAll(ms: seq<Message>, config: Config): seq<byte>
    requires AllWellFormed(ms)
  {
    if ms == [] then [] else PtyBytes(ms[0], config) + PtyAll(ms[1..], config)
  }

  // ----- what the server reads while it waits

  /** The messages before the first RESPONSE of a stream, and how the wait ends. */
  function Gather(s: seq<byte>, e: Ending): (r: (seq<Message>, Outcome))
    ensures AllWellFormed(r.0) && forall i :: 0 <= i < |r.0| ==> r.0[i].command != RESPONSE
    ensures r.1.Received? ==> WellFormed(r.1.message) && r.1.message.command == RESPONSE
    decreases |s|
  {
    match Decode(s, e)
    case Received(m, rest) =>
      if m.command == RESPONSE then ([], Received(m, rest))
      else var (ms, last) := Gather(rest, e); ([m] + ms, last)
    case other => ([], other)
  }

  /** One round of the wait, with the messages held so far. */
  lemma GatherRound(held: seq<Message>, s: seq<byte>, e: Ending)
    ensures match Decode(s, e)
            case Received(m, rest) =>
              if m.command == RESPONSE then Gather(s, e) == ([], Received(m, rest))
              else held + Gather(s, e).0 == held + [m] + Gather(rest, e).0 && Gather(s, e).1 == Gather(rest, e).1
            case other => Gather(s, e) == ([], other)
  {
    hide Decode;
    if Decode(s, e).Received? {
      Assoc(held, [Decode(s, e).message], Gather(Decode(s, e).rest, e).0);
    }
  }

  lemma {:induction false} GatherEncoded(ms: seq<Message>, response: Message, rest: seq<byte>, e: Ending)
    requires forall i :: 0 <= i < |ms| ==> Survives(ms[i]) && ms[i].command != RESPONSE
    requires Survives(response) && response.command == RESPONSE
    ensures Gather(EncodeAll(ms) + Encode(response) + rest, e) == (ms, Received(response, rest))
  {
    hide Encode, Decode;
    var tail := Encode(response) + rest;
    Assoc(EncodeAll(ms), Encode(response), rest);
    if ms == [] {
      RoundTrip(response, rest, e);
      assert [] + tail == tail;
    } else {
      var m, later := ms[0], ms[1..];
      GatherEncoded(later, response, rest, e);
      Assoc(EncodeAll(later), Encode(response), rest);
      Assoc(Encode(m), EncodeAll(later), tail);
      RoundTrip(m, EncodeAll(later) + tail, e);
      assert ms == [m] + later;
    }
  }

  /**
   Behind whatever else a client has sent, the bytes it answers a request with make the server hold
   the former, accept the response, and leave what the filter raised, and the echo, for later.
   */
  lemma RequestAnswered(before: seq<Message>, filter: Option<Filter>, request: Message, later: seq<byte>, e: Ending)
    requires Handles(request)
    requires forall i :: 0 <= i < |before| ==> Survives(before[i]) && before[i].command != RESPONSE
    ensures var response := Response(request, VerdictOf(filter, request));
            && Gather(EncodeAll(before) + EncodeAll(Answered(filter, request)) + later, e)
               == (before, Received(response, EncodeAll(RaisedBy(filter, request)) + later))
            && response.args[0] == [request.command]
  {
    hide Encode, Decode, Gather;
    var response, raised := Response(request, VerdictOf(filter, request)), RaisedBy(filter, request);
    EncodeAllConcat([response], raised);
    EncodeAllSingle(response);
    GatherEncoded(before, response, EncodeAll(raised) + later, e);
    Assoc(EncodeAll(before), Encode(response), EncodeAll(raised));
    Assoc(EncodeAll(before) + Encode(response), EncodeAll(raised), later);
  }

  /** Its bytes, and no others, are echoed for a key that is declined: without a filter, or when it returns 0. */
  lemma DeclinedKeyEchoed(filter: Option<Filter>, k: Event, config: Config)
    requires k.KeyPress? && k.keyval < 0x1_0000_0000 && k.modifiers < 0x1_0000_0000
    ensures var request := KeyRequest(k.keyval, k.modifiers, k.source);
            var declined := filter == None || filter.value.verdict(k) == 0;
            && Handles(request)
            && PtyAll(Echoes(request, VerdictOf(filter, request)), config) == (if declined then k.source else [])
  {
    WordRoundTrip(k.keyval);
    WordRoundTrip(k.modifiers);
    hide Word, WordValue;
    var request := KeyRequest(k.keyval, k.modifiers, k.source);
    assert EventOf(request) == k;
    assert k.source + [] == k.source;
  }

  /** The text a client sends is converted and written, and nothing when it cannot be converted. */
  lemma TextWritten(text: seq<byte>, config: Config)
    requires 0 !in text
    ensures PtyBytes(Message(SEND_TEXT, [text + [0]]), config)
         == match config.iconv(text) case Some(local) => local case None => []
  {
    CStringOf(text, []);
    assert text + [0] + [] == text + [0];
  }

  /** A key a client forwards is written as the encoder encodes it. */
  lemma ForwardedKey(keyval: nat, modifiers: nat, config: Config)
    requires keyval < 0x1_0000_0000 && modifiers < 0x1_0000_0000
    ensures PtyBytes(Message(FORWARD_KEY_EVENT, [Word(keyval), Word(modifiers)]), config)
         == Keys.KeyToString(keyval, modifiers, config.caps)
  {
    WordRoundTrip(keyval);
    WordRoundTrip(modifiers);
    hide Word, WordValue, Keys.KeyToString;
  }

  /** A cursor key a client forwards reaches the child as bytes that decode to it. */
  lemma ForwardedCursorKey(keyval: nat, modifiers: nat, config: Config, t: seq<byte>)
    requires Keys.IsCursorCase(keyval) && keyval != Keys.DELETE && modifiers < 0x1_0000_0000
    ensures var u := PtyBytes(Message(FORWARD_KEY_EVENT, [Word(keyval), Word(modifiers)]), config);
            Keys.EscToKey(u + t, config.caps) == Keys.Recognised(keyval, Keys.KeptModifier(modifiers), |u|)
  {
    WordRoundTrip(keyval);
    WordRoundTrip(modifiers);
    Keys.CursorRoundTrip(keyval, modifiers, config.caps, t);
    hide Word, WordValue, Keys.KeyToString, Keys.EscToKey, Keys.KeptModifier;
  }

  // ----- the server

  class Fep {
    const pty: Socket
    const config: Config
    /** Every message handed to DispatchMessage so far. */
    ghost var dispatched: seq<Message>

    constructor (pty: Socket, config: Config)
      ensures this.pty == pty && this.config == config && dispatched == []
    {
      this.pty, this.config, dispatched := pty, config, [];
    }

    /** command_send_data, and the loop of _fep_output_send_text. */
    method WriteLoop(data: seq<byte>)
      modifies pty`output, pty`room
      ensures Sent(old(pty.output), old(pty.room), pty.output, pty.room, data)
    {
      ghost var start := pty.output;
      var total := 0;
      assert start == start + data[..0];
      while total < |data|
        invariant 0 <= total <= |data|
        invariant pty.output == start + data[..total] && pty.room == old(pty.room) - total
      {
        var k := pty.WriteSome(data[total..]);
        if k < 0 {
          assert data[..total] < data;
          return;
        }
        Assoc(start, data[..total], data[total..][..k]);
        assert data[..total] + data[total..][..k] == data[..total + k];
        total := total + k;
      }
      assert data[..total] == data;
    }

    /** _fep_dispatch_control_message; text shown on the screen does not concern the pty. */
    method DispatchMessage(m: Message) returns (r: int)
      requires WellFormed(m)
      modifies this`dispatched, pty`output, pty`room
      ensures dispatched == old(dispatched) + [m]
      ensures r == if m.command <= FORWARD_KEY_EVENT then 0 else -1
      ensures Sent(old(pty.output), old(pty.room), pty.output, pty.room, PtyBytes(m, config))
    {
      dispatched := dispatched + [m];
      r := 0;
      if m.command == SEND_DATA {
        WriteLoop(m.args[0]);
      } else if m.command == SEND_TEXT {
        var local := config.iconv(CString(m.args[0]));
        if local.Some? {
          WriteLoop(local.value);
        }
      } else if m.command == FORWARD_KEY_EVENT {
        var keyval, modifiers := ReadUint32(m, 0), ReadUint32(m, 1);
        if keyval.Some? && modifiers.Some? {
          var str := Keys.EncodeKey(keyval.value, modifiers.value, config.caps);
          var data := str.str[..str.len];
          if data != [] {
            var k := pty.WriteWhole(data);
            assert k < 0 ==> [] < data && pty.output == pty.output + [];
          }
        }
      } else if m.command != SET_CURSOR_TEXT && m.command != SET_STATUS_TEXT {
        r := -1;
      }
    }

    /** The flush at the end of a wait: every message held is dispatched, in order. */
    method FlushHeld(head: FepList?<Message>, ghost nodes: seq<FepList<Message>>)
      requires Queue(head, nodes)
      requires AllWellFormed(Contents(nodes))
      modifies this`dispatched, pty`output, pty`room
      ensures dispatched == old(dispatched) + Contents(nodes)
      ensures Sent(old(pty.output), old(pty.room), pty.output, pty.room, PtyAll(Contents(nodes), config))
    {
      hide Sent, PtyBytes, PtyAll;
      var messages := head;
      ghost var rest, done, later, sent := nodes, [], Contents(nodes), [];
      assert Sent(pty.output, pty.room, pty.output, pty.room, []) by { SentNothing(pty.output, pty.room); }
      assert dispatched + [] == dispatched && [] + later == later;
      assert [] + PtyAll(later, config) == PtyAll(later, config);
      while messages != null
        invariant Chain(messages, rest) && later == Contents(rest)
        invariant AllWellFormed(later) && done + later == Contents(nodes) && dispatched == old(dispatched) + done
        invariant sent + PtyAll(later, config) == PtyAll(Contents(nodes), config)
        invariant Sent(old(pty.output), old(pty.room), pty.output, pty.room, sent)
        decreases |rest|
      {
        var m := messages.data;
        ghost var mid, midRoom := pty.output, pty.room;
        ChainRest(messages, rest);
        messages, rest := messages.next, rest[1..];
        assert later[0] == m && later[1..] == Contents(rest);
        var _ := DispatchMessage(m);
        FlushRound(old(dispatched), done, later, sent, config, old(pty.output), old(pty.room), mid, midRoom,
                   pty.output, pty.room);
        done, later, sent := done + [m], later[1..], sent + PtyBytes(m, config);
      }
      assert later == [] && done + [] == done && sent + [] == sent;
      assert PtyAll([], config) == [] by { PtyAllNothing(config); }
    }

    /** The wait: messages are queued until a response comes, the reading fails, or it cannot end. */
    method Await(fd: Socket) returns (last: Outcome, messages: FepList?<Message>, ghost nodes: seq<FepList<Message>>)
      modifies fd`input
      ensures last == Gather(old(fd.input), fd.ending).1
      ensures last.Received? ==> fd.input == last.rest
      ensures Queue(messages, nodes) && forall i :: 0 <= i < |nodes| ==> fresh(nodes[i])
      ensures Contents(nodes) == Gather(old(fd.input), fd.ending).0
    {
      hide Decode, Gather;
      ghost var whole := Gather(fd.input, fd.ending);
      messages, nodes := null, [];
      assert Contents(nodes) == [] && [] + whole.0 == whole.0;
      while true
        invariant Queue(messages, nodes) && forall i :: 0 <= i < |nodes| ==> fresh(nodes[i])
        invariant whole.0 == Contents(nodes) + Gather(fd.input, fd.ending).0
        invariant whole.1 == Gather(fd.input, fd.ending).1
        decreases |fd.input|
      {
        GatherRound(Contents(nodes), fd.input, fd.ending);
        last := ReadControlMessage(fd);
        if !last.Received? || last.message.command == RESPONSE {
          assert Contents(nodes) + [] == Contents(nodes);
          return;
        }
        messages, nodes := Append(messages, last.message, nodes);
      }
    }

    /**
     _fep_transceive_control_message: the request is written; then messages are read until a response
     comes, the reading fails, or it cannot end.  However the wait ends, the messages that were not
     the response are dispatched after it, each once and in the order they came.
     */
    method Transceive(fd: Socket, request: Message) returns (exit: Exit, response: Option<Message>)
      requires fd != pty
      modifies this`dispatched, pty`output, pty`room, fd
      ensures |Encode(request)| > old(fd.room) ==>
                && exit == Returned(-1) && dispatched == old(dispatched) && fd.input == old(fd.input)
                && pty.output == old(pty.output) && pty.room == old(pty.room)
      ensures |Encode(request)| <= old(fd.room) ==>
                var (held, last) := Gather(old(fd.input), fd.ending);
                && fd.output == old(fd.output) + Encode(request)
                && match last
                   case Spins =>
                     && exit == NeverReturns && dispatched == old(dispatched)
                     && pty.output == old(pty.output) && pty.room == old(pty.room)
                   case Dies =>
                     && exit == ProcessDies && dispatched == old(dispatched)
                     && pty.output == old(pty.output) && pty.room == old(pty.room)
                   case Failed =>
                     && exit == Returned(-1) && dispatched == old(dispatched) + held
                     && Sent(old(pty.output), old(pty.room), pty.output, pty.room, PtyAll(held, config))
                   case Received(m, rest) =>
                     && exit == Returned(if m.args[0] == [request.command] then 0 else -1)
                     && response == Some(m) && fd.input == rest
                     && dispatched == old(dispatched) + held
                     && Sent(old(pty.output), old(pty.room), pty.output, pty.room, PtyAll(held, config))
    {
      hide Encode, PtyAll, PtyBytes, Decode;
      response := None;
      var retval := WriteControlMessage(fd, request);
      if retval < 0 {
        return Returned(retval), None;
      }
      var last, messages, nodes := Await(fd);
      match last {
        case Spins =>
          return NeverReturns, None;
        case Dies =>
          return ProcessDies, None;
        case Failed =>
          retval := -1;
        case Received(message, _) =>
          response := Some(message);
          if message.args == [] || |message.args[0]| != 1 || message.args[0][0] != request.command {
            retval := -1;
          }
      }
      FlushHeld(messages, nodes);
      exit := Returned(retval);
    }
  }

  lemma PtyAllNothing(config: Config)
    ensures PtyAll([], config) == []
  {
  }

  /** One round of the flush: the first of the later messages is dispatched. */
  lemma FlushRound(start: seq<Message>, done: seq<Message>, later: seq<Message>, sent: seq<byte>, config: Config,
                   b0: seq<byte>, r0: nat, b1: seq<byte>, r1: nat, b2: seq<byte>, r2: nat)
    requires later != [] && AllWellFormed(later)
    requires Sent(b0, r0, b1, r1, sent) && Sent(b1, r1, b2, r2, PtyBytes(later[0], config))
    ensures var m, rest := later[0], later[1..];
            && done + [m] + rest == done + later && start + (done + [m]) == start + done + [m]
            && sent + PtyBytes(m, config) + PtyAll(rest, config) == sent + PtyAll(later, config)
            && Sent(b0, r0, b2, r2, sent + PtyBytes(m, config))
  {
    hide Sent, PtyBytes;
    var m, rest := later[0], later[1..];
    assert later == [m] + rest;
    Assoc(done, [m], rest);
    Assoc(start, done, [m]);
    Assoc(sent, PtyBytes(m, config), PtyAll(rest, config));
    SentTwice(b0, r0, sent, b1, r1, PtyBytes(m, config), b2, r2);
  }

  lemma SentNothing(output: seq<byte>, room: nat)
    ensures Sent(output, room, output, room, [])
  {
    assert output == output + [];
  }
}
