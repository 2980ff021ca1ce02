/** The client library, libfep/client.c: what a request makes a client send, and the dispatch loop that sends it. */
module Client {
  import opened Bytes
  import opened Codec
  import opened Sockets
  import opened Lists

  predicate Handles(request: Message) {
    WellFormed(request) && (request.command == KEY_EVENT || request.command == RESIZE_EVENT)
  }

  /** Whether the two numbers of the event can be read; only then is the filter called. */
  predicate Readable(request: Message) {
    Handles(request) && ReadUint32(request, 0).Some? && ReadUint32(request, 1).Some?
  }

  /** The outcomes of the filter: a 32-bit number, or nothing when it is not called. */
  predicate CanReturn(request: Message, verdict: Option<nat>) {
    && Handles(request)
    && (verdict.Some? ==> Readable(request) && verdict.value < 0x1_0000_0000)
  }

  /** The RESPONSE: the command it answers, then the filter's result or nothing. */
  function Response(request: Message, verdict: Option<nat>): Message {
    Message(RESPONSE, [[request.command], if verdict.Some? then Word(verdict.value) else []])
  }

  /** The number that decides whether a key is handled: not 0 when the event could not be read. */
  function Value(request: Message, verdict: Option<nat>): nat {
    if !Readable(request) then 0xFFFF_FFFF
    else if verdict.None? then 0
    else verdict.value
  }

  /** What handling the request sends by itself: the source of a key that was not handled. */
  function Echoes(request: Message, verdict: Option<nat>): seq<Message>
    requires Handles(request)
  {
    if request.command == KEY_EVENT && Value(request, verdict) == 0 then [SendData(request.args[2])] else []
  }

  // ----- the filter

  type uint32 = n: nat | n < 0x1_0000_0000

  type ClientMessage = m: Message | FromClient(m) witness SendData([])

  datatype Event = KeyPress(keyval: nat, modifiers: nat, source: seq<byte>) | Resized(cols: nat, rows: nat)

  /** A program's event filter: the messages it raises through the senders, in order, and its result. */
  datatype Filter = Filter(raises: Event -> seq<ClientMessage>, verdict: Event -> uint32)

  function EventOf(request: Message): Event
    requires Readable(request)
  {
    var a, b := ReadUint32(request, 0).value, ReadUint32(request, 1).value;
    if request.command == KEY_EVENT then KeyPress(a, b, request.args[2]) else Resized(a, b)
  }

  function VerdictOf(filter: Option<Filter>, request: Message): (v: Option<nat>)
    requires Handles(request)
    ensures CanReturn(request, v)
  {
    if filter.Some? && Readable(request) then Some(filter.value.verdict(EventOf(request))) else None
  }

  function RaisedByFilter(filter: Option<Filter>, request: Message): seq<Message>
    requires Handles(request)
  {
    if filter.Some? && Readable(request) then filter.value.raises(EventOf(request)) else []
  }

  /** All that handling a request raises: the filter's messages, then the echo of a key not handled. */
  function RaisedBy(filter: Option<Filter>, request: Message): seq<Message>
    requires Handles(request)
  {
    RaisedByFilter(filter, request) + Echoes(request, VerdictOf(filter, request))
  }

  /** What the client sends for a request: first the response, then all it raised. */
  function Answered(filter: Option<Filter>, request: Message): seq<Message>
    requires Handles(request)
  {
    [Response(request, VerdictOf(filter, request))] + RaisedBy(filter, request)
  }

  /** The answer to a key: the filter's verdict and all the filter raises, then the key's bytes if it was declined. */
  lemma KeyAnswered(filter: Option<Filter>, keyval: uint32, modifiers: uint32, source: seq<byte>)
    ensures Handles(KeyRequest(keyval, modifiers, source))
    ensures Answered(filter, KeyRequest(keyval, modifiers, source))
         == match filter
            case None => [Message(RESPONSE, [[KEY_EVENT], []]), SendData(source)]
            case Some(f) =>
              var event := KeyPress(keyval, modifiers, source);
              [Message(RESPONSE, [[KEY_EVENT], Word(f.verdict(event))])] + f.raises(event)
              + if f.verdict(event) == 0 then [SendData(source)] else []
  {
    WordRoundTrip(keyval);
    WordRoundTrip(modifiers);
    hide Word, WordValue;
    var request := KeyRequest(keyval, modifiers, source);
    if filter.Some? {
      assert EventOf(request) == KeyPress(keyval, modifiers, source);
      Assoc([Response(request, VerdictOf(filter, request))], RaisedByFilter(filter, request),
            Echoes(request, VerdictOf(filter, request)));
    } else {
      assert [] + [SendData(source)] == [SendData(source)];
    }
  }

  /** What a client answers to a new size: its filter's verdict and all the filter raises, and no more. */
  lemma ResizeAnswered(filter: Option<Filter>, cols: uint32, rows: uint32)
    ensures Handles(ResizeRequest(cols, rows))
    ensures Answered(filter, ResizeRequest(cols, rows))
         == match filter
            case None => [Message(RESPONSE, [[RESIZE_EVENT], []])]
            case Some(f) =>
              var event := Resized(cols, rows);
              [Message(RESPONSE, [[RESIZE_EVENT], Word(f.verdict(event))])] + f.raises(event)
  {
    WordRoundTrip(cols);
    WordRoundTrip(rows);
    hide Word, WordValue;
    var request := ResizeRequest(cols, rows);
    if filter.Some? {
      var raised: seq<Message> := filter.value.raises(Resized(cols, rows));
      assert EventOf(request) == Resized(cols, rows) && raised + [] == raised;
    }
  }

  /** An event whose numbers cannot be read is answered with an empty result; nothing is raised or sent back. */
  lemma UnreadableAnswered(filter: Option<Filter>, request: Message)
    requires Handles(request) && (|request.args[0]| != 4 || |request.args[1]| != 4)
    ensures Answered(filter, request) == [Message(RESPONSE, [[request.command], []])]
  {
  }

  lemma TakeOneMore<T>(start: seq<T>, s: seq<T>, i: nat)
    requires i < |s|
    ensures start + s[..i] + [s[i]] == start + s[..i + 1]
  {
  }

  // ----- the client

  /** How a call ends: with a value, never, or with the process. */
  datatype Exit = Returned(value: int) | NeverReturns | ProcessDies

  class FepClient {
    const control: Socket
    var filter: Option<Filter>
    var filterRunning: bool
    var messages: FepList?<Message>
    ghost var nodes: seq<FepList<Message>>

    ghost predicate Valid()
      reads this, nodes
    {
      Queue(messages, nodes)
    }

    constructor (control: Socket)
      ensures Valid() && this.control == control && filter == None && !filterRunning && nodes == []
    {
      this.control, filter, filterRunning, messages, nodes := control, None, false, null, [];
    }

    method SetEventFilter(filter: Filter)
      modifies this`filter
      ensures this.filter == Some(filter)
    {
      this.filter := Some(filter);
    }

    /** What raising m does: it is queued while the filter runs, and written otherwise. */
    twostate predicate Raised(m: Message)
      reads this, control
    {
      && filterRunning == old(filterRunning) && filter == old(filter) && control.input == old(control.input)
      && if filterRunning then
           && Contents(nodes) == old(Contents(nodes)) + [m]
           && control.output == old(control.output) && control.room == old(control.room)
         else
           && nodes == old(nodes)
           && Sent(old(control.output), old(control.room), control.output, control.room, Encode(m))
    }

    /** The common end of the senders. */
    method Raise(m: Message)
      requires Valid()
      modifies this`messages, this`nodes, nodes, control`output, control`room
      ensures Valid() && Raised(m)
      ensures forall k :: 0 <= k < |nodes| ==> nodes[k] in old(nodes) || fresh(nodes[k])
    {
      if filterRunning {
        messages, nodes := Append(messages, m, nodes);
      } else {
        var _ := WriteControlMessage(control, m);
      }
    }

    /** fep_client_set_cursor_text; without an attribute the empty one is sent. */
    method SetCursorText(text: seq<byte>, attr: Option<Attribute>)
      requires Valid()
      modifies this`messages, this`nodes, nodes, control`output, control`room
      ensures Valid() && Raised(Message(SET_CURSOR_TEXT, [text + [0], AttributeArg(OrEmpty(attr))]))
    {
      Raise(Message(SET_CURSOR_TEXT, [text + [0], AttributeArg(OrEmpty(attr))]));
    }

    /** fep_client_set_status_text. */
    method SetStatusText(text: seq<byte>, attr: Option<Attribute>)
      requires Valid()
      modifies this`messages, this`nodes, nodes, control`output, control`room
      ensures Valid() && Raised(Message(SET_STATUS_TEXT, [text + [0], AttributeArg(OrEmpty(attr))]))
    {
      Raise(Message(SET_STATUS_TEXT, [text + [0], AttributeArg(OrEmpty(attr))]));
    }

    /** fep_client_send_text. */
    method SendText(text: seq<byte>)
      requires Valid()
      modifies this`messages, this`nodes, nodes, control`output, control`room
      ensures Valid() && Raised(Message(SEND_TEXT, [text + [0]]))
    {
      Raise(Message(SEND_TEXT, [text + [0]]));
    }

    /** fep_client_send_data. */
    method SendBytes(data: seq<byte>)
      requires Valid()
      modifies this`messages, this`nodes, nodes, control`output, control`room
      ensures Valid() && Raised(SendData(data))
      ensures forall k :: 0 <= k < |nodes| ==> nodes[k] in old(nodes) || fresh(nodes[k])
    {
      Raise(SendData(data));
    }

    /** fep_client_forward_key_event. */
    method ForwardKeyEvent(keyval: uint32, modifiers: uint32)
      requires Valid()
      modifies this`messages, this`nodes, nodes, control`output, control`room
      ensures Valid() && Raised(Message(FORWARD_KEY_EVENT, [Word(keyval), Word(modifiers)]))
    {
      Raise(Message(FORWARD_KEY_EVENT, [Word(keyval), Word(modifiers)]));
    }

    /** A call of the filter: it raises its messages while `filterRunning` holds, so all are queued. */
    method RunFilter(event: Event) returns (verdict: uint32)
      requires Valid() && filterRunning && filter.Some?
      modifies this`messages, this`nodes, nodes
      ensures Valid() && verdict == filter.value.verdict(event)
      ensures Contents(nodes) == old(Contents(nodes)) + filter.value.raises(event)
      ensures forall k :: 0 <= k < |nodes| ==> nodes[k] in old(nodes) || fresh(nodes[k])
    {
      var raises, i := filter.value.raises(event), 0;
      ghost var start := Contents(nodes);
      while i < |raises|
        invariant 0 <= i <= |raises| && Valid()
        invariant Contents(nodes) == start + raises[..i]
        invariant forall k :: 0 <= k < |nodes| ==> nodes[k] in old(nodes) || fresh(nodes[k])
      {
        messages, nodes := Append(messages, raises[i], nodes);
        TakeOneMore(start, raises, i);
        i := i + 1;
      }
      assert raises[..i] == raises;
      verdict := filter.value.verdict(event);
    }

    /** command_key_event. */
    method CommandKeyEvent(request: Message) returns (response: Message)
      requires Valid() && filterRunning && Handles(request) && request.command == KEY_EVENT
      modifies this`messages, this`nodes, nodes, control`output, control`room
      ensures Valid() && response == Response(request, VerdictOf(filter, request))
      ensures Contents(nodes) == old(Contents(nodes)) + RaisedBy(filter, request)
      ensures control.output == old(control.output) && control.room == old(control.room)
      ensures forall k :: 0 <= k < |nodes| ==> nodes[k] in old(nodes) || fresh(nodes[k])
    {
      var keyval, modifiers := ReadUint32(request, 0), ReadUint32(request, 1);
      var retval := if keyval.Some? && modifiers.Some? then 0 else -1;
      var arg, intval := [], if retval == 0 then 0 else 0xFFFF_FFFF;
      ghost var start := Contents(nodes);
      if retval == 0 && filter.Some? {
        var event := KeyPress(keyval.value, modifiers.value, request.args[2]);
        intval := RunFilter(event);
        arg := Word(intval);
      }
      ghost var byFilter := RaisedByFilter(filter, request);
      assert Contents(nodes) == start + byFilter;
      response := Message(RESPONSE, [[KEY_EVENT], arg]);
      if intval == 0 {
        SendBytes(request.args[2]);
        Assoc(start, byFilter, [SendData(request.args[2])]);
      } else {
        assert byFilter + [] == byFilter;
      }
    }

    /** command_resize_event. */
    method CommandResizeEvent(request: Message) returns (response: Message)
      requires Valid() && filterRunning && Handles(request) && request.command == RESIZE_EVENT
      modifies this`messages, this`nodes, nodes
      ensures Valid() && response == Response(request, VerdictOf(filter, request))
      ensures Contents(nodes) == old(Contents(nodes)) + RaisedBy(filter, request)
      ensures forall k :: 0 <= k < |nodes| ==> nodes[k] in old(nodes) || fresh(nodes[k])
    {
      var cols, rows := ReadUint32(request, 0), ReadUint32(request, 1);
      var arg := [];
      if cols.Some? && rows.Some? && filter.Some? {
        var intval := RunFilter(Resized(cols.value, rows.value));
        arg := Word(intval);
      }
      response := Message(RESPONSE, [[RESIZE_EVENT], arg]);
      assert RaisedByFilter(filter, request) + [] == RaisedByFilter(filter, request);
    }

    /** The flush loop of fep_client_dispatch: the queue is written in order and ends empty. */
    method Flush()
      requires Valid()
      modifies this`messages, this`nodes, control`output, control`room
      ensures messages == null && nodes == []
      ensures Sent(old(control.output), old(control.room), control.output, control.room,
                   EncodeAll(old(Contents(nodes))))
    {
      ghost var all, out, room, written := Contents(nodes), control.output, control.room, [];
      assert Contents(nodes) == all && control.output == out + [];
      while messages != null
        invariant Chain(messages, nodes)
        invariant written + EncodeAll(Contents(nodes)) == EncodeAll(all)
        invariant Sent(out, room, control.output, control.room, written)
        decreases |nodes|
      {
        var head := messages;
        ghost var mid, midRoom, rest := control.output, control.room, Contents(nodes[1..]);
        assert Contents(nodes) == [head.data] + rest;
        messages, nodes := head.next, nodes[1..];
        var _ := WriteControlMessage(control, head.data);
        SentTwice(out, room, written, mid, midRoom, Encode(head.data), control.output, control.room);
        Assoc(written, Encode(head.data), EncodeAll(rest));
        written := written + Encode(head.data);
      }
      assert written == EncodeAll(all);
    }

    /** The second half of fep_client_dispatch: the handler runs, the response is written, the queue is flushed. */
    method Handle(request: Message)
      requires Valid() && !filterRunning && nodes == [] && Handles(request)
      modifies this`filterRunning, this`messages, this`nodes, control`output, control`room
      ensures Valid() && nodes == [] && !filterRunning
      ensures Sent(old(control.output), old(control.room), control.output, control.room,
                   EncodeAll(Answered(filter, request)))
    {
      hide Encode, EncodeAll, Sent, Word, RaisedBy, Response, VerdictOf;
      ghost var out, room, raised := control.output, control.room, RaisedBy(filter, request);
      filterRunning := true;
      assert Contents(nodes) == [] && [] + raised == raised;
      var response;
      if request.command == KEY_EVENT {
        response := CommandKeyEvent(request);
      } else {
        response := CommandResizeEvent(request);
      }
      assert Contents(nodes) == raised;
      var _ := WriteControlMessage(control, response);
      ghost var mid, midRoom := control.output, control.room;
      filterRunning := false;
      Flush();
      SentTwice(out, room, Encode(response), mid, midRoom, EncodeAll(raised), control.output, control.room);
      EncodeAllConcat([response], raised);
      EncodeAllSingle(response);
    }

    /**
     fep_client_dispatch: for a request, the response goes out first and then everything the handler
     raised, in order; the queue ends empty.  Write failures do not change the value returned.
     */
    method Dispatch() returns (exit: Exit)
      requires Valid() && !filterRunning && nodes == []
      modifies this`filterRunning, this`messages, this`nodes, control
      ensures Valid() && nodes == [] && filter == old(filter) && !filterRunning
      ensures match Decode(old(control.input), control.ending)
              case Spins => exit == NeverReturns && control.output == old(control.output)
              case Dies => exit == ProcessDies && control.output == old(control.output)
              case Failed => exit == Returned(-1) && control.output == old(control.output)
              case Received(request, rest) =>
                control.input == rest &&
                if Handles(request) then
                  && exit == Returned(0)
                  && Sent(old(control.output), old(control.room), control.output, control.room,
                          EncodeAll(Answered(filter, request)))
                else exit == Returned(-1) && control.output == old(control.output)
    {
      hide Sent, EncodeAll;
      var outcome := ReadControlMessage(control);
      match outcome {
        case Spins => return NeverReturns;
        case Dies => return ProcessDies;
        case Failed => return Returned(-1);
        case Received(request, _) =>
          if request.command != KEY_EVENT && request.command != RESIZE_EVENT {
            return Returned(-1);
          }
          Handle(request);
          return Returned(0);
      }
    }
  }

  function OrEmpty(attr: Option<Attribute>): Attribute {
    if attr.Some? then attr.value else Attribute(NO_ATTRIBUTE, 0, 0, 0)
  }
}
