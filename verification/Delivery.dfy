/** What every run of the protocol keeps, and what follows for the messages and keys delivered. */
module Delivery {
  import opened Bytes
  import opened Codec
  import opened Sockets
  import opened Protocol
  import Client
  import Keys

  // ----- the parts of histories and queues

  function OtherOf(m: Message): Option<Message> {
    if m.command == RESPONSE then None else Some(m)
  }

  function ResponseOf(m: Message): Option<Message> {
    if m.command == RESPONSE then Some(m) else None
  }

  /** The messages of a channel that are not responses. */
  function Others(ms: seq<Message>): seq<Message> {
    Pick(OtherOf, ms)
  }

  function Responses(ms: seq<Message>): seq<Message> {
    Pick(ResponseOf, ms)
  }

  function WireOf(r: Raised): Option<Message> {
    match r
    case ByProgram(m) => Some(m)
    case Echo(source) => Some(SendData(source))
  }

  /** The messages a client raised, as they go on the wire. */
  function Wires(raised: seq<Raised>): seq<Message> {
    Pick(WireOf, raised)
  }

  function EchoOf(r: Raised): Option<seq<byte>> {
    match r
    case ByProgram(_) => None
    case Echo(source) => Some(source)
  }

  function RequestIn(a: Answer): Option<Message> {
    Some(a.request)
  }

  function Requests(answered: seq<Answer>): seq<Message> {
    Pick(RequestIn, answered)
  }

  function DeclinedOf(a: Answer): Option<seq<byte>> {
    if a.request.command == KEY_EVENT && |a.request.args| == 3 && a.value == 0 then Some(a.request.args[2]) else None
  }

  /** The sources of the keys a client declined, in the order it was asked. */
  function Declined(answered: seq<Answer>): seq<seq<byte>> {
    Pick(DeclinedOf, answered)
  }

  function SourceOf(m: Message): Option<seq<byte>> {
    if m.command == KEY_EVENT && |m.args| == 3 then Some(m.args[2]) else None
  }

  function JobKey(job: Job): Option<KeyInput> {
    match job
    case Key(k) => Some(k)
    case Resize(_, _) => None
  }

  function FromOf(j: nat): Effect -> Option<Message> {
    (e: Effect) => if e.From? && e.client == j then Some(e.message) else None
  }

  /** The number of messages in flight before the first response. */
  function Before(ms: seq<Message>): nat {
    if ms == [] || ms[0].command == RESPONSE then 0 else 1 + Before(ms[1..])
  }

  lemma {:induction false} TotalPick<A, B>(f: A -> Option<B>, s: seq<A>)
    requires forall x :: f(x).Some?
    ensures |Pick(f, s)| == |s|
  {
    if s != [] {
      TotalPick(f, s[1..]);
    }
  }

  lemma PickPrefix<A, B>(f: A -> Option<B>, s: seq<A>, n: nat)
    requires n <= |s|
    ensures Pick(f, s[..n]) <= Pick(f, s)
  {
    hide Pick;
    PickConcat(f, s[..n], s[n..]);
    assert s[..n] + s[n..] == s;
  }

  lemma {:induction false} BeforeAppend(ms: seq<Message>, m: Message)
    ensures Before(ms) <= |Others(ms)|
    ensures Responses(ms) != [] ==> Before(ms + [m]) == Before(ms)
    ensures Responses(ms) == [] && m.command == RESPONSE ==> Before(ms + [m]) == |Others(ms)|
  {
    if ms == [] {
      assert [] + [m] == [m];
    } else {
      BeforeAppend(ms[1..], m);
      assert (ms + [m])[1..] == ms[1..] + [m];
    }
  }

  // ----- the invariant of one client

  /** What the server is doing with client j. */
  function TalkWith(s: State, j: nat): Talk {
    if j == s.next && !s.talk.Polling? then s.talk else Quiet
  }

  function Held(t: Talk): seq<Message> {
    match t
    case Waiting(_, held) => held
    case Flushing(held, _) => held
    case _ => []
  }

  ghost predicate Upward(m: Message) {
    Sendable(m) && (FromClient(m) || m.command == RESPONSE)
  }

  /** The channel to the server holds the encoding of the messages in flight, but for what is still to write. */
  ghost predicate ChannelOk(c: Conn) {
    && (forall m :: m in c.inflight ==> Upward(m))
    && (forall m :: m in c.queue ==> FromClient(m) && Sendable(m))
    && c.up + c.outbox == EncodeAll(c.inflight) && |c.up| < GARBLED
  }

  /** Every message raised is, in the order raised, dispatched, held, in flight or queued. */
  ghost predicate Conserved(t: Talk, c: Conn) {
    && c.dispatched + Held(t) + Others(c.inflight) + c.queue == Wires(c.raised)
    && (c.phase == Idle ==> c.queue == [])
    && (forall m :: m in Held(t) ==> FromClient(m))
  }

  /** The echoes raised are those of the keys declined. */
  ghost predicate AnswersOk(c: Conn) {
    Pick(EchoOf, c.raised) == Declined(c.answered)
  }

  /** The messages raised before the response in flight, if there is one: those the server can come to first. */
  function Ahead(t: Talk, c: Conn): nat {
    |c.dispatched| + |Held(t)| + Before(c.inflight)
  }

  /** No echo arrives ahead of the response to its key: those ahead answer requests whose response was taken. */
  ghost predicate EchoesOk(t: Talk, c: Conn) {
    && Ahead(t, c) <= |c.raised| && c.responses <= |c.answered|
    && Pick(EchoOf, c.raised[..Ahead(t, c)]) <= Declined(c.answered[..c.responses])
  }

  /** The client has answered all it was asked, and nothing of a request or a response is on the way. */
  ghost predicate Settled(c: Conn) {
    && c.down == [] && !c.phase.Filtering? && Responses(c.inflight) == []
    && c.asked == Requests(c.answered) && c.responses == |c.asked|
  }

  /** A client that has gone: no response can be read from it any more. */
  ghost predicate Over(c: Conn) {
    && Requests(c.answered) <= c.asked && c.responses <= |c.answered| && |c.asked| <= c.responses + 1
    && ( || (Responses(c.inflight) == [] && c.responses == |c.answered|)
         || !Front(c.up).Received?)
  }

  predicate RespondsTo(m: Message, request: Message) {
    m.command == RESPONSE && |m.args| == 2 && m.args[0] == [request.command]
  }

  /** One request is open: being written, arriving, in the filter, or answered with the response on its way. */
  ghost predicate Open(request: Message, unsent: seq<byte>, c: Conn) {
    && Sendable(request) && Client.Handles(request)
    && c.responses + 1 == |c.asked| && c.asked[c.responses] == request
    && ( || (&& c.down + unsent == Encode(request) && !c.phase.Filtering?
             && Responses(c.inflight) == [] && c.asked == Requests(c.answered) + [request])
         || (&& unsent == [] && c.down == [] && c.phase == Filtering(request) && Survives(request)
             && Responses(c.inflight) == [] && c.asked == Requests(c.answered) + [request])
         || (&& unsent == [] && c.down == [] && !c.phase.Filtering? && Survives(request)
             && |Responses(c.inflight)| == 1 && c.asked == Requests(c.answered)
             && RespondsTo(Responses(c.inflight)[0], request)))
  }

  /** At most one request is open, and only while the server waits for its response. */
  ghost predicate InTurn(t: Talk, c: Conn) {
    match t
    case Quiet => if c.closed == None then Settled(c) else Over(c)
    case Polling(_) => false
    case Asking(request, left) => left != [] && Open(request, left, c)
    case Waiting(request, _) => Open(request, [], c)
    case Flushing(_, ok) => if ok then Settled(c) else c.closed.Some? && Over(c)
  }

  /** The keys served are those of the requests whose responses were taken. */
  ghost predicate TallyOk(c: Conn) {
    c.responses <= |c.asked| && c.served == |Pick(SourceOf, c.asked[..c.responses])|
  }

  ghost predicate ConnOk(t: Talk, c: Conn) {
    ChannelOk(c) && Conserved(t, c) && AnswersOk(c) && EchoesOk(t, c) && TallyOk(c) && InTurn(t, c)
  }

  // ----- echoes and responses

  lemma AllAnswered(c: Conn)
    ensures |Requests(c.answered)| == |c.answered|
  {
    TotalPick(RequestIn, c.answered);
  }

  /** When no response is in flight every answer's response has been taken. */
  lemma NoneInFlight(t: Talk, c: Conn)
    requires InTurn(t, c) && c.closed == None && Responses(c.inflight) == []
    ensures c.responses == |c.answered|
  {
    hide Encode, Survives, Pick;
    AllAnswered(c);
  }

  lemma AheadBounded(t: Talk, c: Conn)
    requires Conserved(t, c)
    ensures Ahead(t, c) <= |c.dispatched| + |Held(t)| + |Others(c.inflight)| <= |c.raised|
  {
    TotalPick(WireOf, c.raised);
    BeforeAppend(c.inflight, Message(0, []));
    hide Pick;
  }

  /** Once the response to every answer has been taken, all echoes are covered. */
  lemma EchoesCovered(t: Talk, c: Conn)
    requires Conserved(t, c) && AnswersOk(c) && c.responses == |c.answered|
    ensures EchoesOk(t, c)
  {
    AheadBounded(t, c);
    PickPrefix(EchoOf, c.raised, Ahead(t, c));
    assert c.answered[..c.responses] == c.answered;
    hide Pick;
  }

  /** What is put in flight behind a response, or raised later, does not get ahead of it. */
  lemma EchoesKept(t: Talk, c: Conn, c1: Conn, m: Message)
    requires EchoesOk(t, c) && c.raised <= c1.raised && c1.dispatched == c.dispatched
    requires c1.answered == c.answered && c1.responses == c.responses
    requires c1.inflight == c.inflight || (Responses(c.inflight) != [] && c1.inflight == c.inflight + [m])
    ensures EchoesOk(t, c1)
  {
    BeforeAppend(c.inflight, m);
    hide Pick;
    assert c1.raised[..Ahead(t, c)] == c.raised[..Ahead(t, c)];
  }

  /** Putting a message in flight. */
  lemma EchoesWriting(t: Talk, c: Conn, c1: Conn, m: Message)
    requires EchoesOk(t, c) && InTurn(t, c) && c.closed == None
    requires Conserved(t, c1) && AnswersOk(c1)
    requires c.raised <= c1.raised && c1.dispatched == c.dispatched && c1.inflight == c.inflight + [m]
    requires c1.answered == c.answered && c1.responses == c.responses
    ensures EchoesOk(t, c1)
  {
    hide Pick, Conserved, AnswersOk, EchoesOk, InTurn;
    if Responses(c.inflight) == [] {
      NoneInFlight(t, c);
      EchoesCovered(t, c1);
    } else {
      EchoesKept(t, c, c1, m);
    }
  }

  lemma SettledIsOver(c: Conn)
    requires Settled(c)
    ensures Over(c)
  {
    AllAnswered(c);
    hide Pick, Encode;
  }

  // ----- the steps that concern one client

  lemma NewConnOk(joined: nat)
    ensures ConnOk(Quiet, NewConn(joined))
  {
  }

  lemma WritingKeepsChannel(c: Conn, m: Message)
    requires ChannelOk(c) && c.outbox == [] && Upward(m)
    ensures ChannelOk(Writing(c, m))
  {
    EncodeAllConcat(c.inflight, [m]);
    EncodeAllSingle(m);
    assert c.up == c.up + c.outbox;
  }

  lemma WritePartOk(t: Talk, c: Conn, n: nat)
    requires ConnOk(t, c) && c.closed == None && 0 < n <= |c.outbox| && |c.up| + n < GARBLED
    ensures ConnOk(t, MovePart(c, n))
  {
    hide Pick, Encode, EncodeAll, Survives, Decode;
    assert c.outbox == c.outbox[..n] + c.outbox[n..];
    Assoc(c.up, c.outbox[..n], c.outbox[n..]);
  }

  lemma TakeOk(t: Talk, c: Conn)
    requires ConnOk(t, c) && c.closed == None && c.outbox == [] && c.phase == Idle && Front(c.down).Received?
    ensures ConnOk(t, TakeRequest(c)) && t.Waiting? && TakeRequest(c).phase == Filtering(t.request)
  {
    hide Pick, EncodeAll, Encode, Decode, Survives;
    assert c.down != [] by { NotEmpty(c.down, Error); }
    TakesWhole(t, c);
  }

  /** A client reads a request when all its bytes have come, provided its lengths survive. */
  lemma TakesWhole(t: Talk, c: Conn)
    requires (t.Asking? && t.left != [] && Open(t.request, t.left, c)) || (t.Waiting? && Open(t.request, [], c))
    requires c.down != [] && Front(c.down).Received?
    ensures t.Waiting? && Survives(t.request) && Front(c.down) == Received(t.request, [])
  {
    hide Pick, Encode, Decode;
    var m := t.request;
    var left := if t.Asking? then t.left else [];
    assert c.down <= Encode(m) by { assert c.down + left == Encode(m); }
    if !Survives(m) {
      Garbled(m, c.down, Error);
    }
    if t.Asking? {
      CutMessage(m, c.down, Error);
    } else {
      RoundTrip(m, [], Error);
      assert c.down == Encode(m) + [];
    }
  }

  /** A message put in flight is the last to be dispatched, when nothing is queued. */
  lemma WritingOther(t: Talk, c: Conn, m: Message)
    requires ChannelOk(c) && c.outbox == [] && FromClient(m) && Sendable(m)
    ensures ChannelOk(Writing(c, m))
    ensures Others(Writing(c, m).inflight) == Others(c.inflight) + [m]
    ensures Responses(Writing(c, m).inflight) == Responses(c.inflight)
  {
    hide Encode;
    WritingKeepsChannel(c, m);
    PickAppend(OtherOf, c.inflight, m);
    PickAppend(ResponseOf, c.inflight, m);
  }

  lemma RaiseOk(t: Talk, c: Conn, m: Message)
    requires ConnOk(t, c) && c.closed == None && c.outbox == [] && c.phase != Emptying && FromClient(m) && Sendable(m)
    ensures ConnOk(t, RaiseMessage(c, m))
  {
    RaiseConserved(t, c, m);
    hide Encode, Survives, Decode, Pick, Conserved, AnswersOk;
    if c.phase.Filtering? {
      hide InTurn;
      EchoesKept(t, c, RaiseMessage(c, m), m);
    } else {
      WritingOther(t, c, m);
      EchoesWriting(t, c, RaiseMessage(c, m), m);
    }
  }

  lemma RaiseConserved(t: Talk, c: Conn, m: Message)
    requires ChannelOk(c) && Conserved(t, c) && AnswersOk(c)
    requires c.outbox == [] && c.phase != Emptying && FromClient(m) && Sendable(m)
    ensures var c1 := RaiseMessage(c, m); ChannelOk(c1) && Conserved(t, c1) && AnswersOk(c1)
  {
    hide Encode, Survives;
    PickAppend(WireOf, c.raised, ByProgram(m));
    PickAppend(EchoOf, c.raised, ByProgram(m));
    if c.phase.Filtering? {
      Assoc(c.dispatched + Held(t) + Others(c.inflight), c.queue, [m]);
    } else {
      var c1 := c.(raised := c.raised + [ByProgram(m)]);
      WritingOther(t, c1, m);
      var d := c.dispatched + Held(t);
      Assoc(d, Others(c.inflight), [m]);
      assert d + Others(c.inflight) + [] == d + Others(c.inflight);
      assert d + (Others(c.inflight) + [m]) + [] == d + (Others(c.inflight) + [m]);
    }
  }

  lemma ResponseUpward(request: Message, verdict: Option<nat>)
    requires Client.CanReturn(request, verdict)
    ensures Upward(Client.Response(request, verdict))
    ensures RespondsTo(Client.Response(request, verdict), request)
  {
    ArgsLength(Client.Response(request, verdict).args);
    hide Word, EncodeArgs;
  }

  lemma EchoSendable(request: Message)
    requires Sendable(request) && request.command == KEY_EVENT
    ensures Sendable(SendData(request.args[2])) && FromClient(SendData(request.args[2]))
  {
    ArgsLength(request.args);
    ArgsLength([request.args[2]]);
    hide EncodeArgs;
  }

  lemma EchoOk(t: Talk, c: Conn, source: seq<byte>)
    requires ChannelOk(c) && Conserved(t, c) && Sendable(SendData(source)) && c.phase != Idle
    ensures var c1 := c.(queue := c.queue + [SendData(source)], raised := c.raised + [Echo(source)]);
            && ChannelOk(c1) && Conserved(t, c1)
            && Pick(EchoOf, c1.raised) == Pick(EchoOf, c.raised) + [source]
  {
    hide Encode;
    PickAppend(WireOf, c.raised, Echo(source));
    PickAppend(EchoOf, c.raised, Echo(source));
    Assoc(c.dispatched + Held(t) + Others(c.inflight), c.queue, [SendData(source)]);
  }

  lemma HandledOk(t: Talk, c: Conn, verdict: Option<nat>)
    requires ChannelOk(c) && Conserved(t, c) && AnswersOk(c)
    requires c.phase.Filtering? && Client.CanReturn(c.phase.request, verdict) && Sendable(c.phase.request)
    ensures var c1 := Handled(c, verdict); ChannelOk(c1) && Conserved(t, c1) && AnswersOk(c1)
  {
    hide Word, Encode;
    var request, echo := c.phase.request, Client.Echoes(c.phase.request, verdict);
    PickAppend(DeclinedOf, c.answered, Answer(request, Client.Value(request, verdict)));
    if echo == [] {
      assert c.queue + echo == c.queue;
    } else {
      EchoSendable(request);
      EchoOk(t, c, request.args[2]);
      hide Pick, EncodeAll, Sendable;
    }
  }

  /** A RESPONSE put in flight is not part of what is to be dispatched. */
  lemma WritingResponse(t: Talk, c: Conn, m: Message)
    requires ChannelOk(c) && Conserved(t, c) && c.outbox == [] && Upward(m) && m.command == RESPONSE
    ensures ChannelOk(Writing(c, m)) && Conserved(t, Writing(c, m))
    ensures Responses(Writing(c, m).inflight) == Responses(c.inflight) + [m]
  {
    hide Encode;
    WritingKeepsChannel(c, m);
    PickAppend(OtherOf, c.inflight, m);
    PickAppend(ResponseOf, c.inflight, m);
  }

  /** The echo of the key answered now is behind its response. */
  lemma EchoesReply(t: Talk, c: Conn, c1: Conn, m: Message, answer: Answer)
    requires Conserved(t, c) && AnswersOk(c) && c.responses == |c.answered|
    requires Responses(c.inflight) == [] && m.command == RESPONSE && c1.inflight == c.inflight + [m]
    requires c.raised <= c1.raised && c1.dispatched == c.dispatched
    requires c1.answered == c.answered + [answer] && c1.responses == c.responses
    ensures EchoesOk(t, c1)
  {
    BeforeAppend(c.inflight, m);
    AheadBounded(t, c);
    var n := Ahead(t, c1);
    PickPrefix(EchoOf, c.raised, n);
    hide Pick;
    assert c1.raised[..n] == c.raised[..n] && c1.answered[..c.responses] == c.answered;
  }

  lemma ReplyOk(t: Talk, c: Conn, verdict: Option<nat>)
    requires ConnOk(t, c) && c.closed == None && c.outbox == [] && c.phase.Filtering?
    requires Client.CanReturn(c.phase.request, verdict)
    ensures ConnOk(t, SendReply(c, verdict)) && t.Waiting?
  {
    hide ChannelOk, Conserved, AnswersOk, EchoesOk, Encode, Word, Pick, Survives, Sendable;
    var request, m := c.phase.request, Client.Response(c.phase.request, verdict);
    var answer := Answer(request, Client.Value(request, verdict));
    NoneInFlight(t, c);
    HandledOk(t, c, verdict);
    ResponseUpward(request, verdict);
    WritingResponse(t, Handled(c, verdict), m);
    PickAppend(RequestIn, c.answered, answer);
    EchoesReply(t, c, SendReply(c, verdict), m, answer);
    assert AnswersOk(SendReply(c, verdict)) by { AnswersKept(Handled(c, verdict), m); }
  }

  lemma AnswersKept(c: Conn, m: Message)
    requires AnswersOk(c)
    ensures AnswersOk(Writing(c, m))
  {
  }

  lemma EmptyConserved(t: Talk, c: Conn)
    requires ChannelOk(c) && Conserved(t, c) && c.outbox == [] && c.queue != []
    ensures var c1 := EmptyQueue(c);
            && ChannelOk(c1) && Conserved(t, c1) && Responses(c1.inflight) == Responses(c.inflight)
  {
    var m, rest := c.queue[0], c.queue[1..];
    assert c.queue == [m] + rest && m in c.queue;
    WritingOther(t, c.(queue := rest), m);
    Assoc(c.dispatched + Held(t) + Others(c.inflight), [m], rest);
    Assoc(c.dispatched + Held(t), Others(c.inflight), [m]);
  }

  lemma EmptyOk(t: Talk, c: Conn)
    requires ConnOk(t, c) && c.closed == None && c.outbox == [] && c.phase == Emptying
    ensures ConnOk(t, EmptyQueue(c))
  {
    hide Pick, Encode, EncodeAll, Survives, Decode;
    if c.queue != [] {
      EmptyConserved(t, c);
      EchoesWriting(t, c, EmptyQueue(c), c.queue[0]);
    }
  }

  lemma CloseTurn(t: Talk, c: Conn, e: Ending)
    requires InTurn(t, c) && c.closed == None
    ensures InTurn(t, c.(closed := Some(e)))
  {
    if t.Quiet? {
      SettledIsOver(c);
      hide Pick;
      assert Over(c.(closed := Some(e)));
    }
    hide Pick, Encode, Survives, Decode, Sendable;
  }

  lemma CloseFrame(t: Talk, c: Conn, e: Ending)
    ensures var c1 := c.(closed := Some(e));
            && (ChannelOk(c) ==> ChannelOk(c1)) && (Conserved(t, c) ==> Conserved(t, c1))
            && (AnswersOk(c) ==> AnswersOk(c1)) && (TallyOk(c) ==> TallyOk(c1))
  {
    hide Pick, EncodeAll, Upward, FromClient, Sendable;
  }

  lemma CloseEchoes(t: Talk, c: Conn, e: Ending)
    requires EchoesOk(t, c)
    ensures EchoesOk(t, c.(closed := Some(e)))
  {
    hide Pick;
    assert Ahead(t, c.(closed := Some(e))) == Ahead(t, c);
  }

  /** Closing the connection freezes a client. */
  lemma CloseOk(t: Talk, c: Conn, e: Ending)
    requires ConnOk(t, c) && c.closed == None
    ensures ConnOk(t, c.(closed := Some(e)))
  {
    hide ChannelOk, Conserved, AnswersOk, TallyOk, EchoesOk, InTurn;
    CloseTurn(t, c, e);
    CloseFrame(t, c, e);
    CloseEchoes(t, c, e);
  }

  // ----- the steps of the server, for the client they concern

  lemma AskOk(c: Conn, m: Message)
    requires ConnOk(Quiet, c) && c.closed == None && Sendable(m) && Client.Handles(m)
    ensures ConnOk(Asking(m, Encode(m)), c.(asked := c.asked + [m]))
  {
    hide Pick, EncodeAll, Survives, Decode;
    assert (c.asked + [m])[..c.responses] == c.asked[..c.responses];
  }

  lemma SendPartOk(t: Talk, c: Conn, n: nat)
    requires t.Asking? && ConnOk(t, c) && 0 < n <= |t.left|
    ensures ConnOk(if n == |t.left| then Waiting(t.request, []) else Asking(t.request, t.left[n..]),
                   c.(down := c.down + t.left[..n]))
  {
    hide Pick, Encode, EncodeAll, Survives, Decode;
    assert t.left == t.left[..n] + t.left[n..];
    Assoc(c.down, t.left[..n], t.left[n..]);
    if n == |t.left| {
      assert c.down + t.left[..n] == c.down + t.left[..n] + [];
    }
  }

  /** The server gives up a request to a client that has gone. */
  lemma GivesUp(t: Talk, c: Conn)
    requires t.Asking? || (t.Waiting? && !Front(c.up).Received?) || t.Quiet?
    requires ConnOk(t, c) && c.closed.Some?
    ensures ConnOk(Flushing(Held(t), false), c)
  {
    AllAnswered(c);
    hide Pick, Encode, EncodeAll, Survives, Decode;
  }

  /** Whatever way a stream ends, the same messages are received from it. */
  lemma EndingIrrelevant(s: seq<byte>, e: Ending, e': Ending)
    ensures Decode(s, e).Received? ==> Decode(s, e') == Decode(s, e)
  {
    if Decode(s, e).Received? {
      DecodeStable(s, [], e, e');
      hide Decode;
      assert s + [] == s && Decode(s, e).rest + [] == Decode(s, e).rest;
    }
  }

  /** What the server reads from a client is the first message in flight. */
  lemma ReadsFirst(c: Conn)
    requires ChannelOk(c) && Front(c.up).Received?
    ensures c.inflight != [] && Survives(c.inflight[0]) && Front(c.up).message == c.inflight[0]
    ensures ChannelOk(Consumed(c, Front(c.up).rest))
  {
    hide Encode, Survives, Decode;
    assert forall i :: 0 <= i < |c.inflight| ==> Upward(c.inflight[i]);
    DecodeArrived(c.inflight, c.up, c.outbox, Error);
    assert |Front(c.up).rest| < |c.up| by { ReadShortens(c.up); }
  }

  lemma ReadShortens(s: seq<byte>)
    requires Front(s).Received?
    ensures |Front(s).rest| < |s|
  {
  }

  /** Reading the first message in flight, when it is not a response, moves it to those held. */
  lemma ReadOtherOk(t: Talk, c: Conn, rest: seq<byte>)
    requires t.Waiting? && Conserved(t, c) && EchoesOk(t, c) && ChannelOk(c)
    requires c.inflight != [] && c.inflight[0].command != RESPONSE
    ensures var t1, c1 := Waiting(t.request, t.held + [c.inflight[0]]), Consumed(c, rest);
            && Conserved(t1, c1) && EchoesOk(t1, c1)
            && Responses(c1.inflight) == Responses(c.inflight) && Before(c1.inflight) + 1 == Before(c.inflight)
  {
    hide Encode, Sendable;
    var m, later := c.inflight[0], c.inflight[1..];
    assert c.inflight == [m] + later && m in c.inflight;
    Assoc(c.dispatched, t.held, [m]);
    Assoc(c.dispatched + t.held, [m], Others(later));
  }

  /** A response in flight is the one awaited, and the only one; once it is taken nothing is open. */
  lemma ResponseSettles(t: Talk, c: Conn, rest: seq<byte>)
    requires t.Waiting? && Open(t.request, [], c) && c.inflight != [] && c.inflight[0].command == RESPONSE
    ensures RespondsTo(c.inflight[0], t.request)
    ensures Settled(Taken(Consumed(c, rest), t.request, true)) && c.responses + 1 == |c.answered|
  {
    AllAnswered(c);
    hide Encode, Sendable, Survives, Requests;
    assert c.inflight == [c.inflight[0]] + c.inflight[1..];
    assert Responses(c.inflight) == [c.inflight[0]] + Responses(c.inflight[1..]);
  }

  lemma ResponseConserved(t: Talk, c: Conn, rest: seq<byte>)
    requires t.Waiting? && Conserved(t, c) && AnswersOk(c) && c.inflight != [] && c.inflight[0].command == RESPONSE
    ensures var c1 := Taken(Consumed(c, rest), t.request, true);
            Conserved(Flushing(t.held, true), c1) && AnswersOk(c1)
  {
    assert c.inflight == [c.inflight[0]] + c.inflight[1..];
  }

  lemma ReadResponseOk(t: Talk, c: Conn, rest: seq<byte>)
    requires t.Waiting? && ConnOk(t, c) && c.inflight != [] && c.inflight[0].command == RESPONSE
    ensures RespondsTo(c.inflight[0], t.request)
    ensures var c1 := Taken(Consumed(c, rest), t.request, true);
            && Conserved(Flushing(t.held, true), c1) && EchoesOk(Flushing(t.held, true), c1) && TallyOk(c1)
            && Settled(c1)
  {
    hide Open, Settled, Conserved, AnswersOk, TallyOk, EchoesOk, ChannelOk, RespondsTo;
    TallyTaken(t, c);
    ResponseSettles(t, c, rest);
    ResponseConserved(t, c, rest);
    TallyKept(Taken(c, t.request, true), Taken(Consumed(c, rest), t.request, true));
    EchoesCovered(Flushing(t.held, true), Taken(Consumed(c, rest), t.request, true));
  }

  lemma TallyKept(c: Conn, c1: Conn)
    requires TallyOk(c) && c1.asked == c.asked && c1.responses == c.responses && c1.served == c.served
    ensures TallyOk(c1)
  {
    hide Pick;
  }

  lemma TallyTaken(t: Talk, c: Conn)
    requires t.Waiting? && TallyOk(c) && Open(t.request, [], c)
    ensures TallyOk(Taken(c, t.request, true))
  {
    hide Pick, Encode, Survives, Sendable;
    PickAppend(SourceOf, c.asked[..c.responses], t.request);
    assert c.asked[..c.responses + 1] == c.asked[..c.responses] + [t.request];
  }

  /** What is left of the invariant when the server has read a message. */
  lemma ConnOkParts(t: Talk, c: Conn)
    requires ChannelOk(c) && Conserved(t, c) && AnswersOk(c) && EchoesOk(t, c) && TallyOk(c) && InTurn(t, c)
    ensures ConnOk(t, c)
  {
  }

  lemma ReadOtherTurn(t: Talk, c: Conn, rest: seq<byte>)
    requires t.Waiting? && InTurn(t, c) && c.inflight != []
    requires Responses(Consumed(c, rest).inflight) == Responses(c.inflight)
    ensures InTurn(Waiting(t.request, t.held + [c.inflight[0]]), Consumed(c, rest))
  {
    hide Pick, Encode, Survives, Sendable;
  }

  lemma AnswersConsumed(c: Conn, rest: seq<byte>)
    requires AnswersOk(c) && TallyOk(c)
    ensures AnswersOk(Consumed(c, rest)) && TallyOk(Consumed(c, rest))
  {
    hide Pick;
  }

  lemma ReadOther(t: Talk, c: Conn)
    requires t.Waiting? && ConnOk(t, c) && Front(c.up).Received? && Front(c.up).message.command != RESPONSE
    ensures var c1 := Consumed(c, Front(c.up).rest);
            ConnOk(Waiting(t.request, t.held + [Front(c.up).message]), c1)
  {
    var rest := Front(c.up).rest;
    hide ChannelOk, Conserved, AnswersOk, EchoesOk, TallyOk, InTurn, Front, Consumed;
    ReadsFirst(c);
    ReadOtherOk(t, c, rest);
    ReadOtherTurn(t, c, rest);
    AnswersConsumed(c, rest);
    ConnOkParts(Waiting(t.request, t.held + [c.inflight[0]]), Consumed(c, rest));
  }

  lemma ChannelTaken(c: Conn, request: Message)
    requires ChannelOk(c) && AnswersOk(c)
    ensures ChannelOk(Taken(c, request, true)) && AnswersOk(Taken(c, request, true))
  {
    hide Pick, EncodeAll, Upward, FromClient, Sendable;
  }

  lemma ReadResponse(t: Talk, c: Conn)
    requires t.Waiting? && ConnOk(t, c) && Front(c.up).Received? && Front(c.up).message.command == RESPONSE
    ensures var m := Front(c.up).message;
            var c1 := Taken(Consumed(c, Front(c.up).rest), t.request, true);
            m.args != [] && m.args[0] == [t.request.command] && ConnOk(Flushing(t.held, true), c1)
  {
    var rest := Front(c.up).rest;
    hide ChannelOk, Conserved, AnswersOk, EchoesOk, TallyOk, Settled, Front, Consumed, Taken;
    ReadsFirst(c);
    ReadResponseOk(t, c, rest);
    AnswersConsumed(c, rest);
    ChannelTaken(Consumed(c, rest), t.request);
    ConnOkParts(Flushing(t.held, true), Taken(Consumed(c, rest), t.request, true));
  }

  lemma ReadOk(t: Talk, c: Conn)
    requires t.Waiting? && ConnOk(t, c) && Front(c.up).Received?
    ensures var m := Front(c.up).message;
            var c1 := Consumed(c, Front(c.up).rest);
            if m.command == RESPONSE then
              && m.args != [] && m.args[0] == [t.request.command]
              && ConnOk(Flushing(t.held, true), Taken(c1, t.request, true))
            else ConnOk(Waiting(t.request, t.held + [m]), c1)
  {
    hide ConnOk, Front, Consumed, Taken;
    if Front(c.up).message.command == RESPONSE {
      ReadResponse(t, c);
    } else {
      ReadOther(t, c);
    }
  }

  /** Outside a request the server finds no response in the channel. */
  lemma PollOk(c: Conn)
    requires ConnOk(Quiet, c) && Front(c.up).Received?
    ensures var m := Front(c.up).message;
            var c1 := Consumed(c, Front(c.up).rest);
            FromClient(m) && ConnOk(Quiet, c1.(dispatched := c1.dispatched + [m]))
  {
    ReadsFirst(c);
    AllAnswered(c);
    var m, rest := c.inflight[0], Front(c.up).rest;
    PollConserved(c, rest);
    var c1 := Consumed(c, rest).(dispatched := c.dispatched + [m]);
    hide Encode, EncodeAll, Decode, Sendable, Pick, Conserved, AnswersOk, EchoesOk;
    EchoesCovered(Quiet, c1);
  }

  lemma PollConserved(c: Conn, rest: seq<byte>)
    requires ChannelOk(c) && Conserved(Quiet, c) && AnswersOk(c) && c.inflight != [] && Responses(c.inflight) == []
    ensures var m := c.inflight[0];
            var c1 := Consumed(c, rest).(dispatched := c.dispatched + [m]);
            FromClient(m) && Conserved(Quiet, c1) && AnswersOk(c1) && Responses(c1.inflight) == []
  {
    hide Encode, Sendable;
    var m, later := c.inflight[0], c.inflight[1..];
    assert c.inflight == [m] + later && m in c.inflight;
    Assoc(c.dispatched, [m], Others(later));
    assert c.dispatched + [] == c.dispatched;
    assert c.dispatched + [m] + [] == c.dispatched + [m];
  }

  lemma DispatchOk(t: Talk, c: Conn)
    requires t.Flushing? && t.held != [] && ConnOk(t, c)
    ensures FromClient(t.held[0])
    ensures ConnOk(Flushing(t.held[1..], t.ok), c.(dispatched := c.dispatched + [t.held[0]]))
  {
    hide Pick, Encode, EncodeAll, Survives, Decode, Sendable;
    assert t.held == [t.held[0]] + t.held[1..];
    Assoc(c.dispatched, [t.held[0]], t.held[1..]);
    assert t.held[0] in t.held;
  }

  // ----- the invariant of the whole system

  predicate KeyJob(s: State) {
    s.jobs != [] && s.jobs[0].Key?
  }

  /** Client j is being asked about a key. */
  predicate InService(s: State, j: nat) {
    KeyJob(s) && j == s.next && (s.talk.Asking? || s.talk.Waiting?)
  }

  /** The number of keys about which the server is done with client j, counted from the start. */
  function Reached(s: State, j: nat): nat {
    |s.done| + if KeyJob(s) && (j < s.next || (j == s.next && s.talk.Flushing?)) then 1 else 0
  }

  /** The server took the client's response to key i: it serves the keys from when it joined until it is gone. */
  predicate Serves(c: Conn, i: nat) {
    c.joined <= i < c.joined + c.served
  }

  ghost predicate Served(conns: seq<Conn>, i: nat) {
    exists j :: 0 <= j < |conns| && Serves(conns[j], i)
  }

  /** The first n keys but for those for which some client's response was taken. */
  ghost function Alone(conns: seq<Conn>, n: nat): seq<nat> {
    if n == 0 then [] else Alone(conns, n - 1) + if Served(conns, n - 1) then [] else [n - 1]
  }

  /** The requests and responses about keys, of one client. */
  ghost predicate KeysOf(s: State, j: nat)
    requires j < |s.conns|
  {
    var c, n := s.conns[j], |Pick(SourceOf, s.conns[j].asked)|;
    && c.joined <= |s.done| && c.joined + n <= |s.typed|
    && Pick(SourceOf, c.asked) == Keys.Sources(s.typed[c.joined..c.joined + n])
    && c.served <= n <= c.served + 1 && c.joined + c.served <= Reached(s, j)
    && (InService(s, j) ==> n == c.served + 1 && c.joined + c.served == |s.done|)
    && (!InService(s, j) && c.closed == None ==> n == c.served && c.joined + c.served == Reached(s, j))
    && (KeyJob(s) && j == s.next && s.talk.Flushing? ==> (s.talk.ok <==> Serves(c, |s.done|)))
    && (c.closed == None ==> c.listed)
  }

  /** Each client is asked about the keys typed since it joined, in typing order, none left out until it goes. */
  ghost predicate KeysOk(s: State) {
    forall j :: 0 <= j < |s.conns| ==> KeysOf(s, j)
  }

  ghost predicate ServerOk(s: State) {
    && s.next <= |s.conns|
    && (s.jobs == [] ==> s.next == 0 && (s.talk.Quiet? || s.talk.Polling?))
    && (s.talk != Quiet ==> s.next < |s.conns|)
    && (s.talk.Polling? ==>
          s.jobs == [] && s.talk.client < |s.conns|
          && s.conns[s.talk.client].listed && Readable(s.conns[s.talk.client]))
    && (s.talk.Asking? ==> s.talk.request == RequestOf(s.jobs[0]))
    && (s.talk.Waiting? ==> s.talk.request == RequestOf(s.jobs[0]))
    && (forall job :: job in s.jobs ==> Sendable(RequestOf(job)))
    && (s.next == 0 ==> !s.handled)
    && s.typed == s.done + Pick(JobKey, s.jobs)
  }

  /** A key counts as handled once a response to it was taken; and no live client is passed over that cannot read. */
  ghost predicate PassedOk(s: State) {
    && s.next <= |s.conns|
    && (KeyJob(s) ==> (s.handled <==> Served(s.conns[..s.next], |s.done|)))
    && (s.jobs != [] && !Survives(RequestOf(s.jobs[0])) ==>
          forall j :: 0 <= j < |s.conns| && (j < s.next || (j == s.next && s.talk.Flushing?)) ==>
            s.conns[j].closed.Some?)
  }

  ghost predicate ConnsOk(s: State) {
    forall j :: 0 <= j < |s.conns| ==> ConnOk(TalkWith(s, j), s.conns[j])
  }

  /** The pty sees each client's messages in the order the server dispatched them. */
  ghost predicate EffectsOk(s: State) {
    forall j: nat :: Pick(FromOf(j), s.effects) == if j < |s.conns| then s.conns[j].dispatched else []
  }

  function NumberOf(e: Effect): Option<nat> {
    if e.Direct? then Some(e.number) else None
  }

  ghost predicate EffectOk(s: State, e: Effect) {
    match e
    case Direct(i, source) => i < |s.done| && source == s.done[i].source
    case From(j, m) => j < |s.conns| && FromClient(m)
  }

  /**
   The server writes a finished key to the pty itself exactly when no client's response to it was taken,
   and before anything from a client that joined later.
   */
  ghost predicate DirectOk(s: State) {
    && Pick(NumberOf, s.effects) == Alone(s.conns, |s.done|)
    && (forall e :: e in s.effects ==> EffectOk(s, e))
    && (forall p, q :: 0 <= p < q < |s.effects| && s.effects[p].From? && s.effects[q].Direct?
                       && s.effects[p].client < |s.conns| ==>
                         s.conns[s.effects[p].client].joined <= s.effects[q].number)
  }

  ghost predicate Inv(s: State) {
    ServerOk(s) && ConnsOk(s) && EffectsOk(s) && KeysOk(s) && PassedOk(s) && DirectOk(s)
  }

  lemma InitialInv()
    ensures Inv(Initial())
  {
  }

  // ----- frames

  /** The clients other than j keep their invariant when nothing of theirs changes. */
  lemma ConnsKept(s: State, s1: State, j: nat)
    requires ConnsOk(s) && j < |s.conns| == |s1.conns|
    requires forall k :: 0 <= k < |s.conns| && k != j ==> s1.conns[k] == s.conns[k] && TalkWith(s1, k) == TalkWith(s, k)
    requires ConnOk(TalkWith(s1, j), s1.conns[j])
    ensures ConnsOk(s1)
  {
    hide ConnOk, TalkWith;
  }

  ghost predicate SameKeys(c: Conn, c1: Conn) {
    && c1.asked == c.asked && c1.joined == c.joined && c1.served == c.served
    && (c1.closed == c.closed || c1.closed.Some?) && (c1.closed == None ==> c1.listed == c.listed)
  }

  ghost predicate SameHistory(c: Conn, c1: Conn) {
    SameKeys(c, c1) && c1.dispatched == c.dispatched
  }

  ghost predicate AllSameKeys(conns: seq<Conn>, conns1: seq<Conn>) {
    |conns1| == |conns| && forall k :: 0 <= k < |conns| ==> SameKeys(conns[k], conns1[k])
  }

  ghost predicate AllSameDispatched(conns: seq<Conn>, conns1: seq<Conn>) {
    |conns1| == |conns| && forall k :: 0 <= k < |conns| ==> conns1[k].dispatched == conns[k].dispatched
  }

  /** The server is at the same point, but for what it has read or written. */
  predicate SamePoint(s: State, s1: State) {
    && s1.jobs == s.jobs && s1.next == s.next && s1.handled == s.handled
    && s1.done == s.done && s1.typed == s.typed
    && ((s.talk.Asking? || s.talk.Waiting?) <==> (s1.talk.Asking? || s1.talk.Waiting?))
    && (s.talk.Flushing? <==> s1.talk.Flushing?)
    && (s.talk.Flushing? ==> s1.talk.ok == s.talk.ok)
  }

  lemma {:induction false} AloneSame(a: seq<Conn>, b: seq<Conn>, n: nat)
    requires forall i :: 0 <= i < n ==> (Served(a, i) <==> Served(b, i))
    ensures Alone(a, n) == Alone(b, n)
  {
    hide Served;
    if n > 0 {
      AloneSame(a, b, n - 1);
    }
  }

  lemma ServedSame(a: seq<Conn>, b: seq<Conn>, i: nat)
    requires |a| == |b| && forall k :: 0 <= k < |a| ==> (Serves(a[k], i) <==> Serves(b[k], i))
    ensures Served(a, i) <==> Served(b, i)
  {
  }

  lemma DirectKept(s: State, s1: State)
    requires DirectOk(s) && AllSameKeys(s.conns, s1.conns) && s1.effects == s.effects && s1.done == s.done
    ensures DirectOk(s1)
  {
    hide Pick;
    forall i | 0 <= i < |s.done| ensures Served(s.conns, i) <==> Served(s1.conns, i) {
      ServedSame(s.conns, s1.conns, i);
    }
    AloneSame(s.conns, s1.conns, |s.done|);
    assert forall e :: e in s1.effects ==> EffectOk(s, e) ==> EffectOk(s1, e);
  }

  lemma EffectsKept(s: State, s1: State)
    requires EffectsOk(s) && AllSameDispatched(s.conns, s1.conns) && s1.effects == s.effects
    ensures EffectsOk(s1)
  {
    hide Pick;
  }

  lemma PassedKept(s: State, s1: State)
    requires PassedOk(s) && AllSameKeys(s.conns, s1.conns) && SamePoint(s, s1)
    ensures PassedOk(s1)
  {
    hide Survives, Served;
    ServedSame(s.conns[..s.next], s1.conns[..s.next], |s.done|);
  }

  lemma KeysKept(s: State, s1: State)
    requires KeysOk(s) && AllSameKeys(s.conns, s1.conns) && SamePoint(s, s1)
    ensures KeysOk(s1)
  {
    hide Pick, Keys.Sources;
    forall j | 0 <= j < |s1.conns| ensures KeysOf(s1, j) {
      assert KeysOf(s, j) && SameKeys(s.conns[j], s1.conns[j]);
    }
  }

  /** The histories stay right when no step of theirs is taken. */
  lemma HistoriesKept(s: State, s1: State)
    requires EffectsOk(s) && KeysOk(s) && PassedOk(s) && DirectOk(s)
    requires AllSameKeys(s.conns, s1.conns) && AllSameDispatched(s.conns, s1.conns)
    requires SamePoint(s, s1) && s1.effects == s.effects
    ensures EffectsOk(s1) && KeysOk(s1) && PassedOk(s1) && DirectOk(s1)
  {
    KeysKept(s, s1);
    PassedKept(s, s1);
    DirectKept(s, s1);
    EffectsKept(s, s1);
  }

  /** A client the server reads from stays one it can read from. */
  predicate StaysReadable(c: Conn, c1: Conn) {
    c1.listed == c.listed && (Readable(c) ==> Readable(c1))
  }

  /** Changing one client, without touching its histories, keeps the rest. */
  lemma OtherConns(s: State, j: nat, c: Conn)
    requires Inv(s) && j < |s.conns|
    requires ConnOk(TalkWith(s, j), c) && SameHistory(s.conns[j], c) && StaysReadable(s.conns[j], c)
    ensures Inv(s.(conns := s.conns[j := c]))
  {
    hide ConnOk, Pick, EffectsOk, KeysOk, PassedOk, DirectOk;
    var s1 := s.(conns := s.conns[j := c]);
    ConnsKept(s, s1, j);
    HistoriesKept(s, s1);
  }

  // ----- the clients' steps

  lemma ActOk(t: Talk, c: Conn, step: Step)
    requires ConnOk(t, c) && CanAct(c, step)
    ensures ConnOk(t, Act(c, step)) && SameHistory(c, Act(c, step)) && StaysReadable(c, Act(c, step))
  {
    hide ConnOk, Encode, Decode, Survives, FromClient, Sendable;
    match step
    case WritePart(_, n) => WritePartOk(t, c, n);
    case Take(_) => TakeOk(t, c);
    case Raise(_, m) => RaiseOk(t, c, m);
    case Reply(_, verdict) => ReplyOk(t, c, verdict);
    case Empty(_) => EmptyOk(t, c);
  }

  predicate ByClient(step: Step) {
    step.WritePart? || step.Take? || step.Raise? || step.Reply? || step.Empty?
  }

  lemma ClientApplied(s: State, step: Step)
    requires Enabled(s, step) && ByClient(step)
    ensures step.client < |s.conns| && CanAct(s.conns[step.client], step)
    ensures Apply(s, step) == s.(conns := s.conns[step.client := Act(s.conns[step.client], step)])
  {
    hide CanAct, Act;
  }

  lemma ClientStepInv(s: State, step: Step)
    requires Inv(s) && Enabled(s, step) && ByClient(step)
    ensures Inv(Apply(s, step))
  {
    ClientApplied(s, step);
    hide ConnOk, CanAct, Act, SameHistory, StaysReadable, Apply, Enabled;
    var j := step.client;
    assert ConnsOk(s);
    ActOk(TalkWith(s, j), s.conns[j], step);
    OtherConns(s, j, Act(s.conns[j], step));
  }

  lemma ClosedInv(s: State, j: nat, e: Ending)
    requires Inv(s) && j < |s.conns| && s.conns[j].closed == None
    ensures Inv(s.(conns := s.conns[j := s.conns[j].(closed := Some(e))]))
  {
    assert ConnsOk(s) && ConnOk(TalkWith(s, j), s.conns[j]);
    hide ConnOk, Inv;
    CloseOk(TalkWith(s, j), s.conns[j], e);
    OtherConns(s, j, s.conns[j].(closed := Some(e)));
  }

  lemma CloseInv(s: State, j: nat, e: Ending)
    requires Inv(s) && Enabled(s, Close(j, e))
    ensures Inv(Apply(s, Close(j, e)))
  {
    hide Inv;
    ClosedInv(s, j, e);
  }

  // ----- input

  lemma {:induction false} JobKeys(keys: seq<KeyInput>, jobs: seq<Job>)
    requires |jobs| == |keys| && forall i :: 0 <= i < |keys| ==> jobs[i] == Key(keys[i])
    ensures Pick(JobKey, jobs) == keys
  {
    if keys != [] {
      JobKeys(keys[1..], jobs[1..]);
      assert keys == [keys[0]] + keys[1..];
    }
  }

  /** Requests about keys read into the buffer are small. */
  lemma RequestSendable(job: Job)
    requires job.Key? ==> |job.key.source| < BUFSIZ
    ensures Sendable(RequestOf(job)) && Client.Handles(RequestOf(job))
  {
    ArgsLength(RequestOf(job).args);
    hide EncodeArgs, Word;
  }

  /** New jobs for a resting server change no history. */
  lemma JobsOk(s: State, s1: State)
    requires Inv(s) && Resting(s) && ServerOk(s1) && s1.talk == Quiet && s1.next == 0 && !s1.handled
    requires s1.conns == s.conns && s1.effects == s.effects && s1.done == s.done && s.typed <= s1.typed
    ensures Inv(s1)
  {
    hide ConnOk, Pick, Keys.Sources, Survives;
    assert forall k :: TalkWith(s1, k) == TalkWith(s, k);
    assert ConnsOk(s1);
    DirectKept(s, s1);
    forall j | 0 <= j < |s1.conns| ensures KeysOf(s1, j) {
      assert KeysOf(s, j);
      var c, n := s.conns[j], |Pick(SourceOf, s.conns[j].asked)|;
      assert s1.typed[c.joined..c.joined + n] == s.typed[c.joined..c.joined + n];
    }
  }

  lemma TypeInv(s: State, buffer: seq<byte>, caps: Keys.Caps)
    requires Inv(s) && Enabled(s, Type(buffer, caps))
    ensures Inv(Apply(s, Type(buffer, caps)))
  {
    hide ConnOk, Sendable, RequestOf, Keys.Cut, EffectsOk, KeysOk, PassedOk, DirectOk;
    var keys, s1 := Keys.Cut(buffer, caps).value, Apply(s, Type(buffer, caps));
    JobKeys(keys, s1.jobs);
    Keys.CutSmall(buffer, caps);
    assert s.typed == s.done;
    forall job | job in s1.jobs ensures Sendable(RequestOf(job)) {
      RequestSendable(job);
    }
    JobsOk(s, s1);
  }

  lemma WindowChangeInv(s: State, cols: nat, rows: nat)
    requires Inv(s) && Enabled(s, WindowChange(cols, rows))
    ensures Inv(Apply(s, WindowChange(cols, rows)))
  {
    hide ConnOk, Sendable, EffectsOk, KeysOk, PassedOk, DirectOk;
    var s1 := Apply(s, WindowChange(cols, rows));
    assert Pick(JobKey, s1.jobs) == [];
    RequestSendable(Resize(cols, rows));
    JobsOk(s, s1);
  }

  lemma NothingPicked()
    ensures Pick(SourceOf, []) == [] && Keys.Sources([]) == []
  {
  }

  lemma NewServesNone(conns: seq<Conn>, joined: nat, i: nat)
    ensures Served(conns + [NewConn(joined)], i) <==> Served(conns, i)
  {
    var more := conns + [NewConn(joined)];
    if Served(conns, i) {
      var j :| 0 <= j < |conns| && Serves(conns[j], i);
      assert Serves(more[j], i);
    }
  }

  lemma AcceptDirect(s: State)
    requires DirectOk(s)
    ensures DirectOk(s.(conns := s.conns + [NewConn(|s.done|)]))
  {
    hide Pick, Served;
    var s1 := s.(conns := s.conns + [NewConn(|s.done|)]);
    forall i | 0 <= i < |s.done| ensures Served(s1.conns, i) <==> Served(s.conns, i) {
      NewServesNone(s.conns, |s.done|, i);
    }
    AloneSame(s.conns, s1.conns, |s.done|);
    assert forall e :: e in s1.effects ==> EffectOk(s, e) ==> EffectOk(s1, e);
    assert forall p :: 0 <= p < |s.effects| ==> EffectOk(s, s.effects[p]);
  }

  lemma AcceptKeys(s: State)
    requires KeysOk(s) && Resting(s) && s.typed == s.done
    ensures KeysOk(s.(conns := s.conns + [NewConn(|s.done|)]))
  {
    NothingPicked();
    assert s.typed[|s.done|..|s.done|] == [];
    hide Pick, Keys.Sources;
    var s1 := s.(conns := s.conns + [NewConn(|s.done|)]);
    forall j | 0 <= j < |s1.conns| ensures KeysOf(s1, j) {
      assert j < |s.conns| ==> KeysOf(s, j);
    }
  }

  lemma AcceptConns(s: State, s1: State)
    requires ConnsOk(s) && EffectsOk(s) && Resting(s) && s1 == s.(conns := s.conns + [NewConn(|s.done|)])
    ensures ConnsOk(s1) && EffectsOk(s1)
  {
    NewConnOk(|s.done|);
    hide ConnOk, Pick;
    assert forall k :: TalkWith(s1, k) == Quiet == TalkWith(s, k);
    assert forall k :: 0 <= k < |s.conns| ==> s1.conns[k] == s.conns[k];
  }

  lemma AcceptedInv(s: State, s1: State)
    requires Inv(s) && Resting(s) && s1 == s.(conns := s.conns + [NewConn(|s.done|)])
    ensures Inv(s1)
  {
    assert s.typed == s.done;
    hide ConnsOk, Pick, KeysOk, EffectsOk, DirectOk, Sendable, Survives;
    AcceptKeys(s);
    AcceptDirect(s);
    AcceptConns(s, s1);
  }

  lemma AcceptInv(s: State)
    requires Inv(s) && Enabled(s, Accept)
    ensures Inv(Apply(s, Accept))
  {
    hide Inv;
    AcceptedInv(s, Apply(s, Accept));
  }

  // ----- dispatching

  lemma DispatchedEffects(s: State, j: nat, m: Message)
    requires EffectsOk(s) && j < |s.conns| && FromClient(m)
    ensures EffectsOk(Dispatched(s, j, m))
  {
    hide Pick, FromClient;
    var s1, e := Dispatched(s, j, m), From(j, m);
    forall k: nat
      ensures Pick(FromOf(k), s1.effects) == if k < |s1.conns| then s1.conns[k].dispatched else []
    {
      PickAppend(FromOf(k), s.effects, e);
    }
  }

  lemma DispatchedDirect(s: State, j: nat, m: Message)
    requires DirectOk(s) && j < |s.conns| && FromClient(m)
    ensures DirectOk(Dispatched(s, j, m))
  {
    hide Pick, FromClient;
    var s1 := Dispatched(s, j, m);
    PickAppend(NumberOf, s.effects, From(j, m));
    forall i | 0 <= i < |s.done| ensures Served(s.conns, i) <==> Served(s1.conns, i) {
      ServedSame(s.conns, s1.conns, i);
    }
    AloneSame(s.conns, s1.conns, |s.done|);
    assert forall e :: e in s1.effects ==> e in s.effects || e == From(j, m);
    assert forall e :: EffectOk(s, e) ==> EffectOk(s1, e);
  }

  lemma DispatchedShape(s: State, j: nat, m: Message)
    requires j < |s.conns|
    ensures AllSameKeys(s.conns, Dispatched(s, j, m).conns) && SamePoint(s, Dispatched(s, j, m))
  {
    hide FromClient;
  }

  /** Dispatching a message appends it to what its client had dispatched, and to the effects. */
  lemma DispatchedHistories(s: State, j: nat, m: Message)
    requires EffectsOk(s) && KeysOk(s) && PassedOk(s) && DirectOk(s) && j < |s.conns| && FromClient(m)
    ensures var s1 := Dispatched(s, j, m); EffectsOk(s1) && KeysOk(s1) && PassedOk(s1) && DirectOk(s1)
  {
    DispatchedEffects(s, j, m);
    DispatchedDirect(s, j, m);
    DispatchedShape(s, j, m);
    hide FromClient, EffectsOk, KeysOk, PassedOk, DirectOk, Dispatched, AllSameKeys, SamePoint;
    KeysKept(s, Dispatched(s, j, m));
    PassedKept(s, Dispatched(s, j, m));
  }

  lemma PollInv(s: State, j: nat)
    requires Inv(s) && Enabled(s, Poll(j))
    ensures Inv(Apply(s, Poll(j)))
  {
    hide ConnOk, EffectsOk, KeysOk, PassedOk, DirectOk, Sendable, Pick;
    var s1 := Apply(s, Poll(j));
    assert forall k :: TalkWith(s1, k) == Quiet == TalkWith(s, k);
    assert ConnsOk(s1);
    HistoriesKept(s, s1);
  }

  /** The server turns back from reading a client outside any request. */
  lemma PolledInv(s: State, s1: State, c: Conn)
    requires Inv(s) && s.talk.Polling? && s.talk.client < |s.conns|
    requires s1 == s.(talk := Quiet, conns := s.conns[s.talk.client := c])
    requires c.dispatched == s.conns[s.talk.client].dispatched && SameKeys(s.conns[s.talk.client], c)
    ensures ServerOk(s1) && EffectsOk(s1) && KeysOk(s1) && PassedOk(s1) && DirectOk(s1)
    ensures forall k :: 0 <= k < |s.conns| && k != s.talk.client ==> ConnOk(TalkWith(s1, k), s1.conns[k])
  {
    hide ConnOk, EffectsOk, KeysOk, PassedOk, DirectOk, Sendable, Pick;
    assert forall k :: TalkWith(s1, k) == Quiet == TalkWith(s, k);
    assert ConnsOk(s);
    HistoriesKept(s, s1);
  }

  lemma ReceiveApplied(s: State)
    requires Inv(s) && Enabled(s, Receive)
    ensures var j := s.talk.client;
            var c := s.conns[j];
            var m, c1 := Front(c.up).message, Consumed(c, Front(c.up).rest);
            && FromClient(m) && ConnOk(Quiet, c) && ConnOk(Quiet, c1.(dispatched := c1.dispatched + [m]))
            && Apply(s, Receive) == Dispatched(s.(talk := Quiet, conns := s.conns[j := c1]), j, m)
  {
    hide EffectsOk, KeysOk, PassedOk, DirectOk, ConnOk, Decode, FromClient;
    assert ConnsOk(s) && ConnOk(TalkWith(s, s.talk.client), s.conns[s.talk.client]);
    PollOk(s.conns[s.talk.client]);
  }

  lemma ReceiveInv(s: State)
    requires Inv(s) && Enabled(s, Receive)
    ensures Inv(Apply(s, Receive))
  {
    ReceiveApplied(s);
    var j := s.talk.client;
    var c, m := s.conns[j], Front(s.conns[j].up).message;
    var c1 := Consumed(c, Front(c.up).rest);
    hide Inv, ConnOk, Front, Apply, Enabled, FromClient;
    PolledInv(s, s.(talk := Quiet, conns := s.conns[j := c1]), c1);
    ReceivedInv(s.(talk := Quiet, conns := s.conns[j := c1]), j, m);
  }

  lemma ReceivedInv(s: State, j: nat, m: Message)
    requires ServerOk(s) && EffectsOk(s) && KeysOk(s) && PassedOk(s) && DirectOk(s)
    requires s.talk == Quiet && j < |s.conns| && FromClient(m)
    requires forall k :: 0 <= k < |s.conns| && k != j ==> ConnOk(TalkWith(s, k), s.conns[k])
    requires ConnOk(Quiet, s.conns[j].(dispatched := s.conns[j].dispatched + [m]))
    ensures Inv(Dispatched(s, j, m))
  {
    hide ConnOk, EffectsOk, KeysOk, PassedOk, DirectOk, Sendable, Pick, FromClient;
    DispatchedHistories(s, j, m);
    assert forall k :: TalkWith(Dispatched(s, j, m), k) == TalkWith(s, k) == Quiet;
  }

  lemma DropInv(s: State)
    requires Inv(s) && Enabled(s, Drop)
    ensures Inv(Apply(s, Drop))
  {
    var j := s.talk.client;
    var c := s.conns[j].(listed := false);
    assert ConnsOk(s) && ConnOk(TalkWith(s, j), s.conns[j]);
    assert ConnOk(Quiet, c) by { DropOk(s.conns[j]); }
    var s1 := Apply(s, Drop);
    assert s1 == s.(talk := Quiet, conns := s.conns[j := c]) && TalkWith(s1, j) == Quiet;
    hide ConnOk, Inv, Apply, Enabled, ServerOk, EffectsOk, KeysOk, PassedOk, DirectOk;
    PolledInv(s, s1, c);
    assert Inv(s1) by { AllKept(s1); }
  }

  lemma AllKept(s: State)
    requires ServerOk(s) && EffectsOk(s) && KeysOk(s) && PassedOk(s) && DirectOk(s)
    requires forall k :: 0 <= k < |s.conns| ==> ConnOk(TalkWith(s, k), s.conns[k])
    ensures Inv(s)
  {
    hide ConnOk, ServerOk, EffectsOk, KeysOk, PassedOk, DirectOk;
  }

  lemma DropOk(c: Conn)
    requires ConnOk(Quiet, c)
    ensures ConnOk(Quiet, c.(listed := false))
  {
  }

  lemma DispatchInv(s: State)
    requires Inv(s) && Enabled(s, Dispatch)
    ensures Inv(Apply(s, Dispatch))
  {
    hide ConnOk, Pick, Keys.Sources, Encode, Decode, EffectsOk, KeysOk, PassedOk, DirectOk;
    var j, t := s.next, s.talk;
    assert ConnsOk(s);
    DispatchOk(t, s.conns[j]);
    var s0 := s.(talk := Flushing(t.held[1..], t.ok));
    HistoriesKept(s, s0);
    DispatchedHistories(s0, j, t.held[0]);
    ConnsKept(s, Dispatched(s0, j, t.held[0]), j);
  }

  // ----- requests

  /** The key of the first job is the first one typed and not finished. */
  lemma FirstKey(s: State, n: nat)
    requires ServerOk(s) && KeyJob(s) && n <= |s.done|
    ensures |s.done| < |s.typed| && s.typed[|s.done|] == s.jobs[0].key
    ensures Keys.Sources(s.typed[n..|s.done| + 1]) == Keys.Sources(s.typed[n..|s.done|]) + [s.jobs[0].key.source]
  {
    hide Sendable, RequestOf, Readable;
    var k := |s.done|;
    assert s.typed[k] == s.jobs[0].key;
    assert s.typed[n..k + 1] == s.typed[n..k] + [s.typed[k]];
    PickAppend(Keys.SourceOfKey, s.typed[n..k], s.typed[k]);
  }

  /** The histories of the clients the server is not talking to. */
  lemma OtherKeys(s: State, s1: State, j: nat)
    requires KeysOk(s) && j < |s.conns| == |s1.conns| && KeysOf(s1, j)
    requires s1.jobs == s.jobs && s1.done == s.done && s1.typed == s.typed
    requires forall k :: 0 <= k < |s.conns| && k != j ==>
               s1.conns[k] == s.conns[k] && Reached(s1, k) == Reached(s, k) && !InService(s, k) && !InService(s1, k)
    requires KeyJob(s) && s1.next != j && s1.talk.Flushing? ==> false
    ensures KeysOk(s1)
  {
    hide Pick, Keys.Sources;
    forall k | 0 <= k < |s1.conns| ensures KeysOf(s1, k) {
      assert KeysOf(s, k);
    }
  }

  lemma AskedKeys(s: State, s1: State, m: Message)
    requires ServerOk(s) && KeysOk(s) && Turn(s) && s.conns[s.next].closed == None && m == RequestOf(s.jobs[0])
    requires s1 == s.(talk := Asking(m, Encode(m)),
                      conns := s.conns[s.next := s.conns[s.next].(asked := s.conns[s.next].asked + [m])])
    ensures KeysOk(s1)
  {
    hide Encode, Pick, Keys.Sources, Sendable;
    var j, c := s.next, s.conns[s.next];
    assert KeysOf(s, j);
    PickAppend(SourceOf, c.asked, m);
    if KeyJob(s) {
      FirstKey(s, c.joined);
    }
    assert KeysOf(s1, j);
    OtherKeys(s, s1, j);
  }

  lemma AskedRest(s: State, s1: State, m: Message)
    requires PassedOk(s) && DirectOk(s) && EffectsOk(s) && Turn(s)
    requires s1 == s.(talk := Asking(m, Encode(m)),
                      conns := s.conns[s.next := s.conns[s.next].(asked := s.conns[s.next].asked + [m])])
    ensures PassedOk(s1) && DirectOk(s1) && EffectsOk(s1)
  {
    hide Survives, Encode;
    DirectAsked(s, s1);
    EffectsKept(s, s1);
    hide DirectOk, EffectsOk;
    assert s1.conns[..s.next] == s.conns[..s.next];
  }

  lemma AskInv(s: State)
    requires Inv(s) && Enabled(s, Ask) && s.conns[s.next].closed == None
    ensures Inv(Apply(s, Ask))
  {
    var s1, m := Apply(s, Ask), RequestOf(s.jobs[0]);
    assert ConnsOk(s) && s.jobs[0] in s.jobs;
    AskOk(s.conns[s.next], m);
    AskApplied(s);
    AskedKeys(s, s1, m);
    AskedRest(s, s1, m);
    hide ConnOk, Encode, Pick, Survives, Sendable, KeysOk, PassedOk, EffectsOk, DirectOk, Apply;
    ConnsKept(s, s1, s.next);
  }

  lemma AskApplied(s: State)
    requires Enabled(s, Ask) && s.conns[s.next].closed == None
    ensures var c, m := s.conns[s.next], RequestOf(s.jobs[0]);
            Apply(s, Ask) == s.(talk := Asking(m, Encode(m)), conns := s.conns[s.next := c.(asked := c.asked + [m])])
  {
  }

  lemma DirectAsked(s: State, s1: State)
    requires DirectOk(s) && s1.effects == s.effects && s1.done == s.done && |s1.conns| == |s.conns|
    requires forall k :: 0 <= k < |s.conns| ==>
               && s1.conns[k].joined == s.conns[k].joined
               && ( || s1.conns[k].served == s.conns[k].served
                    || (s.conns[k].joined + s.conns[k].served == |s.done|
                        && s1.conns[k].served == s.conns[k].served + 1))
    ensures DirectOk(s1)
  {
    hide Pick;
    forall i | 0 <= i < |s.done| ensures Served(s.conns, i) <==> Served(s1.conns, i) {
      ServedSame(s.conns, s1.conns, i);
    }
    AloneSame(s.conns, s1.conns, |s.done|);
    assert forall e :: EffectOk(s, e) ==> EffectOk(s1, e);
  }

  lemma GivenUpKeys(s: State, s1: State)
    requires KeysOk(s) && ServerOk(s) && s.next < |s.conns| && s.jobs != [] && s.conns[s.next].closed.Some?
    requires !s.talk.Flushing? && s1 == s.(talk := Flushing(Held(s.talk), false))
    ensures KeysOk(s1)
  {
    hide Pick, Keys.Sources, Sendable;
    assert KeysOf(s, s.next);
    assert KeysOf(s1, s.next);
    OtherKeys(s, s1, s.next);
  }

  /** The server turns away from a client that has gone, with no response taken. */
  lemma GivenUpPassed(s: State, s1: State)
    requires PassedOk(s) && s.next < |s.conns| && s.jobs != [] && s.conns[s.next].closed.Some?
    requires s1 == s.(talk := Flushing(Held(s.talk), false))
    ensures PassedOk(s1)
  {
    hide Survives, Served;
  }

  lemma GivenUp(s: State, s1: State)
    requires Inv(s) && s.next < |s.conns| && s.jobs != [] && s.conns[s.next].closed.Some?
    requires s.talk.Quiet? || s.talk.Asking? || (s.talk.Waiting? && !Front(s.conns[s.next].up).Received?)
    requires s1 == s.(talk := Flushing(Held(s.talk), false))
    ensures Inv(s1)
  {
    hide ConnOk, Pick, KeysOk, PassedOk, Sendable, Front, DirectOk, EffectsOk;
    assert ConnsOk(s) && ConnOk(s.talk, s.conns[s.next]);
    GivesUp(s.talk, s.conns[s.next]);
    GivenUpKeys(s, s1);
    GivenUpPassed(s, s1);
    DirectKept(s, s1);
    EffectsKept(s, s1);
    ConnsKept(s, s1, s.next);
  }

  lemma SkippedKeys(s: State, s1: State)
    requires KeysOk(s) && Turn(s) && !s.conns[s.next].listed && s1 == s.(next := s.next + 1)
    ensures KeysOk(s1) && s.conns[s.next].closed.Some?
    ensures KeyJob(s) ==> !Serves(s.conns[s.next], |s.done|)
  {
    hide Pick, Keys.Sources;
    assert KeysOf(s, s.next);
    assert KeysOf(s1, s.next);
    OtherKeys(s, s1, s.next);
  }

  /** The server has come to an end with the client at `next`. */
  lemma PassedOn(s: State, s1: State)
    requires PassedOk(s) && s.next < |s.conns| && s1.conns == s.conns && s1.jobs == s.jobs && s1.done == s.done
    requires s1.next == s.next + 1 && s1.talk.Quiet?
    requires KeyJob(s) ==> (s1.handled <==> s.handled || Serves(s.conns[s.next], |s.done|))
    requires s.talk.Flushing? || s.conns[s.next].closed.Some?
    ensures PassedOk(s1)
  {
    hide Survives, Served, Serves;
    assert s1.conns[..s.next + 1] == s.conns[..s.next] + [s.conns[s.next]];
    OneMoreServed(s.conns[..s.next], s.conns[s.next], |s.done|);
  }

  lemma SkipTalks(s: State, s1: State)
    requires ConnsOk(s) && s.talk == Quiet && s1 == s.(next := s.next + 1)
    ensures ConnsOk(s1)
  {
    hide ConnOk;
    assert forall k :: TalkWith(s1, k) == Quiet == TalkWith(s, k);
  }

  lemma SkippedInv(s: State, s1: State)
    requires Inv(s) && Turn(s) && !s.conns[s.next].listed && s1 == s.(next := s.next + 1)
    ensures Inv(s1)
  {
    hide Pick, Sendable, DirectOk, EffectsOk, ConnsOk, PassedOk, KeysOk, Serves;
    SkippedKeys(s, s1);
    PassedOn(s, s1);
    DirectKept(s, s1);
    EffectsKept(s, s1);
    SkipTalks(s, s1);
  }

  lemma SkipInv(s: State)
    requires Inv(s) && Enabled(s, Skip)
    ensures Inv(Apply(s, Skip))
  {
    hide Inv;
    SkippedInv(s, Apply(s, Skip));
  }

  lemma OneMoreServed(conns: seq<Conn>, c: Conn, i: nat)
    ensures Served(conns + [c], i) <==> Served(conns, i) || Serves(c, i)
  {
    var more := conns + [c];
    if Served(conns, i) {
      var j :| 0 <= j < |conns| && Serves(conns[j], i);
      assert Serves(more[j], i);
    }
    if Serves(c, i) {
      assert Serves(more[|conns|], i);
    }
  }

  lemma SendPartInv(s: State, n: nat)
    requires Inv(s) && Enabled(s, SendPart(n))
    ensures Inv(Apply(s, SendPart(n)))
  {
    hide ConnOk, Pick, Keys.Sources, Encode, Decode, EffectsOk, KeysOk, PassedOk, DirectOk;
    var s1, j := Apply(s, SendPart(n)), s.next;
    assert ConnsOk(s);
    SendPartOk(s.talk, s.conns[j], n);
    ConnsKept(s, s1, j);
    HistoriesKept(s, s1);
  }

  /** Reading a message that is not a response. */
  lemma ReadOtherInv(s: State)
    requires Inv(s) && Enabled(s, Read) && Front(s.conns[s.next].up).message.command != RESPONSE
    ensures Inv(Apply(s, Read))
  {
    hide ConnOk, Pick, Keys.Sources, Encode, Decode, EffectsOk, KeysOk, PassedOk, DirectOk;
    var s1, j := Apply(s, Read), s.next;
    assert ConnsOk(s);
    ReadOk(s.talk, s.conns[j]);
    ConnsKept(s, s1, j);
    HistoriesKept(s, s1);
  }

  lemma OpenSurvives(t: Talk, c: Conn)
    requires t.Waiting? && ConnOk(t, c) && Front(c.up).Received? && Front(c.up).message.command == RESPONSE
    ensures Survives(t.request)
  {
    ReadsFirst(c);
    hide Encode, Decode, Survives;
    assert Responses(c.inflight) != [];
  }

  lemma ReadApplied(s: State)
    requires Inv(s) && Enabled(s, Read) && Front(s.conns[s.next].up).message.command == RESPONSE
    ensures var c1 := Taken(Consumed(s.conns[s.next], Front(s.conns[s.next].up).rest), s.talk.request, true);
            Apply(s, Read) == s.(talk := Flushing(s.talk.held, true), conns := s.conns[s.next := c1])
    ensures Survives(s.talk.request)
  {
    assert ConnsOk(s);
    ReadOk(s.talk, s.conns[s.next]);
    OpenSurvives(s.talk, s.conns[s.next]);
    hide ConnOk, Decode, Survives, Pick;
  }

  lemma TakenKeys(s: State, s1: State, c: Conn)
    requires KeysOk(s) && ServerOk(s) && s.next < |s.conns| && s.talk.Waiting? && c.served == s.conns[s.next].served
    requires c.asked == s.conns[s.next].asked && c.joined == s.conns[s.next].joined
    requires c.closed == s.conns[s.next].closed && c.listed == s.conns[s.next].listed
    requires s1 == s.(talk := Flushing(s.talk.held, true),
                      conns := s.conns[s.next := Taken(c, s.talk.request, true)])
    ensures KeysOk(s1)
    ensures KeyJob(s) ==> c.joined + c.served == |s.done|
  {
    hide Pick, Keys.Sources, Sendable;
    assert KeysOf(s, s.next);
    assert KeysOf(s1, s.next);
    OtherKeys(s, s1, s.next);
  }

  lemma TakenInv(s: State, s1: State, c: Conn)
    requires Inv(s) && s.next < |s.conns| && s.talk.Waiting? && SameHistory(s.conns[s.next], c)
    requires c.listed == s.conns[s.next].listed && c.closed == s.conns[s.next].closed && Survives(s.talk.request)
    requires ConnOk(Flushing(s.talk.held, true), Taken(c, s.talk.request, true))
    requires s1 == s.(talk := Flushing(s.talk.held, true),
                      conns := s.conns[s.next := Taken(c, s.talk.request, true)])
    ensures Inv(s1)
  {
    hide ConnOk, Pick, Survives, Sendable, DirectOk, KeysOk, EffectsOk, PassedOk;
    TakenKeys(s, s1, c);
    ConnsKept(s, s1, s.next);
    TakenRest(s, s1, c);
  }

  /** Taking the response that the server waits for. */
  lemma ReadResponseInv(s: State)
    requires Inv(s) && Enabled(s, Read) && Front(s.conns[s.next].up).message.command == RESPONSE
    ensures Inv(Apply(s, Read))
  {
    assert ConnsOk(s);
    ReadApplied(s);
    ReadOk(s.talk, s.conns[s.next]);
    hide Inv, ConnOk, Decode, Survives, Apply, Front;
    TakenInv(s, Apply(s, Read), Consumed(s.conns[s.next], Front(s.conns[s.next].up).rest));
  }

  lemma TakenRest(s: State, s1: State, c: Conn)
    requires PassedOk(s) && DirectOk(s) && EffectsOk(s) && s.next < |s.conns| && s.talk.Waiting?
    requires SameHistory(s.conns[s.next], c) && Survives(s.talk.request) && s.jobs != []
    requires s.talk.request == RequestOf(s.jobs[0]) && (KeyJob(s) ==> c.joined + c.served == |s.done|)
    requires s1 == s.(talk := Flushing(s.talk.held, true),
                      conns := s.conns[s.next := Taken(c, s.talk.request, true)])
    ensures PassedOk(s1) && DirectOk(s1) && EffectsOk(s1)
  {
    hide Survives, Word;
    DirectAsked(s, s1);
    EffectsKept(s, s1);
    hide DirectOk, EffectsOk;
    assert s1.conns[..s.next] == s.conns[..s.next];
  }

  lemma NextKeys(s: State, s1: State)
    requires KeysOk(s) && s.talk.Flushing? && s.next < |s.conns|
    requires s1 == s.(talk := Quiet, next := s.next + 1, handled := s1.handled)
    ensures KeysOk(s1)
  {
    hide Pick, Keys.Sources;
    assert KeysOf(s, s.next);
    assert KeysOf(s1, s.next);
    OtherKeys(s, s1, s.next);
  }

  lemma NextConns(s: State, s1: State)
    requires ConnsOk(s) && s.talk.Flushing? && s.talk.held == [] && s.next < |s.conns|
    requires s1 == s.(talk := Quiet, next := s.next + 1, handled := s1.handled)
    ensures ConnsOk(s1)
  {
    assert ConnOk(TalkWith(s, s.next), s.conns[s.next]);
    hide ConnOk;
    NextOk(s.talk, s.conns[s.next]);
    assert forall k :: 0 <= k < |s.conns| && k != s.next ==> TalkWith(s1, k) == TalkWith(s, k);
    ConnsKept(s, s1, s.next);
  }

  lemma NextedInv(s: State, s1: State)
    requires Inv(s) && s.talk.Flushing? && s.talk.held == [] && s.next < |s.conns|
    requires s1 == s.(talk := Quiet, next := s.next + 1, handled := s.handled || s.talk.ok)
    ensures Inv(s1)
  {
    assert KeysOk(s) && KeysOf(s, s.next);
    assert KeyJob(s) ==> (s.talk.ok <==> Serves(s.conns[s.next], |s.done|));
    hide ConnsOk, Pick, Sendable, KeysOk, KeysOf, PassedOk, DirectOk, EffectsOk, Serves;
    NextConns(s, s1);
    NextKeys(s, s1);
    PassedOn(s, s1);
    DirectKept(s, s1);
    EffectsKept(s, s1);
  }

  lemma NextInv(s: State)
    requires Inv(s) && Enabled(s, Next)
    ensures Inv(Apply(s, Next))
  {
    assert s.next < |s.conns|;
    hide Inv;
    NextedInv(s, Apply(s, Next));
  }

  lemma NextOk(t: Talk, c: Conn)
    requires t.Flushing? && t.held == [] && ConnOk(t, c)
    ensures ConnOk(Quiet, c)
  {
    if t.ok {
      SettledIsOver(c);
    }
    hide Pick, Encode, EncodeAll, Survives, Decode, Sendable;
  }

  lemma JoinedBefore(s: State)
    requires KeysOk(s)
    ensures forall j :: 0 <= j < |s.conns| ==> s.conns[j].joined <= |s.done|
  {
    hide Pick, Keys.Sources;
    forall j | 0 <= j < |s.conns| ensures s.conns[j].joined <= |s.done| {
      assert KeysOf(s, j);
    }
  }

  /** Finishing a key to which no response was taken writes it to the pty. */
  lemma DirectAppended(s: State, s1: State, key: KeyInput)
    requires DirectOk(s) && KeysOk(s) && !Served(s.conns, |s.done|)
    requires s1.conns == s.conns && s1.done == s.done + [key]
    requires s1.effects == s.effects + [Direct(|s.done|, key.source)]
    ensures DirectOk(s1)
  {
    JoinedBefore(s);
    hide Pick, Served, KeysOk, FromClient;
    var e := Direct(|s.done|, key.source);
    PickAppend(NumberOf, s.effects, e);
    assert forall x :: EffectOk(s, x) ==> EffectOk(s1, x);
    assert forall x :: x in s1.effects ==> x in s.effects || x == e;
  }

  lemma FinishEffects(s: State, s1: State, key: KeyInput)
    requires EffectsOk(s) && DirectOk(s) && KeysOk(s) && (s.handled <==> Served(s.conns, |s.done|))
    requires s1.conns == s.conns && s1.done == s.done + [key]
    requires s1.effects == if s.handled then s.effects else s.effects + [Direct(|s.done|, key.source)]
    ensures EffectsOk(s1) && DirectOk(s1)
  {
    hide Pick, Served, KeysOk, FromClient;
    if s.handled {
      assert forall x :: EffectOk(s, x) ==> EffectOk(s1, x);
    } else {
      DirectAppended(s, s1, key);
      forall j: nat ensures Pick(FromOf(j), s1.effects) == Pick(FromOf(j), s.effects) {
        PickAppend(FromOf(j), s.effects, Direct(|s.done|, key.source));
      }
    }
  }

  lemma FinishKeys(s: State, s1: State)
    requires KeysOk(s) && Enabled(s, Finish) && ServerOk(s)
    requires s1.conns == s.conns && s1.typed == s.typed && s1.talk == Quiet && s1.next == 0
    requires s1.done == s.done + if KeyJob(s) then [s.jobs[0].key] else []
    ensures KeysOk(s1)
  {
    hide Pick, Keys.Sources, Sendable;
    forall j | 0 <= j < |s1.conns| ensures KeysOf(s1, j) {
      assert KeysOf(s, j);
    }
  }

  lemma FinishServer(s: State, s1: State)
    requires ServerOk(s) && ConnsOk(s) && Enabled(s, Finish) && s1 == Apply(s, Finish)
    ensures ServerOk(s1) && ConnsOk(s1)
  {
    hide ConnOk, Sendable;
    assert s.jobs == [s.jobs[0]] + s.jobs[1..];
    assert forall k :: TalkWith(s1, k) == Quiet == TalkWith(s, k);
    if s.jobs[0].Key? {
      Assoc(s.done, [s.jobs[0].key], Pick(JobKey, s.jobs[1..]));
    }
  }

  lemma FinishInv(s: State)
    requires Inv(s) && Enabled(s, Finish)
    ensures Inv(Apply(s, Finish))
  {
    var s1 := Apply(s, Finish);
    assert s.conns[..s.next] == s.conns;
    FinishServer(s, s1);
    FinishKeys(s, s1);
    hide Pick, ServerOk, ConnsOk, KeysOk, DirectOk, EffectsOk, Survives, Served;
    if s.jobs[0].Key? {
      FinishEffects(s, s1, s.jobs[0].key);
    } else {
      DirectKept(s, s1);
      EffectsKept(s, s1);
    }
  }

  lemma StepInv(s: State, step: Step)
    requires Inv(s) && Enabled(s, step)
    ensures Inv(Apply(s, step))
  {
    hide Inv, Apply, Enabled;
    match step
    case Type(buffer, caps) => TypeInv(s, buffer, caps);
    case WindowChange(cols, rows) => WindowChangeInv(s, cols, rows);
    case Accept => AcceptInv(s);
    case Poll(j) => PollInv(s, j);
    case Receive => ReceiveInv(s);
    case Drop => DropInv(s);
    case Ask => AskAnyInv(s);
    case Skip => SkipInv(s);
    case SendPart(n) => SendPartInv(s, n);
    case SendFails => SendFailsInv(s);
    case Read => ReadInv(s);
    case ReadFails => ReadFailsInv(s);
    case Dispatch => DispatchInv(s);
    case Next => NextInv(s);
    case Finish => FinishInv(s);
    case Close(j, e) => CloseInv(s, j, e);
    case _ => ClientStepInv(s, step);
  }

  lemma AskAnyInv(s: State)
    requires Inv(s) && Enabled(s, Ask)
    ensures Inv(Apply(s, Ask))
  {
    hide Inv;
    if s.conns[s.next].closed == None {
      AskInv(s);
    } else {
      GivenUp(s, Apply(s, Ask));
    }
  }

  lemma SendFailsInv(s: State)
    requires Inv(s) && Enabled(s, SendFails)
    ensures Inv(Apply(s, SendFails))
  {
    assert s.jobs != [];
    hide Inv;
    GivenUp(s, Apply(s, SendFails));
  }

  lemma ReadInv(s: State)
    requires Inv(s) && Enabled(s, Read)
    ensures Inv(Apply(s, Read))
  {
    hide Inv, Apply;
    if Front(s.conns[s.next].up).message.command == RESPONSE {
      ReadResponseInv(s);
    } else {
      ReadOtherInv(s);
    }
  }

  lemma ReadFailsInv(s: State)
    requires Inv(s) && Enabled(s, ReadFails)
    ensures Inv(Apply(s, ReadFails))
  {
    assert s.jobs != [];
    EndingIrrelevant(s.conns[s.next].up, Error, s.conns[s.next].closed.value);
    hide Inv, Decode;
    GivenUp(s, Apply(s, ReadFails));
  }
}
