/**
 The control protocol of fep/control.c, fep/fep.c and libfep/client.c as a system of processes: the
 server's loop, any number of clients, and between them byte channels whose writes arrive in pieces.
 A step is one action of one process; a run is any interleaving of steps.
 */
module Protocol {
  import opened Bytes
  import opened Codec
  import opened Sockets
  import Client
  import ClientTable
  import Keys

  // ----- states

  type KeyInput = Keys.KeyInput

  /** What the server asks every client in turn. */
  datatype Job = Key(key: KeyInput) | Resize(cols: nat, rows: nat)

  function RequestOf(job: Job): Message {
    match job
    case Key(k) => KeyRequest(k.keyval, k.modifiers, k.source)
    case Resize(cols, rows) => ResizeRequest(cols, rows)
  }

  /**
   What the server is doing: nothing; reading a message of a client outside any request; or, with the
   client it has come to, writing a request, of which some bytes are left; waiting for the response, with
   the other messages read so far; or dispatching those, having accepted the response or not.
   */
  datatype Talk =
    | Quiet
    | Polling(client: nat)
    | Asking(request: Message, left: seq<byte>)
    | Waiting(request: Message, held: seq<Message>)
    | Flushing(held: seq<Message>, ok: bool)

  /** The client process: outside fep_client_dispatch, inside the filter, or emptying its queue. */
  datatype Phase = Idle | Filtering(request: Message) | Emptying

  /** A message a client raised: by the program's own call, or as the echo of a key not handled. */
  datatype Raised = ByProgram(message: Message) | Echo(source: seq<byte>)

  datatype Answer = Answer(request: Message, value: nat)

  /**
   A client and its two channels.  `outbox` is what is left of the message it is writing.  `closed` says
   how its stream ends once it has closed the connection: then it acts no more, and what is left in `outbox`
   and `queue` is lost.  `listed` says whether it is still in the server's table.  The rest is history: the
   messages making up `up + outbox`, the requests the server began to write to it, the number of responses
   the server took and of those that were for keys, the requests it answered, the messages it raised, those
   the server dispatched, and the number of keys finished when it joined.
   */
  datatype Conn = Conn(
    phase: Phase, queue: seq<Message>, outbox: seq<byte>, up: seq<byte>, down: seq<byte>,
    closed: Option<Ending>, listed: bool,
    inflight: seq<Message>, asked: seq<Message>, responses: nat, served: nat, answered: seq<Answer>,
    raised: seq<Raised>, dispatched: seq<Message>, joined: nat)

  /**
   What reaches the pty: the bytes of a key that no client handled, with its number in the order
   typed, or whatever dispatching a message writes.
   */
  datatype Effect = Direct(number: nat, source: seq<byte>) | From(client: nat, message: Message)

  /**
   The server is at client `next` of the first of `jobs`; `handled` says whether a client took it.
   `effects`, `input` (every byte read from the terminal), `typed` (the keys cut from it) and `done`
   (those finished) are history.
   */
  datatype State = State(
    jobs: seq<Job>, next: nat, handled: bool, talk: Talk, conns: seq<Conn>,
    effects: seq<Effect>, input: seq<byte>, typed: seq<KeyInput>, done: seq<KeyInput>)

  /** The size of the buffer for terminal input, with room for a last byte of 0. */
  const BUFSIZ := 8192

  function Initial(): State {
    State([], 0, false, Quiet, [], [], [], [], [])
  }

  function NewConn(joined: nat): Conn {
    Conn(Idle, [], [], [], [], None, true, [], [], 0, 0, [], [], [], joined)
  }

  // ----- steps

  datatype Step =
    // the server
    | Type(buffer: seq<byte>, caps: Keys.Caps)  // reads a buffer from the terminal and cuts it into keys
    | WindowChange(cols: nat, rows: nat)
    | Accept
    | Poll(client: nat)                 // finds something to read from a client outside any request
    | Receive                           // reads the message and dispatches it
    | Drop                              // fails to read, and removes the client
    | Ask                               // starts writing the request to the next client
    | Skip                              // finds that the next client has been removed
    | SendPart(count: nat)              // the channel takes some bytes of it
    | SendFails                         // the client has gone meanwhile
    | Read                              // reads one message while waiting
    | ReadFails                         // the client's stream ends without a response
    | Dispatch                          // dispatches the first message held
    | Next                              // turns to the following client
    | Finish                            // has asked everyone
    // a client
    | WritePart(client: nat, count: nat)
    | Take(client: nat)                 // reads a request
    | Raise(client: nat, message: Message)
    | Reply(client: nat, verdict: Option<nat>)
    | Empty(client: nat)                // writes the first message queued, or is done
    | Close(client: nat, ending: Ending)

  /** The message at the front of a channel, once all its bytes have arrived. */
  function Front(bytes: seq<byte>): Outcome {
    Decode(bytes, Error)
  }

  /** Reading from the client fails at once: it has gone, and nothing whole is left to read. */
  predicate Ended(c: Conn) {
    c.closed.Some? && Decode(c.up, c.closed.value) == Failed
  }

  /** Whether the server finds something to read from the client: bytes, or the end of the stream. */
  predicate Readable(c: Conn) {
    c.up != [] || c.closed.Some?
  }

  /** The clients in the server's table. */
  function InTable(conns: seq<Conn>): nat {
    if conns == [] then 0 else (if conns[0].listed then 1 else 0) + InTable(conns[1..])
  }

  predicate Resting(s: State) {
    s.jobs == [] && s.talk == Quiet
  }

  /** Whether a client can take a step of its own.  A channel never holds as many bytes as a garbled length. */
  predicate CanAct(c: Conn, step: Step) {
    && c.closed == None
    && match step
       case WritePart(_, n) => 0 < n <= |c.outbox| && |c.up| + n < GARBLED
       case Take(_) => c.outbox == [] && c.phase == Idle && Front(c.down).Received?
       case Raise(_, m) =>
         && c.outbox == [] && c.phase != Emptying && FromClient(m) && Sendable(m)
         && (c.phase.Filtering? ==> Client.Readable(c.phase.request))
       case Reply(_, verdict) => c.outbox == [] && c.phase.Filtering? && Client.CanReturn(c.phase.request, verdict)
       case Empty(_) => c.outbox == [] && c.phase == Emptying
       case _ => false
  }

  /** The server has a request to make of the client it has come to. */
  predicate Turn(s: State) {
    s.talk == Quiet && s.jobs != [] && s.next < |s.conns|
  }

  predicate Enabled(s: State, step: Step) {
    match step
    case Type(buffer, caps) => Resting(s) && |buffer| < BUFSIZ && Keys.Cut(buffer, caps).Some?
    case WindowChange(_, _) => Resting(s)
    case Accept => Resting(s) && InTable(s.conns) < ClientTable.MAX_CLIENTS
    case Poll(j) => Resting(s) && j < |s.conns| && s.conns[j].listed && Readable(s.conns[j])
    case Receive =>
      s.talk.Polling? && s.talk.client < |s.conns| && Front(s.conns[s.talk.client].up).Received?
    case Drop => s.talk.Polling? && s.talk.client < |s.conns| && Ended(s.conns[s.talk.client])
    case Ask => Turn(s) && s.conns[s.next].listed
    case Skip => Turn(s) && !s.conns[s.next].listed
    case SendPart(n) =>
      s.talk.Asking? && s.next < |s.conns| && s.conns[s.next].closed == None && 0 < n <= |s.talk.left|
    case SendFails => s.talk.Asking? && s.next < |s.conns| && s.conns[s.next].closed.Some?
    case Read => s.talk.Waiting? && s.next < |s.conns| && Front(s.conns[s.next].up).Received?
    case ReadFails => s.talk.Waiting? && s.next < |s.conns| && Ended(s.conns[s.next])
    case Dispatch => s.talk.Flushing? && s.talk.held != [] && s.next < |s.conns|
    case Next => s.talk.Flushing? && s.talk.held == []
    case Finish => s.talk == Quiet && s.jobs != [] && s.next == |s.conns|
    case Close(j, _) => j < |s.conns| && s.conns[j].closed == None
    case _ => step.client < |s.conns| && CanAct(s.conns[step.client], step)
  }

  function Typed(s: State, keys: seq<KeyInput>): State {
    s.(jobs := seq(|keys|, i requires 0 <= i < |keys| => Key(keys[i])), typed := s.typed + keys)
  }

  /** Handing a message to _fep_dispatch_control_message: a RESPONSE has no handler and is dropped. */
  function Dispatched(s: State, j: nat, m: Message): State
    requires j < |s.conns|
  {
    if FromClient(m) then
      var c := s.conns[j];
      s.(conns := s.conns[j := c.(dispatched := c.dispatched + [m])], effects := s.effects + [From(j, m)])
    else s
  }

  /** The client after a message of it has been read. */
  function Consumed(c: Conn, rest: seq<byte>): Conn {
    c.(up := rest, inflight := if c.inflight == [] then [] else c.inflight[1..])
  }

  /** The client after its response to a request has been taken, and accepted or not. */
  function Taken(c: Conn, request: Message, ok: bool): Conn {
    c.(responses := c.responses + 1, served := c.served + if ok && request.command == KEY_EVENT then 1 else 0)
  }

  function Writing(c: Conn, m: Message): Conn {
    c.(outbox := Encode(m), inflight := c.inflight + [m])
  }

  /** The client's own actions. */
  function TakeRequest(c: Conn): Conn
    requires Front(c.down).Received?
  {
    var m := Front(c.down).message;
    c.(down := Front(c.down).rest, phase := if Client.Handles(m) then Filtering(m) else Idle)
  }

  function RaiseMessage(c: Conn, m: Message): Conn {
    var c1 := c.(raised := c.raised + [ByProgram(m)]);
    if c.phase.Filtering? then c1.(queue := c.queue + [m]) else Writing(c1, m)
  }

  /** The client after its handler has run, before the response is written. */
  function Handled(c: Conn, verdict: Option<nat>): Conn
    requires c.phase.Filtering? && Client.CanReturn(c.phase.request, verdict)
  {
    var request := c.phase.request;
    var echo := Client.Echoes(request, verdict);
    c.(phase := Emptying,
       queue := c.queue + echo,
       raised := if echo == [] then c.raised else c.raised + [Echo(request.args[2])],
       answered := c.answered + [Answer(request, Client.Value(request, verdict))])
  }

  function SendReply(c: Conn, verdict: Option<nat>): Conn
    requires c.phase.Filtering? && Client.CanReturn(c.phase.request, verdict)
  {
    Writing(Handled(c, verdict), Client.Response(c.phase.request, verdict))
  }

  /** The channel takes n of the bytes the client is writing. */
  function MovePart(c: Conn, n: nat): Conn
    requires n <= |c.outbox|
  {
    c.(up := c.up + c.outbox[..n], outbox := c.outbox[n..])
  }

  function EmptyQueue(c: Conn): Conn {
    if c.queue == [] then c.(phase := Idle)
    else Writing(c.(queue := c.queue[1..]), c.queue[0])
  }

  function Act(c: Conn, step: Step): Conn
    requires CanAct(c, step)
  {
    match step
    case WritePart(_, n) => MovePart(c, n)
    case Take(_) => TakeRequest(c)
    case Raise(_, m) => RaiseMessage(c, m)
    case Reply(_, verdict) => SendReply(c, verdict)
    case Empty(_) => EmptyQueue(c)
  }

  function Apply(s: State, step: Step): State
    requires Enabled(s, step)
  {
    match step
    case Type(buffer, caps) => Typed(s.(input := s.input + buffer), Keys.Cut(buffer, caps).value)
    case WindowChange(cols, rows) => s.(jobs := [Resize(cols, rows)])
    case Accept => s.(conns := s.conns + [NewConn(|s.done|)])
    case Poll(j) => s.(talk := Polling(j))
    case Receive =>
      var j := s.talk.client;
      var Received(m, rest) := Front(s.conns[j].up);
      Dispatched(s.(talk := Quiet, conns := s.conns[j := Consumed(s.conns[j], rest)]), j, m)
    case Drop =>
      var j := s.talk.client;
      s.(talk := Quiet, conns := s.conns[j := s.conns[j].(listed := false)])
    case Ask =>
      var c, m := s.conns[s.next], RequestOf(s.jobs[0]);
      if c.closed.Some? then s.(talk := Flushing([], false))
      else s.(talk := Asking(m, Encode(m)), conns := s.conns[s.next := c.(asked := c.asked + [m])])
    case Skip => s.(next := s.next + 1)
    case SendPart(n) =>
      var c, left := s.conns[s.next], s.talk.left;
      s.(talk := if n == |left| then Waiting(s.talk.request, []) else Asking(s.talk.request, left[n..]),
         conns := s.conns[s.next := c.(down := c.down + left[..n])])
    case SendFails => s.(talk := Flushing([], false))
    case Read =>
      var Received(m, rest) := Front(s.conns[s.next].up);
      var c := Consumed(s.conns[s.next], rest);
      if m.command == RESPONSE then
        var ok := m.args[0] == [s.talk.request.command];
        s.(talk := Flushing(s.talk.held, ok), conns := s.conns[s.next := Taken(c, s.talk.request, ok)])
      else
        s.(talk := Waiting(s.talk.request, s.talk.held + [m]), conns := s.conns[s.next := c])
    case ReadFails => s.(talk := Flushing(s.talk.held, false))
    case Dispatch =>
      Dispatched(s.(talk := Flushing(s.talk.held[1..], s.talk.ok)), s.next, s.talk.held[0])
    case Next => s.(talk := Quiet, next := s.next + 1, handled := s.handled || s.talk.ok)
    case Finish =>
      var s1 := s.(jobs := s.jobs[1..], next := 0, handled := false);
      if s.jobs[0].Resize? then s1
      else
        var k := s.jobs[0].key;
        s1.(done := s.done + [k],
            effects := if s.handled then s.effects else s.effects + [Direct(|s.done|, k.source)])
    case Close(j, e) => s.(conns := s.conns[j := s.conns[j].(closed := Some(e))])
    case _ => s.(conns := s.conns[step.client := Act(s.conns[step.client], step)])
  }
}
