/** Progress of the protocol: it is stuck only at rest or hung, and takes only finitely many steps by itself. */
module Progress {
  import opened Bytes
  import opened Codec
  import opened Sockets
  import opened Protocol
  import opened Delivery
  import opened Runs
  import Client
  import Keys

  // ----- there is a step to take

  /** A step of the protocol's own: neither input from outside, nor anything a program chooses to do. */
  predicate Internal(step: Step) {
    !(step.Type? || step.WindowChange? || step.Accept? || step.Raise? || step.Close?)
  }

  /**
   The server, reading from the client, never gets to the end of a message: its length is garbled, or
   the client has gone and its stream ends inside a payload.
   */
  ghost predicate CutOff(c: Conn) {
    if c.closed == None then c.inflight != [] && !Survives(c.inflight[0])
    else Decode(c.up, c.closed.value) == Spins
  }

  /**
   The server waits for a client that cannot read the request, or reads a message that has no end, within
   a request or outside.
   */
  ghost predicate Hung(s: State) {
    || (s.talk.Waiting? && s.next < |s.conns|
        && (CutOff(s.conns[s.next]) || (s.conns[s.next].closed == None && !Survives(s.talk.request))))
    || (s.talk.Polling? && s.talk.client < |s.conns| && CutOff(s.conns[s.talk.client]))
  }

  /** A message is read once all of it is in the channel, if its lengths survive. */
  lemma ServerReads(c: Conn)
    requires ChannelOk(c) && c.inflight != [] && Survives(c.inflight[0]) && |Encode(c.inflight[0])| <= |c.up|
    ensures Front(c.up).Received?
  {
    assert WellFormed(c.inflight[0]);
    hide Encode, Decode, Survives, Sendable;
    var m := Encode(c.inflight[0]);
    var rest := c.up[|m|..];
    assert c.up + c.outbox == m + EncodeAll(c.inflight[1..]);
    assert c.up == m + rest by {
      assert (c.up + c.outbox)[..|m|] == m == c.up[..|m|];
    }
    RoundTrip(c.inflight[0], rest, Error);
  }

  /** A client that has written all it can can be read from, unless it is cut off. */
  lemma WritesOrReads(j: nat, c: Conn) returns (step: Option<Step>)
    requires ChannelOk(c) && c.closed == None && c.inflight != [] && !CutOff(c)
    ensures step == None ==> Front(c.up).Received?
    ensures step.Some? ==> step.value == WritePart(j, 1) && CanAct(c, step.value)
  {
    hide Encode, Decode, Survives;
    assert c.inflight[0] in c.inflight;
    if c.outbox != [] && |c.up| + 1 < GARBLED {
      return Some(WritePart(j, 1));
    }
    assert |EncodeAll(c.inflight)| >= |Encode(c.inflight[0])| && |c.up + c.outbox| == |c.up| + |c.outbox|;
    ServerReads(c);
    return None;
  }

  /** Outgoing bytes belong to messages in flight. */
  lemma NothingToWrite(c: Conn)
    requires ChannelOk(c) && c.inflight == []
    ensures c.up == [] && c.outbox == []
  {
    assert |c.up + c.outbox| == 0;
  }

  /** A client with nothing in flight, whose response the server waits for, can take a step of its own. */
  lemma ClientGoesOn(t: Talk, c: Conn, j: nat) returns (step: Step)
    requires ConnOk(t, c) && t.Waiting? && c.closed == None && c.inflight == [] && Survives(t.request)
    ensures Internal(step) && ByClient(step) && step.client == j && CanAct(c, step)
  {
    hide Encode, Decode, Survives, ConnOk;
    WaitsForClient(t, c);
    match c.phase
    case Emptying => return Empty(j);
    case Filtering(_) => return Reply(j, None);
    case Idle =>
      RoundTrip(t.request, [], Error);
      assert c.down == c.down + [] == Encode(t.request) + [];
      return Take(j);
  }

  /** What such a client has been sent, or is doing. */
  lemma WaitsForClient(t: Talk, c: Conn)
    requires ConnOk(t, c) && t.Waiting? && c.inflight == []
    ensures c.outbox == [] && WellFormed(t.request)
    ensures if c.phase.Filtering? then Client.CanReturn(c.phase.request, None) else c.down == Encode(t.request)
  {
    NothingToWrite(c);
    assert Responses(c.inflight) == [];
    hide Pick, Encode, Survives, ChannelOk, Conserved, AnswersOk, EchoesOk, TallyOk;
    assert c.down + [] == c.down;
  }

  /** A stream that ends is at its end, or in the middle of a payload, or still holds a message. */
  lemma EndsSomehow(c: Conn)
    requires ChannelOk(c) && c.closed.Some? && !CutOff(c) && !Ended(c)
    ensures Front(c.up).Received?
  {
    var e := c.closed.value;
    EndingIrrelevant(c.up, e, Error);
    if c.up != [] {
      assert c.inflight != [] by { NothingSent(c); }
      assert c.inflight[0] in c.inflight;
      assert c.up[0] == (c.up + c.outbox)[0] == c.inflight[0].command;
    }
  }

  lemma NothingSent(c: Conn)
    requires ChannelOk(c) && c.up != []
    ensures c.inflight != []
  {
  }

  lemma ReachableServer(s: State)
    requires Reachable(s)
    ensures ServerOk(s) && (s.talk.Asking? ==> s.talk.left != [])
  {
    hide ServerOk;
    ReachableInv(s);
    if s.talk.Asking? {
      assert s.next < |s.conns| by { TalkHasClient(s); }
      ReachableConn(s, s.next);
    }
  }

  lemma TalkHasClient(s: State)
    requires ServerOk(s) && s.talk != Quiet
    ensures s.next < |s.conns|
  {
  }

  /** A server that waits can go on, or the client it waits for can. */
  lemma WaitGoesOn(s: State) returns (step: Step)
    requires Reachable(s) && s.talk.Waiting? && s.next < |s.conns| && !Hung(s)
    ensures Internal(step) && Enabled(s, step)
  {
    var j, c := s.next, s.conns[s.next];
    ReachableConn(s, j);
    assert ChannelOk(c) && !CutOff(c) && (c.closed == None ==> Survives(s.talk.request));
    hide Encode, Decode, Survives, Pick, Reachable, CutOff, ConnOk, ChannelOk, CanAct, Enabled, Ended, Front;
    ReadIsEnabled(s);
    if c.closed.Some? {
      if Ended(c) {
        return ReadFails;
      }
      EndsSomehow(c);
      return Read;
    }
    if c.inflight == [] {
      step := ClientGoesOn(s.talk, c, j);
      ActIsEnabled(s, step);
      return;
    }
    var write := WritesOrReads(j, c);
    if write.Some? {
      ActIsEnabled(s, write.value);
      return write.value;
    }
    return Read;
  }

  lemma ReadIsEnabled(s: State)
    requires s.talk.Waiting? && s.next < |s.conns|
    ensures Enabled(s, Read) <==> Front(s.conns[s.next].up).Received?
    ensures Enabled(s, ReadFails) <==> Ended(s.conns[s.next])
  {
  }

  lemma ActIsEnabled(s: State, step: Step)
    requires ByClient(step) && step.client < |s.conns| && CanAct(s.conns[step.client], step)
    ensures Enabled(s, step)
  {
  }

  /** A server that has something to do can go on. */
  lemma ServerGoesOn(s: State) returns (step: Step)
    requires Reachable(s) && s.jobs != [] && !Hung(s)
    ensures Internal(step) && Enabled(s, step)
  {
    hide Encode, Decode, Survives, Pick, Reachable, Hung;
    ReachableServer(s);
    var j := s.next;
    match s.talk
    case Quiet => return if j == |s.conns| then Finish else if s.conns[j].listed then Ask else Skip;
    case Polling(_) => step := PollGoesOn(s);
    case Flushing(held, _) => return if held == [] then Next else Dispatch;
    case Asking(_, left) => return if s.conns[j].closed.Some? then SendFails else SendPart(|left|);
    case Waiting(_, _) => step := WaitGoesOn(s);
  }

  lemma ReceiveIsEnabled(s: State)
    requires s.talk.Polling? && s.talk.client < |s.conns|
    ensures Enabled(s, Receive) <==> Front(s.conns[s.talk.client].up).Received?
    ensures Enabled(s, Drop) <==> Ended(s.conns[s.talk.client])
  {
  }

  /** A server that reads a message can go on, or the client that writes it can. */
  lemma PollGoesOn(s: State) returns (step: Step)
    requires Reachable(s) && s.talk.Polling? && !Hung(s)
    ensures Internal(step) && Enabled(s, step)
  {
    ReachableServer(s);
    var j := s.talk.client;
    var c := s.conns[j];
    ReachableConn(s, j);
    assert ChannelOk(c) && !CutOff(c) && Readable(c);
    hide Encode, Decode, Survives, Pick, Reachable, CutOff, ConnOk, ChannelOk, CanAct, Enabled, Ended, Front, Hung;
    ReceiveIsEnabled(s);
    if c.closed.Some? {
      if Ended(c) {
        return Drop;
      }
      EndsSomehow(c);
      return Receive;
    }
    NothingSent(c);
    var write := WritesOrReads(j, c);
    if write.Some? {
      ActIsEnabled(s, write.value);
      return write.value;
    }
    return Receive;
  }

  /** A client that is not at rest goes on by itself, or the resting server reads from it. */
  lemma RestingGoesOn(s: State, j: nat) returns (step: Step)
    requires Reachable(s) && Resting(s) && j < |s.conns| && !AtRest(s, s.conns[j])
    ensures Internal(step) && Enabled(s, step)
  {
    var c := s.conns[j];
    ReachableConn(s, j);
    ReachableListed(s, j);
    assert c.listed && (c.closed == None ==> Settled(c));
    hide Encode, Decode, Survives, Pick, Reachable, ConnOk;
    if Readable(c) {
      return Poll(j);
    }
    step := if c.outbox != [] then WritePart(j, 1) else Empty(j);
    ActIsEnabled(s, step);
  }

  lemma ReachableListed(s: State, j: nat)
    requires Reachable(s) && j < |s.conns| && Resting(s) && !AtRest(s, s.conns[j])
    ensures s.conns[j].listed
  {
    ReachableKeys(s, j);
    hide Pick, Keys.Sources, Reachable;
  }

  /** Unless all is at rest, or the server hangs, some process can take a step. */
  lemma NeverStuck(s: State) returns (step: Step)
    requires Reachable(s) && !AllAtRest(s) && !Hung(s)
    ensures Internal(step) && Enabled(s, step)
  {
    hide Reachable, Hung, Enabled, AtRest;
    ReachableServer(s);
    if s.jobs != [] {
      step := ServerGoesOn(s);
    } else if s.talk.Polling? {
      step := PollGoesOn(s);
    } else {
      var j: nat :| j < |s.conns| && !AtRest(s, s.conns[j]);
      step := RestingGoesOn(s, j);
    }
  }

  // ----- and only finitely many

  /** The turns left: asking a client and leaving it count separately, and finishing a job counts too. */
  function Turns(s: State): int {
    2 * (|s.jobs| * (|s.conns| + 1) - s.next) - if s.talk.Quiet? || s.talk.Polling? then 0 else 1
  }

  /** The work an open request stands for until its response is on the way. */
  function RequestWork(t: Talk, c: Conn): nat {
    match t
    case Asking(request, left) => 42 + |Encode(request)| + |left|
    case Waiting(request, _) =>
      if c.phase.Filtering? then 40 + |Encode(request)|
      else if Responses(c.inflight) != [] then 1
      else 41 + |Encode(request)|
    case _ => 0
  }

  function QueueWork(queue: seq<Message>): nat {
    if queue == [] then 0 else |Encode(queue[0])| + 4 + QueueWork(queue[1..])
  }

  /** The steps that what a client, its channel and the server hold can still give rise to, at most. */
  function ConnWork(t: Talk, c: Conn): nat {
    RequestWork(t, c) + |Held(t)| + 2 * |c.inflight| + |c.outbox| + QueueWork(c.queue)
    + (if c.phase == Emptying then 1 else 0) + (if c.listed then 2 else 0)
  }

  function WorkFrom(s: State, j: nat): nat
    requires j <= |s.conns|
    decreases |s.conns| - j
  {
    if j == |s.conns| then 0 else ConnWork(TalkWith(s, j), s.conns[j]) + WorkFrom(s, j + 1)
  }

  /** All the work left; starting to read a message counts too. */
  function Work(s: State): nat {
    WorkFrom(s, 0) + if s.talk.Polling? then 0 else 1
  }

  /** Less work at one client, the same at the others. */
  lemma {:induction false} WorkShrinks(s: State, s1: State, j: nat, k: nat)
    requires |s1.conns| == |s.conns| && k <= |s.conns| && j < |s.conns|
    requires forall i :: 0 <= i < |s.conns| && i != j ==>
               s1.conns[i] == s.conns[i] && TalkWith(s1, i) == TalkWith(s, i)
    requires ConnWork(TalkWith(s1, j), s1.conns[j]) < ConnWork(TalkWith(s, j), s.conns[j])
    ensures if k <= j then WorkFrom(s1, k) < WorkFrom(s, k) else WorkFrom(s1, k) == WorkFrom(s, k)
    decreases |s.conns| - k
  {
    hide ConnWork, TalkWith;
    if k < |s.conns| {
      WorkShrinks(s, s1, j, k + 1);
    }
  }

  lemma {:induction false} QueueWorkConcat(a: seq<Message>, b: seq<Message>)
    ensures QueueWork(a + b) == QueueWork(a) + QueueWork(b)
  {
    hide Encode;
    if a == [] {
      assert a + b == b;
    } else {
      assert (a + b)[1..] == a[1..] + b;
      QueueWorkConcat(a[1..], b);
    }
  }

  /** The response is short, and the echo no longer than the request it comes from. */
  lemma ReplySizes(request: Message, verdict: Option<nat>)
    requires Client.CanReturn(request, verdict)
    ensures |Encode(Client.Response(request, verdict))| <= 14
    ensures QueueWork(Client.Echoes(request, verdict)) <= |Encode(request)| + 4
  {
    hide Word, EncodeArgs;
    ArgsLength(Client.Response(request, verdict).args);
    if Client.Echoes(request, verdict) != [] {
      ArgsLength(request.args);
      ArgsLength([request.args[2]]);
      assert Client.Echoes(request, verdict)[1..] == [] && QueueWork([]) == 0;
    }
  }

  lemma ClientWork(t: Talk, c: Conn, step: Step)
    requires ConnOk(t, c) && CanAct(c, step) && Internal(step)
    ensures ConnWork(t, Act(c, step)) < ConnWork(t, c)
  {
    hide Encode, Decode, EncodeAll, Pick, ConnOk;
    match step
    case WritePart(_, _) =>
    case Take(_) => TakeWork(t, c);
    case Reply(_, verdict) => ReplyWork(t, c, verdict);
    case Empty(_) => EmptyWork(t, c);
  }

  lemma EmptyWork(t: Talk, c: Conn)
    requires ConnOk(t, c) && c.outbox == [] && c.phase == Emptying
    ensures ConnWork(t, EmptyQueue(c)) < ConnWork(t, c)
  {
    hide Encode, EncodeAll, Pick, InTurn;
    if c.queue != [] {
      EmptyConserved(t, c);
    }
  }

  lemma TakeWork(t: Talk, c: Conn)
    requires ConnOk(t, c) && CanAct(c, Take(0))
    ensures ConnWork(t, TakeRequest(c)) < ConnWork(t, c)
  {
    TakeOk(t, c);
    assert !c.phase.Filtering? && Responses(c.inflight) == [];
    hide Pick, Encode, Decode, EncodeAll, ConnOk;
  }

  lemma ReplyWork(t: Talk, c: Conn, verdict: Option<nat>)
    requires ConnOk(t, c) && CanAct(c, Reply(0, verdict))
    ensures ConnWork(t, SendReply(c, verdict)) < ConnWork(t, c)
  {
    ReplyOk(t, c, verdict);
    assert c.phase.request == t.request;
    hide Encode, EncodeAll, ConnOk, Survives;
    var request := c.phase.request;
    ReplySizes(request, verdict);
    QueueWorkConcat(c.queue, Client.Echoes(request, verdict));
    PickAppend(ResponseOf, c.inflight, Client.Response(request, verdict));
  }

  /** One message less in flight. */
  lemma LessInFlight(t: Talk, c: Conn, rest: seq<byte>)
    requires t.Waiting? && c.inflight != []
    ensures c.inflight[0].command == RESPONSE ==>
              forall ok :: ConnWork(Flushing(t.held, ok), Taken(Consumed(c, rest), t.request, ok)) < ConnWork(t, c)
    ensures c.inflight[0].command != RESPONSE ==>
              ConnWork(Waiting(t.request, t.held + [c.inflight[0]]), Consumed(c, rest)) < ConnWork(t, c)
  {
    PickCons(ResponseOf, c.inflight[0], c.inflight[1..]);
    hide Encode, Pick;
    assert c.inflight == [c.inflight[0]] + c.inflight[1..];
  }

  lemma ReadWork(t: Talk, c: Conn)
    requires t.Waiting? && ConnOk(t, c) && Front(c.up).Received?
    ensures var m := Front(c.up).message;
            var c1 := Consumed(c, Front(c.up).rest);
            if m.command == RESPONSE then
              forall ok :: ConnWork(Flushing(t.held, ok), Taken(c1, t.request, ok)) < ConnWork(t, c)
            else ConnWork(Waiting(t.request, t.held + [m]), c1) < ConnWork(t, c)
  {
    ReadsFirst(c);
    hide ConnOk, Front, ConnWork, Consumed, Taken;
    LessInFlight(t, c, Front(c.up).rest);
  }

  lemma PollWork(c: Conn, rest: seq<byte>)
    requires ConnOk(Quiet, c) && c.inflight != []
    ensures ConnWork(Quiet, Consumed(c, rest)) + 2 <= ConnWork(Quiet, c)
  {
    hide Encode;
  }

  lemma SendPartWork(t: Talk, c: Conn, n: nat)
    requires t.Asking? && ConnOk(t, c) && 0 < n <= |t.left|
    ensures ConnWork(if n == |t.left| then Waiting(t.request, []) else Asking(t.request, t.left[n..]),
                     c.(down := c.down + t.left[..n])) < ConnWork(t, c)
  {
    hide Encode;
  }

  /** The measure: the turns left, then the work left. */
  ghost predicate Smaller(s1: State, s: State) {
    || 0 <= Turns(s1) < Turns(s)
    || (0 <= Turns(s1) == Turns(s) && Work(s1) < Work(s))
  }

  ghost predicate LessWork(s1: State, s: State) {
    Turns(s1) == Turns(s) && Work(s1) < Work(s)
  }

  lemma TurnsNonNegative(s: State)
    requires ServerOk(s)
    ensures Turns(s) >= 0
  {
    if s.jobs != [] {
      assert |s.jobs| * (|s.conns| + 1) >= |s.conns| + 1;
    }
  }

  lemma SendPartShrinks(s: State, n: nat)
    requires Inv(s) && Enabled(s, SendPart(n))
    ensures LessWork(Apply(s, SendPart(n)), s)
  {
    hide Encode, Decode, Pick, Survives, ConnOk, ConnWork;
    assert ConnsOk(s);
    SendPartWork(s.talk, s.conns[s.next], n);
    WorkShrinks(s, Apply(s, SendPart(n)), s.next, 0);
  }

  lemma ReadShrinks(s: State)
    requires Inv(s) && Enabled(s, Read)
    ensures LessWork(Apply(s, Read), s)
  {
    hide Encode, Decode, Pick, Survives, ConnOk, ConnWork;
    assert ConnsOk(s);
    ReadWork(s.talk, s.conns[s.next]);
    WorkShrinks(s, Apply(s, Read), s.next, 0);
  }

  /** Giving up a request. */
  lemma GiveUpShrinks(s: State, step: Step)
    requires ServerOk(s) && Enabled(s, step) && (step.SendFails? || step.ReadFails?)
    ensures LessWork(Apply(s, step), s)
  {
    hide Encode, Decode, Pick, Survives, Sendable;
    WorkShrinks(s, Apply(s, step), s.next, 0);
  }

  lemma DispatchWork(t: Talk, c: Conn)
    requires t.Flushing? && t.held != []
    ensures ConnWork(Flushing(t.held[1..], t.ok), c.(dispatched := c.dispatched + [t.held[0]])) < ConnWork(t, c)
    ensures ConnWork(Flushing(t.held[1..], t.ok), c) < ConnWork(t, c)
  {
  }

  lemma DispatchShrinks(s: State)
    requires Inv(s) && Enabled(s, Dispatch)
    ensures LessWork(Apply(s, Dispatch), s)
  {
    hide Encode, Decode, Pick, Survives, ConnWork, ConnOk;
    DispatchWork(s.talk, s.conns[s.next]);
    WorkShrinks(s, Apply(s, Dispatch), s.next, 0);
  }

  /** At least two less work at one client, the same at the others. */
  lemma {:induction false} WorkDrops(s: State, s1: State, j: nat, k: nat)
    requires |s1.conns| == |s.conns| && k <= |s.conns| && j < |s.conns|
    requires forall i :: 0 <= i < |s.conns| && i != j ==>
               s1.conns[i] == s.conns[i] && TalkWith(s1, i) == TalkWith(s, i)
    requires ConnWork(TalkWith(s1, j), s1.conns[j]) + 2 <= ConnWork(TalkWith(s, j), s.conns[j])
    ensures if k <= j then WorkFrom(s1, k) + 2 <= WorkFrom(s, k) else WorkFrom(s1, k) == WorkFrom(s, k)
    decreases |s.conns| - k
  {
    hide ConnWork, TalkWith;
    if k < |s.conns| {
      WorkDrops(s, s1, j, k + 1);
    }
  }

  lemma {:induction false} WorkSame(s: State, s1: State, k: nat)
    requires s1.conns == s.conns && k <= |s.conns|
    requires forall i :: 0 <= i < |s.conns| ==> TalkWith(s1, i) == TalkWith(s, i)
    ensures WorkFrom(s1, k) == WorkFrom(s, k)
    decreases |s.conns| - k
  {
    hide ConnWork, TalkWith;
    if k < |s.conns| {
      WorkSame(s, s1, k + 1);
    }
  }

  lemma PollShrinks(s: State, j: nat)
    requires ServerOk(s) && Enabled(s, Poll(j))
    ensures LessWork(Apply(s, Poll(j)), s)
  {
    hide Encode, Decode, Survives, Sendable;
    WorkSame(s, Apply(s, Poll(j)), 0);
  }

  lemma ReceiveShrinks(s: State)
    requires Inv(s) && Enabled(s, Receive)
    ensures LessWork(Apply(s, Receive), s)
  {
    ReceiveApplied(s);
    var j := s.talk.client;
    var c := s.conns[j];
    ReadsFirst(c);
    PollWork(c, Front(c.up).rest);
    hide Inv, Front, Apply, Enabled, ConnOk, FromClient;
    ReceivedWork(s, Apply(s, Receive), j);
  }

  lemma ReceivedWork(s: State, s1: State, j: nat)
    requires s.talk == Polling(j) && j < |s.conns| == |s1.conns| && s1.talk == Quiet
    requires s1.jobs == s.jobs && s1.next == s.next
    requires forall i :: 0 <= i < |s.conns| && i != j ==> s1.conns[i] == s.conns[i]
    requires ConnWork(Quiet, s1.conns[j]) + 2 <= ConnWork(Quiet, s.conns[j])
    ensures LessWork(s1, s)
  {
    hide ConnWork;
    assert forall i :: TalkWith(s1, i) == Quiet == TalkWith(s, i);
    WorkDrops(s, s1, j, 0);
  }

  lemma DropShrinks(s: State)
    requires ServerOk(s) && Enabled(s, Drop)
    ensures LessWork(Apply(s, Drop), s)
  {
    hide Encode, Decode, Survives, Sendable;
    ReceivedWork(s, Apply(s, Drop), s.talk.client);
  }

  lemma ActShrinks(s: State, s1: State, step: Step)
    requires ConnsOk(s) && ByClient(step) && Internal(step)
    requires step.client < |s.conns| && CanAct(s.conns[step.client], step)
    requires s1 == s.(conns := s.conns[step.client := Act(s.conns[step.client], step)])
    ensures LessWork(s1, s)
  {
    hide ConnOk, ConnWork, CanAct, Act;
    var j := step.client;
    ClientWork(TalkWith(s, j), s.conns[j], step);
    assert TalkWith(s1, j) == TalkWith(s, j);
    WorkShrinks(s, s1, j, 0);
  }

  lemma ClientShrinks(s: State, step: Step)
    requires Inv(s) && Enabled(s, step) && Internal(step) && ByClient(step)
    ensures LessWork(Apply(s, step), s)
  {
    ClientApplied(s, step);
    hide ConnsOk, CanAct, Act, Enabled, Apply, LessWork;
    ActShrinks(s, Apply(s, step), step);
  }

  lemma TurnShrinks(s: State, step: Step)
    requires ServerOk(s) && Enabled(s, step) && (step.Ask? || step.Skip? || step.Next? || step.Finish?)
    ensures Turns(Apply(s, step)) < Turns(s)
  {
    hide Encode, Decode, Survives, Sendable;
    if step.Finish? {
      assert |s.jobs| * (|s.conns| + 1) == (|s.jobs| - 1) * (|s.conns| + 1) + |s.conns| + 1;
    }
  }

  /** The server's own steps. */
  lemma ServerShrinks(s: State, step: Step)
    requires Inv(s) && Enabled(s, step) && Internal(step) && !ByClient(step)
    ensures LessWork(Apply(s, step), s) || Turns(Apply(s, step)) < Turns(s)
  {
    hide Apply, Enabled, Turns, LessWork, ConnsOk, EffectsOk, KeysOk, PassedOk, DirectOk, ServerOk;
    match step
    case SendPart(n) => SendPartShrinks(s, n);
    case Read => ReadShrinks(s);
    case Dispatch => DispatchShrinks(s);
    case Poll(j) => PollShrinks(s, j);
    case Receive => ReceiveShrinks(s);
    case Drop => DropShrinks(s);
    case SendFails => GiveUpShrinks(s, step);
    case ReadFails => GiveUpShrinks(s, step);
    case _ => TurnShrinks(s, step);
  }

  /** Every step of the protocol's own brings it closer to rest. */
  lemma StepShrinks(s: State, step: Step)
    requires Inv(s) && Enabled(s, step) && Internal(step)
    ensures Smaller(Apply(s, step), s)
  {
    hide Inv, Apply, Enabled, Turns, Work;
    StepInv(s, step);
    InvTurns(s);
    InvTurns(Apply(s, step));
    if ByClient(step) {
      ClientShrinks(s, step);
    } else {
      ServerShrinks(s, step);
    }
  }

  lemma InvTurns(s: State)
    requires Inv(s)
    ensures Turns(s) >= 0
  {
    TurnsNonNegative(s);
  }

  /** So in any endless sequence of states there is one that does not follow by a step of the protocol's own. */
  lemma {:induction false} EveryRunEnds(states: nat -> State, steps: nat -> Step, from: nat) returns (n: nat)
    requires Inv(states(from))
    ensures from <= n
    ensures !(Enabled(states(n), steps(n)) && Internal(steps(n)) && states(n + 1) == Apply(states(n), steps(n)))
    decreases Turns(states(from)), Work(states(from))
  {
    var s, step := states(from), steps(from);
    hide Inv, Enabled, Apply, Turns, Work, Internal;
    if Enabled(s, step) && Internal(step) && states(from + 1) == Apply(s, step) {
      StepShrinks(s, step);
      StepInv(s, step);
      n := EveryRunEnds(states, steps, from + 1);
    } else {
      n := from;
    }
  }
}
