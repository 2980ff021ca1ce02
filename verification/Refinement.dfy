/**
 The steps of the protocol, in any interleaving, do what the loops of the two programs do as a whole: what a
 client writes for a request, and what the server reads and dispatches.
 */
module Refinement {
  import opened Bytes
  import opened Codec
  import opened Client
  import opened Protocol
  import opened Delivery
  import opened Runs
  import opened Progress
  import opened Rest
  import opened Sockets
  import Server

  /** The bytes a client has in its channel, is writing, and has queued to write. */
  function Eventual(c: Conn): seq<byte> {
    c.up + c.outbox + EncodeAll(c.queue)
  }

  /** A filter's messages raised one after the other. */
  function RaiseAll(c: Conn, ms: seq<Message>): Conn
    decreases |ms|
  {
    if ms == [] then c else RaiseAll(RaiseMessage(c, ms[0]), ms[1..])
  }

  /** Inside the filter all of them are queued and none is written. */
  lemma {:induction false} FilterQueues(c: Conn, ms: seq<Message>)
    requires c.phase.Filtering?
    ensures var c1 := RaiseAll(c, ms);
            c1.phase == c.phase && c1.queue == c.queue + ms && c1.up == c.up && c1.outbox == c.outbox
    decreases |ms|
  {
    if ms == [] {
      assert c.queue + ms == c.queue;
    } else {
      FilterQueues(RaiseMessage(c, ms[0]), ms[1..]);
      assert ms == [ms[0]] + ms[1..];
      Assoc(c.queue, [ms[0]], ms[1..]);
    }
  }

  /**
   From taking a request with an empty queue: the filter's raises and then the reply leave the client
   with exactly the bytes the dispatch loop writes for that request, behind those already written.
   */
  lemma ReplyWritesAnswer(c: Conn, filter: Option<Filter>)
    requires c.phase.Filtering? && Handles(c.phase.request) && c.outbox == [] && c.queue == []
    ensures var request := c.phase.request;
            var c1 := RaiseAll(c, RaisedByFilter(filter, request));
            c1.phase == c.phase
            && Eventual(SendReply(c1, VerdictOf(filter, request))) == c.up + EncodeAll(Answered(filter, request))
  {
    var request := c.phase.request;
    var ms, verdict := RaisedByFilter(filter, request), VerdictOf(filter, request);
    FilterQueues(c, ms);
    var response, raised := Response(request, verdict), RaisedBy(filter, request);
    hide Encode, Word;
    assert [] + ms == ms;
    EncodeAllConcat([response], raised);
    EncodeAllSingle(response);
    Assoc(c.up, Encode(response), EncodeAll(raised));
  }

  /** Writing a part of a message and turning to the next one do not change what will have been written. */
  lemma EventualKept(c: Conn, step: Step)
    requires CanAct(c, step) && (step.WritePart? || step.Empty?)
    ensures Eventual(Act(c, step)) == Eventual(c)
  {
    hide Encode;
    if step.WritePart? {
      assert c.outbox == c.outbox[..step.count] + c.outbox[step.count..];
      Assoc(c.up, c.outbox[..step.count], c.outbox[step.count..]);
    } else if c.queue != [] {
      assert c.up + [] == c.up;
      Assoc(c.up, Encode(c.queue[0]), EncodeAll(c.queue[1..]));
    }
  }

  // ----- the server: a wait, and the flush after it, in any interleaving

  /** Steps before each of which the server waits. */
  ghost predicate Waits(s: State, steps: seq<Step>)
    decreases |steps|
  {
    steps == [] || (s.talk.Waiting? && Enabled(s, steps[0]) && Waits(Apply(s, steps[0]), steps[1..]))
  }

  /** Steps before each of which the server flushes. */
  ghost predicate Flushes(s: State, steps: seq<Step>)
    decreases |steps|
  {
    steps == [] || (s.talk.Flushing? && Enabled(s, steps[0]) && Flushes(Apply(s, steps[0]), steps[1..]))
  }

  /** The bytes a step brings into the channel of client j. */
  function Brought(s: State, step: Step, j: nat): seq<byte>
    requires Enabled(s, step) && j < |s.conns|
  {
    if step.WritePart? && step.client == j then s.conns[j].outbox[..step.count] else []
  }

  /** The bytes that arrive in the channel of client j during a wait. */
  ghost function Arrived(s: State, steps: seq<Step>, j: nat): seq<byte>
    requires Waits(s, steps) && j < |s.conns|
    decreases |steps|
  {
    if steps == [] then []
    else
      SameClients(s, steps[0]);
      Brought(s, steps[0], j) + Arrived(Apply(s, steps[0]), steps[1..], j)
  }

  lemma SameClients(s: State, step: Step)
    requires s.talk != Quiet && Enabled(s, step)
    ensures |Apply(s, step).conns| == |s.conns|
  {
    hide Encode, Decode, FromClient, Survives;
  }

  /** What one step of a wait does to the client waited for. */
  lemma WaitStep(s: State, step: Step)
    requires s.talk.Waiting? && s.next < |s.conns| && Enabled(s, step)
    ensures var s1, c := Apply(s, step), s.conns[s.next];
            && s1.next == s.next && |s1.conns| == |s.conns| && s1.handled == s.handled && s1.effects == s.effects
            && (forall k :: 0 <= k < |s.conns| ==> s1.conns[k].dispatched == s.conns[k].dispatched)
            && if step.Read? then
                 && Front(c.up).Received? && s1.conns[s.next].up == Front(c.up).rest
                 && var m := Front(c.up).message;
                    if m.command == RESPONSE then
                      s1.talk == Flushing(s.talk.held, m.args[0] == [s.talk.request.command])
                    else s1.talk == Waiting(s.talk.request, s.talk.held + [m])
               else if step.ReadFails? then
                 s1 == s.(talk := Flushing(s.talk.held, false)) && Ended(c)
               else
                 s1.talk == s.talk && s1.conns[s.next].up == c.up + Brought(s, step, s.next)
  {
    hide Encode, Decode;
    if ByClient(step) {
      ClientApplied(s, step);
      ActUp(s.conns[step.client], step);
      hide Enabled, Apply, Act, CanAct;
      assert s.conns[s.next].up + [] == s.conns[s.next].up;
    } else {
      OnlyReads(s, step);
      assert s.conns[s.next].up + [] == s.conns[s.next].up;
    }
  }

  lemma ActUp(c: Conn, step: Step)
    requires CanAct(c, step)
    ensures Act(c, step).up == c.up + (if step.WritePart? then c.outbox[..step.count] else [])
    ensures Act(c, step).dispatched == c.dispatched
  {
    hide Encode, Decode;
    assert c.up + [] == c.up;
  }

  /** Reading one message, and gathering from what is left, is gathering. */
  lemma GatherRead(held: seq<Message>, up: seq<byte>, later: seq<byte>, e: Ending)
    requires Front(up).Received?
    ensures var m, rest := Front(up).message, Front(up).rest;
            if m.command == RESPONSE then Server.Gather(up + later, e) == ([], Received(m, rest + later))
            else && held + Server.Gather(up + later, e).0 == held + [m] + Server.Gather(rest + later, e).0
                 && Server.Gather(up + later, e).1 == Server.Gather(rest + later, e).1
  {
    hide Decode;
    DecodeStable(up, later, Error, e);
    Server.GatherRound(held, up + later, e);
  }

  /** The state in which a wait has ended, from what the wait as a whole gathers. */
  ghost predicate EndsAs(s: State, held: seq<Message>, request: Message, j: nat, gathered: (seq<Message>, Outcome)) {
    && s.talk.Flushing? && j == s.next < |s.conns| && s.talk.held == held + gathered.0
    && match gathered.1
       case Received(m, rest) =>
         m.args != [] && s.talk.ok == (m.args[0] == [request.command]) && s.conns[j].up == rest
       case Failed => !s.talk.ok
       case _ => false
  }

  /**
   However the steps of the processes are interleaved, a wait of the server ends as the wait of
   _fep_transceive_control_message does on the bytes that arrived: with the same messages held, the
   same response or failure, and the same bytes left unread.
   */
  lemma {:induction false} WaitIsGather(s: State, steps: seq<Step>, e: Ending)
    requires s.talk.Waiting? && s.next < |s.conns| && Waits(s, steps) && Run(s, steps)
    requires After(s, steps).talk.Flushing?
    requires s.next < |After(s, steps).conns| && e == After(s, steps).conns[s.next].closed.GetOr(e)
    ensures EndsAs(After(s, steps), s.talk.held, s.talk.request, s.next,
                   Server.Gather(s.conns[s.next].up + Arrived(s, steps, s.next), e))
    decreases |steps|
  {
    hide Enabled, Apply, Server.Gather, Decode, Brought;
    var step, rest, j := steps[0], steps[1..], s.next;
    var s1, up, held := Apply(s, step), s.conns[j].up, s.talk.held;
    WaitStep(s, step);
    SameClients(s, step);
    if s1.talk.Flushing? {
      assert rest == [] by { NoWait(s1, rest); }
      LastStep(s, step, e);
    } else {
      WaitIsGather(s1, rest, e);
      var later := Arrived(s1, rest, j);
      if step.Read? {
        assert Brought(s, step, j) == [] by { NothingBrought(s, step, j); }
        assert [] + later == later;
        GatherRead(held, up, later, e);
      } else {
        Assoc(up, Brought(s, step, j), later);
      }
    }
  }

  lemma NoWait(s: State, steps: seq<Step>)
    requires s.talk.Flushing? && Waits(s, steps)
    ensures steps == []
  {
  }

  lemma NothingBrought(s: State, step: Step, j: nat)
    requires Enabled(s, step) && j < |s.conns| && !step.WritePart?
    ensures Brought(s, step, j) == []
  {
  }

  /** The step with which a wait ends. */
  lemma LastStep(s: State, step: Step, e: Ending)
    requires s.talk.Waiting? && s.next < |s.conns| && Waits(s, [step])
    requires var s1 := Apply(s, step);
             s1.talk.Flushing? && s.next < |s1.conns| && e == s1.conns[s.next].closed.GetOr(e)
    ensures EndsAs(Apply(s, step), s.talk.held, s.talk.request, s.next,
                   Server.Gather(s.conns[s.next].up + Arrived(s, [step], s.next), e))
  {
    hide Enabled, Apply, Server.Gather, Decode;
    var up, held := s.conns[s.next].up, s.talk.held;
    WaitStep(s, step);
    assert Arrived(s, [step], s.next) == [] by { NothingBrought(s, step, s.next); }
    assert up + [] == up && held + [] == held;
    if step.Read? {
      GatherRead(held, up, [], e);
      assert Front(up).rest + [] == Front(up).rest;
    } else {
      Server.GatherRound(held, up, e);
    }
  }

  function FromAll(j: nat, ms: seq<Message>): seq<Effect> {
    seq(|ms|, i requires 0 <= i < |ms| => From(j, ms[i]))
  }

  /** What one step of a flush does. */
  lemma FlushStep(s: State, step: Step)
    requires Inv(s) && s.talk.Flushing? && s.next < |s.conns| && Enabled(s, step)
    ensures var s1, j, held := Apply(s, step), s.next, s.talk.held;
            && |s1.conns| == |s.conns|
            && if step.Dispatch? then
                 && held != [] && s1.talk == Flushing(held[1..], s.talk.ok) && s1.next == j && s1.handled == s.handled
                 && s1.effects == s.effects + [From(j, held[0])]
                 && s1.conns[j].dispatched == s.conns[j].dispatched + [held[0]]
               else
                 && s1.effects == s.effects && s1.conns[j].dispatched == s.conns[j].dispatched
                 && if step.Next? then
                      held == [] && s1.talk == Quiet && s1.next == j + 1 && s1.handled == (s.handled || s.talk.ok)
                    else s1.talk == s.talk && s1.next == j && s1.handled == s.handled
  {
    if ByClient(step) {
      ClientApplied(s, step);
      ActUp(s.conns[step.client], step);
    } else {
      OnlyFlushes(s, step);
      FlushApplied(s, step);
    }
    hide Inv, Enabled, Apply, Act, CanAct, FromClient;
  }

  lemma DispatchApplied(s: State)
    requires Enabled(s, Dispatch) && FromClient(s.talk.held[0])
    ensures var m, c := s.talk.held[0], s.conns[s.next];
            Apply(s, Dispatch) == s.(talk := Flushing(s.talk.held[1..], s.talk.ok),
                                     conns := s.conns[s.next := c.(dispatched := c.dispatched + [m])],
                                     effects := s.effects + [From(s.next, m)])
  {
    hide Encode, Decode, FromClient, Survives;
  }

  lemma FlushApplied(s: State, step: Step)
    requires Inv(s) && s.talk.Flushing? && s.next < |s.conns| && Enabled(s, step)
    ensures step.Next? ==> Apply(s, step) == s.(talk := Quiet, next := s.next + 1, handled := s.handled || s.talk.ok)
    ensures step.Close? ==>
              && step.client < |s.conns|
              && var c := s.conns[step.client].(closed := Some(step.ending));
                 Apply(s, step) == s.(conns := s.conns[step.client := c])
    ensures step.Dispatch? ==>
              && s.talk.held != []
              && var m, c := s.talk.held[0], s.conns[s.next];
                 Apply(s, step) == s.(talk := Flushing(s.talk.held[1..], s.talk.ok),
                                      conns := s.conns[s.next := c.(dispatched := c.dispatched + [m])],
                                      effects := s.effects + [From(s.next, m)])
  {
    hide Inv, FromClient, Decode;
    if step.Dispatch? {
      HeldFromClient(s);
      DispatchApplied(s);
    }
  }

  lemma HeldFromClient(s: State)
    requires Inv(s) && s.talk.Flushing? && s.next < |s.conns|
    ensures forall i :: 0 <= i < |s.talk.held| ==> FromClient(s.talk.held[i])
  {
    hide ServerOk, EffectsOk, KeysOk, PassedOk, DirectOk, Encode, Pick, FromClient;
    assert ConnsOk(s) && ConnOk(s.talk, s.conns[s.next]);
  }

  /** While the server flushes it dispatches what it holds, and then goes on to the next client. */
  lemma OnlyFlushes(s: State, step: Step)
    requires s.talk.Flushing? && Enabled(s, step) && !ByClient(step)
    ensures step.Close? || (if s.talk.held == [] then step.Next? else step.Dispatch?)
  {
    hide Encode, Decode, Survives;
  }

  /**
   And the steps of the flush dispatch exactly the messages held, each once and in order; then the
   server turns to the next client, and counts the request as handled if the response was accepted.
   */
  lemma {:induction false} FlushDispatches(s: State, steps: seq<Step>)
    requires Inv(s) && s.talk.Flushing? && s.next < |s.conns| && Flushes(s, steps) && Run(s, steps)
    requires After(s, steps).talk == Quiet
    ensures var s1, j := After(s, steps), s.next;
            && |s1.conns| == |s.conns| && s1.next == j + 1 && s1.handled == (s.handled || s.talk.ok)
            && s1.conns[j].dispatched == s.conns[j].dispatched + s.talk.held
            && s1.effects == s.effects + FromAll(j, s.talk.held)
    decreases |steps|
  {
    hide Inv, Enabled, Apply;
    var step, rest, j, held := steps[0], steps[1..], s.next, s.talk.held;
    var s1 := Apply(s, step);
    FlushStep(s, step);
    StepInv(s, step);
    if step.Next? {
      assert rest == [] by { NoFlush(s1, rest); }
      assert s.effects + FromAll(j, []) == s.effects && s.conns[j].dispatched + [] == s.conns[j].dispatched;
    } else {
      FlushDispatches(s1, rest);
      if step.Dispatch? {
        assert held == [held[0]] + held[1..];
        assert FromAll(j, held) == [From(j, held[0])] + FromAll(j, held[1..]);
        Assoc(s.effects, [From(j, held[0])], FromAll(j, held[1..]));
        Assoc(s.conns[j].dispatched, [held[0]], held[1..]);
      }
    }
  }

  lemma NoFlush(s: State, steps: seq<Step>)
    requires s.talk == Quiet && Flushes(s, steps)
    ensures steps == []
  {
  }

  lemma {:induction false} WaitKeeps(s: State, steps: seq<Step>)
    requires Waits(s, steps) && Run(s, steps) && s.next < |s.conns|
    ensures var s1 := After(s, steps);
            && s1.next == s.next && |s1.conns| == |s.conns| && s1.handled == s.handled && s1.effects == s.effects
            && s1.conns[s.next].dispatched == s.conns[s.next].dispatched
    decreases |steps|
  {
    hide Enabled, Apply;
    if steps != [] {
      WaitStep(s, steps[0]);
      WaitKeeps(Apply(s, steps[0]), steps[1..]);
    }
  }

  /**
   So from the moment the server waits to the moment it turns to the next client, the messages that are
   not the response are dispatched, each once and in order, and the request counts as handled exactly when
   a response naming it came.
   */
  lemma WaitAndFlush(s: State, wait: seq<Step>, flush: seq<Step>, e: Ending)
    requires Reachable(s) && s.talk.Waiting? && s.talk.held == [] && s.next < |s.conns|
    requires Waits(s, wait) && Run(s, wait) && After(s, wait).talk.Flushing?
    requires s.next < |After(s, wait).conns| && e == After(s, wait).conns[s.next].closed.GetOr(e)
    requires Flushes(After(s, wait), flush) && Run(After(s, wait), flush) && After(After(s, wait), flush).talk == Quiet
    ensures var s1, j := After(After(s, wait), flush), s.next;
            var (held, last) := Server.Gather(s.conns[j].up + Arrived(s, wait, j), e);
            && |s1.conns| == |s.conns| && s1.next == j + 1 && (last == Failed || last.Received?)
            && s1.conns[j].dispatched == s.conns[j].dispatched + held
            && s1.effects == s.effects + FromAll(j, held)
            && s1.handled == (s.handled || (last.Received? && last.message.args[0] == [s.talk.request.command]))
  {
    hide Waits, Flushes, Run, After, Server.Gather, Arrived, Inv, Reachable;
    ReachableInv(s);
    RunInv(s, wait);
    WaitIsGather(s, wait, e);
    WaitKeeps(s, wait);
    FlushDispatches(After(s, wait), flush);
    var held := Server.Gather(s.conns[s.next].up + Arrived(s, wait, s.next), e).0;
    assert [] + held == held;
  }

  // ----- writing the request

  /** Steps before each of which the server is writing a request. */
  ghost predicate Asks(s: State, steps: seq<Step>)
    decreases |steps|
  {
    steps == [] || (s.talk.Asking? && Enabled(s, steps[0]) && Asks(Apply(s, steps[0]), steps[1..]))
  }

  /** Nothing but the request being written, and what clients do, happens to the server and client j. */
  ghost predicate Unmoved(s: State, s1: State, j: nat) {
    && |s1.conns| == |s.conns| && s1.next == s.next && s1.jobs == s.jobs && s1.handled == s.handled
    && s1.effects == s.effects && j < |s.conns| && s1.conns[j].dispatched == s.conns[j].dispatched
  }

  /** Part of the request is written, the client has gone, or a client acts. */
  ghost predicate AskedOn(s: State, s1: State, j: nat)
    requires s.talk.Asking?
  {
    && Unmoved(s, s1, j)
    && match s1.talk
       case Asking(request, left) =>
         request == s.talk.request && s1.conns[j].down + left == s.conns[j].down + s.talk.left
       case Waiting(request, held) =>
         request == s.talk.request && held == [] && s1.conns[j].down == s.conns[j].down + s.talk.left
       case Flushing(held, ok) => held == [] && !ok && s1.conns[j].closed.Some?
       case _ => false
  }

  lemma OnlyAsks(s: State, step: Step)
    requires s.talk.Asking? && Enabled(s, step) && !ByClient(step)
    ensures step.SendPart? || step.SendFails? || step.Close?
  {
    hide Encode, Decode, Survives;
  }

  lemma ServerAsks(s: State, step: Step)
    requires s.talk.Asking? && s.next < |s.conns| && Enabled(s, step)
    requires step.SendPart? || step.SendFails? || step.Close?
    ensures AskedOn(s, Apply(s, step), s.next)
  {
    hide Encode, Decode, Survives;
    if step.SendPart? {
      var down, left, n := s.conns[s.next].down, s.talk.left, step.count;
      assert left[..n] + left[n..] == left;
      Assoc(down, left[..n], left[n..]);
    }
  }

  lemma AskedFrame(s: State, c: Conn, j: nat, k: nat)
    requires s.talk.Asking? && j < |s.conns| && k < |s.conns|
    requires k == j ==> c.down == s.conns[j].down && c.dispatched == s.conns[j].dispatched
    ensures AskedOn(s, s.(conns := s.conns[k := c]), j)
  {
    var s1 := s.(conns := s.conns[k := c]);
    assert s1.conns[j].down == s.conns[j].down && s1.conns[j].dispatched == s.conns[j].dispatched;
  }

  lemma ClientActs(s: State, step: Step)
    requires ConnsOk(s) && s.talk.Asking? && s.next < |s.conns| && ByClient(step)
    requires step.client < |s.conns| && CanAct(s.conns[step.client], step)
    ensures AskedOn(s, s.(conns := s.conns[step.client := Act(s.conns[step.client], step)]), s.next)
  {
    assert ConnOk(TalkWith(s, s.next), s.conns[s.next]) && TalkWith(s, s.next) == s.talk;
    hide ConnOk, ConnsOk, CanAct, Act, AskedOn;
    if step.client == s.next {
      ActDown(s.talk, s.conns[s.next], step);
    }
    AskedFrame(s, Act(s.conns[step.client], step), s.next, step.client);
  }

  lemma AskStep(s: State, step: Step)
    requires Inv(s) && s.talk.Asking? && s.next < |s.conns| && Enabled(s, step)
    ensures AskedOn(s, Apply(s, step), s.next)
  {
    hide ServerOk, ConnsOk, EffectsOk, KeysOk, PassedOk, DirectOk, Enabled, Apply, AskedOn, Act, CanAct;
    if ByClient(step) {
      ClientApplied(s, step);
      ClientActs(s, step);
    } else {
      OnlyAsks(s, step);
      ServerAsks(s, step);
    }
  }

  /** While the request is being written its reader finds nothing whole. */
  lemma ActDown(t: Talk, c: Conn, step: Step)
    requires t.Asking? && ConnOk(t, c) && CanAct(c, step) && ByClient(step)
    ensures Act(c, step).down == c.down && Act(c, step).dispatched == c.dispatched
  {
    hide ConnOk, Decode;
    ActUp(c, step);
    if step.Take? {
      TakeOk(t, c);
    } else {
      OnlyTakeReads(c, step);
    }
  }

  lemma OnlyTakeReads(c: Conn, step: Step)
    requires CanAct(c, step) && !step.Take?
    ensures Act(c, step).down == c.down
  {
    hide Encode, Decode;
  }

  lemma {:induction false} AskIsWrite(s: State, steps: seq<Step>)
    requires Inv(s) && s.talk.Asking? && s.next < |s.conns| && Asks(s, steps) && Run(s, steps)
    ensures AskedOn(s, After(s, steps), s.next)
    decreases |steps|
  {
    hide Inv, Enabled, Apply;
    if steps != [] {
      AskStep(s, steps[0]);
      StepInv(s, steps[0]);
      if Apply(s, steps[0]).talk.Asking? {
        AskIsWrite(Apply(s, steps[0]), steps[1..]);
      } else {
        assert steps[1..] == [] by { NoAsk(Apply(s, steps[0]), steps[1..]); }
      }
    }
  }

  lemma NoAsk(s: State, steps: seq<Step>)
    requires !s.talk.Asking? && Asks(s, steps)
    ensures steps == []
  {
  }

  /** Writing the request: it ends with all of it in the channel, or the client gone and nothing else done. */
  lemma Asked(s: State, ask: seq<Step>)
    requires Reachable(s) && Enabled(s, Ask) && Asks(Apply(s, Ask), ask) && Run(Apply(s, Ask), ask)
    requires !After(Apply(s, Ask), ask).talk.Asking?
    ensures var s1, j := After(Apply(s, Ask), ask), s.next;
            && Unmoved(s, s1, j) && Reachable(s1)
            && if s1.talk.Waiting? then
                 s1.talk == Waiting(RequestOf(s.jobs[0]), []) && s1.conns[j].down == Encode(RequestOf(s.jobs[0]))
               else s1.talk == Flushing([], false) && s1.conns[j].closed.Some?
  {
    hide Inv, Enabled, Apply, Encode, RequestOf, Reachable, Asks, Run, After;
    var s0, j := Apply(s, Ask), s.next;
    ReachableInv(s);
    AskBegins(s);
    ReachableStep(s, Ask);
    ReachableInv(s0);
    ReachableRun(s0, ask);
    if s0.talk.Asking? {
      AskIsWrite(s0, ask);
      assert [] + s0.talk.left == s0.talk.left;
    } else {
      assert ask == [] by { NoAsk(s0, ask); }
      assert After(s0, []) == s0 by { AfterNothing(s0); }
    }
  }

  lemma AfterNothing(s: State)
    ensures After(s, []) == s
  {
  }

  lemma NothingAsked(s: State)
    requires Inv(s) && Enabled(s, Ask)
    ensures s.conns[s.next].closed == None ==> s.conns[s.next].down == []
  {
    hide EffectsOk, KeysOk, PassedOk, DirectOk, Encode, Decode, Pick;
    assert ConnsOk(s) && ConnOk(TalkWith(s, s.next), s.conns[s.next]);
  }

  lemma AskBegins(s: State)
    requires Inv(s) && Enabled(s, Ask)
    ensures var s0, j, request := Apply(s, Ask), s.next, RequestOf(s.jobs[0]);
            && Unmoved(s, s0, j)
            && if s.conns[j].closed == None then
                 s0.talk == Asking(request, Encode(request)) && s0.conns[j].down == []
               else s0.talk == Flushing([], false) && s0.conns[j].closed.Some?
  {
    NothingAsked(s);
    hide Inv, Encode;
  }

  /**
   A request that cannot be written, because the client has gone or goes meanwhile, has no effect, as
   Server.Fep.Transceive promises for a failed write, and does not count as handled.
   */
  lemma RequestFails(s: State, ask: seq<Step>, flush: seq<Step>)
    requires Reachable(s) && Enabled(s, Ask) && Asks(Apply(s, Ask), ask) && Run(Apply(s, Ask), ask)
    requires After(Apply(s, Ask), ask).talk.Flushing?
    requires var s1 := After(Apply(s, Ask), ask); Flushes(s1, flush) && Run(s1, flush) && After(s1, flush).talk == Quiet
    ensures var s2, j := After(After(Apply(s, Ask), ask), flush), s.next;
            && |s2.conns| == |s.conns| && s2.next == j + 1 && s2.handled == s.handled
            && s2.effects == s.effects && s2.conns[j].dispatched == s.conns[j].dispatched
  {
    hide Asks, Flushes, Run, After, Inv, Reachable, Enabled, Apply;
    Asked(s, ask);
    var s1 := After(Apply(s, Ask), ask);
    ReachableInv(s1);
    FlushDispatches(s1, flush);
    assert s.effects + FromAll(s.next, []) == s.effects;
    assert s.conns[s.next].dispatched + [] == s.conns[s.next].dispatched;
  }

  /**
   From the moment the server comes to a client to the moment it turns to the next one, in any interleaving,
   the processes do what Server.Fep.Transceive promises for a request that is written: all of it is, and on the
   bytes that arrive from the client the messages that are not the response are dispatched, each once and
   in order, and the request counts as handled exactly when a response naming it came.
   */
  lemma RequestAsTransceive(s: State, ask: seq<Step>, wait: seq<Step>, flush: seq<Step>, e: Ending)
    requires Reachable(s) && Enabled(s, Ask) && Asks(Apply(s, Ask), ask) && Run(Apply(s, Ask), ask)
    requires After(Apply(s, Ask), ask).talk.Waiting?
    requires var s1 := After(Apply(s, Ask), ask); Waits(s1, wait) && Run(s1, wait) && After(s1, wait).talk.Flushing?
    requires var s2 := After(After(Apply(s, Ask), ask), wait);
             && Flushes(s2, flush) && Run(s2, flush) && After(s2, flush).talk == Quiet
             && s.next < |s2.conns| && e == s2.conns[s.next].closed.GetOr(e)
    requires s.next < |After(Apply(s, Ask), ask).conns|
    ensures var s1, j, request := After(Apply(s, Ask), ask), s.next, RequestOf(s.jobs[0]);
            var s3 := After(After(s1, wait), flush);
            var (held, last) := Server.Gather(s1.conns[j].up + Arrived(s1, wait, j), e);
            && s1.conns[j].down == Encode(request)
            && |s3.conns| == |s.conns| && s3.next == j + 1 && (last == Failed || last.Received?)
            && s3.conns[j].dispatched == s.conns[j].dispatched + held
            && s3.effects == s.effects + FromAll(j, held)
            && s3.handled == (s.handled || (last.Received? && last.message.args[0] == [request.command]))
  {
    hide Asks, Waits, Flushes, Run, After, Inv, Reachable, Enabled, Apply, Server.Gather, Arrived, RequestOf, Encode;
    Asked(s, ask);
    WaitAndFlush(After(Apply(s, Ask), ask), wait, flush, e);
  }
}
