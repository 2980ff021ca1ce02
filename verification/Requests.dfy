/** What each client is told: the keys typed and the window changes since it joined, in the order they happened. */
module Requests {
  import opened Bytes
  import opened Codec
  import opened Protocol
  import opened Delivery
  import opened Runs
  import Keys

  /** What the clients are to be told of a step. */
  function EventsIn(step: Step): seq<Job> {
    match step
    case Type(buffer, caps) =>
      (match Keys.Cut(buffer, caps)
       case Some(keys) => seq(|keys|, i requires 0 <= i < |keys| => Key(keys[i]))
       case None => [])
    case WindowChange(cols, rows) => [Resize(cols, rows)]
    case _ => []
  }

  function Events(steps: seq<Step>): seq<Job> {
    if steps == [] then [] else EventsIn(steps[0]) + Events(steps[1..])
  }

  /** The events of the steps behind the one in which client j, counted from 0, joined. */
  function Since(steps: seq<Step>, j: nat): seq<Job> {
    if steps == [] then []
    else if !steps[0].Accept? then Since(steps[1..], j)
    else if j == 0 then Events(steps[1..])
    else Since(steps[1..], j - 1)
  }

  /** The request that tells a client of an event. */
  ghost predicate Tells(m: Message, event: Job) {
    match event
    case Key(k) => m.command == KEY_EVENT && m.args == [Word(k.keyval), Word(k.modifiers), k.source]
    case Resize(cols, rows) => m.command == RESIZE_EVENT && m.args == [Word(cols), Word(rows)]
  }

  /** The number of jobs the server has not come to with client j. */
  function Left(s: State, j: nat): nat {
    if s.jobs != [] && (j < s.next || (j == s.next && s.talk != Quiet)) then |s.jobs| - 1 else |s.jobs|
  }

  // ----- what every step keeps

  /** Of the events since client j joined, the last are still the server's jobs, and the first were told it. */
  ghost predicate Told(s: State, j: nat, e: seq<Job>)
    requires j < |s.conns|
  {
    var c := s.conns[j];
    && |s.jobs| <= |e| && s.jobs == e[|e| - |s.jobs|..]
    && |c.asked| <= |e| && (forall i :: 0 <= i < |c.asked| ==> c.asked[i] == RequestOf(e[i]))
    && (c.closed == None ==> |c.asked| + Left(s, j) == |e|)
  }

  /** The events since each client joined. */
  ghost predicate AllTold(s: State, es: seq<seq<Job>>) {
    |es| == |s.conns| && forall j :: 0 <= j < |es| ==> Told(s, j, es[j])
  }

  function Grown(es: seq<seq<Job>>, step: Step): seq<seq<Job>> {
    if step.Accept? then es + [[]] else seq(|es|, j requires 0 <= j < |es| => es[j] + EventsIn(step))
  }

  lemma NothingHappens(es: seq<seq<Job>>, step: Step)
    requires !step.Accept? && EventsIn(step) == []
    ensures Grown(es, step) == es
  {
    assert forall j :: 0 <= j < |es| ==> es[j] + EventsIn(step) == es[j];
  }

  /** The requests made of the client stay the same, and it does not come back. */
  predicate SameAsked(c: Conn, c1: Conn) {
    c1.asked == c.asked && (c1.closed == None ==> c.closed == None)
  }

  /** A step that asks nobody and comes no further. */
  lemma StaysTold(s: State, s1: State, es: seq<seq<Job>>)
    requires AllTold(s, es) && |s1.conns| == |s.conns| && s1.jobs == s.jobs
    requires forall j :: 0 <= j < |s.conns| ==> SameAsked(s.conns[j], s1.conns[j])
    requires s.jobs != [] ==> s1.next == s.next && (s1.talk == Quiet <==> s.talk == Quiet)
    ensures AllTold(s1, es)
  {
    forall j | 0 <= j < |es| ensures Told(s1, j, es[j]) {
      assert Told(s, j, es[j]) && SameAsked(s.conns[j], s1.conns[j]);
    }
  }

  lemma ClientTold(s: State, step: Step, es: seq<seq<Job>>)
    requires AllTold(s, es) && Enabled(s, step) && (ByClient(step) || step.Close?)
    ensures AllTold(Apply(s, step), es)
  {
    hide AllTold, Encode, Decode;
    if ByClient(step) {
      ClientApplied(s, step);
      hide Enabled, Apply;
      assert SameAsked(s.conns[step.client], Act(s.conns[step.client], step));
    }
    StaysTold(s, Apply(s, step), es);
  }

  /** New events, for a server that has no jobs. */
  lemma EventsTold(s: State, s1: State, es: seq<seq<Job>>, events: seq<Job>)
    requires AllTold(s, es) && s.jobs == [] && s1.jobs == events && s1.conns == s.conns
    requires s1.next == 0 && s1.talk == Quiet
    ensures AllTold(s1, seq(|es|, j requires 0 <= j < |es| => es[j] + events))
  {
    forall j | 0 <= j < |es| ensures Told(s1, j, es[j] + events) {
      assert Told(s, j, es[j]);
    }
  }

  lemma AcceptTold(s: State, s1: State, es: seq<seq<Job>>, c: Conn)
    requires AllTold(s, es) && s.jobs == [] && s1 == s.(conns := s.conns + [c]) && c.asked == []
    ensures AllTold(s1, es + [[]])
  {
    forall j | 0 <= j < |s1.conns| ensures Told(s1, j, (es + [[]])[j]) {
      assert j < |es| ==> Told(s, j, es[j]);
    }
  }

  /** The server turns to the next client with its first job, or passes over one that has gone. */
  lemma AskTold(s: State, s1: State, es: seq<seq<Job>>, c: Conn)
    requires AllTold(s, es) && Turn(s) && s1.jobs == s.jobs && s1.conns == s.conns[s.next := c]
    requires (s1.next == s.next && s1.talk != Quiet) || (s1.next == s.next + 1 && s1.talk == Quiet)
    requires var c0 := s.conns[s.next];
             && c.closed == c0.closed
             && c.asked == if c.closed == None then c0.asked + [RequestOf(s.jobs[0])] else c0.asked
    ensures AllTold(s1, es)
  {
    hide RequestOf, Told, Left;
    forall j | 0 <= j < |es| ensures Told(s1, j, es[j]) {
      assert Told(s, j, es[j]);
      if j == s.next {
        AskedOne(s, s1, j, es[j]);
      } else {
        OtherOne(s, s1, j, es[j]);
      }
    }
  }

  lemma AskedOne(s: State, s1: State, j: nat, e: seq<Job>)
    requires j < |s.conns| == |s1.conns| && Told(s, j, e) && Turn(s) && j == s.next && s1.jobs == s.jobs
    requires (s1.next == j && s1.talk != Quiet) || (s1.next == j + 1 && s1.talk == Quiet)
    requires var c, c1 := s.conns[j], s1.conns[j];
             && c1.closed == c.closed
             && c1.asked == if c.closed == None then c.asked + [RequestOf(s.jobs[0])] else c.asked
    ensures Told(s1, j, e)
  {
    hide RequestOf;
  }

  lemma OtherOne(s: State, s1: State, j: nat, e: seq<Job>)
    requires j < |s.conns| == |s1.conns| && Told(s, j, e) && Turn(s) && j != s.next && s1.jobs == s.jobs
    requires (s1.next == s.next && s1.talk != Quiet) || (s1.next == s.next + 1 && s1.talk == Quiet)
    requires s1.conns[j] == s.conns[j]
    ensures Told(s1, j, e)
  {
    hide RequestOf;
  }

  lemma FinishTold(s: State, s1: State, es: seq<seq<Job>>)
    requires AllTold(s, es) && s.jobs != [] && s.next == |s.conns| && s1.conns == s.conns
    requires s1.jobs == s.jobs[1..] && s1.next == 0 && s1.talk == Quiet
    ensures AllTold(s1, es)
  {
    hide RequestOf;
    forall j | 0 <= j < |es| ensures Told(s1, j, es[j]) {
      assert Told(s, j, es[j]);
    }
  }

  /** What of the invariant is needed here. */
  lemma Invariants(s: State)
    requires Inv(s)
    ensures s.jobs == [] ==> s.next == 0 && (s.talk.Quiet? || s.talk.Polling?)
    ensures s.talk.Polling? ==> s.jobs == []
    ensures forall j :: 0 <= j < |s.conns| ==> s.conns[j].closed == None ==> s.conns[j].listed
  {
    hide ConnsOk, EffectsOk, PassedOk, DirectOk, Pick, Keys.Sources;
    forall j | 0 <= j < |s.conns| ensures s.conns[j].closed == None ==> s.conns[j].listed {
      assert KeysOf(s, j);
    }
  }

  /** The steps of the server that concern one client, but for those that come further. */
  predicate ServerOnly(step: Step) {
    || step.Poll? || step.Receive? || step.Drop? || step.SendPart? || step.SendFails? || step.Read?
    || step.ReadFails? || step.Dispatch?
  }

  lemma ServerTold(s: State, step: Step, es: seq<seq<Job>>)
    requires AllTold(s, es) && Enabled(s, step) && ServerOnly(step) && (s.talk.Polling? ==> s.jobs == [])
    ensures AllTold(Apply(s, step), es)
  {
    hide AllTold, Encode, Decode, FromClient, RequestOf;
    StaysTold(s, Apply(s, step), es);
  }

  /** Asking a client, leaving it out because it has gone, turning to the next, and being done with a job. */
  lemma TurnTold(s: State, step: Step, es: seq<seq<Job>>)
    requires AllTold(s, es) && Enabled(s, step) && (step.Ask? || step.Skip? || step.Next? || step.Finish?)
    requires forall j :: 0 <= j < |s.conns| ==> s.conns[j].closed == None ==> s.conns[j].listed
    ensures AllTold(Apply(s, step), es)
  {
    hide AllTold, Encode, RequestOf;
    var s1 := Apply(s, step);
    if step.Finish? {
      FinishTold(s, s1, es);
    } else if step.Next? {
      NextTold(s, s1, es);
    } else {
      AskTold(s, s1, es, s1.conns[s.next]);
    }
  }

  lemma NextTold(s: State, s1: State, es: seq<seq<Job>>)
    requires AllTold(s, es) && s.talk != Quiet && s1.talk == Quiet && s1.next == s.next + 1
    requires s1.conns == s.conns && s1.jobs == s.jobs
    ensures AllTold(s1, es)
  {
    hide RequestOf;
    forall j | 0 <= j < |es| ensures Told(s1, j, es[j]) {
      assert Told(s, j, es[j]);
    }
  }

  lemma NewTold(s: State, step: Step, es: seq<seq<Job>>)
    requires AllTold(s, es) && Enabled(s, step) && (step.Type? || step.WindowChange? || step.Accept?)
    requires s.jobs == [] ==> s.next == 0
    ensures AllTold(Apply(s, step), Grown(es, step))
  {
    hide AllTold, Keys.Cut;
    if step.Accept? {
      AcceptTold(s, Apply(s, step), es, NewConn(|s.done|));
    } else {
      EventsTold(s, Apply(s, step), es, EventsIn(step));
    }
  }

  lemma StepTold(s: State, step: Step, es: seq<seq<Job>>)
    requires Inv(s) && AllTold(s, es) && Enabled(s, step)
    ensures AllTold(Apply(s, step), Grown(es, step))
  {
    Invariants(s);
    hide Inv, AllTold, Grown, Apply, Enabled;
    if step.Type? || step.WindowChange? || step.Accept? {
      NewTold(s, step, es);
    } else {
      NothingHappens(es, step);
      if ByClient(step) || step.Close? {
        ClientTold(s, step, es);
      } else if ServerOnly(step) {
        ServerTold(s, step, es);
      } else {
        TurnTold(s, step, es);
      }
    }
  }

  // ----- over whole runs

  /** The events since each client joined, at the end of a run. */
  function GrownBy(es: seq<seq<Job>>, steps: seq<Step>): seq<seq<Job>>
    decreases |steps|
  {
    if steps == [] then es else GrownBy(Grown(es, steps[0]), steps[1..])
  }

  lemma {:induction false} RunTold(s: State, steps: seq<Step>, es: seq<seq<Job>>)
    requires Inv(s) && AllTold(s, es) && Run(s, steps)
    ensures AllTold(After(s, steps), GrownBy(es, steps))
    decreases |steps|
  {
    hide Inv, AllTold, Apply, Enabled, Grown;
    if steps != [] {
      StepInv(s, steps[0]);
      StepTold(s, steps[0], es);
      RunTold(Apply(s, steps[0]), steps[1..], Grown(es, steps[0]));
    }
  }

  /** Those of the clients there were, and those of the clients that joined later. */
  lemma {:induction false} GrownSince(es: seq<seq<Job>>, steps: seq<Step>, j: nat)
    requires j < |GrownBy(es, steps)|
    ensures GrownBy(es, steps)[j] == if j < |es| then es[j] + Events(steps) else Since(steps, j - |es|)
    decreases |steps|
  {
    if steps == [] {
      assert es[j] + [] == es[j];
    } else {
      hide EventsIn;
      var es1 := Grown(es, steps[0]);
      GrownSince(es1, steps[1..], j);
      if steps[0].Accept? {
        assert EventsIn(steps[0]) == [] by { AcceptIsNone(steps[0]); }
        assert [] + Events(steps[1..]) == Events(steps[1..]);
      } else if j < |es| {
        Assoc(es[j], EventsIn(steps[0]), Events(steps[1..]));
      }
    }
  }

  lemma AcceptIsNone(step: Step)
    requires step.Accept?
    ensures EventsIn(step) == []
  {
  }

  lemma RequestTells(event: Job)
    ensures Tells(RequestOf(event), event)
  {
    hide Word;
  }

  /**
   After any run from the start the requests a client was asked are those that tell it of the keys typed and of
   the window changes since it joined, in the order in which these happened; of one that has not gone none is left out
   but those the server has not come to with it.
   */
  lemma EveryEventTold(steps: seq<Step>, j: nat)
    requires Run(Initial(), steps) && j < |After(Initial(), steps).conns|
    ensures var s := After(Initial(), steps);
            var c, e := s.conns[j], Since(steps, j);
            && |c.asked| <= |e| && (forall i :: 0 <= i < |c.asked| ==> Tells(c.asked[i], e[i]))
            && (c.closed == None ==> |c.asked| + Left(s, j) == |e|)
  {
    hide Inv, Run, After, Tells, RequestOf, Since, Apply, Enabled;
    InitialInv();
    RunTold(Initial(), steps, []);
    GrownSince([], steps, j);
    var s, e := After(Initial(), steps), Since(steps, j);
    assert Told(s, j, e);
    forall i | 0 <= i < |s.conns[j].asked| ensures Tells(s.conns[j].asked[i], e[i]) {
      RequestTells(e[i]);
    }
  }

  /** At rest a client that has not gone has been told of every event since it joined, and has answered every time. */
  lemma EveryEventAnswered(steps: seq<Step>, j: nat)
    requires Run(Initial(), steps)
    requires var s := After(Initial(), steps);
             j < |s.conns| && s.conns[j].closed == None && AtRest(s, s.conns[j])
    ensures var c, e := After(Initial(), steps).conns[j], Since(steps, j);
            |c.answered| == |e| && forall i :: 0 <= i < |e| ==> Tells(c.answered[i].request, e[i])
  {
    var s := After(Initial(), steps);
    assert Reachable(s);
    hide Run, After, Tells, Since, Pick, Reachable;
    EveryEventTold(steps, j);
    NothingPending(s, j);
    var c := s.conns[j];
    RequestsAt(c.answered);
    assert Left(s, j) == 0;
  }

  lemma {:induction false} RequestsAt(answered: seq<Answer>)
    ensures |Delivery.Requests(answered)| == |answered|
    ensures forall i :: 0 <= i < |answered| ==> Delivery.Requests(answered)[i] == answered[i].request
  {
    if answered != [] {
      RequestsAt(answered[1..]);
    }
  }
}
