/** What the steps of a run put into the histories of its last state, and that any input can be served. */
module Histories {
  import opened Bytes
  import opened Codec
  import opened Protocol
  import opened Delivery
  import opened Runs
  import opened Requests
  import opened Rest
  import opened Progress
  import ClientTable
  import Client
  import Keys

  // ----- what a step adds

  /** What is read from the terminal in a step. */
  function BufferIn(step: Step): Option<seq<byte>> {
    if step.Type? then Some(step.buffer) else None
  }

  function AcceptIn(step: Step): Option<Step> {
    if step.Accept? then Some(step) else None
  }

  /** The message client j's program raises in a step. */
  function RaisedIn(j: nat): Step -> Option<Message> {
    (step: Step) => if step.Raise? && step.client == j then Some(step.message) else None
  }

  /** What client j's filter returns in a step, if it is called. */
  function VerdictIn(j: nat): Step -> Option<Option<nat>> {
    (step: Step) => if step.Reply? && step.client == j then Some(step.verdict) else None
  }

  function ProgramOf(r: Raised): Option<Message> {
    if r.ByProgram? then Some(r.message) else None
  }

  /** The messages client j's program has raised. */
  function RaisedBy(s: State, j: nat): seq<Message> {
    if j < |s.conns| then Pick(ProgramOf, s.conns[j].raised) else []
  }

  function AnsweredBy(s: State, j: nat): seq<Answer> {
    if j < |s.conns| then s.conns[j].answered else []
  }

  predicate Gone(s: State, j: nat) {
    j < |s.conns| && s.conns[j].closed.Some?
  }

  /** The answers were given with the verdicts. */
  ghost predicate GivenBy(answered: seq<Answer>, verdicts: seq<Option<nat>>) {
    && |answered| == |verdicts|
    && forall i :: 0 <= i < |answered| ==> answered[i].value == Client.Value(answered[i].request, verdicts[i])
  }

  function Parts<T>(x: Option<T>): seq<T> {
    match x
    case Some(v) => [v]
    case None => []
  }

  lemma StepInput(s: State, step: Step)
    requires Enabled(s, step)
    ensures Apply(s, step).input == s.input + BufferIn(step).GetOr([])
    ensures |Apply(s, step).conns| == |s.conns| + |Parts(AcceptIn(step))|
  {
    hide Encode, Decode, Keys.Cut;
    if ByClient(step) {
      ClientApplied(s, step);
      hide Enabled, Apply;
    }
  }

  lemma StepTyped(s: State, step: Step)
    requires Enabled(s, step)
    ensures Apply(s, step).typed == s.typed + Pick(JobKey, EventsIn(step))
  {
    hide Encode, Decode, Keys.Cut, Pick;
    NoKeys();
    if step.Type? {
      JobKeys(Keys.Cut(step.buffer, step.caps).value, EventsIn(step));
    } else if step.WindowChange? {
      PickCons(JobKey, Resize(step.cols, step.rows), []);
      assert [Resize(step.cols, step.rows)] + [] == EventsIn(step);
    } else if ByClient(step) {
      ClientApplied(s, step);
      hide Enabled, Apply;
    }
  }

  lemma NoKeys()
    ensures Pick(JobKey, []) == []
  {
  }

  lemma StepRaised(s: State, step: Step, j: nat)
    requires Enabled(s, step)
    ensures RaisedBy(Apply(s, step), j) == RaisedBy(s, j) + Parts(RaisedIn(j)(step))
  {
    hide Encode, Decode, Pick, Keys.Cut, FromClient, RequestOf;
    NothingRaised();
    if ByClient(step) {
      ClientApplied(s, step);
      ActRaised(s.conns[step.client], step);
      hide Enabled, Apply, Act, CanAct;
    }
  }

  lemma NothingRaised()
    ensures Pick(ProgramOf, []) == []
  {
  }

  lemma ActRaised(c: Conn, step: Step)
    requires CanAct(c, step)
    ensures Pick(ProgramOf, Act(c, step).raised)
         == Pick(ProgramOf, c.raised) + if step.Raise? then [step.message] else []
  {
    hide Encode, Decode, Pick;
    if step.Raise? {
      PickAppend(ProgramOf, c.raised, ByProgram(step.message));
    } else if step.Reply? {
      PickAppend(ProgramOf, c.raised, Echo(if |c.phase.request.args| == 3 then c.phase.request.args[2] else []));
    }
  }

  lemma StepAnswered(s: State, step: Step, j: nat, verdicts: seq<Option<nat>>)
    requires Enabled(s, step) && GivenBy(AnsweredBy(s, j), verdicts)
    ensures GivenBy(AnsweredBy(Apply(s, step), j), verdicts + Parts(VerdictIn(j)(step)))
  {
    hide GivenBy;
    assert verdicts + [] == verdicts;
    if step.Reply? && step.client == j {
      ClientApplied(s, step);
      ActAnswered(s.conns[j], step);
      var request := s.conns[j].phase.request;
      hide Apply, Enabled, Act, CanAct, Client.Value;
      OneMoreGiven(AnsweredBy(s, j), verdicts, request, step.verdict);
    } else {
      NoAnswer(s, step, j);
      hide Apply, Enabled, AnsweredBy;
    }
  }

  lemma NoAnswer(s: State, step: Step, j: nat)
    requires Enabled(s, step) && !(step.Reply? && step.client == j)
    ensures AnsweredBy(Apply(s, step), j) == AnsweredBy(s, j)
  {
    hide Encode, Decode, Keys.Cut, FromClient, RequestOf;
    if ByClient(step) {
      ClientApplied(s, step);
      ActAnswered(s.conns[step.client], step);
      hide Enabled, Apply, Act, CanAct, Client.Value;
    }
  }

  lemma OneMoreGiven(answered: seq<Answer>, verdicts: seq<Option<nat>>, request: Message, verdict: Option<nat>)
    requires GivenBy(answered, verdicts)
    ensures GivenBy(answered + [Answer(request, Client.Value(request, verdict))], verdicts + [verdict])
  {
    hide Client.Value;
  }

  lemma ActAnswered(c: Conn, step: Step)
    requires CanAct(c, step)
    ensures Act(c, step).answered
         == if !step.Reply? then c.answered
            else c.answered + [Answer(c.phase.request, Client.Value(c.phase.request, step.verdict))]
  {
    hide Encode, Decode;
  }

  lemma StepGone(s: State, step: Step, j: nat)
    requires Enabled(s, step)
    ensures Gone(Apply(s, step), j) <==> Gone(s, j) || (step.Close? && step.client == j)
  {
    hide Encode, Decode, Keys.Cut;
    if ByClient(step) {
      ClientApplied(s, step);
      ActStays(s.conns[step.client], step);
      hide Enabled, Apply, Act, CanAct;
    }
  }

  lemma ActStays(c: Conn, step: Step)
    requires CanAct(c, step)
    ensures Act(c, step).closed == c.closed
  {
    hide Encode, Decode;
  }

  // ----- what a run adds

  lemma {:induction false} PickParts<A, B>(f: A -> Option<B>, s: seq<A>)
    requires s != []
    ensures Pick(f, s) == Parts(f(s[0])) + Pick(f, s[1..])
  {
    assert s == [s[0]] + s[1..];
  }

  lemma {:induction false} RunInput(s: State, steps: seq<Step>)
    requires Run(s, steps)
    ensures var s1 := After(s, steps);
            && s1.input == s.input + Flatten(Pick(BufferIn, steps))
            && s1.typed == s.typed + Pick(JobKey, Events(steps))
            && |s1.conns| == |s.conns| + |Pick(AcceptIn, steps)|
    decreases |steps|
  {
    hide Apply, Enabled, EventsIn;
    NoKeys();
    if steps == [] {
      assert s.input + [] == s.input && s.typed + [] == s.typed;
    } else {
      var step, rest := steps[0], steps[1..];
      StepInput(s, step);
      StepTyped(s, step);
      RunInput(Apply(s, step), rest);
      hide Run, After, Pick, Flatten;
      PickParts(BufferIn, steps);
      PickParts(AcceptIn, steps);
      PickConcat(JobKey, EventsIn(step), Events(rest));
      Assoc(s.typed, Pick(JobKey, EventsIn(step)), Pick(JobKey, Events(rest)));
      FlattenCons(BufferIn(step).GetOr([]), Pick(BufferIn, rest));
      Assoc(s.input, BufferIn(step).GetOr([]), Flatten(Pick(BufferIn, rest)));
      assert [] + Flatten(Pick(BufferIn, rest)) == Flatten(Pick(BufferIn, rest));
      assert [] + Pick(BufferIn, rest) == Pick(BufferIn, rest);
    }
  }

  lemma {:induction false} RunRaised(s: State, steps: seq<Step>, j: nat)
    requires Run(s, steps)
    ensures RaisedBy(After(s, steps), j) == RaisedBy(s, j) + Pick(RaisedIn(j), steps)
    decreases |steps|
  {
    hide Apply, Enabled, RaisedBy;
    if steps == [] {
      assert RaisedBy(s, j) + [] == RaisedBy(s, j);
    } else {
      StepRaised(s, steps[0], j);
      RunRaised(Apply(s, steps[0]), steps[1..], j);
      PickParts(RaisedIn(j), steps);
      Assoc(RaisedBy(s, j), Parts(RaisedIn(j)(steps[0])), Pick(RaisedIn(j), steps[1..]));
    }
  }

  lemma {:induction false} RunAnswered(s: State, steps: seq<Step>, j: nat, verdicts: seq<Option<nat>>)
    requires Run(s, steps) && GivenBy(AnsweredBy(s, j), verdicts)
    ensures GivenBy(AnsweredBy(After(s, steps), j), verdicts + Pick(VerdictIn(j), steps))
    decreases |steps|
  {
    hide Apply, Enabled, AnsweredBy, GivenBy;
    if steps == [] {
      assert verdicts + [] == verdicts;
    } else {
      StepAnswered(s, steps[0], j, verdicts);
      RunAnswered(Apply(s, steps[0]), steps[1..], j, verdicts + Parts(VerdictIn(j)(steps[0])));
      PickParts(VerdictIn(j), steps);
      Assoc(verdicts, Parts(VerdictIn(j)(steps[0])), Pick(VerdictIn(j), steps[1..]));
    }
  }

  lemma {:induction false} RunGone(s: State, steps: seq<Step>, j: nat)
    requires Run(s, steps)
    ensures Gone(After(s, steps), j)
            <==> Gone(s, j) || exists i :: 0 <= i < |steps| && steps[i].Close? && steps[i].client == j
    decreases |steps|
  {
    hide Apply, Enabled, Gone;
    if steps != [] {
      var rest := steps[1..];
      StepGone(s, steps[0], j);
      RunGone(Apply(s, steps[0]), rest, j);
      assert forall i :: 0 <= i < |rest| ==> rest[i] == steps[i + 1];
      if i :| 0 <= i < |steps| && steps[i].Close? && steps[i].client == j {
        assert i > 0 ==> rest[i - 1] == steps[i];
      }
    }
  }

  /**
   After any run from the start: the input is what was read, and the keys typed are those cut from it; there are as
   many clients as joined; and those that have gone are those that closed.
   */
  lemma InputOfRun(steps: seq<Step>, j: nat)
    requires Run(Initial(), steps)
    ensures var s := After(Initial(), steps);
            && s.input == Flatten(Pick(BufferIn, steps)) && s.typed == Pick(JobKey, Events(steps))
            && |s.conns| == |Pick(AcceptIn, steps)|
            && (Gone(s, j) <==> exists i :: 0 <= i < |steps| && steps[i].Close? && steps[i].client == j)
  {
    hide Run, After, Pick, Flatten, Events;
    RunInput(Initial(), steps);
    RunGone(Initial(), steps, j);
    assert forall x: seq<byte> :: [] + x == x;
    assert [] + Pick(JobKey, Events(steps)) == Pick(JobKey, Events(steps));
  }

  /** What a client is asked can be read, so its answer is the filter's verdict, and 0 without a filter. */
  lemma AnswerValue(request: Message, event: Job, verdict: Option<nat>)
    requires Tells(request, event)
    ensures Client.Value(request, verdict) == verdict.GetOr(0)
  {
  }

  /**
   And of each client: its program raised exactly the messages of its steps, in that order; and its answers, in
   order, are those its filter gave, 0 where it has none, about the keys typed and the window changes since it joined.
   */
  lemma ClientOfRun(steps: seq<Step>, j: nat)
    requires Run(Initial(), steps) && j < |After(Initial(), steps).conns|
    ensures var c, e, verdicts := After(Initial(), steps).conns[j], Since(steps, j), Pick(VerdictIn(j), steps);
            && Pick(ProgramOf, c.raised) == Pick(RaisedIn(j), steps)
            && |c.answered| == |verdicts| <= |e|
            && (forall i :: 0 <= i < |c.answered| ==>
                  Tells(c.answered[i].request, e[i]) && c.answered[i].value == verdicts[i].GetOr(0))
  {
    var s := After(Initial(), steps);
    assert Reachable(s);
    hide Run, After, Pick, Since, Tells, Reachable, ConnOk, Client.Value;
    var c, e, verdicts := s.conns[j], Since(steps, j), Pick(VerdictIn(j), steps);
    RunRaised(Initial(), steps, j);
    RunAnswered(Initial(), steps, j, []);
    assert [] + Pick(RaisedIn(j), steps) == Pick(RaisedIn(j), steps) && [] + verdicts == verdicts;
    EveryEventTold(steps, j);
    ReachableConn(s, j);
    AnsweredAsked(TalkWith(s, j), c);
    RequestsAt(c.answered);
    forall i | 0 <= i < |c.answered|
      ensures Tells(c.answered[i].request, e[i]) && c.answered[i].value == verdicts[i].GetOr(0)
    {
      assert c.answered[i].request == Delivery.Requests(c.answered)[i] == c.asked[i];
      AnswerValue(c.answered[i].request, e[i], verdicts[i]);
    }
  }

  // ----- any input can be served

  function InputIn(step: Step): Option<Step> {
    if Internal(step) then None else Some(step)
  }

  /** What can come from outside while a number of clients stay connected: nothing with lengths that do not survive. */
  predicate CanCome(step: Step, joined: nat) {
    match step
    case Type(buffer, caps) =>
      (match Keys.Cut(buffer, caps)
       case Some(keys) => |buffer| < BUFSIZ && forall k :: k in keys ==> |k.source| % 256 < 128
       case None => false)
    case WindowChange(_, _) => true
    case Accept => joined < ClientTable.MAX_CLIENTS
    case Raise(j, m) => j < joined && FromClient(m) && Sendable(m) && Survives(m)
    case _ => false
  }

  ghost predicate AllCanCome(inputs: seq<Step>) {
    forall i :: 0 <= i < |inputs| ==> CanCome(inputs[i], |Pick(AcceptIn, inputs[..i])|)
  }

  lemma {:induction false} RunConcat(s: State, a: seq<Step>, b: seq<Step>)
    requires Run(s, a) && Run(After(s, a), b)
    ensures Run(s, a + b) && After(s, a + b) == After(After(s, a), b)
    decreases |a|
  {
    hide Apply, Enabled;
    if a == [] {
      assert a + b == b;
    } else {
      assert (a + b)[1..] == a[1..] + b;
      RunConcat(Apply(s, a[0]), a[1..], b);
    }
  }

  lemma {:induction false} NoInputs(steps: seq<Step>)
    requires AllInternal(steps)
    ensures Pick(InputIn, steps) == []
  {
    if steps != [] {
      assert forall i :: 0 <= i < |steps[1..]| ==> steps[1..][i] == steps[i + 1];
      NoInputs(steps[1..]);
    }
  }

  lemma {:induction false} InTableBound(conns: seq<Conn>)
    ensures InTable(conns) <= |conns|
  {
    if conns != [] {
      InTableBound(conns[1..]);
    }
  }

  /** At rest, with all clients connected, whatever can come may come, and leaves only what is carried. */
  lemma RestTakes(s: State, step: Step)
    requires Reachable(s) && AllAtRest(s) && AllLive(s) && CanCome(step, |s.conns|)
    ensures Enabled(s, step) && !Internal(step) && AllLive(Apply(s, step)) && Carried(Apply(s, step))
    ensures |Apply(s, step).conns| == |s.conns| + |Parts(AcceptIn(step))|
  {
    RestCarried(s);
    InTableBound(s.conns);
    hide Reachable, Keys.Cut, Survives, Encode, Sendable, RequestOf, FromClient, InTable;
    if step.Type? {
      TypedCarried(s, step.buffer, step.caps);
    } else if step.WindowChange? {
      RequestSurvives(Resize(step.cols, step.rows));
    } else if step.Raise? {
      assert AtRest(s, s.conns[step.client]);
    }
  }

  lemma TypedCarried(s: State, buffer: seq<byte>, caps: Keys.Caps)
    requires Carried(s) && Resting(s) && CanCome(Type(buffer, caps), |s.conns|)
    ensures Enabled(s, Type(buffer, caps)) && Carried(Apply(s, Type(buffer, caps)))
  {
    Keys.CutSmall(buffer, caps);
    hide Keys.Cut, Survives, RequestOf;
    var jobs := Apply(s, Type(buffer, caps)).jobs;
    forall job | job in jobs ensures Survives(RequestOf(job)) {
      assert job.Key? && job.key in Keys.Cut(buffer, caps).value;
      RequestSurvives(job);
    }
  }

  /** For any inputs there is a run that takes exactly these, one after the other, and ends with everything at rest. */
  lemma {:induction false} InputsServed(inputs: seq<Step>) returns (steps: seq<Step>)
    requires AllCanCome(inputs)
    ensures Run(Initial(), steps) && Pick(InputIn, steps) == inputs
    ensures AllAtRest(After(Initial(), steps)) && AllLive(After(Initial(), steps))
    ensures |After(Initial(), steps).conns| == |Pick(AcceptIn, inputs)|
    decreases |inputs|
  {
    hide Run, After, Reachable, Apply, Enabled, AllAtRest, AllLive, CanCome, AllCanCome, Pick;
    if inputs == [] {
      NothingYet();
      return [];
    }
    var n := |inputs| - 1;
    var before, step := inputs[..n], inputs[n];
    EarlierCanCome(inputs);
    steps := InputsServed(before);
    var s := After(Initial(), steps);
    ReachedBy(steps);
    RestTakes(s, step);
    var rest := ServeOne(s, step);
    RunConcat(Initial(), steps, rest);
    PickConcat(InputIn, steps, rest);
    PickAppend(AcceptIn, before, step);
    assert inputs == before + [step];
    steps := steps + rest;
  }

  lemma ReachedBy(steps: seq<Step>)
    requires Run(Initial(), steps)
    ensures Reachable(After(Initial(), steps))
  {
  }

  lemma EarlierCanCome(inputs: seq<Step>)
    requires AllCanCome(inputs) && inputs != []
    ensures var n := |inputs| - 1;
            AllCanCome(inputs[..n]) && CanCome(inputs[n], |Pick(AcceptIn, inputs[..n])|)
  {
    hide CanCome, Pick;
    var before := inputs[..|inputs| - 1];
    assert forall i :: 0 <= i < |before| ==> before[i] == inputs[i] && before[..i] == inputs[..i];
  }

  lemma NothingYet()
    ensures Run(Initial(), []) && After(Initial(), []) == Initial()
    ensures AllAtRest(Initial()) && AllLive(Initial()) && Initial().conns == []
    ensures Pick(InputIn, []) == [] && Pick(AcceptIn, []) == []
  {
  }

  lemma ServeOne(s: State, step: Step) returns (steps: seq<Step>)
    requires Reachable(s) && !Internal(step) && Enabled(s, step) && AllLive(Apply(s, step)) && Carried(Apply(s, step))
    ensures Run(s, steps) && Pick(InputIn, steps) == [step]
    ensures AllAtRest(After(s, steps)) && AllLive(After(s, steps))
    ensures |After(s, steps).conns| == |Apply(s, step).conns|
  {
    hide Reachable, Apply, Enabled, AllAtRest, Carried, Exhausted, Hung, Internal;
    ReachableStep(s, step);
    var s1 := Apply(s, step);
    var rest := RunsOut(s1);
    RestExactly(s1, rest);
    InternalRun(s1, rest);
    NoInputs(rest);
    steps := [step] + rest;
    assert steps[1..] == rest;
    PickCons(InputIn, step, rest);
  }

  /** What happens inside is no event. */
  lemma {:induction false} EventsOfInputs(steps: seq<Step>)
    ensures Events(steps) == Events(Pick(InputIn, steps))
  {
    if steps != [] {
      EventsOfInputs(steps[1..]);
      if Internal(steps[0]) {
        assert [] + Events(steps[1..]) == Events(steps[1..]);
      } else {
        assert Pick(InputIn, steps)[1..] == Pick(InputIn, steps[1..]);
      }
    }
  }

  lemma {:induction false} SinceInputs(steps: seq<Step>, j: nat)
    ensures Since(steps, j) == Since(Pick(InputIn, steps), j)
  {
    if steps != [] {
      var rest := steps[1..];
      if !Internal(steps[0]) {
        assert Pick(InputIn, steps)[0] == steps[0] && Pick(InputIn, steps)[1..] == Pick(InputIn, rest);
      }
      EventsOfInputs(rest);
      SinceInputs(rest, if steps[0].Accept? && j > 0 then j - 1 else j);
    }
  }

  /**
   For any inputs, keys typed, window changes, clients that join and messages their programs raise, there is a run that
   takes exactly these and after which every client has been told of, and has answered, every event since it joined.
   */
  lemma EveryInputServed(inputs: seq<Step>) returns (steps: seq<Step>)
    requires AllCanCome(inputs)
    ensures Run(Initial(), steps) && Pick(InputIn, steps) == inputs && AllAtRest(After(Initial(), steps))
    ensures |After(Initial(), steps).conns| == |Pick(AcceptIn, inputs)|
    ensures forall j :: 0 <= j < |After(Initial(), steps).conns| ==>
              var c, e := After(Initial(), steps).conns[j], Since(inputs, j);
              |c.answered| == |e| && forall i :: 0 <= i < |e| ==> Tells(c.answered[i].request, e[i])
  {
    steps := InputsServed(inputs);
    var s := After(Initial(), steps);
    hide Run, After, Pick, Tells, Since, AllCanCome;
    forall j | 0 <= j < |s.conns|
      ensures var c, e := s.conns[j], Since(inputs, j);
              |c.answered| == |e| && forall i :: 0 <= i < |e| ==> Tells(c.answered[i].request, e[i])
    {
      SinceInputs(steps, j);
      assert AtRest(s, s.conns[j]);
      EveryEventAnswered(steps, j);
    }
  }
}
