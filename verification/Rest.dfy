/** Left to itself the protocol comes to rest or hangs: exactly when, and what has arrived then. */
module Rest {
  import opened Bytes
  import opened Codec
  import opened Sockets
  import opened Protocol
  import opened Delivery
  import opened Runs
  import opened Progress
  import Client
  import Keys
  import Server

  // ----- runs

  lemma {:induction false} RunThen(s: State, steps: seq<Step>, step: Step)
    requires Run(s, steps) && Enabled(After(s, steps), step)
    ensures Run(s, steps + [step]) && After(s, steps + [step]) == Apply(After(s, steps), step)
    decreases |steps|
  {
    hide Apply, Enabled;
    if steps == [] {
      assert [] + [step] == [step];
      assert [step][1..] == [];
    } else {
      assert (steps + [step])[1..] == steps[1..] + [step];
      RunThen(Apply(s, steps[0]), steps[1..], step);
    }
  }

  lemma ReachableStep(s: State, step: Step)
    requires Reachable(s) && Enabled(s, step)
    ensures Reachable(Apply(s, step))
  {
    hide Apply, Enabled;
    var steps :| Run(Initial(), steps) && After(Initial(), steps) == s;
    RunThen(Initial(), steps, step);
  }

  lemma {:induction false} ReachableRun(s: State, steps: seq<Step>)
    requires Reachable(s) && Run(s, steps)
    ensures Reachable(After(s, steps))
    decreases |steps|
  {
    hide Reachable, Enabled, Apply;
    if steps != [] {
      ReachableStep(s, steps[0]);
      ReachableRun(Apply(s, steps[0]), steps[1..]);
    }
  }

  // ----- hanging

  /** The client the server reads from. */
  function Partner(s: State): nat {
    if s.talk.Polling? then s.talk.client else s.next
  }

  lemma NoMessageComes(c: Conn)
    requires ChannelOk(c) && CutOff(c)
    ensures !Front(c.up).Received? && !Ended(c)
  {
    if Front(c.up).Received? {
      ReadsFirst(c);
      EndingIrrelevant(c.up, Error, c.closed.GetOr(Error));
    }
  }

  lemma NoResponseComes(t: Talk, c: Conn)
    requires ConnOk(t, c) && t.Waiting? && !Survives(t.request) && Front(c.up).Received?
    ensures Front(c.up).message.command != RESPONSE
  {
    if Front(c.up).message.command == RESPONSE {
      OpenSurvives(t, c);
    }
  }

  /** While the server waits or reads a message it does only that. */
  lemma OnlyReads(s: State, step: Step)
    requires Enabled(s, step) && !ByClient(step)
    ensures s.talk.Waiting? ==> step.Read? || step.ReadFails? || step.Close?
    ensures s.talk.Polling? && s.jobs == [] ==> step.Receive? || step.Drop? || step.Close?
  {
    hide Encode, Decode, Survives;
  }

  /** The server goes on hanging in the same place. */
  ghost predicate SameHang(s: State, s1: State) {
    && Hung(s1) && Partner(s1) == Partner(s) && (s1.talk.Polling? <==> s.talk.Polling?)
    && (s.talk.Waiting? ==> s1.talk.Waiting? && s1.talk.request == s.talk.request)
  }

  /** Whatever happens, but for that client going, the server goes on hanging. */
  lemma HangsOn(s: State, step: Step)
    requires Reachable(s) && Hung(s) && Enabled(s, step) && !(step.Close? && step.client == Partner(s))
    ensures SameHang(s, Apply(s, step))
  {
    hide Enabled, Apply, SameHang, CanAct, Act;
    if ByClient(step) {
      ClientApplied(s, step);
      ClientHangs(s, Apply(s, step), step);
    } else {
      ReachablePartner(s);
      OnlyReads(s, step);
      ServerHangs(s, step);
    }
  }

  lemma ReachablePartner(s: State)
    requires Reachable(s) && Hung(s)
    ensures Partner(s) < |s.conns| && ChannelOk(s.conns[Partner(s)]) && (s.talk.Polling? ==> s.jobs == [])
    ensures s.talk.Waiting? ==> ConnOk(s.talk, s.conns[Partner(s)])
  {
    ReachableServer(s);
    ReachableConn(s, Partner(s));
    hide Reachable, ServerOk, ChannelOk;
  }

  lemma ClientHangs(s: State, s1: State, step: Step)
    requires Hung(s) && ByClient(step) && step.client < |s.conns| && CanAct(s.conns[step.client], step)
    requires s1 == s.(conns := s.conns[step.client := Act(s.conns[step.client], step)])
    ensures SameHang(s, s1)
  {
    ActKeepsFirst(s.conns[step.client], step);
    hide Survives, Decode, CanAct, Act;
  }

  lemma ServerHangs(s: State, step: Step)
    requires Hung(s) && Enabled(s, step) && Partner(s) < |s.conns|
    requires ChannelOk(s.conns[Partner(s)]) && (s.talk.Waiting? ==> ConnOk(s.talk, s.conns[Partner(s)]))
    requires step.Read? || step.ReadFails? || step.Receive? || step.Drop? || (step.Close? && step.client != Partner(s))
    ensures SameHang(s, Apply(s, step))
  {
    hide ConnOk, ChannelOk, Encode, Survives, Decode, Front;
    if step.Close? {
      hide CutOff;
    } else {
      hide Apply, SameHang;
      NothingEnds(s, step);
      ReadHangs(s);
    }
  }

  /** Of the steps that end the hanging none is enabled. */
  lemma NothingEnds(s: State, step: Step)
    requires Hung(s) && Enabled(s, step) && Partner(s) < |s.conns| && ChannelOk(s.conns[Partner(s)])
    requires step.Read? || step.ReadFails? || step.Receive? || step.Drop?
    ensures step.Read? && !CutOff(s.conns[Partner(s)])
  {
    hide ChannelOk, Decode, Survives, Front;
    if CutOff(s.conns[Partner(s)]) {
      NoMessageComes(s.conns[Partner(s)]);
    }
  }

  lemma ReadHangs(s: State)
    requires Hung(s) && Enabled(s, Read) && Partner(s) < |s.conns| && !CutOff(s.conns[Partner(s)])
    requires s.talk.Waiting? ==> ConnOk(s.talk, s.conns[Partner(s)])
    ensures SameHang(s, Apply(s, Read))
  {
    hide ConnOk, CutOff, Survives, Decode, Front;
    NoResponseComes(s.talk, s.conns[Partner(s)]);
  }

  /** A client's own steps leave the first message in flight where it is, and one that has gone takes none. */
  lemma ActKeepsFirst(c: Conn, step: Step)
    requires CanAct(c, step)
    ensures c.closed == None && Act(c, step).closed == None
    ensures c.inflight != [] ==> Act(c, step).inflight != [] && Act(c, step).inflight[0] == c.inflight[0]
  {
    hide Encode, Decode;
  }

  /** A server that hangs does so for the rest of every run in which the client it reads from does not go. */
  lemma {:induction false} HangsForEver(s: State, steps: seq<Step>)
    requires Reachable(s) && Hung(s) && Run(s, steps)
    requires forall i :: 0 <= i < |steps| ==> !(steps[i].Close? && steps[i].client == Partner(s))
    ensures SameHang(s, After(s, steps))
    decreases |steps|
  {
    hide Reachable, Enabled, Apply, Hung;
    if steps != [] {
      HangsOn(s, steps[0]);
      ReachableStep(s, steps[0]);
      HangsForEver(Apply(s, steps[0]), steps[1..]);
    }
  }

  // ----- what decides

  /** A client that has been removed had nothing whole left to read. */
  ghost predicate UnlistedEnded(s: State) {
    forall j :: 0 <= j < |s.conns| && !s.conns[j].listed ==> Ended(s.conns[j])
  }

  lemma StepUnlisted(s: State, step: Step)
    requires UnlistedEnded(s) && Enabled(s, step)
    ensures UnlistedEnded(Apply(s, step))
  {
    hide Encode, Decode, Survives, FromClient;
    if ByClient(step) {
      ClientApplied(s, step);
      ActListed(s.conns[step.client], step);
      hide Enabled, Apply, Act, CanAct;
    } else if step.Read? || step.Receive? {
      ReadKeeps(s, step);
      var c := s.conns[Partner(s)];
      EndingIrrelevant(c.up, Error, c.closed.GetOr(Error));
      hide Enabled, Apply;
    }
  }

  lemma ActListed(c: Conn, step: Step)
    requires CanAct(c, step)
    ensures c.closed == None && Act(c, step).listed == c.listed && Act(c, step).closed == None
  {
    hide Encode, Decode;
  }

  lemma {:induction false} RunUnlisted(s: State, steps: seq<Step>)
    requires UnlistedEnded(s) && Run(s, steps)
    ensures UnlistedEnded(After(s, steps))
    decreases |steps|
  {
    hide UnlistedEnded, Apply, Enabled;
    if steps != [] {
      StepUnlisted(s, steps[0]);
      RunUnlisted(Apply(s, steps[0]), steps[1..]);
    }
  }

  lemma ReachableUnlisted(s: State)
    requires Reachable(s)
    ensures UnlistedEnded(s)
  {
    var steps :| Run(Initial(), steps) && After(Initial(), steps) == s;
    RunUnlisted(Initial(), steps);
  }

  ghost predicate PendingSurvives(c: Conn) {
    (forall m :: m in c.inflight ==> Survives(m)) && (forall m :: m in c.queue ==> Survives(m))
  }

  /** Which requests survive: all about a resize, and those about a key whose bytes number less than 128, modulo 256. */
  lemma RequestSurvives(job: Job)
    requires job.Key? ==> |job.key.source| < BUFSIZ
    ensures Survives(RequestOf(job)) <==> (job.Key? ==> |job.key.source| % 256 < 128)
  {
    hide Word;
    if job.Key? {
      var m, n := RequestOf(job), |job.key.source|;
      assert n / 0x100 < 0x80 && n / 0x1_0000 == 0;
      assert Survives(m) <==> LengthSurvives(|m.args[0]|) && LengthSurvives(|m.args[1]|) && LengthSurvives(|m.args[2]|);
    }
  }

  /**
   A client whose messages the server reads to the end: all lengths survive in what it is yet to send, or, when
   it has gone, what is left in its channel does not end inside a payload.
   */
  ghost predicate ConnCarried(c: Conn) {
    if c.closed == None then PendingSurvives(c) else DecodeAll(c.up, c.closed.value).1 == Failed
  }

  ghost predicate SomeLive(s: State) {
    exists j :: 0 <= j < |s.conns| && s.conns[j].closed == None
  }

  ghost predicate JobsCarried(s: State) {
    SomeLive(s) ==> forall job :: job in s.jobs ==> Survives(RequestOf(job))
  }

  /** Requests that can be read, if there is a client to read them, and messages that can be read to the end. */
  ghost predicate Carried(s: State) {
    JobsCarried(s) && forall j :: 0 <= j < |s.conns| ==> ConnCarried(s.conns[j])
  }

  /** A client's own steps neither bring nor take away messages that do not survive. */
  lemma ActCarried(t: Talk, c: Conn, step: Step)
    requires ConnOk(t, c) && CanAct(c, step) && ByClient(step) && Internal(step)
    ensures Act(c, step).closed == None == c.closed && (ConnCarried(Act(c, step)) <==> ConnCarried(c))
  {
    hide Pick, Encode, Decode, EncodeAll, Word, Conserved, EchoesOk, TallyOk, AnswersOk;
    match step
    case WritePart(_, _) =>
    case Take(_) =>
    case Empty(_) =>
      if c.queue != [] {
        assert c.queue == [c.queue[0]] + c.queue[1..];
      }
    case Reply(_, verdict) =>
      assert Survives(c.phase.request);
      ReplySurvives(c.phase.request, verdict);
  }

  lemma ReplySurvives(request: Message, verdict: Option<nat>)
    requires Client.CanReturn(request, verdict) && Survives(request)
    ensures Survives(Client.Response(request, verdict))
    ensures forall m :: m in Client.Echoes(request, verdict) ==> Survives(m)
  {
    hide Word;
  }

  /** Reading a message takes away one that survives, from a client connected or gone. */
  lemma ReadCarried(c: Conn)
    requires ChannelOk(c) && Front(c.up).Received?
    ensures ConnCarried(Consumed(c, Front(c.up).rest)) <==> ConnCarried(c)
  {
    ReadsFirst(c);
    EndingIrrelevant(c.up, Error, c.closed.GetOr(Error));
    hide Encode, Decode, Survives, ChannelOk;
    assert c.inflight == [c.inflight[0]] + c.inflight[1..];
  }

  ghost predicate SameCarried(c: Conn, c1: Conn) {
    c1.closed == c.closed && (ConnCarried(c1) <==> ConnCarried(c))
  }

  /** What the clients are yet to send, and the jobs, decide. */
  lemma CarriedFrame(s: State, s1: State)
    requires |s1.conns| == |s.conns| && s1.jobs == s.jobs
    requires forall k :: 0 <= k < |s.conns| ==> SameCarried(s.conns[k], s1.conns[k])
    ensures Carried(s1) <==> Carried(s)
  {
    hide ConnCarried, Survives;
    assert forall k :: 0 <= k < |s.conns| ==>
                         SameCarried(s.conns[k], s1.conns[k]) && s1.conns[k].closed == s.conns[k].closed;
    assert SomeLive(s1) <==> SomeLive(s);
  }

  lemma FinishCarried(s: State, s1: State)
    requires Inv(s) && s.jobs != [] && s.next == |s.conns| && s1.conns == s.conns && s1.jobs == s.jobs[1..]
    ensures Carried(s1) <==> Carried(s)
  {
    hide ServerOk, ConnsOk, EffectsOk, KeysOk, DirectOk, ConnCarried, Survives;
    assert s.jobs == [s.jobs[0]] + s1.jobs;
    if SomeLive(s) {
      assert Survives(RequestOf(s.jobs[0]));
    }
  }

  lemma SameChannel(c: Conn, c1: Conn)
    requires c1.closed == c.closed && c1.up == c.up && c1.inflight == c.inflight && c1.queue == c.queue
    ensures SameCarried(c, c1)
  {
    hide Survives, Decode;
  }

  /** The server's steps that read nothing. */
  lemma ChannelsKept(s: State, step: Step)
    requires Enabled(s, step) && Internal(step) && !ByClient(step)
    requires !step.Finish? && !step.Read? && !step.Receive?
    ensures var s1 := Apply(s, step);
            && s1.jobs == s.jobs && |s1.conns| == |s.conns|
            && forall k :: 0 <= k < |s.conns| ==>
                 && s1.conns[k].closed == s.conns[k].closed && s1.conns[k].up == s.conns[k].up
                 && s1.conns[k].inflight == s.conns[k].inflight && s1.conns[k].queue == s.conns[k].queue
  {
    hide Encode, Decode, Survives, FromClient;
  }

  /** The steps that read a message, as far as the channel goes. */
  lemma ReadKeeps(s: State, step: Step)
    requires Enabled(s, step) && (step.Read? || step.Receive?)
    ensures var s1, j := Apply(s, step), Partner(s);
            && j < |s.conns| == |s1.conns| && s1.jobs == s.jobs && Front(s.conns[j].up).Received?
            && (forall k :: 0 <= k < |s.conns| && k != j ==> s1.conns[k] == s.conns[k])
            && var c, c1 := Consumed(s.conns[j], Front(s.conns[j].up).rest), s1.conns[j];
               && c1.closed == c.closed && c1.up == c.up && c1.inflight == c.inflight && c1.queue == c.queue
               && c1.listed == c.listed
  {
    hide Encode, Decode, Survives, FromClient;
  }

  lemma ServerCarried(s: State, step: Step)
    requires ConnsOk(s) && Enabled(s, step) && Internal(step) && !ByClient(step) && !step.Finish?
    ensures Carried(Apply(s, step)) <==> Carried(s)
  {
    hide Enabled, Apply, Carried, SameCarried, ConnCarried, Front;
    var s1 := Apply(s, step);
    if step.Read? || step.Receive? {
      ReadKeeps(s, step);
      ReadingCarried(s, s1, Partner(s));
    } else {
      ChannelsKept(s, step);
      forall k | 0 <= k < |s.conns| ensures SameCarried(s.conns[k], s1.conns[k]) {
        SameChannel(s.conns[k], s1.conns[k]);
      }
      CarriedFrame(s, s1);
    }
  }

  lemma ReadingCarried(s: State, s1: State, j: nat)
    requires ConnsOk(s) && j < |s.conns| == |s1.conns| && s1.jobs == s.jobs && Front(s.conns[j].up).Received?
    requires forall k :: 0 <= k < |s.conns| && k != j ==> s1.conns[k] == s.conns[k]
    requires var c, c1 := Consumed(s.conns[j], Front(s.conns[j].up).rest), s1.conns[j];
             c1.closed == c.closed && c1.up == c.up && c1.inflight == c.inflight && c1.queue == c.queue
    ensures Carried(s1) <==> Carried(s)
  {
    assert ConnOk(TalkWith(s, j), s.conns[j]);
    ReadCarried(s.conns[j]);
    hide ConnOk, Front, Survives, ConnCarried;
    SameChannel(Consumed(s.conns[j], Front(s.conns[j].up).rest), s1.conns[j]);
    forall k | 0 <= k < |s.conns| ensures SameCarried(s.conns[k], s1.conns[k]) {
    }
    CarriedFrame(s, s1);
  }

  lemma ActingCarried(s: State, s1: State, step: Step)
    requires ConnsOk(s) && ByClient(step) && Internal(step)
    requires step.client < |s.conns| && CanAct(s.conns[step.client], step)
    requires s1 == s.(conns := s.conns[step.client := Act(s.conns[step.client], step)])
    ensures Carried(s1) <==> Carried(s)
  {
    assert ConnOk(TalkWith(s, step.client), s.conns[step.client]);
    hide ConnOk, CanAct, Act, ConnCarried, Carried;
    ActCarried(TalkWith(s, step.client), s.conns[step.client], step);
    forall k | 0 <= k < |s.conns| ensures SameCarried(s.conns[k], s1.conns[k]) {
    }
    CarriedFrame(s, s1);
  }

  /** No step of the protocol's own changes whether everything is carried. */
  lemma CarriedStep(s: State, step: Step)
    requires Inv(s) && Enabled(s, step) && Internal(step)
    ensures Carried(Apply(s, step)) <==> Carried(s)
  {
    hide Carried, ConnsOk, EffectsOk, KeysOk, PassedOk, DirectOk, ServerOk, Act, CanAct;
    if step.Finish? {
      FinishCarried(s, Apply(s, step));
    } else if ByClient(step) {
      ClientApplied(s, step);
      hide Enabled, Apply;
      ActingCarried(s, Apply(s, step), step);
    } else {
      ServerCarried(s, step);
    }
  }

  // ----- the protocol left to itself

  /** What the protocol does by itself adds neither clients, nor keys, nor messages of the programs' own. */
  ghost predicate Undisturbed(s: State, s1: State) {
    && |s1.conns| == |s.conns| && s1.typed == s.typed
    && forall j :: 0 <= j < |s.conns| ==>
         && s1.conns[j].joined == s.conns[j].joined && s1.conns[j].closed == s.conns[j].closed
         && forall r :: r in s1.conns[j].raised && r.ByProgram? ==> r in s.conns[j].raised
  }

  lemma UndisturbedStep(s: State, step: Step)
    requires Enabled(s, step) && Internal(step)
    ensures Undisturbed(s, Apply(s, step))
  {
    hide Encode, Decode, Survives, Sendable, FromClient;
    if ByClient(step) {
      ClientApplied(s, step);
      ActRaises(s.conns[step.client], step);
      hide Enabled, Apply, Act, CanAct;
    }
  }

  /** By itself a client raises nothing but echoes. */
  lemma ActRaises(c: Conn, step: Step)
    requires CanAct(c, step) && Internal(step)
    ensures Act(c, step).joined == c.joined && Act(c, step).closed == c.closed
    ensures forall r :: r in Act(c, step).raised && r.ByProgram? ==> r in c.raised
  {
    hide Encode, Decode, Survives;
  }

  predicate AllInternal(steps: seq<Step>) {
    forall i :: 0 <= i < |steps| ==> Internal(steps[i])
  }

  /** The protocol by itself can do nothing more. */
  ghost predicate Exhausted(s: State) {
    forall step :: Internal(step) ==> !Enabled(s, step)
  }

  lemma {:induction false} InternalRun(s: State, steps: seq<Step>)
    requires Reachable(s) && Run(s, steps) && AllInternal(steps)
    ensures Reachable(After(s, steps)) && Undisturbed(s, After(s, steps))
    ensures Carried(After(s, steps)) <==> Carried(s)
    decreases |steps|
  {
    hide Reachable, Inv, Enabled, Apply, Carried, Internal;
    if steps != [] {
      ReachableInv(s);
      ReachableStep(s, steps[0]);
      UndisturbedStep(s, steps[0]);
      CarriedStep(s, steps[0]);
      InternalRun(Apply(s, steps[0]), steps[1..]);
    }
  }

  /** Left to itself the protocol ends, whichever steps it takes, with everything at rest or the server hung. */
  lemma RestsOrHangs(s: State, steps: seq<Step>)
    requires Reachable(s) && Run(s, steps) && AllInternal(steps) && Exhausted(After(s, steps))
    ensures AllAtRest(After(s, steps)) || Hung(After(s, steps))
  {
    hide Reachable, Enabled, Internal, AllAtRest, Hung;
    InternalRun(s, steps);
    var s1 := After(s, steps);
    if !AllAtRest(s1) && !Hung(s1) {
      var step := NeverStuck(s1);
    }
  }

  /**
   Left to itself, the protocol ends at rest, every key finished and every client that has gone removed,
   whichever steps it takes, exactly when everything was carried; otherwise it ends hung.
   */
  lemma RestExactly(s: State, steps: seq<Step>)
    requires Reachable(s) && Run(s, steps) && AllInternal(steps) && Exhausted(After(s, steps))
    ensures AllAtRest(After(s, steps)) <==> Carried(s)
    ensures Hung(After(s, steps)) <==> !Carried(s)
  {
    hide Reachable, Enabled, Internal, Run;
    InternalRun(s, steps);
    RestsOrHangs(s, steps);
    var s1 := After(s, steps);
    if Carried(s1) {
      CarriedNotHung(s1);
    }
    if AllAtRest(s1) {
      RestCarried(s1);
    }
  }

  lemma CutOffNotCarried(c: Conn)
    requires CutOff(c)
    ensures !ConnCarried(c)
  {
    hide Survives, Decode;
    if c.closed == None {
      assert c.inflight[0] in c.inflight;
    }
  }

  lemma CarriedNotHung(s: State)
    requires Reachable(s) && Carried(s)
    ensures !Hung(s)
  {
    ReachableServer(s);
    hide Survives, Sendable, Pick, Encode, Decode, CutOff, ConnCarried;
    assert s.talk.Waiting? ==> s.jobs[0] in s.jobs;
    if Hung(s) && CutOff(s.conns[Partner(s)]) {
      CutOffNotCarried(s.conns[Partner(s)]);
    }
  }

  lemma RestCarried(s: State)
    requires Reachable(s) && AllAtRest(s)
    ensures Carried(s)
  {
    ReachableUnlisted(s);
    hide Reachable, ConnOk;
    forall j | 0 <= j < |s.conns| ensures ConnCarried(s.conns[j]) {
      if s.conns[j].closed == None {
        ReachableConn(s, j);
        NothingAtRest(s.conns[j]);
      } else {
        EndedCarried(s.conns[j]);
      }
    }
  }

  lemma EndedCarried(c: Conn)
    requires Ended(c)
    ensures ConnCarried(c)
  {
    hide Decode;
  }

  lemma NothingAtRest(c: Conn)
    requires ConnOk(Quiet, c) && c.phase == Idle && c.up == [] && c.outbox == []
    ensures c.inflight == [] && c.queue == []
  {
    assert |c.up + c.outbox| == 0;
  }

  /** From every reachable state some steps of the protocol's own lead to one where it can do nothing more. */
  lemma {:induction false} RunsOut(s: State) returns (steps: seq<Step>)
    requires Reachable(s)
    ensures Run(s, steps) && AllInternal(steps) && Exhausted(After(s, steps))
    decreases Turns(s), Work(s)
  {
    hide Reachable, Inv, Enabled, Apply, Turns, Work, Internal;
    if Exhausted(s) {
      return [];
    }
    var step :| Internal(step) && Enabled(s, step);
    ReachableInv(s);
    StepShrinks(s, step);
    ReachableStep(s, step);
    var rest := RunsOut(Apply(s, step));
    steps := [step] + rest;
    assert steps[1..] == rest;
  }

  /**
   When everything is carried: from every reachable state, whichever steps the protocol takes until it can do
   nothing more, each client that has not gone has answered every key typed since it joined; and, other
   clients left aside, the pty has received the keys from before it joined that nobody took, and after
   them what the messages the client raised write, its own and the echoes of exactly the keys it declined.
   */
  lemma EverythingArrives(s: State, steps: seq<Step>, j: nat, config: Server.Config)
    requires Reachable(s) && j < |s.conns| && s.conns[j].closed == None && Carried(s)
    requires Run(s, steps) && AllInternal(steps) && Exhausted(After(s, steps))
    ensures var s1 := After(s, steps);
            && |s1.conns| == |s.conns| && s1.typed == s.typed && s1.conns[j].joined == s.conns[j].joined <= |s.typed|
            && var c, own := s1.conns[j], Of(s1.effects, j);
               && AllBelow(Alone(s1.conns, c.joined), |s.typed|)
               && Dispatchable(own) && Server.AllWellFormed(Wires(c.raised))
               && PtyOutput(own, config)
                  == Flatten(KeyBytes(s.typed, Alone(s1.conns, c.joined))) + Server.PtyAll(Wires(c.raised), config)
               && (forall r :: r in c.raised && r.ByProgram? ==> r in s.conns[j].raised)
               && Pick(EchoOf, c.raised) == Declined(c.answered)
               && Pick(SourceOf, Requests(c.answered)) == Keys.Sources(s.typed[c.joined..])
  {
    hide Reachable, Carried, Run, Enabled, Internal, Exhausted, PtyOutput, Server.PtyAll, Pick, Alone, Hung, Of;
    InternalRun(s, steps);
    RestExactly(s, steps);
    ClientAtRest(After(s, steps), j, config);
  }

  /** And if its program raises no text, data or keys, its messages have written exactly the keys it declined. */
  lemma DeclinedKeysArrive(s: State, steps: seq<Step>, j: nat, config: Server.Config)
    requires Reachable(s) && j < |s.conns| && s.conns[j].closed == None && Carried(s)
    requires Without(s.conns[j], {SEND_DATA, SEND_TEXT, FORWARD_KEY_EVENT})
    requires Run(s, steps) && AllInternal(steps) && Exhausted(After(s, steps))
    ensures var s1 := After(s, steps);
            && |s1.conns| == |s.conns| && s1.typed == s.typed && s1.conns[j].joined == s.conns[j].joined <= |s.typed|
            && var c, own := s1.conns[j], Of(s1.effects, j);
               && AllBelow(Alone(s1.conns, c.joined), |s.typed|) && Dispatchable(own)
               && PtyOutput(own, config)
                  == Flatten(KeyBytes(s.typed, Alone(s1.conns, c.joined))) + Flatten(Declined(c.answered))
               && Pick(SourceOf, Requests(c.answered)) == Keys.Sources(s.typed[c.joined..])
  {
    hide Reachable, Carried, Run, Enabled, Internal, Exhausted, PtyOutput, Pick, Alone, Hung, Of;
    InternalRun(s, steps);
    RestExactly(s, steps);
    DeclinedKeysAtRest(After(s, steps), j, config);
  }
}
