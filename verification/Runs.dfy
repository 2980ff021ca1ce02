/** The results about whole runs: every state reached from the start by any interleaving of steps. */
module Runs {
  import opened Bytes
  import opened Codec
  import opened Protocol
  import opened Delivery
  import Keys
  import Server

  predicate Run(s: State, steps: seq<Step>)
    decreases |steps|
  {
    steps == [] || (Enabled(s, steps[0]) && Run(Apply(s, steps[0]), steps[1..]))
  }

  function After(s: State, steps: seq<Step>): State
    requires Run(s, steps)
    decreases |steps|
  {
    if steps == [] then s else After(Apply(s, steps[0]), steps[1..])
  }

  lemma {:induction false} RunInv(s: State, steps: seq<Step>)
    requires Inv(s) && Run(s, steps)
    ensures Inv(After(s, steps))
    decreases |steps|
  {
    hide Inv, Apply, Enabled;
    if steps != [] {
      StepInv(s, steps[0]);
      RunInv(Apply(s, steps[0]), steps[1..]);
    }
  }

  ghost predicate Reachable(s: State) {
    exists steps :: Run(Initial(), steps) && After(Initial(), steps) == s
  }

  lemma ReachableInv(s: State)
    requires Reachable(s)
    ensures Inv(s)
  {
    hide Inv;
    InitialInv();
    var steps :| Run(Initial(), steps) && After(Initial(), steps) == s;
    RunInv(Initial(), steps);
  }

  lemma ReachableConn(s: State, j: nat)
    requires Reachable(s) && j < |s.conns|
    ensures ConnOk(TalkWith(s, j), s.conns[j])
  {
    hide ConnOk;
    ReachableInv(s);
    assert ConnsOk(s);
  }

  /** What is on its way from client j: held by the server, in the channel, or queued by the client. */
  function Pending(s: State, j: nat): seq<Message>
    requires j < |s.conns|
  {
    Held(TalkWith(s, j)) + Others(s.conns[j].inflight) + s.conns[j].queue
  }

  // ----- messages

  /**
   In every reachable state the messages of a client that the server has dispatched are the first
   ones the client raised, in that order and each once; the later ones are exactly those pending,
   which are lost where the client has gone.
   */
  lemma EveryMessageOnce(s: State, j: nat)
    requires Reachable(s) && j < |s.conns|
    ensures Pick(FromOf(j), s.effects) + Pending(s, j) == Wires(s.conns[j].raised)
  {
    ReachableInv(s);
    ReachableConn(s, j);
    hide Pick;
    var c, t := s.conns[j], TalkWith(s, j);
    Assoc(c.dispatched, Held(t), Others(c.inflight));
    Assoc(c.dispatched, Held(t) + Others(c.inflight), c.queue);
  }

  // ----- requests and responses

  /**
   A client owes the server at most one response.  One that has not gone owes it exactly while the server
   writes the request or waits; the response the server then takes always names the request, and the
   server gives up waiting only when the client has gone.
   */
  lemma OneRequestAtATime(s: State, j: nat)
    requires Reachable(s) && j < |s.conns|
    ensures var t, c := TalkWith(s, j), s.conns[j];
            && c.responses <= |c.asked| <= c.responses + 1
            && (t.Asking? || t.Waiting? ==> |c.asked| == c.responses + 1)
            && (c.closed == None && !t.Asking? && !t.Waiting? ==> |c.asked| == c.responses)
            && (t.Flushing? && !t.ok ==> c.closed.Some?)
  {
    ReachableConn(s, j);
    hide Pick, Encode, Survives, Decode;
  }

  // ----- keys

  /** The number of keys the server has begun or finished asking client j about, counted from the start. */
  function Started(s: State, j: nat): nat {
    |s.done| + if KeyJob(s) && (j < s.next || (j == s.next && s.talk != Quiet)) then 1 else 0
  }

  function DataOf(m: Message): Option<seq<byte>> {
    if m.command == SEND_DATA && |m.args| == 1 then Some(m.args[0]) else None
  }

  /** The payloads of the SEND_DATA messages. */
  function Data(ms: seq<Message>): seq<seq<byte>> {
    Pick(DataOf, ms)
  }

  /** The client's program raises no message with one of the commands. */
  ghost predicate Without(c: Conn, commands: set<byte>) {
    forall r :: r in c.raised && r.ByProgram? ==> r.message.command !in commands
  }

  lemma {:induction false} DataIsEchoes(raised: seq<Raised>)
    requires forall r :: r in raised && r.ByProgram? ==> r.message.command != SEND_DATA
    ensures Data(Wires(raised)) == Pick(EchoOf, raised)
  {
    if raised != [] {
      assert raised[0] in raised;
      DataIsEchoes(raised[1..]);
    }
  }

  /**
   In every reachable state: the keys a client was asked about are those typed since it joined, in order,
   and none is left out until it goes; it has answered all of them but perhaps the last; and if its
   program sends no data, the data dispatched for it followed by the data still pending are exactly the
   sources of the keys it declined, in typing order.  So a declined key arrives once, an accepted one
   never, and none overtakes another.
   */
  lemma DeclinedKeysInOrder(s: State, j: nat)
    requires Reachable(s) && j < |s.conns|
    ensures var c := s.conns[j];
            var n := c.joined + |Pick(SourceOf, c.asked)|;
            && n <= |s.typed| && (c.closed == None ==> n == Started(s, j))
            && Pick(SourceOf, c.asked) == Keys.Sources(s.typed[c.joined..n])
            && Requests(c.answered) <= c.asked && |c.asked| <= |Requests(c.answered)| + 1
            && (Without(c, {SEND_DATA}) ==>
                  Data(Pick(FromOf(j), s.effects)) + Data(Pending(s, j)) == Declined(c.answered))
  {
    ReachableKeys(s, j);
    KeysAsked(s, j);
    ReachableConn(s, j);
    EveryMessageOnce(s, j);
    OneRequestAtATime(s, j);
    var c := s.conns[j];
    AllAnswered(c);
    AnsweredAsked(TalkWith(s, j), c);
    assert AnswersOk(c);
    hide Pick, ConnOk, KeysOf, Reachable, Pending, Started;
    if Without(c, {SEND_DATA}) {
      DataIsEchoes(c.raised);
      PickConcat(DataOf, Pick(FromOf(j), s.effects), Pending(s, j));
    }
  }

  lemma KeysAsked(s: State, j: nat)
    requires j < |s.conns| && KeysOf(s, j)
    ensures var c := s.conns[j];
            var n := c.joined + |Pick(SourceOf, c.asked)|;
            c.joined + c.served <= n <= |s.typed| && Pick(SourceOf, c.asked) == Keys.Sources(s.typed[c.joined..n])
  {
    hide Pick, Keys.Sources;
  }

  lemma ReachableKeys(s: State, j: nat)
    requires Reachable(s) && j < |s.conns|
    ensures KeysOf(s, j)
    ensures s.conns[j].closed == None ==> s.conns[j].joined + |Pick(SourceOf, s.conns[j].asked)| == Started(s, j)
  {
    hide Reachable, ConnsOk, EffectsOk, PassedOk, DirectOk, Pick, Keys.Sources;
    ReachableInv(s);
    assert KeysOk(s);
  }

  /**
   The server writes a finished key to the pty itself, once and in typing order, exactly when no client's
   response to it was taken.
   */
  lemma DirectExactly(s: State)
    requires Reachable(s)
    ensures Pick(NumberOf, s.effects) == Alone(s.conns, |s.done|)
    ensures forall e :: e in s.effects && e.Direct? ==> e.number < |s.done| && e.source == s.done[e.number].source
  {
    hide ConnsOk, EffectsOk, KeysOk, PassedOk, ServerOk;
    ReachableInv(s);
  }

  /** No key finished while a client was connected, and still is, is written by the server itself. */
  lemma LiveClientServes(s: State, j: nat, i: nat)
    requires Reachable(s) && j < |s.conns| && s.conns[j].closed == None && s.conns[j].joined <= i < |s.done|
    ensures i !in Alone(s.conns, |s.done|)
  {
    ReachableKeys(s, j);
    assert Serves(s.conns[j], i);
    AloneUnserved(s.conns, |s.done|);
  }

  lemma {:induction false} AloneUnserved(conns: seq<Conn>, n: nat)
    ensures forall i: nat :: i in Alone(conns, n) <==> i < n && !Served(conns, i)
  {
    hide Served;
    if n > 0 {
      AloneUnserved(conns, n - 1);
    }
  }

  /**
   A key is not written by the server itself and echoed as well.  The echoes dispatched for a client, even
   one that has gone, are of keys whose responses were taken; those are the first keys typed since it
   joined, and the server wrote none of them itself.
   */
  lemma NeverBoth(s: State, j: nat)
    requires Reachable(s) && j < |s.conns|
    ensures var c := s.conns[j];
            && |c.dispatched| <= |c.raised| && Pick(FromOf(j), s.effects) == Wires(c.raised[..|c.dispatched|])
            && c.responses <= |c.answered| && c.joined + c.served <= |s.typed|
            && Pick(EchoOf, c.raised[..|c.dispatched|]) <= Declined(c.answered[..c.responses])
            && Pick(SourceOf, Requests(c.answered[..c.responses]))
               == Keys.Sources(s.typed[c.joined..c.joined + c.served])
            && forall i :: c.joined <= i < c.joined + c.served ==> i !in Alone(s.conns, |s.done|)
  {
    var c := s.conns[j];
    ReachableKeys(s, j);
    ReachableInv(s);
    ReachableConn(s, j);
    DispatchedRaised(TalkWith(s, j), c);
    ServedSources(s, j);
    AloneUnserved(s.conns, |s.done|);
    assert forall i :: Serves(c, i) ==> Served(s.conns, i);
    EchoesDispatched(TalkWith(s, j), c);
    hide Pick, Inv, Reachable, Alone;
  }

  /** The messages dispatched are the first ones raised. */
  lemma DispatchedRaised(t: Talk, c: Conn)
    requires Conserved(t, c)
    ensures |c.dispatched| <= |c.raised| && c.dispatched == Wires(c.raised[..|c.dispatched|])
  {
    AheadBounded(t, c);
    var n := |c.dispatched|;
    TotalPickPrefix(WireOf, c.raised, n);
    hide Pick;
    assert c.dispatched == Wires(c.raised)[..n];
  }

  lemma EchoesDispatched(t: Talk, c: Conn)
    requires EchoesOk(t, c)
    ensures |c.dispatched| <= |c.raised| && c.responses <= |c.answered|
    ensures Pick(EchoOf, c.raised[..|c.dispatched|]) <= Declined(c.answered[..c.responses])
  {
    var ahead := c.raised[..Ahead(t, c)];
    PickPrefix(EchoOf, ahead, |c.dispatched|);
    hide Pick;
    assert ahead[..|c.dispatched|] == c.raised[..|c.dispatched|];
  }

  lemma TotalPickPrefix<A, B>(f: A -> Option<B>, s: seq<A>, n: nat)
    requires n <= |s| && forall x :: f(x).Some?
    ensures |Pick(f, s)| == |s| && Pick(f, s[..n]) == Pick(f, s)[..n]
  {
    hide Pick;
    PickPrefix(f, s, n);
    TotalPick(f, s);
    TotalPick(f, s[..n]);
  }

  /** The keys of the first requests are the first keys asked about. */
  lemma FirstAnswered(asked: seq<Message>, answered: seq<Answer>, responses: nat, keys: seq<KeyInput>)
    requires Requests(answered) <= asked && responses <= |answered| && responses <= |asked|
    requires Pick(SourceOf, asked) == Keys.Sources(keys)
    ensures var served := |Pick(SourceOf, asked[..responses])|;
            served <= |keys| && Pick(SourceOf, Requests(answered[..responses])) == Keys.Sources(keys[..served])
  {
    hide Pick;
    TotalPickPrefix(RequestIn, answered, responses);
    assert Requests(answered[..responses]) == asked[..responses];
    PickPrefix(SourceOf, asked, responses);
    TotalPick(Keys.SourceOfKey, keys);
    TotalPickPrefix(Keys.SourceOfKey, keys, |Pick(SourceOf, asked[..responses])|);
  }

  lemma ServedSources(s: State, j: nat)
    requires j < |s.conns| && KeysOf(s, j) && ConnOk(TalkWith(s, j), s.conns[j])
    ensures var c := s.conns[j];
            && c.responses <= |c.answered| && c.joined + c.served <= |s.typed|
            && Pick(SourceOf, Requests(c.answered[..c.responses]))
               == Keys.Sources(s.typed[c.joined..c.joined + c.served])
  {
    hide Pick, ConnOk, KeysOf, Keys.Sources, Requests;
    var c := s.conns[j];
    KeysAsked(s, j);
    AnsweredAsked(TalkWith(s, j), c);
    var keys := s.typed[c.joined..c.joined + |Pick(SourceOf, c.asked)|];
    FirstAnswered(c.asked, c.answered, c.responses, keys);
    assert keys[..c.served] == s.typed[c.joined..c.joined + c.served];
  }

  lemma AnsweredAsked(t: Talk, c: Conn)
    requires ConnOk(t, c)
    ensures Requests(c.answered) <= c.asked && c.responses <= |c.answered|
    ensures TallyOk(c)
  {
    AllAnswered(c);
    hide Pick, Encode, Survives, Decode;
  }

  // ----- the bytes of the pty

  predicate Dispatchable(effects: seq<Effect>) {
    forall e :: e in effects && e.From? ==> WellFormed(e.message)
  }

  /** What an effect writes to the pty. */
  function BytesOf(e: Effect, config: Server.Config): seq<byte>
    requires e.From? ==> WellFormed(e.message)
  {
    match e
    case Direct(_, source) => source
    case From(_, m) => Server.PtyBytes(m, config)
  }

  /** All that has been written to the pty. */
  function PtyOutput(effects: seq<Effect>, config: Server.Config): seq<byte>
    requires Dispatchable(effects)
  {
    if effects == [] then [] else BytesOf(effects[0], config) + PtyOutput(effects[1..], config)
  }

  lemma {:induction false} PtyAllConcat(a: seq<Message>, b: seq<Message>, config: Server.Config)
    requires Server.AllWellFormed(a) && Server.AllWellFormed(b)
    ensures Server.PtyAll(a + b, config) == Server.PtyAll(a, config) + Server.PtyAll(b, config)
  {
    hide Server.PtyBytes;
    if a == [] {
      assert a + b == b;
    } else {
      assert (a + b)[1..] == a[1..] + b;
      PtyAllConcat(a[1..], b, config);
      Assoc(Server.PtyBytes(a[0], config), Server.PtyAll(a[1..], config), Server.PtyAll(b, config));
    }
  }

  /** The keys the server wrote itself, as bytes. */
  function SourceOfDirect(e: Effect): Option<seq<byte>> {
    if e.Direct? then Some(e.source) else None
  }

  predicate AllBelow(numbers: seq<nat>, n: nat) {
    forall k :: 0 <= k < |numbers| ==> numbers[k] < n
  }

  /** The bytes of some of the keys, by number. */
  function KeyBytes(keys: seq<KeyInput>, numbers: seq<nat>): seq<seq<byte>>
    requires AllBelow(numbers, |keys|)
  {
    seq(|numbers|, k requires 0 <= k < |numbers| => keys[numbers[k]].source)
  }

  /** The effects of the server itself and of client j, leaving out those of other clients. */
  function Of(effects: seq<Effect>, j: nat): seq<Effect> {
    if effects == [] then []
    else (if effects[0].Direct? || effects[0].client == j then [effects[0]] else []) + Of(effects[1..], j)
  }

  /** Nothing the server wrote itself comes after something from client j. */
  ghost predicate OwnFirst(effects: seq<Effect>, j: nat) {
    forall p, q :: 0 <= p < q < |effects| && effects[p].From? && effects[p].client == j ==> effects[q].From?
  }

  lemma {:induction false} NoneDirect(effects: seq<Effect>)
    requires forall p :: 0 <= p < |effects| ==> effects[p].From?
    ensures Pick(SourceOfDirect, effects) == []
  {
    if effects != [] {
      NoneDirect(effects[1..]);
    }
  }

  /** Then the bytes are those of the server's keys followed by those of the client's messages. */
  lemma {:induction false} OwnOutput(effects: seq<Effect>, j: nat, config: Server.Config)
    requires Dispatchable(effects) && OwnFirst(effects, j)
    ensures Dispatchable(Of(effects, j)) && Server.AllWellFormed(Pick(FromOf(j), effects))
    ensures PtyOutput(Of(effects, j), config)
         == Flatten(Pick(SourceOfDirect, effects)) + Server.PtyAll(Pick(FromOf(j), effects), config)
  {
    if effects == [] {
      Server.PtyAllNothing(config);
      NoOutput(config);
    } else {
      var e, rest := effects[0], effects[1..];
      RestOwn(effects, j);
      OwnOutput(rest, j, config);
      assert effects == [e] + rest;
      hide Pick, PtyOutput, Flatten, Server.PtyAll, Dispatchable, Server.AllWellFormed;
      PickCons(SourceOfDirect, e, rest);
      PickCons(FromOf(j), e, rest);
      var own, ms, sources := Of(rest, j), Pick(FromOf(j), rest), Pick(SourceOfDirect, rest);
      if e.Direct? {
        OutputCons(e, own, config);
        FlattenCons(e.source, sources);
        Assoc(e.source, Flatten(sources), Server.PtyAll(ms, config));
      } else if e.client == j {
        OutputCons(e, own, config);
        PtyAllCons(e.message, ms, config);
        FlattenNothing();
        assert [] + Server.PtyAll([e.message] + ms, config) == Server.PtyAll([e.message] + ms, config);
        assert [] + Server.PtyAll(ms, config) == Server.PtyAll(ms, config);
      } else {
        assert [] + own == own;
      }
    }
  }

  lemma FlattenNothing()
    ensures Flatten<byte>([]) == []
  {
  }

  lemma RestOwn(effects: seq<Effect>, j: nat)
    requires effects != [] && Dispatchable(effects) && OwnFirst(effects, j)
    ensures Dispatchable(effects[1..]) && OwnFirst(effects[1..], j)
    ensures effects[0].From? ==> WellFormed(effects[0].message)
    ensures effects[0].From? && effects[0].client == j ==> Pick(SourceOfDirect, effects[1..]) == []
  {
    var rest := effects[1..];
    assert effects[0] in effects && forall x :: x in rest ==> x in effects;
    assert forall p :: 0 <= p < |rest| ==> rest[p] == effects[p + 1];
    hide Pick;
    if effects[0].From? && effects[0].client == j {
      NoneDirect(rest);
    }
  }

  lemma NoOutput(config: Server.Config)
    ensures PtyOutput([], config) == []
  {
  }

  lemma PtyAllCons(m: Message, ms: seq<Message>, config: Server.Config)
    requires WellFormed(m) && Server.AllWellFormed(ms)
    ensures Server.AllWellFormed([m] + ms)
    ensures Server.PtyAll([m] + ms, config) == Server.PtyBytes(m, config) + Server.PtyAll(ms, config)
  {
    hide Server.PtyBytes;
    assert ([m] + ms)[1..] == ms;
  }

  lemma OutputCons(e: Effect, effects: seq<Effect>, config: Server.Config)
    requires Dispatchable(effects) && (e.From? ==> WellFormed(e.message))
    ensures Dispatchable([e] + effects)
    ensures PtyOutput([e] + effects, config) == BytesOf(e, config) + PtyOutput(effects, config)
  {
    assert ([e] + effects)[1..] == effects;
  }

  lemma {:induction false} DirectSources(effects: seq<Effect>, keys: seq<KeyInput>)
    requires forall e :: e in effects && e.Direct? ==> e.number < |keys| && e.source == keys[e.number].source
    ensures AllBelow(Pick(NumberOf, effects), |keys|)
    ensures Pick(SourceOfDirect, effects) == KeyBytes(keys, Pick(NumberOf, effects))
  {
    if effects != [] {
      hide Pick, KeyBytes;
      var e, rest := effects[0], effects[1..];
      assert effects == [e] + rest && forall x :: x in rest ==> x in effects;
      DirectSources(rest, keys);
      PickCons(NumberOf, e, rest);
      PickCons(SourceOfDirect, e, rest);
      if e.Direct? {
        KeyBytesCons(keys, e.number, Pick(NumberOf, rest));
      }
    }
  }

  lemma KeyBytesCons(keys: seq<KeyInput>, n: nat, numbers: seq<nat>)
    requires n < |keys| && AllBelow(numbers, |keys|)
    ensures AllBelow([n] + numbers, |keys|)
    ensures KeyBytes(keys, [n] + numbers) == [keys[n].source] + KeyBytes(keys, numbers)
  {
  }

  /** The keys typed are cut from the bytes read, none left out. */
  ghost predicate InputOk(s: State) {
    Flatten(Keys.Sources(s.typed)) == s.input
  }

  lemma StepInput(s: State, step: Step)
    requires InputOk(s) && Enabled(s, step)
    ensures InputOk(Apply(s, step))
  {
    hide Keys.Cut, Flatten;
    if step.Type? {
      var keys := Keys.Cut(step.buffer, step.caps).value;
      Keys.CutWhole(step.buffer, step.caps);
      PickConcat(Keys.SourceOfKey, s.typed, keys);
      FlattenConcat(Keys.Sources(s.typed), Keys.Sources(keys));
    }
  }

  lemma {:induction false} RunInput(s: State, steps: seq<Step>)
    requires InputOk(s) && Run(s, steps)
    ensures InputOk(After(s, steps))
    decreases |steps|
  {
    hide InputOk, Apply, Enabled;
    if steps != [] {
      StepInput(s, steps[0]);
      RunInput(Apply(s, steps[0]), steps[1..]);
    }
  }

  lemma ReachableInput(s: State)
    requires Reachable(s)
    ensures InputOk(s)
  {
    var steps :| Run(Initial(), steps) && After(Initial(), steps) == s;
    assert Keys.Sources([]) == [];
    RunInput(Initial(), steps);
  }

  lemma TypedDone(s: State)
    requires Reachable(s)
    ensures s.done <= s.typed && (s.jobs == [] ==> s.typed == s.done)
  {
    ReachableInv(s);
  }

  /** The numbers below n. */
  function Below(n: nat): seq<nat> {
    seq(n, i => i)
  }

  lemma BelowBytes(keys: seq<KeyInput>, n: nat)
    requires n <= |keys|
    ensures KeyBytes(keys, Below(n)) == Keys.Sources(keys[..n])
  {
    SourcesAt(keys[..n]);
    assert |KeyBytes(keys, Below(n))| == |Keys.Sources(keys[..n])| == n;
    assert forall k :: 0 <= k < n ==> KeyBytes(keys, Below(n))[k] == keys[k].source == Keys.Sources(keys[..n])[k];
  }

  lemma {:induction false} SourcesAt(keys: seq<KeyInput>)
    ensures |Keys.Sources(keys)| == |keys| && forall k :: 0 <= k < |keys| ==> Keys.Sources(keys)[k] == keys[k].source
  {
    if keys != [] {
      SourcesAt(keys[1..]);
      assert Keys.Sources(keys) == [keys[0].source] + Keys.Sources(keys[1..]);
    }
  }

  /** While some client serves every key, the server writes no more of them. */
  lemma {:induction false} AloneStops(conns: seq<Conn>, m: nat, n: nat)
    requires m <= n && forall i :: m <= i < n ==> Served(conns, i)
    ensures Alone(conns, n) == Alone(conns, m)
    decreases n
  {
    hide Served;
    if m < n {
      AloneStops(conns, m, n - 1);
      assert Served(conns, n - 1);
    }
  }

  lemma {:induction false} AloneAll(conns: seq<Conn>, n: nat)
    requires forall i: nat :: i < n ==> !Served(conns, i)
    ensures Alone(conns, n) == Below(n)
  {
    hide Served;
    if n > 0 {
      AloneAll(conns, n - 1);
    }
  }

  lemma EffectsDispatchable(s: State)
    requires Reachable(s)
    ensures Dispatchable(s.effects)
  {
    ReachableInv(s);
    hide ServerOk, ConnsOk, EffectsOk, KeysOk, PassedOk, Pick;
    assert forall e :: e in s.effects ==> EffectOk(s, e);
  }

  /** What the server wrote itself, in bytes. */
  lemma DirectWritten(s: State)
    requires Reachable(s)
    ensures AllBelow(Alone(s.conns, |s.done|), |s.done|)
    ensures Pick(SourceOfDirect, s.effects) == KeyBytes(s.done, Alone(s.conns, |s.done|))
  {
    hide Reachable, Pick, Alone;
    DirectExactly(s);
    DirectSources(s.effects, s.done);
  }

  lemma {:induction false} OfAll(effects: seq<Effect>)
    requires forall e :: e in effects && e.From? ==> e.client == 0
    ensures Of(effects, 0) == effects
  {
    if effects != [] {
      assert effects[0] in effects && forall x :: x in effects[1..] ==> x in effects;
      OfAll(effects[1..]);
    }
  }

  lemma FromListed(s: State)
    requires Reachable(s)
    ensures forall e :: e in s.effects && e.From? ==> e.client < |s.conns|
    ensures forall j: nat :: j >= |s.conns| ==> Pick(FromOf(j), s.effects) == []
  {
    ReachableInv(s);
    hide ServerOk, ConnsOk, KeysOk, PassedOk, Pick;
    assert forall e :: e in s.effects ==> EffectOk(s, e);
  }

  /**
   With no client the pty receives the keys finished, in typing order; once the server rests, that is
   exactly the bytes read from the terminal.
   */
  lemma NoClientPassThrough(s: State, config: Server.Config)
    requires Reachable(s) && s.conns == []
    ensures Dispatchable(s.effects) && s.done <= s.typed
    ensures PtyOutput(s.effects, config) == Flatten(Keys.Sources(s.done))
    ensures s.jobs == [] ==> PtyOutput(s.effects, config) == s.input
  {
    hide Reachable, Keys.Sources, Flatten, Alone, Pick;
    ReachableInput(s);
    TypedDone(s);
    EffectsDispatchable(s);
    FromListed(s);
    OfAll(s.effects);
    OwnOutput(s.effects, 0, config);
    DirectWritten(s);
    AloneAll(s.conns, |s.done|);
    BelowBytes(s.done, |s.done|);
    Server.PtyAllNothing(config);
    assert s.done[..|s.done|] == s.done;
    var written := Flatten(Keys.Sources(s.done));
    assert written + [] == written;
  }

  /** Nothing is under way: the server rests, and the client is idle with its channel empty, or removed. */
  predicate AtRest(s: State, c: Conn) {
    Resting(s) && if c.closed == None then c.phase == Idle && c.up == [] && c.outbox == [] else !c.listed
  }

  ghost predicate AllAtRest(s: State) {
    Resting(s) && forall j :: 0 <= j < |s.conns| ==> AtRest(s, s.conns[j])
  }

  predicate AllLive(s: State) {
    forall j :: 0 <= j < |s.conns| ==> s.conns[j].closed == None
  }

  lemma NothingPending(s: State, j: nat)
    requires Reachable(s) && j < |s.conns| && s.conns[j].closed == None && AtRest(s, s.conns[j])
    ensures Pending(s, j) == [] && s.conns[j].asked == Requests(s.conns[j].answered)
  {
    ReachableConn(s, j);
    var c := s.conns[j];
    assert |c.up + c.outbox| == 0;
  }

  /** The messages of a client are ones that can be dispatched. */
  lemma {:induction false} OthersWellFormed(ms: seq<Message>)
    requires forall m :: m in ms ==> Upward(m)
    ensures forall m :: m in Others(ms) ==> FromClient(m)
  {
    if ms != [] {
      assert ms[0] in ms && forall m :: m in ms[1..] ==> m in ms;
      OthersWellFormed(ms[1..]);
    }
  }

  lemma PendingWellFormed(s: State, j: nat)
    requires Reachable(s) && j < |s.conns|
    ensures Server.AllWellFormed(Pending(s, j))
  {
    ReachableConn(s, j);
    hide Pick, Encode, Sendable;
    OthersWellFormed(s.conns[j].inflight);
    assert forall m :: m in Pending(s, j) ==> FromClient(m);
    forall i | 0 <= i < |Pending(s, j)| ensures WellFormed(Pending(s, j)[i]) {
      assert Pending(s, j)[i] in Pending(s, j);
    }
  }

  /** The server writes nothing itself behind something of a client that has not gone. */
  lemma ClientLast(s: State, j: nat)
    requires Reachable(s) && j < |s.conns| && s.conns[j].closed == None
    ensures s.conns[j].joined <= |s.done| && Alone(s.conns, |s.done|) == Alone(s.conns, s.conns[j].joined)
    ensures OwnFirst(s.effects, j)
  {
    hide Reachable, Pick, Alone, KeysOf, Served;
    ReachableKeys(s, j);
    var c := s.conns[j];
    ServesSince(s, j);
    forall i | c.joined <= i < |s.done| ensures Served(s.conns, i) {
      ServedBy(s.conns, j, i);
    }
    AloneStops(s.conns, c.joined, |s.done|);
    AloneUnserved(s.conns, |s.done|);
    NumbersPicked(s.effects);
    DirectExactly(s);
    assert DirectOk(s) by { ReachableInv(s); }
    assert forall e :: e in s.effects && e.Direct? ==> e.number < c.joined;
    EarlyFirst(s, j);
  }

  lemma ServedBy(conns: seq<Conn>, j: nat, i: nat)
    requires j < |conns|
    ensures Serves(conns[j], i) ==> Served(conns, i)
  {
  }

  lemma EarlyFirst(s: State, j: nat)
    requires DirectOk(s) && j < |s.conns|
    requires forall e :: e in s.effects && e.Direct? ==> e.number < s.conns[j].joined
    ensures OwnFirst(s.effects, j)
  {
    hide Pick, Alone, EffectOk;
    forall p, q | 0 <= p < q < |s.effects| && s.effects[p].From? && s.effects[p].client == j
      ensures s.effects[q].From?
    {
      assert s.effects[q] in s.effects;
    }
  }

  lemma ServesSince(s: State, j: nat)
    requires j < |s.conns| && KeysOf(s, j) && s.conns[j].closed == None
    ensures s.conns[j].joined <= |s.done| <= s.conns[j].joined + s.conns[j].served
  {
    hide Pick, Keys.Sources;
  }

  lemma {:induction false} NumbersPicked(effects: seq<Effect>)
    ensures forall e :: e in effects && e.Direct? ==> e.number in Pick(NumberOf, effects)
  {
    if effects != [] {
      NumbersPicked(effects[1..]);
    }
  }

  lemma AlonePrefix(s: State, j: nat)
    requires Reachable(s) && j < |s.conns| && s.conns[j].closed == None
    ensures s.conns[j].joined <= |s.typed| && AllBelow(Alone(s.conns, s.conns[j].joined), |s.typed|)
    ensures Pick(SourceOfDirect, s.effects) == KeyBytes(s.typed, Alone(s.conns, s.conns[j].joined))
  {
    hide Reachable, Alone, Pick;
    ClientLast(s, j);
    DirectWritten(s);
    TypedDone(s);
    var numbers := Alone(s.conns, s.conns[j].joined);
    assert KeyBytes(s.done, numbers) == KeyBytes(s.typed, numbers);
  }

  /**
   In every reachable state, for a client that has not gone, among any number of others: leaving out what
   comes from the others, the pty has received the keys from before the client joined that nobody took; and
   what is written since for the client's messages, followed by what will be for those pending, is what
   all messages the client raised write, in the order raised.
   */
  lemma ClientWrites(s: State, j: nat, config: Server.Config)
    requires Reachable(s) && j < |s.conns| && s.conns[j].closed == None
    ensures var c, own, pending := s.conns[j], Of(s.effects, j), Pending(s, j);
            && c.joined <= |s.typed| && AllBelow(Alone(s.conns, c.joined), |s.typed|)
            && Dispatchable(own) && Server.AllWellFormed(pending) && Server.AllWellFormed(Wires(c.raised))
            && PtyOutput(own, config) + Server.PtyAll(pending, config)
               == Flatten(KeyBytes(s.typed, Alone(s.conns, c.joined))) + Server.PtyAll(Wires(c.raised), config)
  {
    hide Pick, Reachable, Pending, Alone, BytesOf, Server.PtyBytes, Server.PtyAll, PtyOutput, Wires, Of, Flatten;
    EveryMessageOnce(s, j);
    PendingWellFormed(s, j);
    EffectsDispatchable(s);
    ClientLast(s, j);
    AlonePrefix(s, j);
    OwnOutput(s.effects, j, config);
    var dispatched, pending := Pick(FromOf(j), s.effects), Pending(s, j);
    PtyAllConcat(dispatched, pending, config);
    Assoc(Flatten(Pick(SourceOfDirect, s.effects)), Server.PtyAll(dispatched, config), Server.PtyAll(pending, config));
  }

  /**
   Once the client and the server are at rest, nothing is pending; among what the client's messages have
   written are the echoes of exactly the keys it declined, and it has answered every key typed since it joined.
   */
  lemma ClientAtRest(s: State, j: nat, config: Server.Config)
    requires Reachable(s) && j < |s.conns| && s.conns[j].closed == None && AtRest(s, s.conns[j])
    ensures var c, own := s.conns[j], Of(s.effects, j);
            && c.joined <= |s.typed| && AllBelow(Alone(s.conns, c.joined), |s.typed|)
            && Dispatchable(own) && Server.AllWellFormed(Wires(c.raised))
            && PtyOutput(own, config)
               == Flatten(KeyBytes(s.typed, Alone(s.conns, c.joined))) + Server.PtyAll(Wires(c.raised), config)
            && Pick(EchoOf, c.raised) == Declined(c.answered)
            && Pick(SourceOf, Requests(c.answered)) == Keys.Sources(s.typed[c.joined..])
  {
    hide Reachable, Pick, Pending, Alone, Server.PtyAll, PtyOutput, Wires, KeyJob, Of, Flatten;
    var c := s.conns[j];
    ClientWrites(s, j, config);
    NothingPending(s, j);
    Server.PtyAllNothing(config);
    DeclinedKeysInOrder(s, j);
    TypedDone(s);
    assert AnswersOk(c) by { ReachableConn(s, j); }
    assert Started(s, j) == |s.typed| by { RestStarted(s, j); }
    var written := PtyOutput(Of(s.effects, j), config);
    assert written + [] == written;
    assert s.typed[c.joined..] == s.typed[c.joined..|s.typed|];
  }

  lemma RestStarted(s: State, j: nat)
    requires s.jobs == [] && s.typed == s.done
    ensures Started(s, j) == |s.typed|
  {
  }

  /** With one client, and none before it, that is all the pty has received: the keys from before it joined first. */
  lemma OnlyClient(s: State)
    requires Reachable(s) && |s.conns| == 1
    ensures Of(s.effects, 0) == s.effects && s.conns[0].joined <= |s.typed|
    ensures Alone(s.conns, s.conns[0].joined) == Below(s.conns[0].joined)
    ensures KeyBytes(s.typed, Below(s.conns[0].joined)) == Keys.Sources(s.typed[..s.conns[0].joined])
  {
    hide Reachable, Alone, Pick;
    var n := s.conns[0].joined;
    FromListed(s);
    OfAll(s.effects);
    assert forall i: nat :: i < n ==> !Served(s.conns, i);
    AloneAll(s.conns, n);
    DeclinedKeysInOrder(s, 0);
    BelowBytes(s.typed, n);
  }

  /** The client's program raises only what fep_client_send_text raises. */
  ghost predicate TextOnly(raised: seq<Raised>) {
    forall r :: r in raised && r.ByProgram? ==>
                  exists text :: 0 !in text && r.message == Message(SEND_TEXT, [text + [0]])
  }

  /** What is written for one thing raised: the conversion of a text, if there is one, or the bytes of a key. */
  function Spoken(config: Server.Config): Raised -> Option<seq<byte>> {
    (r: Raised) =>
      match r
      case Echo(source) => Some(source)
      case ByProgram(m) =>
        if |m.args| == 1 && m.args[0] != [] then config.iconv(m.args[0][..|m.args[0]| - 1]) else None
  }

  lemma {:induction false} TextWrites(raised: seq<Raised>, config: Server.Config)
    requires TextOnly(raised)
    ensures Server.AllWellFormed(Wires(raised))
    ensures Server.PtyAll(Wires(raised), config) == Flatten(Pick(Spoken(config), raised))
  {
    if raised == [] {
      Server.PtyAllNothing(config);
    } else {
      var r, rest := raised[0], raised[1..];
      assert raised == [r] + rest && r in raised && forall x :: x in rest ==> x in raised;
      TextWrites(rest, config);
      SpokenByte(r, config);
      hide Flatten, Pick, Server.PtyAll, Server.PtyBytes, TextOnly, Spoken;
      PickCons(WireOf, r, rest);
      PickCons(Spoken(config), r, rest);
      PtyAllCons(WireOf(r).value, Wires(rest), config);
      var said := Pick(Spoken(config), rest);
      if Spoken(config)(r).Some? {
        FlattenCons(Spoken(config)(r).value, said);
      } else {
        assert [] + Flatten(said) == Flatten(said);
      }
    }
  }

  lemma SpokenByte(r: Raised, config: Server.Config)
    requires TextOnly([r])
    ensures WellFormed(WireOf(r).value) && Server.PtyBytes(WireOf(r).value, config) == Spoken(config)(r).GetOr([])
  {
    assert r in [r];
    if r.ByProgram? {
      var text :| 0 !in text && r.message == Message(SEND_TEXT, [text + [0]]);
      Server.TextWritten(text, config);
      assert (text + [0])[..|text|] == text;
    }
  }

  /**
   For a client at rest whose program commits text and raises nothing else, its messages have written, in the
   order raised, the conversion of each text that converts, and nothing for one that does not, among
   the bytes of exactly the keys it declined.
   */
  lemma TextAtRest(s: State, j: nat, config: Server.Config)
    requires Reachable(s) && j < |s.conns| && s.conns[j].closed == None && AtRest(s, s.conns[j])
    requires TextOnly(s.conns[j].raised)
    ensures var c, own := s.conns[j], Of(s.effects, j);
            && c.joined <= |s.typed| && AllBelow(Alone(s.conns, c.joined), |s.typed|) && Dispatchable(own)
            && PtyOutput(own, config)
               == Flatten(KeyBytes(s.typed, Alone(s.conns, c.joined))) + Flatten(Pick(Spoken(config), c.raised))
            && Pick(EchoOf, c.raised) == Declined(c.answered)
  {
    hide Reachable, Pick, Alone, Server.PtyAll, PtyOutput, Flatten, Of, TextOnly;
    ClientAtRest(s, j, config);
    TextWrites(s.conns[j].raised, config);
  }

  lemma {:induction false} SilentWrites(raised: seq<Raised>, config: Server.Config)
    requires Server.AllWellFormed(Wires(raised))
    requires forall r :: r in raised && r.ByProgram? ==> r.message.command !in {SEND_DATA, SEND_TEXT, FORWARD_KEY_EVENT}
    ensures Server.PtyAll(Wires(raised), config) == Flatten(Pick(EchoOf, raised))
  {
    if raised != [] {
      var r, rest := raised[0], raised[1..];
      assert r in raised && forall x :: x in rest ==> x in raised;
      assert Wires(raised)[1..] == Wires(rest) && WellFormed(Wires(raised)[0]);
      assert forall i :: 0 <= i < |Wires(rest)| ==> Wires(rest)[i] == Wires(raised)[i + 1];
      SilentWrites(rest, config);
    }
  }

  /**
   So when the client's program sends no text, data or keys of its own, its messages have written exactly
   the keys it declined, in typing order.
   */
  lemma DeclinedKeysAtRest(s: State, j: nat, config: Server.Config)
    requires Reachable(s) && j < |s.conns| && s.conns[j].closed == None && AtRest(s, s.conns[j])
    requires Without(s.conns[j], {SEND_DATA, SEND_TEXT, FORWARD_KEY_EVENT})
    ensures var c, own := s.conns[j], Of(s.effects, j);
            && c.joined <= |s.typed| && AllBelow(Alone(s.conns, c.joined), |s.typed|)
            && Dispatchable(own)
            && PtyOutput(own, config)
               == Flatten(KeyBytes(s.typed, Alone(s.conns, c.joined))) + Flatten(Declined(c.answered))
            && Pick(SourceOf, Requests(c.answered)) == Keys.Sources(s.typed[c.joined..])
  {
    ClientAtRest(s, j, config);
    SilentWrites(s.conns[j].raised, config);
  }
}
