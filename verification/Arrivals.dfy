/** How often each key typed reaches the pty, with any number of clients that may go at any moment. */
module Arrivals {
  import opened Bytes
  import opened Codec
  import opened Protocol
  import opened Delivery
  import opened Runs
  import opened Rest
  import opened Sockets
  import Keys

  // ----- the answers about keys, and their numbers

  function KeyAnswerOf(a: Answer): Option<Answer> {
    if a.request.command == KEY_EVENT && |a.request.args| == 3 then Some(a) else None
  }

  /** The client's answers about keys; the first is about the first key typed since it joined. */
  function KeyAnswers(c: Conn): seq<Answer> {
    Pick(KeyAnswerOf, c.answered)
  }

  /** The client answered about key i that it did not handle it. */
  predicate Declines(c: Conn, i: nat) {
    c.joined <= i < c.joined + |KeyAnswers(c)| && KeyAnswers(c)[i - c.joined].value == 0
  }

  /** The numbers of the keys declined, the first answer about a key being about number `from`. */
  function DeclinedNumbers(answered: seq<Answer>, from: nat): seq<nat> {
    if answered == [] then []
    else
      match KeyAnswerOf(answered[0])
      case None => DeclinedNumbers(answered[1..], from)
      case Some(a) => (if a.value == 0 then [from] else []) + DeclinedNumbers(answered[1..], from + 1)
  }

  function Take<T>(s: seq<T>, n: nat): seq<T> {
    if n <= |s| then s[..n] else s
  }

  /** The numbers of the keys whose echoes were dispatched: as many of those declined as there were echoes. */
  function EchoedNumbers(c: Conn): seq<nat> {
    Take(DeclinedNumbers(c.answered, c.joined), |Pick(EchoOf, Take(c.raised, |c.dispatched|))|)
  }

  ghost predicate Increasing(s: seq<nat>) {
    forall p, q :: 0 <= p < q < |s| ==> s[p] < s[q]
  }

  /** The numbers, the first answer being about `from`, of the answers that decline. */
  ghost predicate NumbersOf(s: seq<nat>, ks: seq<Answer>, from: nat) {
    && Increasing(s)
    && forall i: nat :: i in s <==> from <= i < from + |ks| && ks[i - from].value == 0
  }

  lemma NumbersCons(s: seq<nat>, a: Answer, ks: seq<Answer>, from: nat)
    requires NumbersOf(s, ks, from + 1)
    ensures NumbersOf((if a.value == 0 then [from] else []) + s, [a] + ks, from)
  {
    forall k | 0 <= k < |s| ensures s[k] >= from + 1 {
      assert s[k] in s;
    }
    var r := (if a.value == 0 then [from] else []) + s;
    forall i: nat ensures i in r <==> from <= i < from + |ks| + 1 && ([a] + ks)[i - from].value == 0 {
      assert i in r <==> (a.value == 0 && i == from) || i in s;
    }
  }

  lemma {:induction false} DeclinedExact(answered: seq<Answer>, from: nat)
    ensures NumbersOf(DeclinedNumbers(answered, from), Pick(KeyAnswerOf, answered), from)
    ensures |DeclinedNumbers(answered, from)| == |Declined(answered)|
  {
    if answered != [] {
      hide NumbersOf, Pick;
      var a, rest := answered[0], answered[1..];
      assert answered == [a] + rest;
      PickCons(KeyAnswerOf, a, rest);
      PickCons(DeclinedOf, a, rest);
      if KeyAnswerOf(a) == None {
        DeclinedExact(rest, from);
      } else {
        DeclinedExact(rest, from + 1);
        NumbersCons(DeclinedNumbers(rest, from + 1), a, Pick(KeyAnswerOf, rest), from);
      }
    }
  }

  /** Sources of consecutive keys. */
  ghost predicate SourcesFrom(p: seq<seq<byte>>, keys: seq<KeyInput>, from: nat) {
    from + |p| <= |keys| && forall k :: 0 <= k < |p| ==> p[k] == keys[from + k].source
  }

  lemma SourcesRest(x: seq<byte>, p: seq<seq<byte>>, keys: seq<KeyInput>, from: nat)
    requires SourcesFrom([x] + p, keys, from)
    ensures from < |keys| && x == keys[from].source && SourcesFrom(p, keys, from + 1)
  {
    var q := [x] + p;
    assert q[0] == x && forall k :: 0 <= k < |p| ==> p[k] == q[k + 1];
  }

  /** The keys declined are those with the numbers, when the answers are about the keys from `from` on. */
  lemma {:induction false} DeclinedBytes(answered: seq<Answer>, from: nat, keys: seq<KeyInput>)
    requires SourcesFrom(Pick(SourceOf, Requests(answered)), keys, from)
    ensures AllBelow(DeclinedNumbers(answered, from), |keys|)
    ensures Declined(answered) == KeyBytes(keys, DeclinedNumbers(answered, from))
  {
    if answered != [] {
      var a, rest := answered[0], answered[1..];
      assert Requests(answered) == [a.request] + Requests(rest);
      assert answered == [a] + rest;
      hide KeyBytes, Pick, SourcesFrom, AllBelow, Requests;
      PickCons(DeclinedOf, a, rest);
      PickCons(SourceOf, a.request, Requests(rest));
      if KeyAnswerOf(a) == None {
        DeclinedBytes(rest, from, keys);
      } else {
        SourcesRest(a.request.args[2], Pick(SourceOf, Requests(rest)), keys, from);
        DeclinedBytes(rest, from + 1, keys);
        var numbers := DeclinedNumbers(rest, from + 1);
        KeyBytesCons(keys, from, numbers);
        assert [] + numbers == numbers;
      }
    } else {
      assert KeyBytes(keys, []) == [];
    }
  }

  /** How often a number occurs. */
  function Times(s: seq<nat>, i: nat): nat {
    if s == [] then 0 else (if s[0] == i then 1 else 0) + Times(s[1..], i)
  }

  lemma {:induction false} IncreasingOnce(s: seq<nat>, i: nat)
    requires Increasing(s)
    ensures Times(s, i) == if i in s then 1 else 0
  {
    if s != [] {
      assert forall p :: 0 <= p < |s[1..]| ==> s[1..][p] == s[p + 1] > s[0];
      IncreasingOnce(s[1..], i);
    }
  }

  /** Answers given earlier make for the first of the numbers. */
  lemma {:induction false} DeclinedPrefix(answered: seq<Answer>, n: nat, from: nat)
    requires n <= |answered|
    ensures DeclinedNumbers(answered[..n], from) <= DeclinedNumbers(answered, from)
    decreases |answered|
  {
    if n > 0 {
      var rest := answered[1..];
      assert answered[..n][0] == answered[0] && answered[..n][1..] == rest[..n - 1];
      DeclinedPrefix(rest, n - 1, from);
      DeclinedPrefix(rest, n - 1, from + 1);
    }
  }

  // ----- one client

  /** What was declined is known for the keys answered, which are those from when the client joined. */
  lemma AnsweredKeys(s: State, j: nat)
    requires Reachable(s) && j < |s.conns|
    ensures var c := s.conns[j];
            var p := Pick(SourceOf, Requests(c.answered));
            SourcesFrom(p, s.typed, c.joined) && |p| == |KeyAnswers(c)|
  {
    hide Reachable, Pick, Keys.Sources, Started, ConnOk;
    var c := s.conns[j];
    DeclinedKeysInOrder(s, j);
    var n := c.joined + |Pick(SourceOf, c.asked)|;
    var keys := s.typed[c.joined..n];
    SourcesAt(keys);
    PickPrefix(SourceOf, c.asked, |Requests(c.answered)|);
    assert c.asked[..|Requests(c.answered)|] == Requests(c.answered);
    SameAnswers(c.answered);
    assert forall k :: 0 <= k < |keys| ==> keys[k] == s.typed[c.joined + k];
  }

  lemma {:induction false} SameAnswers(answered: seq<Answer>)
    ensures |Pick(SourceOf, Requests(answered))| == |Pick(KeyAnswerOf, answered)|
  {
    if answered != [] {
      SameAnswers(answered[1..]);
      assert Requests(answered) == [answered[0].request] + Requests(answered[1..]);
      PickCons(SourceOf, answered[0].request, Requests(answered[1..]));
    }
  }

  /**
   The echoes dispatched for a client, even one that has gone, are the bytes of keys it declined, each once
   and in typing order, and of keys the server had its responses to.
   */
  lemma EchoedExact(s: State, j: nat)
    requires Reachable(s) && j < |s.conns|
    ensures var c, e := s.conns[j], EchoedNumbers(s.conns[j]);
            && |c.dispatched| <= |c.raised| && Pick(FromOf(j), s.effects) == Wires(c.raised[..|c.dispatched|])
            && AllBelow(e, |s.typed|) && Pick(EchoOf, c.raised[..|c.dispatched|]) == KeyBytes(s.typed, e)
            && Increasing(e) && forall i: nat :: i in e ==> Declines(c, i) && Serves(c, i)
  {
    hide Reachable, Pick, Alone;
    var c := s.conns[j];
    NeverBoth(s, j);
    AnsweredKeys(s, j);
    ReachableKeys(s, j);
    hide KeysOf;
    DeclinedExact(c.answered, c.joined);
    DeclinedBytes(c.answered, c.joined, s.typed);
    DeclinedPrefix(c.answered, c.responses, c.joined);
    DeclinedExact(c.answered[..c.responses], c.joined);
    PickPrefix(DeclinedOf, c.answered, c.responses);
    SameAnswers(c.answered[..c.responses]);
    ServedCount(s, j);
    EchoedTaken(c, s.typed);
    var e, some := EchoedNumbers(c), DeclinedNumbers(c.answered[..c.responses], c.joined);
    var all := DeclinedNumbers(c.answered, c.joined);
    hide EchoedNumbers, DeclinedNumbers, KeyBytes;
    forall i: nat | i in e ensures Declines(c, i) && Serves(c, i) {
      assert i in some && i in all;
    }
  }

  /** As many keys were served as are among the answers whose responses were taken. */
  lemma ServedCount(s: State, j: nat)
    requires Reachable(s) && j < |s.conns|
    ensures s.conns[j].responses <= |s.conns[j].answered| && s.conns[j].joined + s.conns[j].served <= |s.typed|
    ensures |Pick(SourceOf, Requests(s.conns[j].answered[..s.conns[j].responses]))| == s.conns[j].served
  {
    hide Reachable, Pick, Alone, Keys.Sources;
    NeverBoth(s, j);
    SourcesAt(s.typed[s.conns[j].joined..s.conns[j].joined + s.conns[j].served]);
  }

  /** Of the numbers declined the first are echoed, and they are among those answered in time. */
  lemma EchoedTaken(c: Conn, keys: seq<KeyInput>)
    requires |c.dispatched| <= |c.raised| && c.responses <= |c.answered|
    requires var all := DeclinedNumbers(c.answered, c.joined);
             var some := DeclinedNumbers(c.answered[..c.responses], c.joined);
             && AllBelow(all, |keys|) && Declined(c.answered) == KeyBytes(keys, all)
             && some <= all && |some| == |Declined(c.answered[..c.responses])|
    requires Declined(c.answered[..c.responses]) <= Declined(c.answered)
    requires Pick(EchoOf, c.raised[..|c.dispatched|]) <= Declined(c.answered[..c.responses])
    ensures var e := EchoedNumbers(c);
            && e <= DeclinedNumbers(c.answered[..c.responses], c.joined) && AllBelow(e, |keys|)
            && Pick(EchoOf, c.raised[..|c.dispatched|]) == KeyBytes(keys, e)
  {
    hide Pick, DeclinedNumbers;
    assert Take(c.raised, |c.dispatched|) == c.raised[..|c.dispatched|];
  }

  /** Of a client at rest that has not gone, the echoes of all the keys it declined have arrived. */
  lemma EchoedAtRest(s: State, j: nat)
    requires Reachable(s) && j < |s.conns| && s.conns[j].closed == None && AtRest(s, s.conns[j])
    ensures var c := s.conns[j];
            && |KeyAnswers(c)| == |s.typed| - c.joined && EchoedNumbers(c) == DeclinedNumbers(c.answered, c.joined)
            && forall i: nat :: i in EchoedNumbers(c) <==> Declines(c, i)
  {
    hide Reachable, Pick, Alone, Keys.Sources;
    var c := s.conns[j];
    NeverBoth(s, j);
    NothingPending(s, j);
    EveryMessageOnce(s, j);
    DeclinedKeysInOrder(s, j);
    AnsweredKeys(s, j);
    TypedDone(s);
    RestStarted(s, j);
    assert AnswersOk(c) by { ReachableConn(s, j); }
    DeclinedExact(c.answered, c.joined);
    assert Wires(c.raised[..|c.dispatched|]) == Wires(c.raised) by {
      assert Pick(FromOf(j), s.effects) + [] == Pick(FromOf(j), s.effects);
    }
    TotalPick(WireOf, c.raised);
    TotalPick(WireOf, c.raised[..|c.dispatched|]);
    assert c.raised[..|c.dispatched|] == c.raised == Take(c.raised, |c.dispatched|);
  }

  /**
   So for a program that raises no data of its own, the data dispatched for a client at rest are the bytes of
   exactly the keys typed since it joined that it declined, each once and in typing order.
   */
  lemma DataAtRest(s: State, j: nat)
    requires Reachable(s) && j < |s.conns| && s.conns[j].closed == None && AtRest(s, s.conns[j])
    requires Without(s.conns[j], {SEND_DATA})
    ensures var c := s.conns[j];
            var numbers := DeclinedNumbers(c.answered, c.joined);
            && AllBelow(numbers, |s.typed|) && Data(Pick(FromOf(j), s.effects)) == KeyBytes(s.typed, numbers)
            && Increasing(numbers) && |KeyAnswers(c)| == |s.typed| - c.joined
            && forall i: nat :: i in numbers <==> Declines(c, i)
  {
    hide Reachable, Pick, Alone, Keys.Sources;
    var c := s.conns[j];
    DeclinedKeysInOrder(s, j);
    EchoedAtRest(s, j);
    NothingPending(s, j);
    AnsweredKeys(s, j);
    DeclinedExact(c.answered, c.joined);
    DeclinedBytes(c.answered, c.joined, s.typed);
    var data := Data(Pick(FromOf(j), s.effects));
    assert Data([]) == [] by { NoData(); }
    assert data + [] == data;
  }

  lemma NoData()
    ensures Data([]) == []
  {
  }

  // ----- all clients

  /** How often key i is echoed. */
  function EchoCount(conns: seq<Conn>, i: nat): nat {
    if conns == [] then 0 else Times(EchoedNumbers(conns[0]), i) + EchoCount(conns[1..], i)
  }

  /** How often key i reaches the pty: written by the server itself, or echoed. */
  function Arrived(s: State, i: nat): nat {
    Times(Pick(NumberOf, s.effects), i) + EchoCount(s.conns, i)
  }

  /** The number of clients with some property. */
  function HowMany(conns: seq<Conn>, p: Conn -> bool): nat {
    if conns == [] then 0 else (if p(conns[0]) then 1 else 0) + HowMany(conns[1..], p)
  }

  function Echoing(i: nat): Conn -> bool {
    (c: Conn) => i in EchoedNumbers(c)
  }

  function Declining(i: nat): Conn -> bool {
    (c: Conn) => Declines(c, i)
  }

  lemma {:induction false} EchoCountExact(conns: seq<Conn>, i: nat)
    requires forall j :: 0 <= j < |conns| ==> Increasing(EchoedNumbers(conns[j]))
    ensures EchoCount(conns, i) == HowMany(conns, Echoing(i))
  {
    hide EchoedNumbers;
    if conns != [] {
      IncreasingOnce(EchoedNumbers(conns[0]), i);
      assert forall j :: 0 <= j < |conns[1..]| ==> conns[1..][j] == conns[j + 1];
      EchoCountExact(conns[1..], i);
    }
  }

  lemma {:induction false} HowManySame(conns: seq<Conn>, p: Conn -> bool, q: Conn -> bool)
    requires forall j :: 0 <= j < |conns| ==> p(conns[j]) == q(conns[j])
    ensures HowMany(conns, p) == HowMany(conns, q)
  {
    if conns != [] {
      assert forall j :: 0 <= j < |conns[1..]| ==> conns[1..][j] == conns[j + 1];
      HowManySame(conns[1..], p, q);
    }
  }

  lemma {:induction false} HowManyNone(conns: seq<Conn>, p: Conn -> bool)
    requires forall j :: 0 <= j < |conns| ==> !p(conns[j])
    ensures HowMany(conns, p) == 0
  {
    if conns != [] {
      assert forall j :: 0 <= j < |conns[1..]| ==> conns[1..][j] == conns[j + 1];
      HowManyNone(conns[1..], p);
    }
  }

  lemma {:induction false} AloneIncreasing(conns: seq<Conn>, n: nat)
    ensures Increasing(Alone(conns, n)) && AllBelow(Alone(conns, n), n)
  {
    hide Served;
    if n > 0 {
      AloneIncreasing(conns, n - 1);
    }
  }

  /**
   In every reachable state a finished key has reached the pty once if no client's response to it was taken,
   and otherwise once for each client whose echo of it was dispatched: no client echoes it twice.
   */
  lemma ArrivedExact(s: State, i: nat)
    requires Reachable(s) && i < |s.done|
    ensures Arrived(s, i) == if Served(s.conns, i) then HowMany(s.conns, Echoing(i)) else 1
    ensures forall j :: 0 <= j < |s.conns| && i in EchoedNumbers(s.conns[j]) ==> Declines(s.conns[j], i)
  {
    hide Reachable, Pick, EchoedNumbers, Served, Alone, Declines, KeyBytes;
    DirectExactly(s);
    AloneUnserved(s.conns, |s.done|);
    AloneIncreasing(s.conns, |s.done|);
    var numbers := Pick(NumberOf, s.effects);
    assert i in numbers <==> !Served(s.conns, i);
    IncreasingOnce(numbers, i);
    forall j | 0 <= j < |s.conns|
      ensures Increasing(EchoedNumbers(s.conns[j]))
      ensures i in EchoedNumbers(s.conns[j]) ==> Declines(s.conns[j], i) && Served(s.conns, i)
    {
      EchoedExact(s, j);
      ServedBy(s.conns, j, i);
    }
    EchoCountExact(s.conns, i);
    if !Served(s.conns, i) {
      HowManyNone(s.conns, Echoing(i));
    }
  }

  /** Whether the client's echo of key i arrives: if connected, when it declined it; if gone, when it got through. */
  function Arriving(i: nat): Conn -> bool {
    (c: Conn) => if c.closed == None then Declines(c, i) else i in EchoedNumbers(c)
  }

  /**
   At rest a key has arrived once if no client's response to it was taken, and otherwise once for each
   connected client that declined it and each client gone whose echo got through.
   */
  lemma ArrivedAtRest(s: State, i: nat)
    requires Reachable(s) && AllAtRest(s) && i < |s.typed|
    ensures Arrived(s, i) == if Served(s.conns, i) then HowMany(s.conns, Arriving(i)) else 1
  {
    hide Reachable, EchoedNumbers, Alone, Declines, KeyBytes, Pick, Keys.Sources, Served;
    TypedDone(s);
    ArrivedExact(s, i);
    forall j | 0 <= j < |s.conns| ensures Echoing(i)(s.conns[j]) == Arriving(i)(s.conns[j]) {
      if s.conns[j].closed == None {
        EchoedAtRest(s, j);
      }
    }
    HowManySame(s.conns, Echoing(i), Arriving(i));
  }

  /**
   So, when no client has gone, a key has arrived exactly once if and only if there was no client yet, or exactly
   one of those there declined it: a key that one client takes still arrives if another declines it.
   */
  lemma ArrivedOnce(s: State, i: nat)
    requires Reachable(s) && AllAtRest(s) && AllLive(s) && i < |s.typed|
    ensures var clients := exists j :: 0 <= j < |s.conns| && s.conns[j].joined <= i;
            && Arrived(s, i) == (if clients then HowMany(s.conns, Declining(i)) else 1)
            && (Arrived(s, i) == 1 <==> !clients || HowMany(s.conns, Declining(i)) == 1)
  {
    hide Reachable, EchoedNumbers, Alone, Declines, KeyBytes, Pick, Keys.Sources;
    TypedDone(s);
    ArrivedAtRest(s, i);
    forall j | 0 <= j < |s.conns|
      ensures Arriving(i)(s.conns[j]) == Declining(i)(s.conns[j])
      ensures Serves(s.conns[j], i) <==> s.conns[j].joined <= i
    {
      ReachableKeys(s, j);
      ServesSince(s, j);
    }
    HowManySame(s.conns, Arriving(i), Declining(i));
  }

  // ----- clients that have gone

  /** What of a client that has gone gets through: what the server has, and what it can still read. */
  function Through(t: Talk, c: Conn): seq<Message>
    requires c.closed.Some?
  {
    c.dispatched + Held(t) + Others(DecodeAll(c.up, c.closed.value).0)
  }

  /** Nothing of what decides changes. */
  ghost predicate SameThrough(t: Talk, c: Conn, t1: Talk, c1: Conn) {
    && c.closed.Some? && c1.closed == c.closed && c1.joined == c.joined
    && c1.raised == c.raised && c1.answered == c.answered && Through(t1, c1) == Through(t, c)
  }

  lemma ReadThrough(c: Conn)
    requires c.closed.Some? && Front(c.up).Received?
    ensures var e := c.closed.value;
            DecodeAll(c.up, e).0 == [Front(c.up).message] + DecodeAll(Front(c.up).rest, e).0
  {
    EndingIrrelevant(c.up, Error, c.closed.value);
    hide Decode;
  }

  /** A message read is held, or is a response; */
  lemma HeldThrough(t: Talk, c: Conn, c1: Conn, t1: Talk)
    requires t.Waiting? && c.closed.Some? && Front(c.up).Received?
    requires c1.closed == c.closed && c1.joined == c.joined && c1.raised == c.raised && c1.answered == c.answered
    requires c1.dispatched == c.dispatched && c1.up == Front(c.up).rest
    requires var m := Front(c.up).message;
             if m.command == RESPONSE then t1.Flushing? && t1.held == t.held
             else t1.Waiting? && t1.held == t.held + [m]
    ensures SameThrough(t, c, t1, c1)
  {
    ReadThrough(c);
    hide Front, DecodeAll, Pick;
    var m, later := Front(c.up).message, DecodeAll(Front(c.up).rest, c.closed.value).0;
    PickCons(OtherOf, m, later);
    if m.command != RESPONSE {
      Assoc(c.dispatched, t.held, [m]);
      Assoc(c.dispatched + t.held, [m], Others(later));
    }
  }

  /** a message read outside a request is dispatched; */
  lemma ReceivedThrough(c: Conn, c1: Conn)
    requires c.closed.Some? && Front(c.up).Received? && FromClient(Front(c.up).message)
    requires c1.closed == c.closed && c1.joined == c.joined && c1.raised == c.raised && c1.answered == c.answered
    requires c1.dispatched == c.dispatched + [Front(c.up).message] && c1.up == Front(c.up).rest
    ensures SameThrough(Quiet, c, Quiet, c1)
  {
    ReadThrough(c);
    hide Front, DecodeAll, Pick;
    var m, later := Front(c.up).message, DecodeAll(Front(c.up).rest, c.closed.value).0;
    PickCons(OtherOf, m, later);
    assert c.dispatched + [] == c.dispatched && c1.dispatched + [] == c1.dispatched;
    Assoc(c.dispatched, [m], Others(later));
  }

  /** and one held is dispatched. */
  lemma DispatchedThrough(t: Talk, c: Conn, c1: Conn)
    requires t.Flushing? && t.held != [] && c.closed.Some? && c1 == c.(dispatched := c.dispatched + [t.held[0]])
    ensures SameThrough(t, c, Flushing(t.held[1..], t.ok), c1)
  {
    hide DecodeAll, Pick;
    assert t.held == [t.held[0]] + t.held[1..];
    Assoc(c.dispatched, [t.held[0]], t.held[1..]);
  }

  /** Whether a step is one with which something of client j is read or dispatched. */
  predicate Concerns(s: State, step: Step, j: nat) {
    || (step.Read? && s.next == j) || (step.Dispatch? && s.next == j)
    || (step.Receive? && s.talk.Polling? && s.talk.client == j)
  }

  ghost predicate Untouched(s: State, s1: State, j: nat)
    requires j < |s.conns|
  {
    && j < |s1.conns| && Held(TalkWith(s1, j)) == Held(TalkWith(s, j))
    && var c, c1 := s.conns[j], s1.conns[j];
       && c1.closed == c.closed && c1.joined == c.joined && c1.raised == c.raised && c1.answered == c.answered
       && c1.dispatched == c.dispatched && c1.up == c.up
  }

  predicate External(step: Step) {
    step.Type? || step.WindowChange? || step.Accept? || step.Close?
  }

  lemma ExternalFields(s: State, step: Step, j: nat)
    requires Enabled(s, step) && External(step) && j < |s.conns| && s.conns[j].closed.Some?
    ensures Untouched(s, Apply(s, step), j)
  {
    hide Keys.Cut;
  }

  lemma ServerFields(s: State, step: Step, j: nat)
    requires Enabled(s, step) && !ByClient(step) && !External(step) && !Concerns(s, step, j)
    requires j < |s.conns| && s.conns[j].closed.Some?
    ensures Untouched(s, Apply(s, step), j)
  {
    hide Encode, Decode, Survives, FromClient;
  }

  /** The steps that do not concern client j. */
  lemma OtherThrough(s: State, step: Step, j: nat)
    requires Enabled(s, step) && !ByClient(step) && !Concerns(s, step, j) && j < |s.conns| && s.conns[j].closed.Some?
    ensures var s1 := Apply(s, step);
            j < |s1.conns| && SameThrough(TalkWith(s, j), s.conns[j], TalkWith(s1, j), s1.conns[j])
  {
    hide Enabled, Apply, DecodeAll, Pick, TalkWith;
    if External(step) {
      ExternalFields(s, step, j);
    } else {
      ServerFields(s, step, j);
    }
  }

  lemma GoneStep(s: State, step: Step, j: nat)
    requires Inv(s) && Enabled(s, step) && j < |s.conns| && s.conns[j].closed.Some?
    ensures var s1 := Apply(s, step);
            j < |s1.conns| && SameThrough(TalkWith(s, j), s.conns[j], TalkWith(s1, j), s1.conns[j])
  {
    hide Inv, SameThrough, Through, Act, CanAct, Front, DecodeAll, FromClient;
    if ByClient(step) {
      GoneNotActing(s, step, j);
    } else if step.Read? && s.next == j {
      GoneRead(s);
    } else if step.Receive? && s.talk.client == j {
      GoneReceived(s);
    } else if step.Dispatch? && s.next == j {
      GoneDispatched(s);
    } else {
      hide Enabled, Apply;
      OtherThrough(s, step, j);
    }
  }

  lemma GoneNotActing(s: State, step: Step, j: nat)
    requires Enabled(s, step) && ByClient(step) && j < |s.conns| && s.conns[j].closed.Some?
    ensures var s1 := Apply(s, step);
            j < |s1.conns| && SameThrough(TalkWith(s, j), s.conns[j], TalkWith(s1, j), s1.conns[j])
  {
    ClientApplied(s, step);
    hide Enabled, Apply, Act, Through;
  }

  lemma GoneRead(s: State)
    requires Enabled(s, Read) && s.conns[s.next].closed.Some?
    ensures var s1 := Apply(s, Read);
            s.next < |s1.conns| && SameThrough(s.talk, s.conns[s.next], TalkWith(s1, s.next), s1.conns[s.next])
  {
    hide Front, SameThrough;
    HeldThrough(s.talk, s.conns[s.next], Apply(s, Read).conns[s.next], Apply(s, Read).talk);
  }

  lemma GoneReceived(s: State)
    requires Inv(s) && Enabled(s, Receive) && s.conns[s.talk.client].closed.Some?
    ensures var s1, j := Apply(s, Receive), s.talk.client;
            j < |s1.conns| && SameThrough(TalkWith(s, j), s.conns[j], TalkWith(s1, j), s1.conns[j])
  {
    ReceiveApplied(s);
    hide Inv, Front, SameThrough, ConnOk, FromClient, Apply, Enabled;
    ReceivedThrough(s.conns[s.talk.client], Apply(s, Receive).conns[s.talk.client]);
  }

  lemma GoneDispatched(s: State)
    requires Inv(s) && Enabled(s, Dispatch) && s.conns[s.next].closed.Some?
    ensures var s1 := Apply(s, Dispatch);
            s.next < |s1.conns| && SameThrough(s.talk, s.conns[s.next], TalkWith(s1, s.next), s1.conns[s.next])
  {
    assert ConnsOk(s) && ConnOk(TalkWith(s, s.next), s.conns[s.next]);
    DispatchOk(s.talk, s.conns[s.next]);
    hide Inv, ConnsOk, ConnOk, SameThrough, FromClient;
    DispatchedThrough(s.talk, s.conns[s.next], Apply(s, Dispatch).conns[s.next]);
  }

  lemma {:induction false} GoneRun(s: State, steps: seq<Step>, j: nat)
    requires Inv(s) && Run(s, steps) && j < |s.conns| && s.conns[j].closed.Some?
    ensures var s1 := After(s, steps);
            j < |s1.conns| && SameThrough(TalkWith(s, j), s.conns[j], TalkWith(s1, j), s1.conns[j])
    decreases |steps|
  {
    hide Inv, Enabled, Apply, Through;
    if steps != [] {
      GoneStep(s, steps[0], j);
      StepInv(s, steps[0]);
      GoneRun(Apply(s, steps[0]), steps[1..], j);
    }
  }

  /**
   From the moment a client has gone it is settled what gets through: in every later state in which the server
   has removed it and rests, exactly the messages that it had, or that are whole in the channel, are
   dispatched; so its echoes are of the first of the keys it declined, as many as there are echoes among them.
   */
  lemma GoneDelivers(s: State, steps: seq<Step>, j: nat)
    requires Reachable(s) && Run(s, steps) && j < |s.conns| && s.conns[j].closed.Some?
    requires j < |After(s, steps).conns| && AtRest(After(s, steps), After(s, steps).conns[j])
    ensures var c, c1 := s.conns[j], After(s, steps).conns[j];
            var through := Through(TalkWith(s, j), c);
            && c1.dispatched == through
            && EchoedNumbers(c1)
               == Take(DeclinedNumbers(c.answered, c.joined), |Pick(EchoOf, Take(c.raised, |through|))|)
  {
    hide Reachable, Inv, Run, After, Pick, DeclinedNumbers;
    ReachableInv(s);
    GoneRun(s, steps, j);
    ReachableRun(s, steps);
    ReachableUnlisted(After(s, steps));
    var c1 := After(s, steps).conns[j];
    assert Ended(c1);
    assert DecodeAll(c1.up, c1.closed.value).0 == [] by { NothingLeft(c1); }
    assert Others([]) == [] by { NoOthers(); }
    assert c1.dispatched + [] + [] == c1.dispatched;
  }

  lemma NothingLeft(c: Conn)
    requires Ended(c)
    ensures DecodeAll(c.up, c.closed.value).0 == []
  {
    hide Decode;
  }

  lemma NoOthers()
    ensures Others([]) == []
  {
  }
}
