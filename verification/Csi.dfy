/** Control sequences (section 5.4 of ECMA-48): the scanner, parser and printer of fep/csi.c. */
module Csi {
  import opened Bytes

  const ESC: byte := 0x1b
  const BRACKET: byte := 0x5b
  /** Separates parameters. */
  const SEMICOLON: byte := 0x3b

  predicate IsParam(b: byte) {
    0x30 <= b <= 0x3f
  }

  predicate IsIntermediate(b: byte) {
    0x20 <= b <= 0x2f
  }

  predicate IsFinal(b: byte) {
    0x40 <= b <= 0x7e
  }

  /** Whether f may end the sequence looked for; a negative `final` stands for any final byte. */
  predicate Wanted(f: byte, final: int) {
    (final < 0 || f == final) && IsFinal(f)
  }

  // ----- the grammar

  ghost predicate All(p: byte -> bool, s: seq<byte>) {
    forall i :: 0 <= i < |s| ==> p(s[i])
  }

  ghost predicate Parts(u: seq<byte>, params: seq<byte>, intermediate: seq<byte>, f: byte) {
    && u == [ESC, BRACKET] + params + intermediate + [f]
    && All(IsParam, params) && All(IsIntermediate, intermediate)
  }

  /** A complete control sequence: ESC [ P* I* F, with a wanted final byte. */
  ghost predicate Sequence(u: seq<byte>, final: int) {
    exists params, intermediate, f :: Parts(u, params, intermediate, f) && Wanted(f, final)
  }

  /** A proper, non-empty prefix of some control sequence. */
  ghost predicate Incomplete(u: seq<byte>) {
    u != [] && exists t :: t != [] && Sequence(u + t, -1)
  }

  // ----- the scanner

  /** The number of leading bytes that satisfy p. */
  function Span(p: byte -> bool, s: seq<byte>): (n: nat)
    ensures n <= |s|
  {
    if s == [] || !p(s[0]) then 0 else 1 + Span(p, s[1..])
  }

  /** The number of leading parameter bytes and intermediate bytes after them. */
  function Body(s: seq<byte>): (n: nat)
    ensures n <= |s|
  {
    var p := Span(IsParam, s);
    p + Span(IsIntermediate, s[p..])
  }

  /** What stands at the start of s. */
  datatype Head = Complete(len: nat) | Cut | Other

  function HeadOf(s: seq<byte>, final: int): (h: Head)
    ensures h.Complete? ==> 3 <= h.len <= |s|
  {
    if s == [] || s[0] != ESC then Other
    else if |s| == 1 then Cut
    else if s[1] != BRACKET then Other
    else
      var j := 2 + Body(s[2..]);
      if j == |s| then Cut else if Wanted(s[j], final) then Complete(j + 1) else Other
  }

  datatype ScanResult = Match(at: nat, len: nat) | Partial(at: nat, len: nat) | Absent

  function Shift(r: ScanResult, k: nat): ScanResult {
    match r
    case Match(at, len) => Match(at + k, len)
    case Partial(at, len) => Partial(at + k, len)
    case Absent => Absent
  }

  /** The first position at which a wanted sequence stands or is cut by the end of s. */
  function Scan(s: seq<byte>, final: int): (r: ScanResult)
    ensures r.Match? ==> r.at + r.len <= |s| && r.len >= 3
    ensures r.Partial? ==> r.at + r.len == |s| && r.len > 0
  {
    if s == [] then Absent
    else
      match HeadOf(s, final)
      case Complete(len) => Match(0, len)
      case Cut => Partial(0, |s|)
      case Other => Shift(Scan(s[1..], final), 1)
  }

  // ----- spans

  lemma {:induction false} SpanAll(p: byte -> bool, s: seq<byte>)
    ensures All(p, s[..Span(p, s)])
    ensures Span(p, s) < |s| ==> !p(s[Span(p, s)])
  {
    if s != [] && p(s[0]) {
      SpanAll(p, s[1..]);
      var n := Span(p, s[1..]);
      forall i | 0 <= i < n + 1 ensures p(s[i]) {
        assert i > 0 ==> s[1..][..n][i - 1] == s[i];
      }
    }
  }

  lemma {:induction false} SpanOver(p: byte -> bool, a: seq<byte>, t: seq<byte>)
    requires All(p, a)
    ensures Span(p, a + t) == |a| + Span(p, t)
  {
    if a == [] {
      assert a + t == t;
    } else {
      assert (a + t)[1..] == a[1..] + t;
      SpanOver(p, a[1..], t);
    }
  }

  lemma {:induction false} SpanStops(p: byte -> bool, s: seq<byte>, t: seq<byte>)
    requires Span(p, s) < |s|
    ensures Span(p, s + t) == Span(p, s)
  {
    if p(s[0]) {
      assert (s + t)[1..] == s[1..] + t;
      SpanStops(p, s[1..], t);
    }
  }

  /** The parts of a sequence, found by the spans, whatever follows. */
  lemma BodyOfParts(params: seq<byte>, intermediate: seq<byte>, f: byte, t: seq<byte>)
    requires All(IsParam, params) && All(IsIntermediate, intermediate) && !IsIntermediate(f)
    requires intermediate == [] ==> !IsParam(f)
    ensures var s := params + intermediate + [f] + t;
            Span(IsParam, s) == |params| && Body(s) == |params| + |intermediate|
  {
    var rest := intermediate + [f] + t;
    assert params + intermediate + [f] + t == params + rest;
    SpanOver(IsParam, params, rest);
    assert rest == intermediate + ([f] + t);
    SpanOver(IsIntermediate, intermediate, [f] + t);
    assert (params + rest)[|params|..] == rest;
  }

  // ----- the scanner and the grammar

  lemma SequenceHead(params: seq<byte>, intermediate: seq<byte>, f: byte, t: seq<byte>, final: int)
    requires Parts([ESC, BRACKET] + params + intermediate + [f], params, intermediate, f) && Wanted(f, final)
    ensures var u := [ESC, BRACKET] + params + intermediate + [f];
            HeadOf(u + t, final) == Complete(|u|)
  {
    BodyOfParts(params, intermediate, f, t);
    var s := [ESC, BRACKET] + params + intermediate + [f] + t;
    assert s[2..] == params + intermediate + [f] + t;
    assert s[2 + |params| + |intermediate|] == f;
  }

  /** The parts the head of s shows. */
  lemma HeadParts(s: seq<byte>) returns (params: seq<byte>, intermediate: seq<byte>)
    requires |s| >= 2 && s[0] == ESC && s[1] == BRACKET
    ensures All(IsParam, params) && All(IsIntermediate, intermediate)
    ensures s[2..][..Body(s[2..])] == params + intermediate
  {
    var body := s[2..];
    var p := Span(IsParam, body);
    SpanAll(IsParam, body);
    SpanAll(IsIntermediate, body[p..]);
    params, intermediate := body[..p], body[p..][..Body(body) - p];
  }

  lemma SequenceIsComplete(s: seq<byte>, final: int, n: nat)
    requires n <= |s| && Sequence(s[..n], final)
    ensures HeadOf(s, final) == Complete(n)
  {
    hide HeadOf;
    var params, intermediate, f :| Parts(s[..n], params, intermediate, f) && Wanted(f, final);
    SequenceHead(params, intermediate, f, s[n..], final);
    assert s == s[..n] + s[n..];
  }

  lemma CompleteIsSequence(s: seq<byte>, final: int)
    requires HeadOf(s, final).Complete?
    ensures Sequence(s[..HeadOf(s, final).len], final)
  {
    var params, intermediate := HeadParts(s);
    hide Span, Body;
    var n := HeadOf(s, final).len;
    assert s[..n] == [ESC, BRACKET] + s[2..][..n - 3] + [s[n - 1]];
    Assoc([ESC, BRACKET], params, intermediate);
    assert Parts(s[..n], params, intermediate, s[n - 1]);
  }

  /** A complete sequence stands at the start of s exactly when the head says so. */
  lemma HeadComplete(s: seq<byte>, final: int, n: nat)
    requires n <= |s|
    ensures Sequence(s[..n], final) <==> HeadOf(s, final) == Complete(n)
  {
    hide Sequence, HeadOf;
    if Sequence(s[..n], final) {
      SequenceIsComplete(s, final, n);
    }
    if HeadOf(s, final) == Complete(n) {
      CompleteIsSequence(s, final);
    }
  }

  lemma CutIsIncomplete(s: seq<byte>, final: int)
    requires HeadOf(s, final) == Cut
    ensures Incomplete(s)
  {
    assert Wanted(0x6d, -1);
    if |s| == 1 {
      assert Parts(s + [BRACKET, 0x6d], [], [], 0x6d);
    } else {
      var params, intermediate := HeadParts(s);
      hide Span, Body;
      assert s[2..][..|s| - 2] == s[2..] && s == [ESC, BRACKET] + s[2..];
      Assoc([ESC, BRACKET], params, intermediate);
      assert Parts(s + [0x6d], params, intermediate, 0x6d);
    }
  }

  lemma IncompleteIsCut(s: seq<byte>, final: int)
    requires Incomplete(s)
    ensures HeadOf(s, final) == Cut
  {
    var t :| t != [] && Sequence(s + t, -1);
    var params, intermediate, f :| Parts(s + t, params, intermediate, f) && Wanted(f, -1);
    var u := params + intermediate;
    assert s + t == [ESC, BRACKET] + u + [f];
    assert forall i :: 0 <= i < |s| ==> s[i] == (s + t)[i];
    if |s| > 1 {
      assert s[2..] == u[..|s| - 2];
      PrefixBody(params, intermediate, |s| - 2);
    }
  }

  /** The input at s is a cut sequence exactly when something could complete it. */
  lemma HeadCut(s: seq<byte>, final: int)
    ensures Incomplete(s) <==> HeadOf(s, final) == Cut
  {
    hide Incomplete, HeadOf;
    if Incomplete(s) {
      IncompleteIsCut(s, final);
    }
    if HeadOf(s, final) == Cut {
      CutIsIncomplete(s, final);
    }
  }

  /** Cutting parameter and intermediate bytes short leaves nothing else. */
  lemma PrefixBody(params: seq<byte>, intermediate: seq<byte>, n: nat)
    requires All(IsParam, params) && All(IsIntermediate, intermediate) && n <= |params| + |intermediate|
    ensures Body((params + intermediate)[..n]) == n
  {
    var s := (params + intermediate)[..n];
    if n <= |params| {
      assert s == params[..n] + [];
      SpanOver(IsParam, params[..n], []);
    } else {
      var rest := intermediate[..n - |params|];
      assert s == params + rest;
      SpanOver(IsParam, params, rest);
      assert rest == rest + [] && s[|params|..] == rest;
      SpanOver(IsIntermediate, rest, []);
    }
  }

  /** No wanted sequence starts before k. */
  ghost predicate NoneBefore(s: seq<byte>, final: int, k: nat) {
    forall i, j :: 0 <= i < k && i <= j <= |s| ==> !Sequence(s[i..j], final)
  }

  /** Every position before the result starts neither a wanted sequence nor a cut one. */
  lemma {:induction false} ScanFirst(s: seq<byte>, final: int)
    ensures var r := Scan(s, final);
            var end := if r.Absent? then |s| else r.at;
            && (forall i :: 0 <= i < end ==> HeadOf(s[i..], final) == Other)
            && (r.Match? ==> HeadOf(s[r.at..], final) == Complete(r.len))
            && (r.Partial? ==> HeadOf(s[r.at..], final) == Cut)
  {
    hide HeadOf;
    assert s[0..] == s;
    if s != [] && HeadOf(s, final) == Other {
      var rest := s[1..];
      ScanFirst(rest, final);
      forall i | 0 < i <= |s| ensures s[i..] == rest[i - 1..] {
        DropOneMore(s, i);
      }
      var r := Scan(rest, final);
      var end := if r.Absent? then |s| - 1 else r.at;
      forall i | 0 <= i < end + 1 ensures HeadOf(s[i..], final) == Other {
        assert i > 0 ==> HeadOf(rest[i - 1..], final) == Other;
      }
    }
  }

  lemma DropOneMore<T>(s: seq<T>, i: nat)
    requires 0 < i <= |s|
    ensures s[i..] == s[1..][i - 1..]
  {
  }

  lemma HeadsBefore(s: seq<byte>, final: int, k: nat)
    requires k <= |s|
    ensures NoneBefore(s, final, k) <==> forall i :: 0 <= i < k ==> !HeadOf(s[i..], final).Complete?
  {
    forall i, j | 0 <= i < k && i <= j <= |s|
      ensures Sequence(s[i..j], final) <==> HeadOf(s[i..], final) == Complete(j - i)
    {
      HeadComplete(s[i..], final, j - i);
      assert s[i..][..j - i] == s[i..j];
    }
    hide HeadOf, Sequence;
    forall i | 0 <= i < k && HeadOf(s[i..], final).Complete? ensures !NoneBefore(s, final, k) {
      var j := i + HeadOf(s[i..], final).len;
      assert Sequence(s[i..j], final);
    }
  }

  /** In a sequence cut by the end of the input nothing starts but itself. */
  lemma CutHasNoEscape(s: seq<byte>, final: int, k: nat)
    requires HeadOf(s, final) == Cut && 0 < k < |s|
    ensures HeadOf(s[k..], final) == Other
  {
    if k >= 2 {
      var params, intermediate := HeadParts(s);
      assert s[2..][..|s| - 2][k - 2] == s[k];
    }
  }

  lemma NothingAfterCut(s: seq<byte>, final: int)
    requires Scan(s, final).Partial?
    ensures forall i :: Scan(s, final).at < i < |s| ==> HeadOf(s[i..], final) == Other
  {
    ScanFirst(s, final);
    hide Scan, HeadOf;
    var k := Scan(s, final).at;
    forall i | k < i < |s| ensures HeadOf(s[i..], final) == Other {
      CutHasNoEscape(s[k..], final, i - k);
      assert s[k..][i - k..] == s[i..];
    }
  }

  /** The scanner finds a sequence exactly where the leftmost wanted one stands. */
  lemma ScanExact(s: seq<byte>, final: int, k: nat, n: nat)
    requires k + n <= |s|
    ensures Scan(s, final) == Match(k, n) <==> Sequence(s[k..k + n], final) && NoneBefore(s, final, k)
  {
    ScanFirst(s, final);
    HeadComplete(s[k..], final, n);
    assert s[k..][..n] == s[k..k + n];
    HeadsBefore(s, final, k);
    if Scan(s, final).Partial? {
      NothingAfterCut(s, final);
    }
    hide HeadOf, Sequence, NoneBefore, Scan;
    assert k == |s| ==> s[k..k + n] == [] && !Sequence([], final) by { EmptyIsNone(final); }
  }

  lemma EmptyIsNone(final: int)
    ensures !Sequence([], final)
  {
  }

  /**
   It reports a cut sequence exactly when no wanted sequence stands anywhere and the rest of the
   input from there on is a proper prefix of a sequence.
   */
  lemma ScanPartial(s: seq<byte>, final: int, k: nat)
    requires k <= |s|
    ensures Scan(s, final) == Partial(k, |s| - k) <==> Incomplete(s[k..]) && NoneBefore(s, final, |s|)
  {
    ScanFirst(s, final);
    HeadCut(s[k..], final);
    HeadsBefore(s, final, |s|);
    if Scan(s, final).Partial? {
      NothingAfterCut(s, final);
    }
    assert k == |s| ==> s[k..] == [];
    hide HeadOf, NoneBefore, Scan;
  }

  /** Otherwise neither is the case. */
  lemma ScanAbsent(s: seq<byte>, final: int)
    ensures Scan(s, final) == Absent
            <==> NoneBefore(s, final, |s|) && forall k :: 0 <= k < |s| ==> !Incomplete(s[k..])
  {
    ScanFirst(s, final);
    HeadsBefore(s, final, |s|);
    forall k | 0 <= k < |s| ensures Incomplete(s[k..]) <==> HeadOf(s[k..], final) == Cut {
      HeadCut(s[k..], final);
    }
    hide HeadOf, NoneBefore, Scan, Incomplete;
  }

  // ----- scanning a stream in pieces

  /** More input does not change what is complete or excluded at the start of s. */
  lemma HeadStable(s: seq<byte>, t: seq<byte>, final: int)
    requires s != [] && HeadOf(s, final) != Cut
    ensures HeadOf(s + t, final) == HeadOf(s, final)
  {
    hide Wanted, Span;
    if s[0] == ESC && s[1] == BRACKET {
      var body := s[2..];
      var p := Span(IsParam, body);
      assert (s + t)[2..] == body + t;
      SpanStops(IsParam, body, t);
      SpanStops(IsIntermediate, body[p..], t);
      assert (body + t)[p..] == body[p..] + t;
    }
  }

  /** The scan of s followed by t, from the scan of s. */
  ghost predicate Streams(s: seq<byte>, t: seq<byte>, final: int) {
    match Scan(s, final)
    case Match(_, _) => Scan(s + t, final) == Scan(s, final)
    case Partial(k, _) => Scan(s + t, final) == Shift(Scan(s[k..] + t, final), k)
    case Absent => Scan(s + t, final) == Shift(Scan(t, final), |s|)
  }

  lemma ScanOther(s: seq<byte>, final: int)
    requires s != [] && HeadOf(s, final) == Other
    ensures Scan(s, final) == Shift(Scan(s[1..], final), 1)
  {
  }

  lemma StreamsOn(s: seq<byte>, t: seq<byte>, final: int)
    requires s != [] && HeadOf(s, final) == Other && HeadOf(s + t, final) == Other && Streams(s[1..], t, final)
    ensures Streams(s, t, final)
  {
    ScanOther(s, final);
    ScanOther(s + t, final);
    SliceConcat(s, t, 1, 1);
    hide Scan, HeadOf;
    var r := Scan(s[1..], final);
    assert r.Partial? ==> s[1..][r.at..] == s[r.at + 1..];
  }

  /**
   Scanning s and then more input: a match in s stays; a cut sequence at k makes the rest of the scan
   one of s[k..] and what follows; if s has neither, the scan goes on with what follows.
   */
  lemma {:induction false} ScanStream(s: seq<byte>, t: seq<byte>, final: int)
    ensures match Scan(s, final)
            case Match(_, _) => Scan(s + t, final) == Scan(s, final)
            case Partial(k, _) => Scan(s + t, final) == Shift(Scan(s[k..] + t, final), k)
            case Absent => Scan(s + t, final) == Shift(Scan(t, final), |s|)
  {
    hide HeadOf;
    if s == [] {
      assert s + t == t;
    } else if HeadOf(s, final) == Cut {
      assert s[0..] == s;
    } else {
      HeadStable(s, t, final);
      if HeadOf(s, final) == Other {
        ScanStream(s[1..], t, final);
        StreamsOn(s, t, final);
      }
    }
  }

  lemma {:induction false} ScanSkip(s: seq<byte>, final: int, k: nat)
    requires k <= |s| && forall i :: 0 <= i < k ==> HeadOf(s[i..], final) == Other
    ensures Scan(s, final) == Shift(Scan(s[k..], final), k)
  {
    hide HeadOf;
    if k == 0 {
      assert s[0..] == s;
    } else {
      assert s[0..] == s && s[1..][k - 1..] == s[k..];
      forall i | 0 <= i < k - 1 ensures HeadOf(s[1..][i..], final) == Other {
        assert s[1..][i..] == s[i + 1..];
      }
      ScanSkip(s[1..], final, k - 1);
    }
  }

  /** Seen from position p, where the scan stands. */
  lemma ScanFrom(s: seq<byte>, p: nat, q: nat, final: int)
    requires p <= q <= |s| && forall i :: p <= i < q ==> s[i] != ESC
    requires Scan(s, final) == Shift(Scan(s[p..], final), p)
    ensures Scan(s, final) == Shift(Scan(s[q..], final), q)
  {
    var rest := s[p..];
    forall i | 0 <= i < q - p ensures HeadOf(rest[i..], final) == Other {
    }
    ScanSkip(rest, final, q - p);
    assert rest[q - p..] == s[q..];
  }

  lemma ScanPast(s: seq<byte>, p: nat, final: int)
    requires p < |s| && HeadOf(s[p..], final) == Other
    requires Scan(s, final) == Shift(Scan(s[p..], final), p)
    ensures Scan(s, final) == Shift(Scan(s[p + 1..], final), p + 1)
  {
    hide HeadOf;
    assert s[p..][1..] == s[p + 1..];
  }

  lemma ScanHere(s: seq<byte>, p: nat, final: int)
    requires p < |s| && Scan(s, final) == Shift(Scan(s[p..], final), p)
    ensures match HeadOf(s[p..], final)
            case Complete(n) => Scan(s, final) == Match(p, n)
            case Cut => Scan(s, final) == Partial(p, |s| - p)
            case Other => true
  {
    hide HeadOf;
  }

  lemma NothingToScan(s: seq<byte>, final: int)
    ensures Shift(Scan(s[|s|..], final), |s|) == Absent
  {
  }

  /** The head at a position where ESC [ stands, by the byte after its body. */
  lemma HeadAt(s: seq<byte>, start: nat, p: nat, final: int)
    requires start + 2 <= p <= |s| && s[start] == ESC && s[start + 1] == BRACKET
    requires p == start + 2 + Body(s[start + 2..])
    ensures HeadOf(s[start..], final)
         == if p == |s| then Cut else if Wanted(s[p], final) then Complete(p - start + 1) else Other
  {
    hide Body;
    assert s[start..][2..] == s[start + 2..];
  }

  // ----- the loops

  method SpanFrom(p: byte -> bool, s: seq<byte>, from: nat) returns (to: nat)
    requires from <= |s|
    ensures to == from + Span(p, s[from..])
  {
    to := from;
    while to < |s| && p(s[to])
      invariant from <= to <= |s|
      invariant from + Span(p, s[from..]) == to + Span(p, s[to..])
    {
      assert s[to..][1..] == s[to + 1..];
      to := to + 1;
    }
  }

  /** The loops over parameter bytes and then intermediate bytes. */
  method BodyFrom(s: seq<byte>, from: nat) returns (to: nat)
    requires from <= |s|
    ensures to == from + Body(s[from..])
  {
    to := SpanFrom(IsParam, s, from);
    assert s[from..][to - from..] == s[to..];
    to := SpanFrom(IsIntermediate, s, to);
  }

  /** memchr(3): the position of the first ESC from p on, -1 if there is none. */
  method FindEscape(s: seq<byte>, p: nat) returns (q: int)
    requires p <= |s|
    ensures q == -1 ==> forall i :: p <= i < |s| ==> s[i] != ESC
    ensures q != -1 ==> p <= q < |s| && s[q] == ESC && forall i :: p <= i < q ==> s[i] != ESC
  {
    q := p;
    while q < |s|
      invariant p <= q <= |s| && forall i :: p <= i < q ==> s[i] != ESC
    {
      if s[q] == ESC {
        return;
      }
      q := q + 1;
    }
    q := -1;
  }

  /** The bytes a failed attempt has passed over hold no ESC. */
  lemma BodyHasNoEscape(s: seq<byte>, start: nat)
    requires start + 2 <= |s| && s[start] == ESC && s[start + 1] == BRACKET
    ensures forall i :: start < i < start + 2 + Body(s[start + 2..]) ==> s[i] != ESC
  {
    var t := s[start..];
    assert t[2..] == s[start + 2..];
    var params, intermediate := HeadParts(t);
    forall i | start < i < start + 2 + Body(t[2..]) ensures s[i] != ESC {
      assert i > start + 1 ==> t[2..][..Body(t[2..])][i - start - 2] == s[i];
    }
  }

  /** _fep_csi_scan. */
  method CsiScan(s: seq<byte>, final: int) returns (found: bool, csi: Option<nat>, len: nat)
    ensures match Scan(s, final)
            case Match(k, n) => found && csi == Some(k) && len == n
            case Partial(k, n) => !found && csi == Some(k) && len == n
            case Absent => !found && csi == None && len == 0
  {
    hide Body, Span, Scan;
    var p := 0;
    assert Scan(s, final) == Shift(Scan(s[p..], final), p) by { assert s[0..] == s; }
    while p < |s|
      invariant 0 <= p <= |s|
      invariant Scan(s, final) == Shift(Scan(s[p..], final), p)
    {
      var start := FindEscape(s, p);
      if start == -1 {
        ScanFrom(s, p, |s|, final);
        p := |s|;
        break;
      }
      ScanFrom(s, p, start, final);
      ScanHere(s, start, final);
      p := start + 1;
      if p == |s| {
        return false, Some(start), p - start;
      }
      if s[p] == BRACKET {
        p := BodyFrom(s, p + 1);
        HeadAt(s, start, p, final);
        if p == |s| {
          return false, Some(start), p - start;
        }
        if (final < 0 || s[p] == final) && IsFinal(s[p]) {
          return true, Some(start), p - start + 1;
        }
        BodyHasNoEscape(s, start);
      }
      ScanPast(s, start, final);
      ScanFrom(s, start + 1, p, final);
    }
    NothingToScan(s, final);
    return false, None, 0;
  }

  // ----- the parser and the printer

  datatype Csi = Csi(params: seq<byte>, intermediate: seq<byte>, final: byte)

  /** What _fep_csi_parse takes from the start of s, and how many bytes; it accepts any last byte. */
  function Parse(s: seq<byte>, introducer: byte): (r: Option<(Csi, nat)>)
    ensures r.Some? ==> 3 <= r.value.1 <= |s|
  {
    if |s| < 3 || s[0] != ESC || s[1] != introducer then None
    else
      var body := s[2..];
      var p := Span(IsParam, body);
      var q := p + Span(IsIntermediate, body[p..]);
      if q == |body| then None
      else Some((Csi(body[..p], body[p..q], body[q]), q + 3))
  }

  /** _fep_csi_format, as the C string it yields: a final byte of 0 ends the string before itself. */
  function Format(csi: Csi): seq<byte> {
    [ESC, BRACKET] + csi.params + csi.intermediate + if csi.final == 0 then [] else [csi.final]
  }

  /** The sequences the parser can return. */
  predicate Parsable(csi: Csi) {
    && Span(IsParam, csi.params) == |csi.params|
    && Span(IsIntermediate, csi.intermediate) == |csi.intermediate|
    && !IsIntermediate(csi.final)
    && (csi.intermediate == [] ==> !IsParam(csi.final))
  }

  lemma {:induction false} SpanWhole(p: byte -> bool, s: seq<byte>)
    ensures Span(p, s) == |s| <==> All(p, s)
  {
    SpanAll(p, s);
    assert s[..|s|] == s;
    if All(p, s) {
      SpanOver(p, s, []);
      assert s + [] == s;
    }
  }

  lemma ParseBytes(s: seq<byte>, introducer: byte)
    requires Parse(s, introducer).Some?
    ensures var (csi, n) := Parse(s, introducer).value;
            s[..n] == [ESC, introducer] + csi.params + csi.intermediate + [csi.final]
  {
    hide Span;
    var body, n := s[2..], Parse(s, introducer).value.1;
    assert s[..n] == [ESC, introducer] + body[..n - 2];
    var csi := Parse(s, introducer).value.0;
    assert body[..n - 2] == csi.params + csi.intermediate + [csi.final];
    Assoc([ESC, introducer], csi.params + csi.intermediate, [csi.final]);
    Assoc([ESC, introducer], csi.params, csi.intermediate);
  }

  lemma SpanOfSpan(p: byte -> bool, s: seq<byte>)
    ensures var n := Span(p, s); Span(p, s[..n]) == n && (n < |s| ==> !p(s[n]))
  {
    SpanAll(p, s);
    SpanWhole(p, s[..Span(p, s)]);
  }

  lemma ParseParsable(s: seq<byte>, introducer: byte)
    requires Parse(s, introducer).Some?
    ensures Parsable(Parse(s, introducer).value.0)
  {
    var body := s[2..];
    var p := Span(IsParam, body);
    var rest := body[p..];
    SpanOfSpan(IsParam, body);
    SpanOfSpan(IsIntermediate, rest);
    hide Span;
    var q := p + Span(IsIntermediate, rest);
    assert body[p..q] == rest[..q - p] && body[q] == rest[q - p];
  }

  /** A parse consumes exactly the introducer, the parts and the final byte. */
  lemma ParseParts(s: seq<byte>, introducer: byte)
    requires Parse(s, introducer).Some?
    ensures var (csi, n) := Parse(s, introducer).value;
            s[..n] == [ESC, introducer] + csi.params + csi.intermediate + [csi.final] && Parsable(csi)
  {
    ParseBytes(s, introducer);
    ParseParsable(s, introducer);
  }

  lemma ParseBody(body: seq<byte>, introducer: byte, p: nat, q: nat)
    requires p == Span(IsParam, body) && p <= q == Body(body) < |body|
    ensures Parse([ESC, introducer] + body, introducer)
         == Some((Csi(body[..p], body[p..q], body[q]), q + 3))
  {
    hide Span;
    assert ([ESC, introducer] + body)[2..] == body;
  }

  lemma PartSlices<T>(a: seq<T>, b: seq<T>, f: T, t: seq<T>)
    ensures var s := a + b + [f] + t;
            s[..|a|] == a && s[|a|..|a| + |b|] == b && s[|a| + |b|] == f
  {
  }

  /** Parsing a printed sequence, whatever follows, returns it and stops where it ends, if it can be returned. */
  lemma ParsePrinted(csi: Csi, introducer: byte, t: seq<byte>)
    requires Parsable(csi)
    ensures var u := [ESC, introducer] + csi.params + csi.intermediate + [csi.final];
            Parse(u + t, introducer) == Some((csi, |u|))
  {
    SpanWhole(IsParam, csi.params);
    SpanWhole(IsIntermediate, csi.intermediate);
    BodyOfParts(csi.params, csi.intermediate, csi.final, t);
    hide Span, Body, Parse;
    var p, q := |csi.params|, |csi.params| + |csi.intermediate|;
    var body := csi.params + csi.intermediate + [csi.final] + t;
    ParseBody(body, introducer, p, q);
    PartSlices(csi.params, csi.intermediate, csi.final, t);
    Assoc([ESC, introducer], csi.params, csi.intermediate);
    Assoc([ESC, introducer], csi.params + csi.intermediate, [csi.final]);
    Assoc([ESC, introducer], csi.params + csi.intermediate + [csi.final], t);
  }

  /** Printing what was parsed gives back the bytes consumed, exactly when the last of them is not 0. */
  lemma FormatParse(s: seq<byte>)
    requires Parse(s, BRACKET).Some?
    ensures var (csi, n) := Parse(s, BRACKET).value;
            Format(csi) == s[..n] <==> csi.final != 0
  {
    ParseParts(s, BRACKET);
    hide Parse;
    var (csi, n) := Parse(s, BRACKET).value;
    if csi.final == 0 {
      assert |Format(csi)| == |s[..n]| - 1;
    }
  }

  /** Parsing a printed sequence returns it, stopping at its end, exactly when it can be and ends in no 0. */
  lemma ParseFormat(csi: Csi, t: seq<byte>)
    ensures Parse(Format(csi) + t, BRACKET) == Some((csi, |Format(csi)|)) <==> Parsable(csi) && csi.final != 0
  {
    var u := Format(csi);
    hide Parse, Parsable;
    if Parsable(csi) && csi.final != 0 {
      ParsePrinted(csi, BRACKET, t);
    }
    if Parse(u + t, BRACKET) == Some((csi, |u|)) {
      ParseParts(u + t, BRACKET);
      assert (u + t)[..|u|] == u;
      assert csi.final == 0 ==> |u| < |[ESC, BRACKET] + csi.params + csi.intermediate + [csi.final]|;
    }
  }

  /**
   What each byte is behind an introducer: a parameter byte, an intermediate byte, or the end of the sequence, which
   for the scanner is only what can be a final byte.
   */
  lemma ByteKinds(b: byte, introducer: byte)
    ensures Parse([ESC, introducer, b, 0x6d], introducer)
         == if 0x30 <= b <= 0x3f then Some((Csi([b], [], 0x6d), 4))
            else if 0x20 <= b <= 0x2f then Some((Csi([], [b], 0x6d), 4))
            else Some((Csi([], [], b), 3))
    ensures Scan([ESC, BRACKET, b], -1) == Match(0, 3) <==> 0x40 <= b <= 0x7e
  {
    var s := [ESC, introducer, b, 0x6d];
    assert s[2..] == [b, 0x6d] && [b, 0x6d][1..] == [0x6d];
    SpanTwo(IsParam, b);
    SpanTwo(IsIntermediate, b);
    hide Span;
    assert [b, 0x6d][..1] == [b] && [b, 0x6d][..0] == [] && [b, 0x6d][0..] == [b, 0x6d];
    assert [b, 0x6d][0..0] == [] && [b, 0x6d][0..1] == [b] && [b, 0x6d][1..1] == [];
    ScanOne(b);
  }

  lemma ScanOne(b: byte)
    ensures Scan([ESC, BRACKET, b], -1) == Match(0, 3) <==> 0x40 <= b <= 0x7e
  {
    assert [ESC, BRACKET, b][2..] == [b] && [b][1..] == [] && [b][0..] == [b];
    assert Span(IsParam, [b]) == (if IsParam(b) then 1 else 0) && Span(IsIntermediate, []) == 0;
    assert Span(IsIntermediate, [b]) == if IsIntermediate(b) then 1 else 0;
  }

  lemma SpanTwo(p: byte -> bool, b: byte)
    requires !p(0x6d)
    ensures Span(p, [b, 0x6d]) == if p(b) then 1 else 0
    ensures Span(p, [0x6d]) == 0
  {
    assert [b, 0x6d][1..] == [0x6d];
  }

  /** Every slice the scanner accepts is parsed in full, with the final byte the scanner saw. */
  lemma ScannedParses(s: seq<byte>, final: int)
    requires Scan(s, final).Match?
    ensures var r := Scan(s, final);
            var u := s[r.at..][..r.len];
            var parsed := Parse(u, BRACKET);
            && parsed.Some? && parsed.value.1 == |u| && parsed.value.0.final == u[|u| - 1]
            && Wanted(u[|u| - 1], final)
  {
    hide Span, HeadOf, Parse, Scan;
    var r := Scan(s, final);
    ScanExact(s, final, r.at, r.len);
    assert s[r.at..][..r.len] == s[r.at..r.at + r.len];
    SequenceParses(s[r.at..][..r.len], final);
  }

  lemma SequenceParses(u: seq<byte>, final: int)
    requires Sequence(u, final)
    ensures var parsed := Parse(u, BRACKET);
            && u != [] && parsed.Some? && parsed.value.1 == |u| && parsed.value.0.final == u[|u| - 1]
            && Wanted(u[|u| - 1], final)
  {
    hide Span, Parse;
    var params, intermediate, f :| Parts(u, params, intermediate, f) && Wanted(f, final);
    SpanWhole(IsParam, params);
    SpanWhole(IsIntermediate, intermediate);
    ParsePrinted(Csi(params, intermediate, f), BRACKET, []);
    assert u + [] == u;
  }

  /** _fep_csi_parse. */
  method CsiParse(s: seq<byte>, introducer: byte) returns (r: Option<Csi>, end: nat)
    ensures match Parse(s, introducer)
            case None => r == None
            case Some((csi, n)) => r == Some(csi) && end == n
  {
    hide Span;
    if |s| < 3 || s[0] != ESC || s[1] != introducer {
      return None, 0;
    }
    var p := SpanFrom(IsParam, s, 2);
    if p == |s| {
      assert s[2..][p - 2..] == [];
      NoSpan(IsIntermediate);
      return None, 0;
    }
    var q := SpanFrom(IsIntermediate, s, p);
    assert s[2..][p - 2..] == s[p..];
    if q == |s| {
      return None, 0;
    }
    assert s[2..][..p - 2] == s[2..p] && s[2..][p - 2..q - 2] == s[p..q];
    return Some(Csi(s[2..p], s[p..q], s[q])), q + 1;
  }

  lemma NoSpan(p: byte -> bool)
    ensures Span(p, []) == 0
  {
  }
}
