/** The growing buffer, splitting and joining of libfep/string.c. */
module Strings {
  import opened Bytes

  // ----- the growing buffer

  /** The size of a buffer's block, the bytes in use, and the bytes of the old blocks given up so far. */
  datatype Block = Block(cap: nat, len: nat, moved: nat)

  /** What appending `count` bytes does to it. */
  function Grow(b: Block, count: nat): Block {
    if b.len + count > b.cap then Block(Max(b.cap * 2, b.len + count), b.len + count, b.moved + b.cap)
    else b.(len := b.len + count)
  }

  function GrowAll(b: Block, counts: seq<nat>): Block
    decreases |counts|
  {
    if counts == [] then b else GrowAll(Grow(b, counts[0]), counts[1..])
  }

  function Sum(counts: seq<nat>): nat {
    if counts == [] then 0 else counts[0] + Sum(counts[1..])
  }

  predicate Amortised(b: Block) {
    && b.len <= b.cap && b.moved <= b.cap
    && (b.cap > 0 ==> b.cap < 2 * b.len)
  }

  lemma {:induction false} GrowAllAmortised(b: Block, counts: seq<nat>)
    requires Amortised(b)
    ensures Amortised(GrowAll(b, counts)) && GrowAll(b, counts).len == b.len + Sum(counts)
    decreases |counts|
  {
    if counts != [] {
      GrowAllAmortised(Grow(b, counts[0]), counts[1..]);
    }
  }

  /**
   Over any sequence of appends to an empty buffer the block stays below twice its contents, and all
   the bytes ever moved to a larger block are no more than the block holds, hence fewer than that too.
   */
  lemma AppendsAmortised(counts: seq<nat>)
    ensures var b := GrowAll(Block(0, 0, 0), counts);
            && b.len == Sum(counts) && b.len <= b.cap && b.moved <= b.cap
            && (b.len > 0 ==> b.cap < 2 * b.len && b.moved < 2 * b.len)
            && (b.len == 0 ==> b.cap == 0)
  {
    GrowAllAmortised(Block(0, 0, 0), counts);
  }

  /** FepString: `len` bytes in use of a block, `str`, whose size is the capacity. */
  class FepString {
    var str: array<byte>
    var len: nat
    ghost var moved: nat

    ghost predicate Valid()
      reads this
    {
      len <= str.Length
    }

    ghost function Contents(): (s: seq<byte>)
      requires Valid()
      reads this, str
      ensures |s| == len
    {
      str[..len]
    }

    ghost function Shape(): Block
      reads this
    {
      Block(str.Length, len, moved)
    }

    constructor ()
      ensures Valid() && fresh(str) && Contents() == [] && Shape() == Block(0, 0, 0)
    {
      str, len, moved := new byte[0], 0, 0;
    }

    /** _fep_string_append. */
    method Append(bs: seq<byte>)
      requires Valid()
      modifies this, str
      ensures Valid() && (str == old(str) || fresh(str))
      ensures Contents() == old(Contents()) + bs && Shape() == Grow(old(Shape()), |bs|)
    {
      if len + |bs| > str.Length {
        var block := new byte[Max(str.Length * 2, len + |bs|)];
        forall i | 0 <= i < len {
          block[i] := str[i];
        }
        moved := moved + str.Length;
        str := block;
        assert str[..len] == old(Contents());
      }
      forall i | 0 <= i < |bs| {
        str[len + i] := bs[i];
      }
      len := len + |bs|;
      assert str[..len] == old(Contents()) + bs;
    }
  }

  // ----- splitting and joining

  /** strstr(3): the index of the first occurrence of d in s, -1 if there is none. */
  function Find(s: seq<byte>, d: seq<byte>): (i: int)
    ensures i == -1 || 0 <= i <= |s| - |d|
  {
    if d <= s then 0
    else if s == [] then -1
    else
      var i := Find(s[1..], d);
      if i < 0 then -1 else i + 1
  }

  lemma {:induction false} FindFound(s: seq<byte>, d: seq<byte>)
    ensures Find(s, d) >= 0 ==> s == s[..Find(s, d)] + d + s[Find(s, d) + |d|..]
  {
    var i := Find(s, d);
    if i > 0 {
      var t := s[1..];
      FindFound(t, d);
      assert s == [s[0]] + t;
      assert s[..i] == [s[0]] + t[..i - 1] && s[i + |d|..] == t[i - 1 + |d|..];
      Assoc([s[0]], t[..i - 1] + d, t[i - 1 + |d|..]);
      Assoc([s[0]], t[..i - 1], d);
    }
  }

  /** The tokens _fep_strsplit finds: a last token that is empty is left out. */
  function Split(s: seq<byte>, d: seq<byte>): seq<seq<byte>>
    requires d != []
    decreases |s|
  {
    var i := Find(s, d);
    if i >= 0 then [s[..i]] + Split(s[i + |d|..], d)
    else if s == [] then []
    else [s]
  }

  /** The number of cuts Split makes. */
  function Cuts(s: seq<byte>, d: seq<byte>): nat
    requires d != []
    decreases |s|
  {
    var i := Find(s, d);
    if i >= 0 then 1 + Cuts(s[i + |d|..], d) else 0
  }

  /** What is left of s after the last cut. */
  function Remainder(s: seq<byte>, d: seq<byte>): seq<byte>
    requires d != []
    decreases |s|
  {
    var i := Find(s, d);
    if i >= 0 then Remainder(s[i + |d|..], d) else s
  }

  /** _fep_strjoinv. */
  function Join(v: seq<seq<byte>>, d: seq<byte>): seq<byte> {
    if v == [] then []
    else if |v| == 1 then v[0]
    else v[0] + d + Join(v[1..], d)
  }

  lemma {:induction false} SplitLength(s: seq<byte>, d: seq<byte>)
    requires d != []
    ensures |Split(s, d)| == Cuts(s, d) + if Remainder(s, d) == [] then 0 else 1
    decreases |s|
  {
    var i := Find(s, d);
    if i >= 0 {
      SplitLength(s[i + |d|..], d);
    }
  }

  lemma JoinCons(u: seq<byte>, w: seq<seq<byte>>, d: seq<byte>)
    ensures Join([u] + w, d) == if w == [] then u else u + d + Join(w, d)
  {
    assert ([u] + w)[1..] == w;
  }

  lemma JoinSmall(s: seq<byte>, d: seq<byte>)
    ensures Join([], d) == [] && Join([s], d) == s
  {
  }

  /** Joining the pieces of s gives s back, less a last delimiter that nothing follows. */
  lemma {:induction false} JoinSplit(s: seq<byte>, d: seq<byte>)
    requires d != []
    ensures Cuts(s, d) > 0 && Remainder(s, d) == [] ==> Join(Split(s, d), d) + d == s
    ensures !(Cuts(s, d) > 0 && Remainder(s, d) == []) ==> Join(Split(s, d), d) == s
    decreases |s|
  {
    hide Find, Join;
    var i := Find(s, d);
    if i >= 0 {
      FindFound(s, d);
      var u, t := s[..i], s[i + |d|..];
      var w := Split(t, d);
      JoinSplit(t, d);
      SplitLength(t, d);
      JoinCons(u, w, d);
      Assoc(u + d, Join(w, d), d);
    } else {
      JoinSmall(s, d);
    }
  }

  lemma {:induction false} FindByte(s: seq<byte>, c: byte)
    ensures Find(s, [c]) < 0 <==> c !in s
    ensures var i := Find(s, [c]); i >= 0 ==> s[i] == c && forall k :: 0 <= k < i ==> s[k] != c
  {
    if s != [] {
      FindByte(s[1..], c);
      assert s == [s[0]] + s[1..];
    }
  }

  lemma FindAfter(t: seq<byte>, u: seq<byte>, c: byte)
    requires c !in t
    ensures Find(t + [c] + u, [c]) == |t|
  {
    var s := t + [c] + u;
    FindByte(s, c);
    hide Find;
    var i := Find(s, [c]);
    assert s[|t|] == c;
    assert forall k :: 0 <= k < |t| ==> s[k] == t[k];
  }

  /** With a one-byte delimiter, nothing follows the last cut exactly when s ends in the delimiter. */
  lemma {:induction false} RemainderByte(s: seq<byte>, c: byte)
    requires s != []
    ensures Cuts(s, [c]) > 0 && Remainder(s, [c]) == [] <==> s[|s| - 1] == c
    decreases |s|
  {
    FindByte(s, c);
    hide Find;
    var i := Find(s, [c]);
    if i >= 0 && i + 1 < |s| {
      var t := s[i + 1..];
      RemainderByte(t, c);
      FindByte(t, c);
      assert s[|s| - 1] == t[|t| - 1];
    }
  }

  /** Joining the pieces of s gives s back when s does not end in the delimiter, and s without it otherwise. */
  lemma JoinSplitByte(s: seq<byte>, c: byte)
    ensures Join(Split(s, [c]), [c]) == if s != [] && s[|s| - 1] == c then s[..|s| - 1] else s
  {
    hide Split, Join, Remainder, Cuts;
    JoinSplit(s, [c]);
    if s != [] {
      RemainderByte(s, c);
      var j := Join(Split(s, [c]), [c]);
      assert (j + [c])[..|j|] == j;
    } else {
      NothingToSplit(c);
    }
  }

  lemma NothingToSplit(c: byte)
    ensures Cuts([], [c]) == 0
  {
  }

  lemma {:induction false} SplitTokens(s: seq<byte>, c: byte)
    ensures forall t :: t in Split(s, [c]) ==> c !in t
    decreases |s|
  {
    FindByte(s, c);
    var i := Find(s, [c]);
    if i >= 0 {
      SplitTokens(s[i + 1..], c);
    }
  }

  lemma SplitCons(t: seq<byte>, u: seq<byte>, c: byte)
    requires c !in t
    ensures Split(t + [c] + u, [c]) == [t] + Split(u, [c])
  {
    hide Find;
    FindAfter(t, u, c);
    assert (t + [c] + u)[..|t|] == t && (t + [c] + u)[|t| + 1..] == u;
  }

  lemma {:induction false} SplitJoinTokens(v: seq<seq<byte>>, c: byte)
    requires v != [] && forall t :: t in v ==> c !in t
    ensures Split(Join(v, [c]), [c]) == if v[|v| - 1] == [] then v[..|v| - 1] else v
  {
    var t, w := v[0], v[1..];
    assert t in v && v == [t] + w;
    JoinCons(t, w, [c]);
    hide Find, Join;
    if w == [] {
      FindByte(t, c);
    } else {
      SplitCons(t, Join(w, [c]), c);
      SplitJoinTokens(w, c);
      hide Split;
      assert v[..|v| - 1] == [t] + w[..|w| - 1];
    }
  }

  /** Splitting a join gives the vector back exactly when no token holds the delimiter and the last is not empty. */
  lemma SplitJoin(v: seq<seq<byte>>, c: byte)
    ensures Split(Join(v, [c]), [c]) == v
            <==> (forall t :: t in v ==> c !in t) && (v != [] ==> v[|v| - 1] != [])
  {
    SplitTokens(Join(v, [c]), c);
    if v != [] && forall t :: t in v ==> c !in t {
      SplitJoinTokens(v, c);
    }
  }

  lemma FirstToken(s: seq<byte>, d: seq<byte>)
    requires d != [] && Find(s, d) >= 0
    ensures Split(s, d) == [s[..Find(s, d)]] + Split(s[Find(s, d) + |d|..], d)
    ensures Cuts(s, d) == 1 + Cuts(s[Find(s, d) + |d|..], d)
  {
    hide Find;
  }

  lemma LastToken(s: seq<byte>, d: seq<byte>)
    requires d != [] && Find(s, d) < 0
    ensures Split(s, d) == (if s == [] then [] else [s]) && Cuts(s, d) == 0
  {
  }

  /** The counting pass of _fep_strsplit_full. */
  method CountDelimiters(s: seq<byte>, d: seq<byte>) returns (n: nat)
    requires d != []
    ensures n == Cuts(s, d)
  {
    hide Find, Split;
    n := 0;
    var p := s;
    var q := Find(p, d);
    while q >= 0
      invariant q == Find(p, d)
      invariant n + Cuts(p, d) == Cuts(s, d)
      decreases |p|
    {
      FirstToken(p, d);
      n, p := n + 1, p[q + |d|..];
      q := Find(p, d);
    }
  }

  /**
   _fep_strsplit_full with search_strstr: a vector of two slots more than the cuts counted is
   filled by a second pass.  Every token fits, and a NULL slot ends the vector.
   */
  method StrSplit(s: seq<byte>, d: seq<byte>) returns (strv: array<Option<seq<byte>>>)
    requires d != []
    ensures fresh(strv) && strv.Length == Cuts(s, d) + 2 && |Split(s, d)| < strv.Length
    ensures forall k :: 0 <= k < |Split(s, d)| ==> strv[k] == Some(Split(s, d)[k])
    ensures forall k :: |Split(s, d)| <= k < strv.Length ==> strv[k] == None
  {
    hide Find, Split, Cuts;
    SplitLength(s, d);
    var n := CountDelimiters(s, d);
    strv := new Option<seq<byte>>[n + 2](_ => None);
    ghost var done := [];
    var r, p := 0, s;
    var q := Find(p, d);
    while q >= 0
      invariant q == Find(p, d)
      invariant r == |done| && r + Cuts(p, d) == n
      invariant done + Split(p, d) == Split(s, d)
      invariant forall k :: 0 <= k < r ==> strv[k] == Some(done[k])
      invariant forall k :: r <= k < strv.Length ==> strv[k] == None
      decreases |p|
    {
      FirstToken(p, d);
      Assoc(done, [p[..q]], Split(p[q + |d|..], d));
      strv[r] := Some(p[..q]);
      done := done + [p[..q]];
      r, p := r + 1, p[q + |d|..];
      q := Find(p, d);
    }
    LastToken(p, d);
    if p != [] {
      strv[r] := Some(p);
    }
  }

  /** _fep_strjoinv: a first pass adds up the length, a second one appends the tokens. */
  method StrJoin(v: seq<seq<byte>>, d: seq<byte>) returns (str: seq<byte>, len: nat)
    ensures str == Join(v, d)
    ensures len == |str|
  {
    len := 0;
    var i := 0;
    while i < |v|
      invariant 0 <= i <= |v|
      invariant len + |Join(v[i..], d)| == |Join(v, d)|
    {
      assert v[i..][1..] == v[i + 1..];
      len := len + |v[i]| + if i + 1 < |v| then |d| else 0;
      i := i + 1;
    }
    str, i := [], 0;
    while i < |v|
      invariant 0 <= i <= |v|
      invariant str + Join(v[i..], d) == Join(v, d)
    {
      assert v[i..][1..] == v[i + 1..];
      str := str + v[i] + if i + 1 < |v| then d else [];
      i := i + 1;
    }
  }
}
