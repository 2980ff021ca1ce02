/** Bytes, optional values and concatenation of byte strings: the vocabulary of every other module. */
module Bytes {

  type byte = b: int | 0 <= b < 256

  datatype Option<+T> = None | Some(value: T) {
    function GetOr(default: T): T {
      if Some? then value else default
    }
  }

  function Min(a: int, b: int): int {
    if a <= b then a else b
  }

  function Max(a: int, b: int): int {
    if a <= b then b else a
  }

  /** The C string that a buffer holds: its bytes before the first 0. */
  function CString(s: seq<byte>): (r: seq<byte>)
    ensures r <= s
  {
    if s == [] || s[0] == 0 then [] else [s[0]] + CString(s[1..])
  }

  lemma {:induction false} CStringOf(text: seq<byte>, more: seq<byte>)
    requires 0 !in text
    ensures CString(text + [0] + more) == text
  {
    if text == [] {
      assert [] + [0] + more == [0] + more;
    } else {
      assert (text + [0] + more)[1..] == text[1..] + [0] + more;
      CStringOf(text[1..], more);
    }
  }

  lemma Assoc<T>(a: seq<T>, b: seq<T>, c: seq<T>)
    ensures (a + b) + c == a + (b + c)
  {
  }

  /** Slicing inside the first of two joined sequences. */
  lemma SliceConcat<T>(s: seq<T>, t: seq<T>, i: nat, j: nat)
    requires i <= j <= |s|
    ensures (s + t)[i..j] == s[i..j]
    ensures (s + t)[j..] == s[j..] + t
  {
  }

  /** A proper prefix of a joined sequence that covers the first part. */
  lemma PrefixParts<T>(p: seq<T>, a: seq<T>, b: seq<T>)
    requires p < a + b && |p| >= |a|
    ensures p == a + p[|a|..] && p[|a|..] < b
  {
    assert (a + b)[..|p|] == p;
  }

  /** The concatenation of the parts, in order. */
  function Flatten<T>(parts: seq<seq<T>>): seq<T> {
    if parts == [] then [] else parts[0] + Flatten(parts[1..])
  }

  lemma FlattenCons<T>(part: seq<T>, parts: seq<seq<T>>)
    ensures Flatten([part] + parts) == part + Flatten(parts)
  {
    assert ([part] + parts)[1..] == parts;
  }

  lemma {:induction false} FlattenConcat<T>(a: seq<seq<T>>, b: seq<seq<T>>)
    ensures Flatten(a + b) == Flatten(a) + Flatten(b)
  {
    if a == [] {
      assert a + b == b;
    } else {
      FlattenConcat(a[1..], b);
      assert (a + b)[1..] == a[1..] + b;
      Assoc(a[0], Flatten(a[1..]), Flatten(b));
    }
  }

  /** What f gives for the elements of s, in order, leaving out those it gives nothing for. */
  function Pick<A, B>(f: A -> Option<B>, s: seq<A>): seq<B> {
    if s == [] then []
    else
      match f(s[0])
      case Some(b) => [b] + Pick(f, s[1..])
      case None => Pick(f, s[1..])
  }

  lemma PickCons<A, B>(f: A -> Option<B>, x: A, s: seq<A>)
    ensures Pick(f, [x] + s) == match f(x) case Some(b) => [b] + Pick(f, s) case None => Pick(f, s)
  {
    assert ([x] + s)[1..] == s;
  }

  lemma {:induction false} PickConcat<A, B>(f: A -> Option<B>, a: seq<A>, b: seq<A>)
    ensures Pick(f, a + b) == Pick(f, a) + Pick(f, b)
  {
    if a == [] {
      assert a + b == b;
    } else {
      PickConcat(f, a[1..], b);
      assert (a + b)[1..] == a[1..] + b;
      if f(a[0]).Some? {
        Assoc([f(a[0]).value], Pick(f, a[1..]), Pick(f, b));
      }
    }
  }

  lemma PickAppend<A, B>(f: A -> Option<B>, a: seq<A>, x: A)
    ensures Pick(f, a + [x]) == match f(x) case Some(b) => Pick(f, a) + [b] case None => Pick(f, a)
  {
    PickConcat(f, a, [x]);
    assert Pick(f, []) == [];
  }
}
