/** Output of the child process, cut after the last sequence that clears the screen: fep/fep.c. */
module PtySplit {
  import opened Bytes

  /** The first byte of a C string, which is its terminator if it is empty. */
  function First(needle: seq<byte>): byte {
    if needle == [] then 0 else needle[0]
  }

  /** Where the search looks: at a byte equal to the first of the needle, followed by the rest of it. */
  predicate OccursAt(haystack: seq<byte>, needle: seq<byte>, p: nat) {
    p < |haystack| && haystack[p] == First(needle) && needle <= haystack[p..]
  }

  /** For a needle that is not empty that is every occurrence. */
  lemma OccurrencesFound(haystack: seq<byte>, needle: seq<byte>, p: nat)
    requires needle != []
    ensures OccursAt(haystack, needle, p) <==> p + |needle| <= |haystack| && haystack[p..p + |needle|] == needle
  {
    if p + |needle| <= |haystack| {
      assert haystack[p..][..|needle|] == haystack[p..p + |needle|];
      if haystack[p..p + |needle|] == needle {
        assert haystack[p] == haystack[p..p + |needle|][0];
      }
    }
  }

  /** The comparison find_match_end makes, at a position that holds the first byte. */
  lemma OccursMeans(haystack: seq<byte>, needle: seq<byte>, p: nat)
    requires p < |haystack| && haystack[p] == First(needle)
    ensures OccursAt(haystack, needle, p) <==> |haystack| - p >= |needle| && haystack[p..p + |needle|] == needle
  {
    if p + |needle| <= |haystack| {
      assert haystack[p..][..|needle|] == haystack[p..p + |needle|];
    }
  }

  /** memrchr(3): the last position before n that holds b, -1 if there is none. */
  method Memrchr(s: seq<byte>, b: byte, n: nat) returns (p: int)
    requires n <= |s|
    ensures p == -1 ==> forall i :: 0 <= i < n ==> s[i] != b
    ensures p != -1 ==> 0 <= p < n && s[p] == b && forall i :: p < i < n ==> s[i] != b
  {
    p := n - 1;
    while p >= 0
      invariant -1 <= p < n && forall i :: p < i < n ==> s[i] != b
    {
      if s[p] == b {
        return;
      }
      p := p - 1;
    }
  }

  /** find_match_end: the end of the last occurrence, nothing exactly when there is none. */
  method FindMatchEnd(haystack: seq<byte>, needle: seq<byte>) returns (end: Option<nat>)
    ensures end == None <==> forall p :: 0 <= p < |haystack| ==> !OccursAt(haystack, needle, p)
    ensures end.Some? ==>
              && |needle| <= end.value <= |haystack| && OccursAt(haystack, needle, end.value - |needle|)
              && forall p :: end.value - |needle| < p < |haystack| ==> !OccursAt(haystack, needle, p)
  {
    var n := |haystack|;
    while n > 0
      invariant 0 <= n <= |haystack|
      invariant forall p :: n <= p < |haystack| ==> !OccursAt(haystack, needle, p)
    {
      var p := Memrchr(haystack, First(needle), n);
      if p == -1 {
        return None;
      }
      OccursMeans(haystack, needle, p);
      if |haystack| - p >= |needle| && haystack[p..p + |needle|] == needle {
        return Some(p + |needle|);
      }
      n := p;
    }
    return None;
  }

  /** Some clear sequence ends at e. */
  ghost predicate ClearEndsAt(buf: seq<byte>, clear: seq<byte>, eos: seq<byte>, e: int) {
    || (e >= |clear| && OccursAt(buf, clear, e - |clear|))
    || (e >= |eos| && OccursAt(buf, eos, e - |eos|))
  }

  /**
   The part of main_loop that handles output of the child: when the chunk holds a clear sequence of
   either kind the status text is drawn again behind the last one, so that nothing behind clears it.
   */
  method SplitChunk(buf: seq<byte>, clearScreen: seq<byte>, clrEos: seq<byte>)
    returns (redraw: bool, before: seq<byte>, after: seq<byte>)
    ensures before + after == buf
    ensures redraw <==> exists e :: ClearEndsAt(buf, clearScreen, clrEos, e)
    ensures redraw ==> ClearEndsAt(buf, clearScreen, clrEos, |before|)
    ensures redraw ==> forall e :: e > |before| ==> !ClearEndsAt(buf, clearScreen, clrEos, e)
    ensures !redraw ==> before == buf
  {
    var str1 := FindMatchEnd(buf, clearScreen);
    var str2 := FindMatchEnd(buf, clrEos);
    if str1 == None && str2 == None {
      assert forall e :: !ClearEndsAt(buf, clearScreen, clrEos, e);
      return false, buf, [];
    }
    if str2.Some? && (str1 == None || str2.value > str1.value) {
      str1 := str2;
    }
    var k := str1.value;
    assert ClearEndsAt(buf, clearScreen, clrEos, k);
    return true, buf[..k], buf[k..];
  }
}
