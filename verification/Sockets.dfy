/**
 One end of a stream connection, as read(2) and write(2) show it: the bytes that will still
 arrive, how the stream ends once they are used up, and the bytes sent so far.  Every way a
 transfer can be cut short with progress is a choice made inside ReadSome and WriteSome.
 */
module Sockets {
  import opened Bytes

  /** What read(2) reports when no byte is left: 0 (end of file) or -1 (error). */
  datatype Ending = Eof | Error

  class Socket {
    var input: seq<byte>
    const ending: Ending
    var output: seq<byte>
    var room: nat  // bytes write(2) still accepts before it fails for good

    constructor (input: seq<byte>, ending: Ending, room: nat)
      ensures this.input == input && this.ending == ending
      ensures output == [] && this.room == room
    {
      this.input, this.ending, this.output, this.room := input, ending, [], room;
    }

    /** The return value of read(2) on an exhausted stream. */
    function Exhausted(): (k: int)
      ensures k <= 0
    {
      if ending.Eof? then 0 else -1
    }

    /** A blocking read of up to n bytes: any positive number of those that arrive, or the ending. */
    method ReadSome(n: nat) returns (k: int, bs: seq<byte>)
      requires n > 0
      modifies `input
      ensures old(input) == [] ==> k == Exhausted() && bs == [] && input == []
      ensures old(input) != [] ==> 1 <= k <= n && k <= |old(input)|
      ensures old(input) != [] ==> bs == old(input)[..k] && input == old(input)[k..]
    {
      if input == [] {
        return Exhausted(), [];
      }
      var most := Min(n, |input|);
      k :| 1 <= k <= most;
      bs, input := input[..k], input[k..];
    }

    /** A read of a few bytes: all n of them when that many arrive, what is left otherwise. */
    method ReadWhole(n: nat) returns (k: int, bs: seq<byte>)
      requires n > 0
      modifies `input
      ensures old(input) == [] ==> k == Exhausted() && bs == [] && input == []
      ensures old(input) != [] ==> k == Min(n, |old(input)|)
      ensures old(input) != [] ==> bs == old(input)[..k] && input == old(input)[k..]
    {
      if input == [] {
        return Exhausted(), [];
      }
      k := Min(n, |input|);
      bs, input := input[..k], input[k..];
    }

    /** A write that may take only part of bs; once it fails, every later write fails. */
    method WriteSome(bs: seq<byte>) returns (k: int)
      requires bs != []
      modifies `output, `room
      ensures old(room) == 0 ==> k == -1 && output == old(output) && room == 0
      ensures old(room) > 0 ==> 1 <= k <= |bs| && k <= old(room)
      ensures old(room) > 0 ==> output == old(output) + bs[..k] && room == old(room) - k
    {
      if room == 0 {
        return -1;
      }
      var most := Min(|bs|, room);
      k :| 1 <= k <= most;
      output, room := output + bs[..k], room - k;
    }

    /** A write of a few bytes: all of them or a failure. */
    method WriteWhole(bs: seq<byte>) returns (k: int)
      modifies `output, `room
      ensures |bs| <= old(room) ==> k == |bs| && output == old(output) + bs && room == old(room) - |bs|
      ensures |bs| > old(room) ==> k == -1 && output == old(output) && room == 0
    {
      if |bs| > room {
        room := 0;
        return -1;
      }
      output, room := output + bs, room - |bs|;
      return |bs|;
    }
  }
}
