/** The table of client descriptors and the removal of one of them, in fep/control.c. */
module ClientTable {
  import opened Bytes

  const MAX_CLIENTS := 10

  /** A table entry: a descriptor of 31 bits, -1 when unused. */
  type Fd = f: int | -1 <= f < 0x8000_0000

  /** An entry whose n lowest bytes have been overwritten with those of another, on a little-endian machine. */
  function Patched(to: Fd, from: Fd, n: int): Fd
    requires to >= 0 && from >= 0
  {
    if n <= 0 then to
    else if n == 1 then to / 0x100 * 0x100 + from % 0x100
    else if n == 2 then to / 0x1_0000 * 0x1_0000 + from % 0x1_0000
    else if n == 3 then to / 0x100_0000 * 0x100_0000 + from % 0x100_0000
    else from
  }

  /** The descriptors in use. */
  predicate InUse(table: seq<Fd>, n: nat) {
    && n <= |table| == MAX_CLIENTS
    && (forall i :: 0 <= i < n ==> table[i] >= 0)
    && (forall i, k :: 0 <= i < k < n ==> table[i] != table[k])
  }

  /** memmove(3) of `count` bytes from entry i + 1 down to entry i. */
  function Moved(table: seq<Fd>, i: nat, count: nat): (r: seq<Fd>)
    requires i + count < |table| && forall k :: i <= k <= i + count ==> table[k] >= 0
    ensures |r| == |table|
  {
    seq(|table|, k requires 0 <= k < |table| =>
      if i <= k < i + count then Patched(table[k], table[k + 1], count - 4 * (k - i)) else table[k])
  }

  lemma MovedEach(table: seq<Fd>, moved: seq<Fd>, i: nat, count: nat)
    requires i + count < |table| == |moved| && forall k :: i <= k <= i + count ==> table[k] >= 0
    requires forall k :: 0 <= k < |table| && !(i <= k < i + count) ==> moved[k] == table[k]
    requires forall k :: i <= k < i + count ==> moved[k] == Patched(table[k], table[k + 1], count - 4 * (k - i))
    ensures moved == Moved(table, i, count)
  {
    hide Patched;
  }

  /** Byte q of the table in memory, on a little-endian machine. */
  function ByteOf(entry: int, k: nat): int {
    if k == 0 then entry % 0x100
    else if k == 1 then entry / 0x100 % 0x100
    else if k == 2 then entry / 0x1_0000 % 0x100
    else entry / 0x100_0000 % 0x100
  }

  lemma DigitsOf(x: nat)
    ensures x / 0x1_0000 == x / 0x100 / 0x100 && x / 0x100_0000 == x / 0x1_0000 / 0x100
    ensures x % 0x100 == x % 0x1_0000 % 0x100 && x / 0x100 % 0x100 == x % 0x1_0000 / 0x100
    ensures x % 0x1_0000 == x % 0x100_0000 % 0x1_0000 && x / 0x1_0000 % 0x100 == x % 0x100_0000 / 0x1_0000
  {
  }

  /** A number whose low part, below `unit`, is that of one number and whose other part is that of another. */
  lemma PutTogether(high: nat, low: nat, unit: nat)
    requires unit in {0x100, 0x1_0000, 0x100_0000}
    ensures var r := high / unit * unit + low % unit; r / unit == high / unit && r % unit == low % unit
  {
  }

  lemma PatchedBytes(to: Fd, from: Fd, n: int, k: nat)
    requires to >= 0 && from >= 0 && k < 4
    ensures ByteOf(Patched(to, from, n), k) == ByteOf(if k < n then from else to, k)
  {
    if 1 <= n <= 3 {
      var unit := if n == 1 then 0x100 else if n == 2 then 0x1_0000 else 0x100_0000;
      PutTogether(to, from, unit);
      var r: nat := Patched(to, from, n);
      assert r == to / unit * unit + from % unit;
      SameDigits(r, to, from, n, k);
    }
  }

  lemma SameDigits(r: nat, to: nat, from: nat, n: nat, k: nat)
    requires 1 <= n <= 3 && k < 4
    requires var unit := if n == 1 then 0x100 else if n == 2 then 0x1_0000 else 0x100_0000;
             r / unit == to / unit && r % unit == from % unit
    ensures ByteOf(r, k) == ByteOf(if k < n then from else to, k)
  {
    DigitsOf(r);
    DigitsOf(to);
    DigitsOf(from);
  }

  /** The move is memmove(3): from entry i on `count` bytes are those of one entry further, and the rest stay. */
  lemma MovedBytes(table: seq<Fd>, i: nat, count: nat, e: nat, k: nat)
    requires i + count < |table| && forall j :: i <= j <= i + count ==> table[j] >= 0
    requires e < |table| && k < 4
    ensures ByteOf(Moved(table, i, count)[e], k)
         == if 4 * i <= 4 * e + k < 4 * i + count then ByteOf(table[e + 1], k) else ByteOf(table[e], k)
  {
    hide Patched, ByteOf;
    if i <= e < i + count {
      PatchedBytes(table[e], table[e + 1], count - 4 * (e - i), k);
    }
  }

  /**
   What is left after the removal at i: the bytes behind entry i move down by one entry, but only as
   many bytes as there are entries behind it; then the last entry is cleared.
   */
  function Removed(table: seq<Fd>, n: nat, i: nat): (r: seq<Fd>)
    requires InUse(table, n) && i < n
    ensures |r| == MAX_CLIENTS
  {
    Moved(table, i, n - (i + 1))[n - 1 := -1]
  }

  /** The table without its entry i, as intended. */
  function Without(table: seq<Fd>, n: nat, i: nat): seq<Fd>
    requires InUse(table, n) && i < n
  {
    table[..i] + table[i + 1..n]
  }

  /**
   The removal leaves the other descriptors exactly when the removed one is the last, or the last but
   one and equal to the last above its lowest byte.
   */
  lemma RemovalExact(table: seq<Fd>, n: nat, i: nat)
    requires InUse(table, n) && i < n
    ensures Removed(table, n, i)[..n - 1] == Without(table, n, i)
            <==> i == n - 1 || (i == n - 2 && table[i] / 0x100 == table[i + 1] / 0x100)
  {
    hide Patched;
    var r, w := Removed(table, n, i)[..n - 1], Without(table, n, i);
    assert |r| == |w| == n - 1 && forall k :: 0 <= k < i ==> r[k] == table[k] == w[k];
    if i < n - 2 {
      PatchedNone(table[n - 2], table[n - 1], n - (i + 1) - 4 * (n - 2 - i));
      assert r[n - 2] == table[n - 2] && w[n - 2] == table[n - 1];
    } else if i == n - 2 {
      PatchedByte(table[i], table[i + 1]);
      assert r[i] == Patched(table[i], table[i + 1], 1) && w[i] == table[i + 1];
    }
  }

  lemma PatchedNone(to: Fd, from: Fd, n: int)
    requires to >= 0 && from >= 0 && n <= 0
    ensures Patched(to, from, n) == to
  {
  }

  lemma PatchedByte(to: Fd, from: Fd)
    requires to >= 0 && from >= 0
    ensures Patched(to, from, 1) == from <==> to / 0x100 == from / 0x100
  {
  }

  /** With three clients, removing the first leaves its successor in the table twice, or not at all. */
  lemma RemovalExample()
    ensures var table: seq<Fd> := [5, 6, 7, -1, -1, -1, -1, -1, -1, -1];
            InUse(table, 3) && Removed(table, 3, 0)[..2] == [6, 6]
  {
  }

  class Clients {
    var table: array<Fd>
    var n: nat

    ghost predicate Valid()
      reads this, table
    {
      table.Length == MAX_CLIENTS && n <= MAX_CLIENTS && InUse(table[..], n)
    }

    method MoveBytes(i: nat, count: nat)
      requires i + count < table.Length && forall k :: i <= k <= i + count ==> table[k] >= 0
      modifies table
      ensures i + count < |old(table[..])| && forall k :: i <= k <= i + count ==> old(table[..])[k] >= 0
      ensures table[..] == Moved(old(table[..]), i, count)
    {
      hide Patched, Moved;
      ghost var before := table[..];
      assert forall j :: i <= j <= i + count ==> before[j] >= 0;
      var k := i;
      while k < i + count
        invariant i <= k <= i + count
        invariant forall j :: 0 <= j < table.Length && !(i <= j < k) ==> table[j] == before[j]
        invariant forall j :: i <= j < k ==> table[j] == Patched(before[j], before[j + 1], count - 4 * (j - i))
      {
        table[k] := Patched(table[k], table[k + 1], count - 4 * (k - i));
        k := k + 1;
      }
      assert forall j :: 0 <= j < table.Length ==> table[j] == table[..][j];
      MovedEach(before, table[..], i, count);
    }

    /** The entry of a descriptor, n if there is none. */
    method IndexOf(fd: Fd) returns (i: nat)
      requires Valid()
      ensures i <= n && (i < n ==> table[i] == fd) && fd !in table[..i]
    {
      i := 0;
      while i < n
        invariant 0 <= i <= n && fd !in table[..i]
      {
        if table[i] == fd {
          return;
        }
        i := i + 1;
      }
    }

    /** The failure branch of _fep_read_control_message_from_fd: the descriptor is looked up and removed. */
    method Remove(fd: Fd) returns (ghost at: nat)
      requires Valid() && fd >= 0
      modifies this`n, table
      ensures fd !in old(table[..n]) ==> n == old(n) && table[..] == old(table[..])
      ensures fd in old(table[..n]) ==>
                && at < old(n) == n + 1 && old(table[..])[at] == fd
                && table[..] == Removed(old(table[..]), old(n), at)
    {
      hide Patched, Moved;
      var i := IndexOf(fd);
      at := i;
      if i < n {
        assert forall k :: 0 <= k < n ==> table[k] == table[..][k];
        MoveBytes(i, n - (i + 1));
        n := n - 1;
        table[n] := -1;
      }
    }
  }
}
