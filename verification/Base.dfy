/** Shared vocabulary of the two coding back ends. */
module Base {

  datatype Option<+T> = None | Some(value: T)

  newtype Byte = x: int | 0 <= x < 256
  type Packet = seq<Byte>

  function ByteOf(n: int): (b: Byte)
    requires 0 <= n < 256
    ensures Value(b) == n
  {
    n as Byte
  }

  function Value(b: Byte): (n: nat)
    ensures n < 256
  {
    b as int
  }

  /** Source symbols per generation, and the other size limits of the program. */
  const K: nat := 8
  const MAX_PARITY: nat := 32
  const MAX_PKT_LEN: nat := 1500
  const UINT16: nat := 0x1_0000
  const UINT32: nat := 0x1_0000_0000

  ghost predicate AllOfLength(rows: seq<Packet>, len: nat) {
    forall i :: 0 <= i < |rows| ==> |rows[i]| == len
  }

  /** memcpy of the first len bytes of a payload over the start of a buffer. */
  function Overwrite(row: Packet, payload: Packet, len: nat): (row': Packet)
    requires len <= |payload| && len <= |row|
    ensures |row'| == |row|
  {
    payload[..len] + row[len..]
  }

  /** Concatenation of a sequence of sequences. */
  function Flatten<T>(ss: seq<seq<T>>): seq<T> {
    if ss == [] then [] else Flatten(ss[..|ss| - 1]) + ss[|ss| - 1]
  }

  /** How many entries are set. */
  function Count(flags: seq<bool>): (n: nat)
    ensures n <= |flags|
  {
    if flags == [] then 0
    else Count(flags[..|flags| - 1]) + if flags[|flags| - 1] then 1 else 0
  }

  lemma {:induction false} CountExtremes(flags: seq<bool>)
    ensures Count(flags) == |flags| <==> forall i :: 0 <= i < |flags| ==> flags[i]
    ensures Count(flags) == 0 <==> forall i :: 0 <= i < |flags| ==> !flags[i]
  {
    if flags == [] {
    } else {
      CountExtremes(flags[..|flags| - 1]);
      assert forall i :: 0 <= i < |flags| - 1 ==> flags[..|flags| - 1][i] == flags[i];
    }
  }

  /** Flags that are each other's complement count to the whole. */
  lemma {:induction false} CountComplement(a: seq<bool>, b: seq<bool>)
    requires |a| == |b| && forall i :: 0 <= i < |a| ==> a[i] == !b[i]
    ensures Count(a) + Count(b) == |a|
  {
    if a == [] {
    } else {
      CountComplement(a[..|a| - 1], b[..|b| - 1]);
    }
  }

  function Repeat<T>(x: T, n: nat): (s: seq<T>)
    ensures |s| == n && forall i :: 0 <= i < n ==> s[i] == x
  {
    seq(n, _ => x)
  }
}
