/** Packets of one length laid end to end in a byte buffer. */
module FlatBuffer {
  import opened Base

  /** Where packet i starts. Repeated addition keeps products out of the proofs that use it. */
  function Offset(i: nat, len: nat): (at: nat) {
    if i == 0 then 0 else Offset(i - 1, len) + len
  }

  lemma {:induction false} OffsetIsProduct(i: nat, len: nat)
    ensures Offset(i, len) == i * len
  {
    if i == 0 {
    } else {
      OffsetIsProduct(i - 1, len);
    }
  }

  lemma {:induction false} OffsetGrows(i: nat, n: nat, len: nat)
    requires i < n
    ensures Offset(i, len) + len <= Offset(n, len)
  {
    if i < n - 1 {
      OffsetGrows(i, n - 1, len);
    }
  }

  lemma {:induction false} OffsetFits(n: nat, max: nat, len: nat, maxLen: nat)
    requires n <= max && len <= maxLen
    ensures Offset(n, len) <= Offset(max, maxLen)
  {
    if n < max {
      OffsetFits(n, max - 1, len, maxLen);
    } else if n > 0 {
      OffsetFits(n - 1, max - 1, len, maxLen);
    }
  }

  lemma {:induction false} FlatLength(rows: seq<Packet>, len: nat)
    requires AllOfLength(rows, len)
    ensures |Flatten(rows)| == Offset(|rows|, len)
    decreases |rows|
  {
    if |rows| == 0 {
    } else {
      FlatLength(rows[..|rows| - 1], len);
    }
  }

  /** Byte j of packet i. */
  lemma {:induction false} FlatByte(rows: seq<Packet>, len: nat, i: nat, j: nat)
    requires AllOfLength(rows, len) && i < |rows| && j < len
    ensures Offset(i, len) + j < |Flatten(rows)| && Flatten(rows)[Offset(i, len) + j] == rows[i][j]
    decreases |rows|
  {
    var n := |rows| - 1;
    FlatLength(rows[..n], len);
    if i < n {
      FlatByte(rows[..n], len, i, j);
    }
  }

  /** The buffer starts with these packets, one after the other. */
  ghost predicate Laid(a: array<Byte>, len: nat, rows: seq<Packet>)
    reads a
  {
    AllOfLength(rows, len) && |Flatten(rows)| <= a.Length && a[..][..|Flatten(rows)|] == Flatten(rows)
  }

  lemma LaidByte(a: array<Byte>, len: nat, rows: seq<Packet>, i: nat, j: nat)
    requires Laid(a, len, rows) && i < |rows| && j < len
    ensures Offset(i, len) + j < a.Length && a[Offset(i, len) + j] == rows[i][j]
  {
    FlatByte(rows, len, i, j);
    var at := Offset(i, len) + j;
    assert a[..][..|Flatten(rows)|][at] == a[at];
  }

  lemma LaidNothing(a: array<Byte>, len: nat)
    ensures Laid(a, len, [])
  {
    assert a[..][..0] == [];
  }

  /** Packet i as the buffer holds it. */
  lemma LaidRow(a: array<Byte>, len: nat, rows: seq<Packet>, i: nat)
    requires Laid(a, len, rows) && i < |rows|
    ensures Offset(i, len) + len <= a.Length && a[Offset(i, len)..Offset(i, len) + len] == rows[i]
  {
    FlatLength(rows, len);
    OffsetGrows(i, |rows|, len);
    forall j | 0 <= j < len
      ensures a[Offset(i, len) + j] == rows[i][j]
    {
      LaidByte(a, len, rows, i, j);
    }
  }

  /** memcpy into a buffer. */
  method CopyAt(a: array<Byte>, at: nat, bytes: seq<Byte>)
    requires at + |bytes| <= a.Length
    modifies a
    ensures a[..at] == old(a[..at]) && a[at..at + |bytes|] == bytes
    ensures a[at + |bytes|..] == old(a[at + |bytes|..])
  {
    for j := 0 to |bytes|
      invariant a[..at] == old(a[..at]) && a[at..at + j] == bytes[..j]
      invariant a[at + |bytes|..] == old(a[at + |bytes|..])
    {
      a[at + j] := bytes[j];
      assert a[at..at + (j + 1)] == a[at..at + j] + [bytes[j]];
    }
  }

  lemma LaidExtends(a: array<Byte>, len: nat, rows: seq<Packet>, pkt: Packet, at: nat)
    requires AllOfLength(rows, len) && |pkt| == len && at == |Flatten(rows)| && at + len <= a.Length
    requires a[..at] == Flatten(rows) && a[at..at + len] == pkt
    ensures Laid(a, len, rows + [pkt])
  {
    assert (rows + [pkt])[..|rows|] == rows;
    assert a[..at + len] == a[..at] + a[at..at + len];
    assert a[..][..at + len] == a[..at + len];
  }

  /** Packet number |rows| is stored behind the others. */
  method StorePacket(a: array<Byte>, ghost rows: seq<Packet>, count: nat, len: nat, pkt: Packet)
    requires count == |rows| && len == |pkt| && Offset(count + 1, len) <= a.Length
    requires count > 0 ==> Laid(a, len, rows)
    modifies a
    ensures Laid(a, len, rows + [pkt])
  {
    FlatLength(rows, len);
    ghost var flat := Flatten(rows);
    assert count > 0 ==> a[..|flat|] == a[..][..|flat|];
    CopyAt(a, Offset(count, len), pkt);
    LaidExtends(a, len, rows, pkt, Offset(count, len));
  }

  lemma SplitTail(s: seq<Byte>, at: nat, len: nat)
    requires at + len <= |s|
    ensures s[at..at + len] == s[at..][..len] && s[at + len..] == s[at..][len..]
  {
  }

  lemma OverwrittenTail(before: seq<Byte>, after: seq<Byte>, at: nat, payload: seq<Byte>, n: nat)
    requires n <= |payload| && at + n <= |before| == |after|
    requires after[at..at + n] == payload[..n] && after[at + n..] == before[at + n..]
    ensures after[at..] == Overwrite(before[at..], payload, n)
  {
    SplitTail(before, at, n);
    assert after[at..] == after[at..at + n] + after[at + n..];
  }

  /** memcpy of n bytes behind the packets: what the buffer then holds there is packet number |rows|. */
  method StoreBytes(a: array<Byte>, ghost rows: seq<Packet>, count: nat, len: nat, payload: seq<Byte>, n: nat)
    requires count == |rows| && Laid(a, len, rows) && n <= |payload|
    requires Offset(count, len) + len <= a.Length && Offset(count, len) + n <= a.Length
    modifies a
    ensures var at, written := Offset(count, len), Overwrite(old(a[Offset(count, len)..]), payload, n);
      a[at + len..] == written[len..] && Laid(a, len, rows + [written[..len]])
  {
    FlatLength(rows, len);
    var at := Offset(count, len);
    ghost var before := a[..];
    assert a[..at] == before[..at] && a[at + n..] == before[at + n..] && a[at..] == before[at..];
    CopyAt(a, at, payload[..n]);
    ghost var after := a[..];
    assert a[..at] == after[..at] && a[at + n..] == after[at + n..];
    assert a[at..at + n] == after[at..at + n] && a[at..at + len] == after[at..at + len];
    OverwrittenTail(before, after, at, payload, n);
    SplitTail(after, at, len);
    LaidExtends(a, len, rows, a[at..at + len], at);
  }

  /** memcpy of all packets from one buffer to another. */
  method CopyLaid(a: array<Byte>, b: array<Byte>, len: nat, n: nat, ghost rows: seq<Packet>)
    requires a != b && |rows| == n && Laid(a, len, rows) && Offset(n, len) <= b.Length
    modifies b
    ensures Laid(b, len, rows)
  {
    FlatLength(rows, len);
    var at := Offset(n, len);
    assert a[..at] == a[..][..at];
    CopyAt(b, 0, a[..at]);
    assert b[..][..at] == b[0..at];
  }
}
