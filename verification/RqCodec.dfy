/** The RaptorQ codec: a foreign library seen through a contract (RFC 6330). */
module RqCodec {
  import opened Base

  // A block has k source packets of one length. `symbol` gives the packet for any encoding symbol id; the first k ids
  // are the source packets themselves and repair ids start at k (section 4.4.2 of RFC 6330). `decode` gets the stored
  // symbols with their ids and either fails or returns packets. The library's matrices are not part of this model.

  datatype Codec = Codec(symbol: (seq<Packet>, nat) -> Packet,
                         decode: (nat, seq<Packet>, seq<nat>) -> Option<seq<Packet>>)

  /** Source packets of one block. */
  ghost predicate ValidSource(src: seq<Packet>) {
    && 0 < |src| <= K && 0 < |src[0]| <= MAX_PKT_LEN
    && forall i :: 0 <= i < |src| ==> |src[i]| == |src[0]|
  }

  /** Encoding is systematic and keeps the length. */
  ghost predicate Systematic(c: Codec) {
    forall src, esi: nat :: ValidSource(src) ==>
      |c.symbol(src, esi)| == |src[0]| && (esi < |src| ==> c.symbol(src, esi) == src[esi])
  }

  /** Each row is the symbol that its id names. */
  ghost predicate RowsOf(c: Codec, src: seq<Packet>, rows: seq<Packet>, esis: seq<nat>) {
    |rows| == |esis| && forall n :: 0 <= n < |rows| ==> rows[n] == c.symbol(src, esis[n])
  }

  /** The library's promise: on genuine symbols, decoding fails or gives the source packets. */
  ghost predicate Sound(c: Codec) {
    forall src, rows, esis :: ValidSource(src) && RowsOf(c, src, rows, esis) ==>
      c.decode(|src|, rows, esis) == None || c.decode(|src|, rows, esis) == Some(src)
  }

  /** More symbols never turn success into failure. */
  ghost predicate Monotone(c: Codec) {
    forall src, rows, esis, rows', esis' ::
      && ValidSource(src) && RowsOf(c, src, rows, esis) && RowsOf(c, src, rows', esis')
      && (forall e :: e in esis ==> e in esis') && c.decode(|src|, rows, esis).Some?
      ==> c.decode(|src|, rows', esis').Some?
  }

  /** A decoder's answer has the shape of a block: k rows of the symbols' length. */
  ghost predicate Shaped(c: Codec) {
    forall k: nat, rows, esis, len: nat :: AllOfLength(rows, len) && c.decode(k, rows, esis).Some? ==>
      |c.decode(k, rows, esis).value| == k && AllOfLength(c.decode(k, rows, esis).value, len)
  }

  ghost predicate Correct(c: Codec) {
    Systematic(c) && Sound(c) && Monotone(c) && Shaped(c)
  }

  // ----- a codec that keeps the contract: repair symbol e repeats source packet e mod k

  function RepeatedSymbol(src: seq<Packet>, esi: nat): Packet {
    if |src| == 0 then [] else src[esi % |src|]
  }

  /** The first row whose id is i modulo k. */
  function FindRow(k: nat, rows: seq<Packet>, esis: seq<nat>, i: nat): Option<Packet>
    requires k > 0
    decreases |rows|
  {
    if |rows| == 0 || |esis| == 0 then None
    else if esis[0] % k == i then Some(rows[0])
    else FindRow(k, rows[1..], esis[1..], i)
  }

  function FindRows(k: nat, rows: seq<Packet>, esis: seq<nat>, n: nat): (found: Option<seq<Packet>>)
    requires k > 0
    ensures found.Some? ==> |found.value| == n
  {
    if n == 0 then Some([])
    else
      var before, one := FindRows(k, rows, esis, n - 1), FindRow(k, rows, esis, n - 1);
      if before.Some? && one.Some? then Some(before.value + [one.value]) else None
  }

  function Repetition(): Codec {
    Codec(RepeatedSymbol, (k: nat, rows: seq<Packet>, esis: seq<nat>) =>
            if k == 0 then None else FindRows(k, rows, esis, k))
  }

  ghost predicate Covers(esis: seq<nat>, k: nat, i: nat)
    requires k > 0
  {
    exists n :: 0 <= n < |esis| && esis[n] % k == i
  }

  lemma CoversStep(esis: seq<nat>, k: nat, i: nat)
    requires k > 0 && |esis| > 0
    ensures Covers(esis, k, i) <==> esis[0] % k == i || Covers(esis[1..], k, i)
  {
    if n :| 0 <= n < |esis[1..]| && esis[1..][n] % k == i {
      assert esis[n + 1] == esis[1..][n];
    }
    if m :| 0 < m < |esis| && esis[m] % k == i {
      assert esis[1..][m - 1] == esis[m];
    }
  }

  lemma CoversMore(esis: seq<nat>, esis': seq<nat>, k: nat, i: nat)
    requires k > 0 && Covers(esis, k, i) && forall e :: e in esis ==> e in esis'
    ensures Covers(esis', k, i)
  {
    var n :| 0 <= n < |esis| && esis[n] % k == i;
    assert esis[n] in esis';
  }

  lemma {:induction false} FindRowIsRight(c: Codec, src: seq<Packet>, rows: seq<Packet>, esis: seq<nat>, i: nat)
    requires c == Repetition() && ValidSource(src) && RowsOf(c, src, rows, esis) && i < |src|
    ensures FindRow(|src|, rows, esis, i) == Some(src[i]) || FindRow(|src|, rows, esis, i) == None
    ensures FindRow(|src|, rows, esis, i).Some? <==> Covers(esis, |src|, i)
    decreases |rows|
  {
    if |rows| == 0 {
    } else {
      assert rows[0] == c.symbol(src, esis[0]);
      forall n | 0 <= n < |rows[1..]|
        ensures rows[1..][n] == c.symbol(src, esis[1..][n])
      {
        assert rows[n + 1] == c.symbol(src, esis[n + 1]);
      }
      FindRowIsRight(c, src, rows[1..], esis[1..], i);
      CoversStep(esis, |src|, i);
    }
  }

  lemma {:induction false} FindRowsIsRight(c: Codec, src: seq<Packet>, rows: seq<Packet>, esis: seq<nat>, n: nat)
    requires c == Repetition() && ValidSource(src) && RowsOf(c, src, rows, esis) && n <= |src|
    ensures var found := FindRows(|src|, rows, esis, n);
      && (found.Some? ==> found.value == src[..n])
      && (found.Some? <==> forall i :: 0 <= i < n ==> FindRow(|src|, rows, esis, i).Some?)
  {
    if n == 0 {
    } else {
      FindRowsIsRight(c, src, rows, esis, n - 1);
      FindRowIsRight(c, src, rows, esis, n - 1);
    }
  }

  lemma RepeatedKeepsLength(src: seq<Packet>, esi: nat)
    requires ValidSource(src)
    ensures |RepeatedSymbol(src, esi)| == |src[0]| && (esi < |src| ==> RepeatedSymbol(src, esi) == src[esi])
  {
    var i := esi % |src|;
    assert 0 <= i < |src|;
  }

  lemma RepetitionIsSystematic()
    ensures Systematic(Repetition())
  {
    forall src, esi: nat | ValidSource(src)
      ensures |Repetition().symbol(src, esi)| == |src[0]| && (esi < |src| ==> Repetition().symbol(src, esi) == src[esi])
    {
      RepeatedKeepsLength(src, esi);
    }
  }

  lemma RepetitionDecodes(src: seq<Packet>, rows: seq<Packet>, esis: seq<nat>)
    requires ValidSource(src) && RowsOf(Repetition(), src, rows, esis)
    ensures var d := Repetition().decode(|src|, rows, esis);
      && (d == None || d == Some(src))
      && (d.Some? <==> forall i :: 0 <= i < |src| ==> FindRow(|src|, rows, esis, i).Some?)
  {
    FindRowsIsRight(Repetition(), src, rows, esis, |src|);
    assert src[..|src|] == src;
  }

  lemma RepetitionIsMonotone(src: seq<Packet>, rows: seq<Packet>, esis: seq<nat>, rows': seq<Packet>, esis': seq<nat>)
    requires ValidSource(src) && RowsOf(Repetition(), src, rows, esis) && RowsOf(Repetition(), src, rows', esis')
    requires (forall e :: e in esis ==> e in esis') && Repetition().decode(|src|, rows, esis).Some?
    ensures Repetition().decode(|src|, rows', esis').Some?
  {
    RepetitionDecodes(src, rows, esis);
    RepetitionDecodes(src, rows', esis');
    forall i | 0 <= i < |src|
      ensures FindRow(|src|, rows', esis', i).Some?
    {
      FindRowIsRight(Repetition(), src, rows, esis, i);
      CoversMore(esis, esis', |src|, i);
      FindRowIsRight(Repetition(), src, rows', esis', i);
    }
  }

  lemma {:induction false} FindRowKeepsLength(k: nat, rows: seq<Packet>, esis: seq<nat>, i: nat, len: nat)
    requires k > 0 && AllOfLength(rows, len)
    ensures FindRow(k, rows, esis, i).Some? ==> |FindRow(k, rows, esis, i).value| == len
    decreases |rows|
  {
    if |rows| > 0 && |esis| > 0 && esis[0] % k != i {
      FindRowKeepsLength(k, rows[1..], esis[1..], i, len);
    }
  }

  lemma {:induction false} FindRowsKeepLength(k: nat, rows: seq<Packet>, esis: seq<nat>, n: nat, len: nat)
    requires k > 0 && AllOfLength(rows, len) && FindRows(k, rows, esis, n).Some?
    ensures AllOfLength(FindRows(k, rows, esis, n).value, len)
  {
    if n == 0 {
    } else {
      FindRowsKeepLength(k, rows, esis, n - 1, len);
      FindRowKeepsLength(k, rows, esis, n - 1, len);
    }
  }

  /** The contract is satisfiable. */
  lemma ContractHasModel()
    ensures Correct(Repetition())
  {
    var c := Repetition();
    RepetitionIsSystematic();
    forall k: nat, rows, esis, len: nat | AllOfLength(rows, len) && c.decode(k, rows, esis).Some?
      ensures |c.decode(k, rows, esis).value| == k && AllOfLength(c.decode(k, rows, esis).value, len)
    {
      FindRowsKeepLength(k, rows, esis, k, len);
    }
    forall src, rows, esis | ValidSource(src) && RowsOf(c, src, rows, esis)
      ensures c.decode(|src|, rows, esis) == None || c.decode(|src|, rows, esis) == Some(src)
    {
      RepetitionDecodes(src, rows, esis);
    }
    forall src, rows, esis, rows', esis' |
        && ValidSource(src) && RowsOf(c, src, rows, esis) && RowsOf(c, src, rows', esis')
        && (forall e :: e in esis ==> e in esis') && c.decode(|src|, rows, esis).Some?
      ensures c.decode(|src|, rows', esis').Some?
    {
      RepetitionIsMonotone(src, rows, esis, rows', esis');
    }
  }
}
