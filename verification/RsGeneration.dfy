/** A generation as both ends understand it: K packets of one length, and the fragments that carry it. */
module RsGeneration {
  import opened Base
  import opened RsCodec
  import opened Wire

  datatype Generation = Generation(id: nat, len: nat, rows: seq<Packet>)

  ghost predicate ValidGeneration(g: Generation) {
    && g.id < UINT16 && 0 < g.len <= MAX_PKT_LEN && |g.rows| == K
    && forall i :: 0 <= i < K ==> |g.rows[i]| == g.len
  }

  /** Byte j of every packet: what is encoded together. */
  function Column(rows: seq<Packet>, j: nat): (d: seq<Byte>)
    requires |rows| == K && forall i :: 0 <= i < K ==> j < |rows[i]|
    ensures |d| == K && forall i :: 0 <= i < K ==> d[i] == rows[i][j]
  {
    seq(K, i requires 0 <= i < K => rows[i][j])
  }

  /** Parity packet p: byte p of the parity of every column. */
  function ParityRow(c: Codec, r: nat, rows: seq<Packet>, len: nat, p: nat): (row: Packet)
    requires Shaped(c, r) && p < r && |rows| == K && forall i :: 0 <= i < K ==> |rows[i]| == len
    ensures |row| == len
  {
    seq(len, j requires 0 <= j < len => c.encode(Column(rows, j))[p])
  }

  /** A fragment's place in its generation. */
  datatype Mark = DataMark(i: nat) | ParityMark(p: nat)

  ghost predicate ValidMark(m: Mark, r: nat) {
    match m
    case DataMark(i) => i < K
    case ParityMark(p) => p < r
  }

  function DataFragment(id: nat, i: nat, pkt: Packet): Fragment {
    Fragment(id, i, DATA, |pkt|, pkt)
  }

  function ParityFragment(id: nat, p: nat, row: Packet): Fragment {
    Fragment(id, K + p, PARITY, |row|, row)
  }

  /** The fragment that the gateway sends for a place in a generation. */
  function FragmentOf(c: Codec, r: nat, g: Generation, m: Mark): (f: Fragment)
    requires Shaped(c, r) && ValidGeneration(g) && ValidMark(m, r)
    ensures f.genId == g.id && f.originalLen == |f.payload| == g.len
  {
    match m
    case DataMark(i) => DataFragment(g.id, i, g.rows[i])
    case ParityMark(p) => ParityFragment(g.id, p, ParityRow(c, r, g.rows, g.len, p))
  }

  // ----- which places of a generation a list of arrivals covers

  function DataSeen(ms: seq<Mark>): (d: seq<bool>)
    ensures |d| == K
  {
    seq(K, i requires 0 <= i < K => DataMark(i) in ms)
  }

  function ParitySeen(ms: seq<Mark>): (d: seq<bool>)
    ensures |d| == MAX_PARITY
  {
    seq(MAX_PARITY, p requires 0 <= p < MAX_PARITY => ParityMark(p) in ms)
  }

  /** All r parity places are covered; with r = 0 there is no redundancy to wait for. */
  predicate ParityComplete(ms: seq<Mark>, r: nat) {
    r > 0 && forall p :: 0 <= p < r ==> ParityMark(p) in ms
  }

  predicate DataComplete(ms: seq<Mark>) {
    forall i :: 0 <= i < K ==> DataMark(i) in ms
  }

  lemma DataCompleteIsFull(ms: seq<Mark>)
    ensures DataComplete(ms) <==> Count(DataSeen(ms)) == K
  {
    var d := DataSeen(ms);
    CountExtremes(d);
    assert forall i :: 0 <= i < K ==> (d[i] <==> DataMark(i) in ms);
  }

  lemma SeenGrows(ms: seq<Mark>, m: Mark)
    requires m.DataMark? ==> m.i < K
    requires m.ParityMark? ==> m.p < MAX_PARITY
    ensures DataSeen(ms + [m]) == if m.DataMark? then DataSeen(ms)[m.i := true] else DataSeen(ms)
    ensures ParitySeen(ms + [m]) == if m.ParityMark? then ParitySeen(ms)[m.p := true] else ParitySeen(ms)
  {
  }
}
