/** The two wire formats between processing host and edge receiver. Multi-byte fields are big-endian. */
module Wire {
  import opened Base

  /** One Reed-Solomon fragment: an 8-byte header (generation, index, type, length, reserved) and the payload. */
  datatype Fragment = Fragment(genId: nat, index: nat, kind: nat, originalLen: nat, payload: Packet)

  /** The 16-bit number on the wire of a generation or block. */
  function WireId(serial: nat): (id: nat)
    ensures id < UINT16
  {
    serial % UINT16
  }

  const DATA: nat := 0
  const PARITY: nat := 1
  const RS_HEADER: nat := 8

  ghost predicate Sendable(f: Fragment) {
    f.genId < UINT16 && f.index < 256 && f.kind < 256 && f.originalLen < UINT16
  }

  function Encode16(n: nat): (b: seq<Byte>)
    requires n < UINT16
    ensures |b| == 2
  {
    [ByteOf(n / 256), ByteOf(n % 256)]
  }

  function Decode16(b: seq<Byte>): nat
    requires |b| >= 2
  {
    Value(b[0]) * 256 + Value(b[1])
  }

  lemma RoundTrip16(n: nat)
    requires n < UINT16
    ensures Decode16(Encode16(n)) == n
  {
  }

  function Serialize(f: Fragment): (b: seq<Byte>)
    requires Sendable(f)
    ensures |b| == RS_HEADER + |f.payload|
  {
    Encode16(f.genId) + [ByteOf(f.index), ByteOf(f.kind)] + Encode16(f.originalLen) + [0, 0] + f.payload
  }

  function Parse(b: seq<Byte>): Option<Fragment> {
    if |b| < RS_HEADER then None
    else Some(Fragment(Decode16(b[0..2]), Value(b[2]), Value(b[3]), Decode16(b[4..6]), b[8..]))
  }

  lemma FragmentRoundTrip(f: Fragment)
    requires Sendable(f)
    ensures Parse(Serialize(f)) == Some(f)
  {
    var b := Serialize(f);
    RoundTrip16(f.genId);
    RoundTrip16(f.originalLen);
    assert b[0..2] == Encode16(f.genId);
    assert b[4..6] == Encode16(f.originalLen);
    assert b[8..] == f.payload;
  }

  /** Where the fields are: two bytes of generation, index, type, two bytes of length, two reserved, each number with
      its high byte first. */
  lemma FragmentLayout(f: Fragment)
    requires Sendable(f)
    ensures var b := Serialize(f);
      && 256 * Value(b[0]) + Value(b[1]) == f.genId && Value(b[2]) == f.index && Value(b[3]) == f.kind
      && 256 * Value(b[4]) + Value(b[5]) == f.originalLen && b[6] == 0 && b[7] == 0 && b[8..] == f.payload
  {
    FragmentRoundTrip(f);
  }

  /** One RaptorQ symbol: a 12-byte header (block, k, encoding symbol id, symbol length, source flag, reserved). */
  datatype Symbol = Symbol(blockId: nat, k: nat, esi: nat, symbolLen: nat, isSource: bool, payload: Packet)

  const RQ_HEADER: nat := 12

  ghost predicate SendableSymbol(s: Symbol) {
    s.blockId < UINT16 && s.k < UINT16 && s.esi < UINT32 && s.symbolLen < UINT16
  }

  function SerializeSymbol(s: Symbol): (b: seq<Byte>)
    requires SendableSymbol(s)
    ensures |b| == RQ_HEADER + |s.payload|
  {
    Encode16(s.blockId) + Encode16(s.k) + Encode16(s.esi / UINT16) + Encode16(s.esi % UINT16) +
    Encode16(s.symbolLen) + [if s.isSource then 1 else 0, 0] + s.payload
  }

  function ParseSymbol(b: seq<Byte>): Option<Symbol> {
    if |b| < RQ_HEADER then None
    else Some(Symbol(Decode16(b[0..2]), Decode16(b[2..4]), Decode16(b[4..6]) * UINT16 + Decode16(b[6..8]),
                     Decode16(b[8..10]), b[10] != 0, b[12..]))
  }

  lemma SixFields(x: seq<Byte>, a: seq<Byte>, b: seq<Byte>, c: seq<Byte>, d: seq<Byte>, e: seq<Byte>, f: seq<Byte>,
                  p: seq<Byte>)
    requires |a| == |b| == |c| == |d| == |e| == |f| == 2 && x == a + b + c + d + e + f + p
    ensures |x| >= RQ_HEADER && x[0..2] == a && x[2..4] == b && x[4..6] == c && x[6..8] == d && x[8..10] == e
    ensures x[10] == f[0] && x[12..] == p
  {
  }

  lemma SymbolRoundTrip(s: Symbol)
    requires SendableSymbol(s)
    ensures ParseSymbol(SerializeSymbol(s)) == Some(s)
  {
    var flag: seq<Byte> := [if s.isSource then 1 else 0, 0];
    SixFields(SerializeSymbol(s), Encode16(s.blockId), Encode16(s.k), Encode16(s.esi / UINT16),
              Encode16(s.esi % UINT16), Encode16(s.symbolLen), flag, s.payload);
    RoundTrip16(s.blockId);
    RoundTrip16(s.k);
    RoundTrip16(s.esi / UINT16);
    RoundTrip16(s.esi % UINT16);
    RoundTrip16(s.symbolLen);
  }

  /** Where the fields are: two bytes each of block and size, four of symbol id, two of length, the source flag and one
      reserved, each number with its high byte first. */
  lemma SymbolLayout(s: Symbol)
    requires SendableSymbol(s)
    ensures var b := SerializeSymbol(s);
      && 256 * Value(b[0]) + Value(b[1]) == s.blockId && 256 * Value(b[2]) + Value(b[3]) == s.k
      && 0x100_0000 * Value(b[4]) + 0x1_0000 * Value(b[5]) + 256 * Value(b[6]) + Value(b[7]) == s.esi
      && 256 * Value(b[8]) + Value(b[9]) == s.symbolLen && (b[10] == if s.isSource then 1 else 0) && b[11] == 0
      && b[12..] == s.payload
  {
    SymbolRoundTrip(s);
  }

  /** The UDP payload length of an IPv4 packet as the receivers count goodput; other protocols count 0. */
  function PayloadBytes(pkt: Packet): nat {
    if |pkt| < 20 then 0
    else
      var headerLen := Value(pkt[0]) % 16 * 4;
      if headerLen < 20 || headerLen > |pkt| then 0
      else
        var declared := Decode16(pkt[2..4]);
        var totalLen := if declared == 0 || declared > |pkt| then |pkt| else declared;
        if pkt[9] != 17 || totalLen < headerLen + 8 then 0
        else
          var udpLen := Decode16(pkt[headerLen + 4..headerLen + 6]);
          if udpLen < 8 || udpLen > totalLen - headerLen then totalLen - headerLen - 8 else udpLen - 8
  }
}
