/** The RaptorQ processing host: block lifecycle, decisions per block and per symbol, and what is sent. */
module RqGateway {
  import opened Base
  import opened Wire
  import opened Decision
  import RqCodec

  /** Block size, repairs and policy as the command line leaves them. */
  datatype Config = Config(policy: Policy, blockSize: nat, repairs: nat)

  ghost predicate ValidConfig(g: Config) {
    1 <= g.blockSize <= K && g.repairs <= MAX_PARITY
  }

  /** A block: how many repair symbols were decided when it was opened, its source packets and the ids of its repair
      symbols as they were sent, and whether its encoding succeeded. */
  datatype Record = Record(k: nat, len: nat, planned: nat, packets: seq<Packet>, esis: seq<nat>, encoded: bool)

  const NO_BLOCK := Record(0, 0, 0, [], [], false)

  datatype SentSymbol = SentSymbol(serial: nat, sym: Symbol, path: Path)

  /** `serial` counts blocks without the 16-bit wrap; while `isOpen`, block number `serial` takes packets. */
  datatype Gateway = Gateway(serial: nat, isOpen: bool, repairs: nat, engine: Engine,
                             history: seq<Record>, log: seq<SentSymbol>, completed: nat)

  /** What one packet meets: the two allocations, the encoder, and the ids the library draws for repair symbols. */
  datatype Luck = Luck(dataOk: bool, rqOk: bool, encodeOk: bool, esi: nat -> nat)

  /** Repair ids are 32-bit and start behind the block's source ids. */
  ghost predicate FairLuck(l: Luck, g: Config) {
    forall n: nat :: g.blockSize <= l.esi(n) < UINT32
  }

  function Initial(engine: Engine): Gateway {
    Gateway(0, false, 0, engine, [NO_BLOCK], [], 0)
  }

  function SourceSymbol(s: nat, k: nat, len: nat, i: nat, pkt: Packet): Symbol {
    Symbol.Symbol(WireId(s), k, i, len, true, pkt)
  }

  function RepairSymbol(c: RqCodec.Codec, s: nat, k: nat, len: nat, src: seq<Packet>, esi: nat): Symbol {
    Symbol.Symbol(WireId(s), k, esi, len, false, c.symbol(src, esi))
  }

  // ----- steps

  /** The engine picks a path, then the symbol goes out. */
  function Emit(gw: Gateway, sym: Symbol): Gateway {
    gw.(log := gw.log + [SentSymbol(gw.serial, sym, Pick(gw.engine, sym.esi))], engine := AfterPick(gw.engine))
  }

  function NewRecord(e: Engine, len: nat, g: Config): Record {
    Record(GuardedBlockSize(e, g.blockSize), len, DecideRepairs(e), [], [], false)
  }

  function OpenBlock(gw: Gateway, len: nat, l: Luck, g: Config): Gateway {
    var ok := l.dataOk && l.rqOk;
    gw.(serial := gw.serial + 1, isOpen := ok,
        repairs := if ok then DecideRepairs(gw.engine) else gw.repairs,
        history := gw.history + [NewRecord(gw.engine, len, g)])
  }

  function AddPacket(gw: Gateway, pkt: Packet): Gateway
    requires |gw.history| == gw.serial + 1
  {
    var rec := gw.history[gw.serial];
    Emit(gw.(history := gw.history[gw.serial := rec.(packets := rec.packets + [pkt])]),
         SourceSymbol(gw.serial, rec.k, rec.len, |rec.packets|, pkt))
  }

  function AddRepair(gw: Gateway, esi: nat, c: RqCodec.Codec): Gateway
    requires |gw.history| == gw.serial + 1
  {
    var rec := gw.history[gw.serial];
    Emit(gw.(history := gw.history[gw.serial := rec.(esis := rec.esis + [esi])]),
         RepairSymbol(c, gw.serial, rec.k, rec.len, rec.packets, esi))
  }

  function SendRepairs(gw: Gateway, n: nat, l: Luck, c: RqCodec.Codec): (g': Gateway)
    requires |gw.history| == gw.serial + 1
    ensures |g'.history| == g'.serial + 1 && g'.serial == gw.serial && g'.repairs == gw.repairs
  {
    if n == 0 then gw else AddRepair(SendRepairs(gw, n - 1, l, c), l.esi(n - 1), c)
  }

  lemma {:induction false} RepairsAreCounted(gw: Gateway, n: nat, l: Luck, c: RqCodec.Codec)
    requires |gw.history| == gw.serial + 1
    ensures var g := SendRepairs(gw, n, l, c);
      |g.history[g.serial].esis| == |gw.history[gw.serial].esis| + n && |g.log| == |gw.log| + n
  {
    if n == 0 {
    } else {
      RepairsAreCounted(gw, n - 1, l, c);
    }
  }

  /** The outcome of the encoding is noted. */
  function Marked(gw: Gateway, encoded: bool): Gateway
    requires |gw.history| == gw.serial + 1
  {
    gw.(history := gw.history[gw.serial := gw.history[gw.serial].(encoded := encoded)])
  }

  /** A full block is encoded, its repair symbols are sent, and it is closed; a failed encoding only loses the
      repairs. */
  function Finish(gw: Gateway, l: Luck, c: RqCodec.Codec): Gateway
    requires |gw.history| == gw.serial + 1
  {
    var rec := gw.history[gw.serial];
    if |rec.packets| != rec.k then gw
    else
      var g0 := Marked(gw, l.encodeOk);
      var g1 := if l.encodeOk then SendRepairs(g0, gw.repairs, l, c) else g0;
      g1.(isOpen := false, completed := g1.completed + 1)
  }

  /** The open block takes the packet only if it has the block's length; otherwise it is closed without repairs. */
  function CloseIfOther(gw: Gateway, len: nat): Gateway
    requires |gw.history| == gw.serial + 1
  {
    if gw.isOpen && gw.history[gw.serial].len != len then gw.(isOpen := false) else gw
  }

  /** One intercepted packet. */
  function OnPacket(gw: Gateway, pkt: Packet, l: Luck, c: RqCodec.Codec, g: Config): (gw': Gateway)
    requires |gw.history| == gw.serial + 1
    ensures |gw'.history| == gw'.serial + 1
  {
    if |pkt| == 0 || |pkt| > MAX_PKT_LEN then gw
    else
      var g1 := CloseIfOther(gw, |pkt|);
      var g2 := if g1.isOpen then g1 else OpenBlock(g1, |pkt|, l, g);
      if !g2.isOpen then g2 else Finish(AddPacket(g2, pkt), l, c)
  }

  /** New link metrics between two packets. */
  function OnMetrics(gw: Gateway, m: Metrics): Gateway {
    gw.(engine := UpdateMetrics(gw.engine, m))
  }

  // ----- the invariant

  /** The engine still has the settings it was created with. */
  ghost predicate EngineOk(e: Engine, g: Config) {
    var ceiling := if g.repairs > 0 then g.repairs else 2;
    match g.policy
    case DefaultPolicy => e == Default(g.blockSize, g.repairs)
    case QualityPolicy => e.Quality? && e.baseK == g.blockSize && e.minRepairs == 2 && e.maxRepairs == ceiling
    case AdaptivePolicy => e.Adaptive? && e.baseK == g.blockSize && e.minRepairs == 1 && e.maxRepairs == ceiling
  }

  ghost predicate RecordOk(rec: Record, g: Config) {
    && rec.k == g.blockSize && 0 < rec.len <= MAX_PKT_LEN
    && |rec.packets| <= rec.k && (forall i :: 0 <= i < |rec.packets| ==> |rec.packets[i]| == rec.len)
    && |rec.esis| <= rec.planned <= MAX_PARITY && (|rec.esis| > 0 ==> |rec.packets| == rec.k)
    && (forall n :: 0 <= n < |rec.esis| ==> rec.k <= rec.esis[n] < UINT32)
  }

  function Sources(s: nat, k: nat, len: nat, packets: seq<Packet>): (syms: seq<Symbol>)
    ensures |syms| == |packets|
  {
    if |packets| == 0 then []
    else
      var n := |packets| - 1;
      Sources(s, k, len, packets[..n]) + [SourceSymbol(s, k, len, n, packets[n])]
  }

  function Repairs(c: RqCodec.Codec, s: nat, k: nat, len: nat, src: seq<Packet>, esis: seq<nat>): (syms: seq<Symbol>)
    ensures |syms| == |esis|
  {
    if |esis| == 0 then []
    else
      var n := |esis| - 1;
      Repairs(c, s, k, len, src, esis[..n]) + [RepairSymbol(c, s, k, len, src, esis[n])]
  }

  /** Source symbols 0, 1, ... in order, then the repair symbols. */
  function Expected(c: RqCodec.Codec, s: nat, rec: Record): seq<Symbol> {
    Sources(s, rec.k, rec.len, rec.packets) + Repairs(c, s, rec.k, rec.len, rec.packets, rec.esis)
  }

  /** What was sent of block s, in order. */
  function LogOf(log: seq<SentSymbol>, s: nat): seq<Symbol> {
    if |log| == 0 then []
    else LogOf(log[..|log| - 1], s) + if log[|log| - 1].serial == s then [log[|log| - 1].sym] else []
  }

  function FullBlocks(history: seq<Record>): nat {
    if |history| == 0 then 0
    else
      var rec := history[|history| - 1];
      FullBlocks(history[..|history| - 1]) + if rec.k > 0 && |rec.packets| == rec.k then 1 else 0
  }

  ghost predicate HistoryOk(gw: Gateway, g: Config) {
    && |gw.history| == gw.serial + 1 && gw.history[0] == NO_BLOCK
    && forall s :: 0 < s <= gw.serial ==> RecordOk(gw.history[s], g)
  }

  ghost predicate LogOk(gw: Gateway, c: RqCodec.Codec)
    requires |gw.history| == gw.serial + 1
  {
    && (forall n :: 0 <= n < |gw.log| ==> 0 < gw.log[n].serial <= gw.serial)
    && (forall s :: 0 < s <= gw.serial ==> LogOf(gw.log, s) == Expected(c, s, gw.history[s]))
  }

  ghost predicate Settings(gw: Gateway, c: RqCodec.Codec, g: Config) {
    ValidConfig(g) && RqCodec.Systematic(c) && EngineOk(gw.engine, g)
  }

  /** Between two packets: the open block is short of packets and has no repair symbols yet. */
  ghost predicate Inv(gw: Gateway, c: RqCodec.Codec, g: Config) {
    && Settings(gw, c, g) && HistoryOk(gw, g) && LogOk(gw, c)
    && (gw.isOpen ==> gw.serial > 0 && Filling(gw.history[gw.serial]) && gw.repairs == gw.history[gw.serial].planned)
    && AllProtected(gw, gw.serial)
    && gw.completed == FullBlocks(gw.history)
  }

  /** A full block whose encoding succeeded has all the repair symbols that were decided for it, any other block
      none. */
  predicate Protected(rec: Record) {
    |rec.esis| == if rec.k > 0 && |rec.packets| == rec.k && rec.encoded then rec.planned else 0
  }

  /** This holds of the first n blocks. */
  ghost predicate AllProtected(gw: Gateway, n: nat)
    requires |gw.history| == gw.serial + 1 && n <= gw.serial
  {
    forall s :: 0 < s <= n ==> Protected(gw.history[s])
  }

  predicate Filling(rec: Record) {
    |rec.packets| < rec.k && |rec.esis| == 0
  }

  lemma EngineStaysOk(e: Engine, g: Config, m: Metrics)
    requires EngineOk(e, g)
    ensures EngineOk(AfterPick(e), g) && EngineOk(UpdateMetrics(e, m), g)
  {
  }

  /** Under every policy and whatever the metrics: the block size is the configured one, and at most 32 repairs. */
  lemma ShapeIsBounded(e: Engine, g: Config)
    requires EngineOk(e, g) && ValidConfig(g)
    ensures GuardedBlockSize(e, g.blockSize) == g.blockSize && DecideRepairs(e) <= MAX_PARITY
  {
  }

  lemma LogOfGrows(log: seq<SentSymbol>, x: SentSymbol, s: nat)
    ensures LogOf(log + [x], s) == LogOf(log, s) + if x.serial == s then [x.sym] else []
  {
    assert (log + [x])[..|log|] == log;
  }

  lemma {:induction false} NothingSentYet(log: seq<SentSymbol>, s: nat)
    requires forall n :: 0 <= n < |log| ==> log[n].serial != s
    ensures LogOf(log, s) == []
  {
    if |log| == 0 {
    } else {
      NothingSentYet(log[..|log| - 1], s);
    }
  }

  lemma SourcesGrow(s: nat, k: nat, len: nat, packets: seq<Packet>, pkt: Packet)
    ensures Sources(s, k, len, packets + [pkt]) ==
            Sources(s, k, len, packets) + [SourceSymbol(s, k, len, |packets|, pkt)]
  {
    assert (packets + [pkt])[..|packets|] == packets;
  }

  lemma RepairsGrow(c: RqCodec.Codec, s: nat, k: nat, len: nat, src: seq<Packet>, esis: seq<nat>, esi: nat)
    ensures Repairs(c, s, k, len, src, esis + [esi]) ==
            Repairs(c, s, k, len, src, esis) + [RepairSymbol(c, s, k, len, src, esi)]
  {
    assert (esis + [esi])[..|esis|] == esis;
  }

  lemma FullBlocksLast(history: seq<Record>, rec: Record)
    ensures FullBlocks(history + [rec]) == FullBlocks(history) + if rec.k > 0 && |rec.packets| == rec.k then 1 else 0
  {
    assert (history + [rec])[..|history|] == history;
  }

  lemma FullBlocksOfCurrent(history: seq<Record>, rec: Record)
    requires |history| > 0
    ensures var n := |history| - 1;
      && FullBlocks(history) ==
         FullBlocks(history[..n]) + (if history[n].k > 0 && |history[n].packets| == history[n].k then 1 else 0)
      && FullBlocks(history[n := rec]) ==
         FullBlocks(history[..n]) + (if rec.k > 0 && |rec.packets| == rec.k then 1 else 0)
  {
    var n := |history| - 1;
    assert history[n := rec] == history[..n] + [rec];
    FullBlocksLast(history[..n], rec);
  }

  // ----- every step keeps it

  /** A symbol of the current block, when its record grows to match. */
  lemma EmitKeepsLog(gw: Gateway, rec: Record, sym: Symbol, c: RqCodec.Codec)
    requires |gw.history| == gw.serial + 1 && LogOk(gw, c) && gw.serial > 0
    requires Expected(c, gw.serial, rec) == Expected(c, gw.serial, gw.history[gw.serial]) + [sym]
    ensures var g' := Emit(gw.(history := gw.history[gw.serial := rec]), sym);
      |g'.history| == g'.serial + 1 && LogOk(g', c)
  {
    var g' := Emit(gw.(history := gw.history[gw.serial := rec]), sym);
    forall s | 0 < s <= g'.serial
      ensures LogOf(g'.log, s) == Expected(c, s, g'.history[s])
    {
      LogOfGrows(gw.log, g'.log[|gw.log|], s);
    }
  }

  lemma OpenKeepsLog(gw: Gateway, len: nat, l: Luck, c: RqCodec.Codec, g: Config)
    requires |gw.history| == gw.serial + 1 && LogOk(gw, c)
    ensures LogOk(OpenBlock(gw, len, l, g), c)
  {
    var g' := OpenBlock(gw, len, l, g);
    var s' := g'.serial;
    NothingSentYet(gw.log, s');
    assert Expected(c, s', g'.history[s']) == [];
    forall s | 0 < s <= s'
      ensures LogOf(g'.log, s) == Expected(c, s, g'.history[s])
    {
      if s < s' {
        assert g'.history[s] == gw.history[s];
      }
    }
  }

  lemma OpenKeeps(gw: Gateway, len: nat, l: Luck, c: RqCodec.Codec, g: Config)
    requires Inv(gw, c, g) && !gw.isOpen && 0 < len <= MAX_PKT_LEN
    ensures Inv(OpenBlock(gw, len, l, g), c, g)
  {
    OpenKeepsLog(gw, len, l, c, g);
    OpenKeepsHistory(gw, len, l, c, g);
    var g' := OpenBlock(gw, len, l, g);
    FullBlocksLast(gw.history, g'.history[g'.serial]);
  }

  lemma OpenKeepsHistory(gw: Gateway, len: nat, l: Luck, c: RqCodec.Codec, g: Config)
    requires Inv(gw, c, g) && !gw.isOpen && 0 < len <= MAX_PKT_LEN
    ensures var g' := OpenBlock(gw, len, l, g);
      && HistoryOk(g', g) && AllProtected(g', g'.serial)
      && Filling(g'.history[g'.serial]) && g'.history[g'.serial] == NewRecord(gw.engine, len, g)
  {
    ShapeIsBounded(gw.engine, g);
  }

  /** While a full block is being finished. */
  ghost predicate Closing(gw: Gateway, c: RqCodec.Codec, g: Config, sent: nat) {
    && Settings(gw, c, g) && HistoryOk(gw, g) && LogOk(gw, c)
    && gw.serial > 0 && |gw.history[gw.serial].packets| == gw.history[gw.serial].k
    && |gw.history[gw.serial].esis| == sent && gw.repairs == gw.history[gw.serial].planned
    && AllProtected(gw, gw.serial - 1)
    && gw.completed + 1 == FullBlocks(gw.history)
  }

  lemma PacketExpected(c: RqCodec.Codec, s: nat, rec: Record, pkt: Packet)
    requires |rec.esis| == 0
    ensures Expected(c, s, rec.(packets := rec.packets + [pkt])) ==
            Expected(c, s, rec) + [SourceSymbol(s, rec.k, rec.len, |rec.packets|, pkt)]
  {
    SourcesGrow(s, rec.k, rec.len, rec.packets, pkt);
  }

  lemma RepairExpected(c: RqCodec.Codec, s: nat, rec: Record, esi: nat)
    ensures Expected(c, s, rec.(esis := rec.esis + [esi])) ==
            Expected(c, s, rec) + [RepairSymbol(c, s, rec.k, rec.len, rec.packets, esi)]
  {
    RepairsGrow(c, s, rec.k, rec.len, rec.packets, rec.esis, esi);
  }

  lemma UpdateKeepsHistory(gw: Gateway, gw': Gateway, rec: Record, g: Config)
    requires HistoryOk(gw, g) && gw.serial > 0 && RecordOk(rec, g)
    requires gw'.serial == gw.serial && gw'.history == gw.history[gw.serial := rec]
    ensures HistoryOk(gw', g)
  {
  }

  lemma AddPacketKeeps(gw: Gateway, pkt: Packet, c: RqCodec.Codec, g: Config)
    requires Inv(gw, c, g) && gw.isOpen && |pkt| == gw.history[gw.serial].len
    ensures var g' := AddPacket(gw, pkt);
      if |g'.history[g'.serial].packets| == g'.history[g'.serial].k then Closing(g', c, g, 0) else Inv(g', c, g)
  {
    var rec := gw.history[gw.serial];
    var rec' := rec.(packets := rec.packets + [pkt]);
    PacketExpected(c, gw.serial, rec, pkt);
    EmitKeepsLog(gw, rec', SourceSymbol(gw.serial, rec.k, rec.len, |rec.packets|, pkt), c);
    EngineStaysOk(gw.engine, g, NO_METRICS);
    UpdateKeepsHistory(gw, AddPacket(gw, pkt), rec', g);
    FullBlocksOfCurrent(gw.history, rec');
  }

  lemma AddRepairKeeps(gw: Gateway, esi: nat, c: RqCodec.Codec, g: Config, sent: nat)
    requires Closing(gw, c, g, sent) && g.blockSize <= esi < UINT32 && sent < gw.repairs
    ensures Closing(AddRepair(gw, esi, c), c, g, sent + 1)
  {
    var rec := gw.history[gw.serial];
    var rec' := rec.(esis := rec.esis + [esi]);
    RepairExpected(c, gw.serial, rec, esi);
    EmitKeepsLog(gw, rec', RepairSymbol(c, gw.serial, rec.k, rec.len, rec.packets, esi), c);
    EngineStaysOk(gw.engine, g, NO_METRICS);
    assert RecordOk(gw.history[gw.serial], g);
    UpdateKeepsHistory(gw, AddRepair(gw, esi, c), rec', g);
    FullBlocksOfCurrent(gw.history, rec');
  }

  lemma {:induction false} RepairsKeep(gw: Gateway, n: nat, l: Luck, c: RqCodec.Codec, g: Config)
    requires Closing(gw, c, g, 0) && n <= gw.repairs && FairLuck(l, g)
    ensures var g' := SendRepairs(gw, n, l, c);
      Closing(g', c, g, n) && g'.history[g'.serial].encoded == gw.history[gw.serial].encoded
  {
    if n == 0 {
    } else {
      RepairsKeep(gw, n - 1, l, c, g);
      AddRepairKeeps(SendRepairs(gw, n - 1, l, c), l.esi(n - 1), c, g, n - 1);
    }
  }

  lemma CloseKeeps(gw: Gateway, c: RqCodec.Codec, g: Config, sent: nat)
    requires Closing(gw, c, g, sent) && sent == if gw.history[gw.serial].encoded then gw.repairs else 0
    ensures Inv(gw.(isOpen := false, completed := gw.completed + 1), c, g)
  {
  }

  lemma MarkedKeeps(gw: Gateway, encoded: bool, c: RqCodec.Codec, g: Config)
    requires Closing(gw, c, g, 0)
    ensures Closing(Marked(gw, encoded), c, g, 0)
  {
    var rec := gw.history[gw.serial];
    var rec' := rec.(encoded := encoded);
    assert RecordOk(rec, g);
    UpdateKeepsHistory(gw, Marked(gw, encoded), rec', g);
    FullBlocksOfCurrent(gw.history, rec');
    forall s | 0 < s <= gw.serial
      ensures LogOf(gw.log, s) == Expected(c, s, Marked(gw, encoded).history[s])
    {
    }
  }

  lemma FinishKeeps(gw: Gateway, l: Luck, c: RqCodec.Codec, g: Config)
    requires Closing(gw, c, g, 0) && FairLuck(l, g)
    ensures Inv(Finish(gw, l, c), c, g)
  {
    MarkedKeeps(gw, l.encodeOk, c, g);
    var g0 := Marked(gw, l.encodeOk);
    if l.encodeOk {
      RepairsKeep(g0, g0.repairs, l, c, g);
      CloseKeeps(SendRepairs(g0, g0.repairs, l, c), c, g, g0.repairs);
    } else {
      CloseKeeps(g0, c, g, 0);
    }
  }

  /** Every packet keeps the invariant, whatever its length and whatever fails. */
  lemma PacketKeepsInv(gw: Gateway, pkt: Packet, l: Luck, c: RqCodec.Codec, g: Config)
    requires Inv(gw, c, g) && FairLuck(l, g)
    ensures Inv(OnPacket(gw, pkt, l, c, g), c, g)
  {
    if 0 < |pkt| <= MAX_PKT_LEN {
      var g1 := CloseIfOther(gw, |pkt|);
      assert Inv(g1, c, g);
      if !g1.isOpen {
        OpenKeeps(g1, |pkt|, l, c, g);
      }
      var g2 := if g1.isOpen then g1 else OpenBlock(g1, |pkt|, l, g);
      if g2.isOpen {
        AddPacketKeeps(g2, pkt, c, g);
        var g3 := AddPacket(g2, pkt);
        if |g3.history[g3.serial].packets| == g3.history[g3.serial].k {
          FinishKeeps(g3, l, c, g);
        }
      }
    }
  }

  lemma MetricsKeepInv(gw: Gateway, m: Metrics, c: RqCodec.Codec, g: Config)
    requires Inv(gw, c, g)
    ensures Inv(OnMetrics(gw, m), c, g)
  {
  }

  lemma InitialInv(seed: nat, c: RqCodec.Codec, g: Config)
    requires ValidConfig(g) && RqCodec.Systematic(c)
    ensures Inv(Initial(Configure(g.policy, g.blockSize, g.repairs, seed)), c, g)
  {
    FullBlocksLast([], NO_BLOCK);
  }
}
