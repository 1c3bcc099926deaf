/** The RaptorQ processing host as it runs: 1024 block records, one of them live, allocations and the recursive call,
    proved against the gateway functions for every failure of an allocation. */
module RqHost {
  import opened Base
  import opened Wire
  import opened FlatBuffer
  import opened RqGateway
  import Decision
  import RqCodec

  const MAX_BLOCKS: nat := 1024

  /** A RaptorQ context: once it has encoded a block it can name any symbol of it. */
  class Context {
    var src: seq<Packet>

    constructor ()
    {
      src := [];
    }

    /** rq_encode on a flat buffer of k packets. */
    method Encode(data: array<Byte>, k: nat, len: nat, ghost rows: seq<Packet>)
      requires Laid(data, len, rows) && |rows| == k
      modifies this
      ensures src == rows
    {
      src := [];
      for i := 0 to k
        invariant src == rows[..i]
      {
        LaidRow(data, len, rows, i);
        src := src + [data[Offset(i, len)..Offset(i, len) + len]];
      }
    }
  }

  class BlockEnc {
    var inUse: bool
    var blockId: nat
    var k: nat
    var len: nat
    var numSource: nat
    var repairsToSend: nat
    var rq: Context?
    var data: array?<Byte>

    constructor ()
      ensures Idle()
    {
      inUse, blockId, k, len, numSource, repairsToSend := false, 0, 0, 0, 0, 0;
      rq, data := null, null;
    }

    ghost predicate Idle()
      reads this
    {
      !inUse && rq == null && data == null
    }

    /** The record shows a block that is being filled. */
    ghost predicate Shows(serial: nat, rec: Record, repairs: nat)
      reads this, data
    {
      && inUse && rq != null && data != null
      && blockId == WireId(serial) && k == rec.k && len == rec.len && numSource == |rec.packets|
      && repairsToSend == repairs
      && rec.k <= K && 0 < rec.len <= MAX_PKT_LEN && |rec.packets| <= rec.k
      && data.Length == Offset(k, len) && Laid(data, len, rec.packets)
    }
  }

  method MakeBlocks() returns (made: seq<BlockEnc>)
    ensures |made| == MAX_BLOCKS
    ensures forall b :: b in made ==> fresh(b) && b.Idle()
    ensures forall i, j :: 0 <= i < j < MAX_BLOCKS ==> made[i] != made[j]
  {
    made := [];
    while |made| < MAX_BLOCKS
      invariant |made| <= MAX_BLOCKS
      invariant forall b :: b in made ==> fresh(b) && b.Idle()
      invariant forall i, j :: 0 <= i < j < |made| ==> made[i] != made[j]
    {
      var b := new BlockEnc();
      made := made + [b];
    }
  }

  /** The frames are the serialised symbols of the model, in order, each on its path. */
  ghost predicate Carried(frames: seq<(Decision.Path, seq<Byte>)>, log: seq<SentSymbol>) {
    && |frames| == |log|
    && forall n :: 0 <= n < |log| ==>
         SendableSymbol(log[n].sym) && frames[n] == (log[n].path, SerializeSymbol(log[n].sym))
  }

  lemma CarriedExtends(frames: seq<(Decision.Path, seq<Byte>)>, log: seq<SentSymbol>, x: SentSymbol)
    requires Carried(frames, log) && SendableSymbol(x.sym)
    ensures Carried(frames + [(x.path, SerializeSymbol(x.sym))], log + [x])
  {
  }

  lemma NextId(serial: nat)
    ensures WireId(serial + 1) == (WireId(serial) + 1) % UINT16
  {
  }

  class Host {
    const codec: RqCodec.Codec
    const config: Config
    const engine: Decision.DecisionEngine
    const blocks: seq<BlockEnc>
    var nextBlockId: nat
    var current: BlockEnc?
    var completed: nat
    var frames: seq<(Decision.Path, seq<Byte>)>
    ghost var heap: set<object>
    ghost var model: Gateway

    ghost predicate Shape() {
      && |blocks| == MAX_BLOCKS
      && (forall i, j :: 0 <= i < j < MAX_BLOCKS ==> blocks[i] != blocks[j])
    }

    /** What the live block has allocated. */
    ghost function Held(): set<object>
      reads this, current
    {
      if current == null then {}
      else (if current.rq == null then {} else {current.rq}) + (if current.data == null then {} else {current.data})
    }

    /** Everything a packet can change. */
    ghost function Footprint(): set<object>
      reads this, current
    {
      {this, engine} + (set b | b in blocks) + Held()
    }

    /** Only the current block is in use; the others own nothing. */
    ghost predicate BlocksOk()
      reads this, set b | b in blocks :: b
    {
      && Shape()
      && (forall b :: b in blocks && b != current ==> b.Idle())
      && (current != null ==> current in blocks && current == blocks[current.blockId % MAX_BLOCKS])
    }

    /** The fields show the model; what is allocated is what the live block holds, no more and no less. */
    ghost predicate Mirrors()
      reads this, engine, (set b | b in blocks), current, Held()
    {
      && BlocksOk()
      && |model.history| == model.serial + 1
      && nextBlockId == WireId(model.serial + 1) && completed == model.completed && engine.state == model.engine
      && Carried(frames, model.log)
      && (current == null <==> !model.isOpen)
      && (current != null ==> current.Shows(model.serial, model.history[model.serial], model.repairs))
      && heap == Held()
    }

    ghost predicate Valid()
      reads this, engine, (set b | b in blocks), current, Held()
    {
      Mirrors() && Inv(model, codec, config)
    }

    lemma NewIsValid(seed: nat)
      requires ValidConfig(config) && RqCodec.Systematic(codec) && Shape() && forall b :: b in blocks ==> b.Idle()
      requires current == null && heap == {} && nextBlockId == 1 && completed == 0 && frames == []
      requires model == Initial(Decision.Configure(config.policy, config.blockSize, config.repairs, seed))
      requires engine.state == model.engine
      ensures Valid()
    {
      InitialInv(seed, codec, config);
    }

    constructor (codec: RqCodec.Codec, config: Config, seed: nat)
      requires ValidConfig(config) && RqCodec.Systematic(codec)
      ensures Valid() && this.codec == codec && this.config == config && fresh(Footprint())
      ensures model == Initial(Decision.Configure(config.policy, config.blockSize, config.repairs, seed))
    {
      var made := MakeBlocks();
      this.codec, this.config := codec, config;
      engine := new Decision.DecisionEngine(config.policy, config.blockSize, config.repairs, seed);
      blocks := made;
      nextBlockId, completed, frames := 1, 0, [];
      current := null;
      heap := {};
      model := Initial(Decision.Configure(config.policy, config.blockSize, config.repairs, seed));
      new;
      assert Held() == {} && forall b :: b in blocks ==> fresh(b);
      NewIsValid(seed);
    }

    /** free and rq_free: only what is allocated can be freed. */
    ghost method Free(o: object)
      requires o in heap
      modifies this`heap
      ensures heap == old(heap) - {o}
    {
      heap := heap - {o};
    }

    /** The slot of the next block number. It is never in use. */
    method AllocNewBlock() returns (b: BlockEnc)
      requires BlocksOk() && current == null
      modifies this`nextBlockId, blocks[nextBlockId % MAX_BLOCKS]
      ensures nextBlockId == (old(nextBlockId) + 1) % UINT16
      ensures b == blocks[old(nextBlockId) % MAX_BLOCKS] && b.inUse && b.blockId == old(nextBlockId)
      ensures b.rq == null && b.data == null && b.numSource == 0
    {
      b := blocks[nextBlockId % MAX_BLOCKS];
      assert b in blocks;
      if b.inUse {
        assert false;
      }
      b.inUse, b.blockId, b.k, b.len, b.numSource, b.repairsToSend := true, nextBlockId, 0, 0, 0, 0;
      b.rq, b.data := null, null;
      nextBlockId := (nextBlockId + 1) % UINT16;
    }

    /** The two allocations of a block; if one fails, everything is given back. */
    method Allocate(b: BlockEnc, l: Luck)
      requires heap == {} && b.rq == null && b.data == null && b.inUse
      modifies this`heap, b`data, b`rq, b`inUse
      ensures if l.dataOk && l.rqOk then
                && b.inUse && b.rq != null && b.data != null && fresh(b.rq) && fresh(b.data)
                && b.data.Length == Offset(b.k, b.len) && heap == {b.rq, b.data}
              else b.Idle() && heap == {}
    {
      if !l.dataOk {
        b.inUse := false;
      } else {
        b.data := new Byte[Offset(b.k, b.len)](i => 0);
        heap := heap + {b.data};
        if !l.rqOk {
          Free(b.data);
          b.data := null;
          b.inUse := false;
        } else {
          b.rq := new Context();
          heap := heap + {b.rq};
        }
      }
    }

    /** The record that the next block starts with. */
    ghost function NextRecord(len: nat): Record
      reads this
    {
      Record(config.blockSize, len, Decision.DecideRepairs(model.engine), [], [], false)
    }

    /** Size, buffers and repair count of a new block. */
    method PrepareBlock(len: nat, l: Luck) returns (b: BlockEnc)
      requires Mirrors() && current == null && 0 < len <= MAX_PKT_LEN
      requires ValidConfig(config) && EngineOk(model.engine, config)
      modifies this`nextBlockId, this`heap, set b | b in blocks
      ensures nextBlockId == (old(nextBlockId) + 1) % UINT16
      ensures b in blocks && b == blocks[old(nextBlockId) % MAX_BLOCKS]
      ensures forall x :: x in blocks && x != b ==> x.Idle()
      ensures b.inUse <==> l.dataOk && l.rqOk
      ensures b.inUse ==> b.Shows(model.serial + 1, NextRecord(len), Decision.DecideRepairs(model.engine))
      ensures b.inUse ==> fresh(b.rq) && fresh(b.data) && heap == {b.rq, b.data}
      ensures !b.inUse ==> b.Idle() && heap == {}
    {
      ShapeIsBounded(model.engine, config);
      b := AllocNewBlock();
      b.k := Decision.GuardedBlockSize(engine.state, config.blockSize);
      b.len := len;
      Allocate(b, l);
      if b.inUse {
        b.repairsToSend := Decision.DecideRepairs(engine.state);
        LaidNothing(b.data, len);
      }
    }

    /** A new block becomes the current one, or its number is spent. */
    method StartBlock(len: nat, l: Luck)
      requires Mirrors() && current == null && 0 < len <= MAX_PKT_LEN
      requires ValidConfig(config) && EngineOk(model.engine, config)
      modifies this`nextBlockId, this`current, this`heap, this`model, set b | b in blocks
      ensures Mirrors() && fresh(Held()) && model == OpenBlock(old(model), len, l, config)
      ensures current != null ==> current.numSource == 0 && current.k == config.blockSize && current.len == len
    {
      ShapeIsBounded(model.engine, config);
      NextId(model.serial + 1);
      var b := PrepareBlock(len, l);
      if b.inUse {
        current := b;
      }
      model := OpenBlock(model, len, l, config);
    }

    /** The live block gives back what it holds. */
    method ReleaseBlock()
      requires Mirrors() && current != null
      modifies this`current, this`heap, this`model, current
      ensures Mirrors() && current == null && model == old(model).(isOpen := false)
    {
      var b := current;
      if b.rq != null {
        Free(b.rq);
      }
      if b.data != null {
        Free(b.data);
      }
      b.rq, b.data := null, null;
      b.inUse := false;
      current := null;
      model := model.(isOpen := false);
    }

    /** A symbol goes out on the path that the engine picks. */
    method SendSymbol(sym: Symbol, ghost next: Gateway)
      requires Shape() && SendableSymbol(sym) && engine.state == model.engine && Carried(frames, model.log)
      requires next.log == model.log && next.engine == model.engine && next.serial == model.serial
      modifies this`frames, this`model, engine
      ensures model == Emit(next, sym) && engine.state == model.engine && Carried(frames, model.log)
    {
      var path := engine.ChooseIface(sym.esi);
      CarriedExtends(frames, model.log, SentSymbol(model.serial, sym, path));
      frames := frames + [(path, SerializeSymbol(sym))];
      model := Emit(next, sym);
    }

    /** memcpy behind the earlier packets. */
    method StoreSource(b: BlockEnc, ghost serial: nat, ghost rec: Record, ghost repairs: nat, pkt: Packet)
      requires b.Shows(serial, rec, repairs) && |pkt| == b.len && b.numSource < b.k
      modifies b`numSource, b.data
      ensures b.Shows(serial, rec.(packets := rec.packets + [pkt]), repairs) && b.numSource == old(b.numSource) + 1
    {
      if b.numSource + 1 < b.k {
        OffsetGrows(b.numSource + 1, b.k, b.len);
      }
      StorePacket(b.data, rec.packets, b.numSource, b.len, pkt);
      b.numSource := b.numSource + 1;
    }

    /** The packet is stored as the next source symbol and sent at once. */
    method AddSource(pkt: Packet)
      requires Mirrors() && current != null && |pkt| == current.len && current.numSource < current.k
      modifies this`frames, this`model, engine, current`numSource, current.data
      ensures Mirrors() && model == AddPacket(old(model), pkt)
    {
      var b := current;
      ghost var rec := model.history[model.serial];
      var sym := Symbol.Symbol(b.blockId, b.k, b.numSource, b.len, true, pkt);
      StoreSource(b, model.serial, rec, model.repairs, pkt);
      SendSymbol(sym, model.(history := model.history[model.serial := rec.(packets := rec.packets + [pkt])]));
    }

    /** One repair symbol: the library draws its id. */
    method AddRepairSymbol(esi: nat)
      requires Mirrors() && current != null && current.rq.src == model.history[model.serial].packets && esi < UINT32
      modifies this`frames, this`model, engine
      ensures Mirrors() && current.rq.src == model.history[model.serial].packets
      ensures model == AddRepair(old(model), esi, codec)
    {
      ghost var rec := model.history[model.serial];
      var sym := Symbol.Symbol(current.blockId, current.k, esi, current.len, false, codec.symbol(current.rq.src, esi));
      SendSymbol(sym, model.(history := model.history[model.serial := rec.(esis := rec.esis + [esi])]));
    }

    method SendAllRepairs(l: Luck)
      requires Mirrors() && current != null && current.rq.src == model.history[model.serial].packets &&
        FairLuck(l, config)
      modifies this`frames, this`model, engine
      ensures Mirrors() && model == SendRepairs(old(model), old(model).repairs, l, codec)
    {
      ghost var start := model;
      for n := 0 to current.repairsToSend
        invariant Mirrors() && current.rq.src == model.history[model.serial].packets
        invariant model == SendRepairs(start, n, l, codec)
      {
        AddRepairSymbol(l.esi(n));
      }
    }

    /** The current block is encoded from its buffer. */
    method EncodeCurrent()
      requires Mirrors() && current != null && current.numSource == current.k
      modifies current.rq
      ensures Mirrors() && current.rq.src == model.history[model.serial].packets
    {
      current.rq.Encode(current.data, current.k, current.len, model.history[model.serial].packets);
    }

    /** The encoding of a full block, and its repair symbols if that succeeds. */
    method ProtectBlock(l: Luck)
      requires Mirrors() && current != null && current.numSource == current.k && FairLuck(l, config)
      modifies this`frames, this`model, engine, current.rq
      ensures Mirrors()
      ensures model == var g0 := Marked(old(model), l.encodeOk);
                       if l.encodeOk then SendRepairs(g0, g0.repairs, l, codec) else g0
      ensures |frames| == |old(frames)| + if l.encodeOk then old(current.repairsToSend) else 0
    {
      RepairsAreCounted(Marked(model, l.encodeOk), model.repairs, l, codec);
      model := Marked(model, l.encodeOk);
      if l.encodeOk {
        EncodeCurrent();
        SendAllRepairs(l);
      }
    }

    /** A full block: encoding, repairs, release. */
    method FinishBlock(l: Luck)
      requires Mirrors() && current != null && FairLuck(l, config)
      modifies this`frames, this`model, this`completed, this`current, this`heap, engine, current, current.rq
      ensures Mirrors() && model == Finish(old(model), l, codec)
      ensures current == null || (current == old(current) && Held() == old(Held()))
      ensures |frames| == |old(frames)| + if old(current.numSource) == old(current.k) && l.encodeOk
                                          then old(current.repairsToSend) else 0
    {
      var b := current;
      if b.numSource == b.k {
        ProtectBlock(l);
        completed := completed + 1;
        model := model.(completed := model.completed + 1);
        ReleaseBlock();
      }
    }

    /** The packet's own block exists; store, send, and finish the block if it is full. */
    method AcceptPacket(pkt: Packet, l: Luck)
      requires Mirrors() && current != null && |pkt| == current.len && current.numSource < current.k &&
        FairLuck(l, config)
      modifies this`frames, this`model, this`completed, this`current, this`heap, engine, current, current.rq,
        current.data
      ensures Mirrors() && model == Finish(AddPacket(old(model), pkt), l, codec)
      ensures current == null || (current == old(current) && Held() == old(Held()))
    {
      AddSource(pkt);
      FinishBlock(l);
    }

    /** How often the handler calls itself for this packet. */
    ghost function Nesting(pkt: Packet): nat
      reads this, current
    {
      if 0 < |pkt| <= MAX_PKT_LEN && current != null && current.len != |pkt| then 1 else 0
    }

    /** A packet that the open block can take, or that finds no open block. */
    method TakePacket(pkt: Packet, l: Luck)
      requires Mirrors() && 0 < |pkt| <= MAX_PKT_LEN && FairLuck(l, config)
      requires ValidConfig(config) && EngineOk(model.engine, config)
      requires current != null ==> current.len == |pkt| && current.numSource < current.k
      modifies Footprint(), set b | b in blocks
      ensures Mirrors() && model == OnPacket(old(model), pkt, l, codec, config)
      ensures fresh(Held() - old(Held()))
    {
      PacketSteps(model, pkt, l, codec, config);
      if current == null {
        ShapeIsBounded(model.engine, config);
        StartBlock(|pkt|, l);
      }
      if current != null {
        AcceptPacket(pkt, l);
      }
    }

    /** A packet of another length closes the block and is handled again, at most once. */
    method Handle(pkt: Packet, l: Luck) returns (ghost depth: nat)
      requires Mirrors() && 0 < |pkt| <= MAX_PKT_LEN && FairLuck(l, config)
      requires ValidConfig(config) && EngineOk(model.engine, config)
      requires current != null ==> current.numSource < current.k
      modifies Footprint(), set b | b in blocks
      ensures Mirrors() && model == OnPacket(old(model), pkt, l, codec, config)
      ensures fresh(Held() - old(Held())) && depth == old(Nesting(pkt))
      decreases Nesting(pkt)
    {
      depth := 0;
      if current != null && current.len != |pkt| {
        ReopenSteps(model, pkt, l, codec, config);
        ReleaseBlock();
        depth := Handle(pkt, l);
        depth := depth + 1;
      } else {
        TakePacket(pkt, l);
      }
    }

    /** One intercepted packet. */
    method HandleIpPacket(pkt: Packet, l: Luck) returns (ghost depth: nat)
      requires Valid() && FairLuck(l, config)
      modifies Footprint(), set b | b in blocks
      ensures Valid() && model == OnPacket(old(model), pkt, l, codec, config)
      ensures fresh(Held() - old(Held())) && depth == old(Nesting(pkt)) <= 1
    {
      depth := 0;
      PacketKeepsInv(model, pkt, l, codec, config);
      if 0 < |pkt| <= MAX_PKT_LEN {
        depth := Handle(pkt, l);
      }
    }

    method StoreMetrics(m: Decision.Metrics)
      requires Mirrors()
      modifies this`model, engine
      ensures Mirrors() && model == OnMetrics(old(model), m)
    {
      engine.UpdateLinkMetrics(m);
      model := OnMetrics(model, m);
    }

    method UpdateMetrics(m: Decision.Metrics)
      requires Valid()
      modifies this`model, engine
      ensures Valid() && model == OnMetrics(old(model), m)
    {
      MetricsKeepInv(model, m, codec, config);
      StoreMetrics(m);
    }
  }

  /** A packet for which the block need not be closed first. */
  lemma PacketSteps(gw: Gateway, pkt: Packet, l: Luck, c: RqCodec.Codec, g: Config)
    requires |gw.history| == gw.serial + 1 && 0 < |pkt| <= MAX_PKT_LEN
    requires gw.isOpen ==> gw.history[gw.serial].len == |pkt|
    ensures var g2 := if gw.isOpen then gw else OpenBlock(gw, |pkt|, l, g);
      OnPacket(gw, pkt, l, c, g) == if g2.isOpen then Finish(AddPacket(g2, pkt), l, c) else g2
  {
  }

  /** A packet for which it must. */
  lemma ReopenSteps(gw: Gateway, pkt: Packet, l: Luck, c: RqCodec.Codec, g: Config)
    requires |gw.history| == gw.serial + 1 && 0 < |pkt| <= MAX_PKT_LEN
    requires gw.isOpen && gw.history[gw.serial].len != |pkt|
    ensures OnPacket(gw, pkt, l, c, g) == OnPacket(gw.(isOpen := false), pkt, l, c, g)
  {
  }
}
