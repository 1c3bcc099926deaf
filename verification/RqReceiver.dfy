/** The RaptorQ receiver as it runs: 1024 block records with packed symbol buffers, a list of finished blocks that is
    scanned, and the counters, proved against the block functions. */
module RqReceiver {
  import opened Base
  import opened Deliveries
  import opened Wire
  import opened FlatBuffer
  import opened RqBlock
  import opened RqBlockLaws
  import opened RqEntry
  import opened RqTable
  import RqCodec

  // ----- one block record

  class BlockState {
    var inUse: bool
    var id: nat
    var live: bool
    var k: nat
    var len: nat
    var enc: array<Byte>
    const esi: array<nat>
    var nesi: nat
    const forwarded: array<bool>
    var forwardedCount: nat
    var decoded: bool
    var attempted: bool
    var usedFec: bool
    var sources: nat
    var repairs: nat
    var parityCounted: bool
    var firstRx: nat
    var lastFwd: nat
    var usefulBytes: nat
    ghost var rows: seq<Packet>

    ghost function Footprint(): set<object>
      reads this
    {
      {this, enc, esi, forwarded}
    }

    /** Row n of the packed buffer is the n-th stored symbol. */
    ghost predicate Ok()
      reads Footprint()
    {
      && esi.Length == MAX_SYMBOLS && forwarded.Length == K
      && enc as object != esi as object && enc as object != forwarded as object && esi as object != forwarded as object
      && nesi <= MAX_SYMBOLS && |rows| == nesi
      && (if live then
            && 1 <= k <= K && len > 0 && Laid(enc, len, rows)
            && enc.Length == Offset(nesi, len) + Offset(MAX_SYMBOLS - nesi, len)
          else nesi == 0)
    }

    ghost function Value(): (b: Block)
      requires Ok()
      reads Footprint()
      ensures WellSized(b) && Orderly(b)
    {
      Block(inUse, id, live, k, len, rows, Room(), esi[..nesi], forwarded[..], forwardedCount, decoded, attempted,
            usedFec, sources, repairs, parityCounted, firstRx, lastFwd, usefulBytes)
    }

    /** What the buffer holds behind the stored rows. */
    ghost function Room(): seq<Byte>
      requires Ok()
      reads Footprint()
    {
      if live then enc[Offset(nesi, len)..] else []
    }

    /** What is not written stays as it is. */
    twostate lemma Frame()
      requires old(Ok()) && unchanged(this) && unchanged(Footprint())
      ensures Footprint() == old(Footprint()) && Ok() && Value() == old(Value())
    {
    }

    constructor ()
      ensures Ok() && Value() == BlankBlock() && fresh(Footprint())
    {
      inUse, id, live, k, len, nesi := false, 0, false, 0, 0, 0;
      forwardedCount, decoded, attempted, usedFec, sources, repairs := 0, false, false, false, 0, 0;
      parityCounted, firstRx, lastFwd, usefulBytes := false, 0, 0, 0;
      enc := new Byte[0];
      esi := new nat[MAX_SYMBOLS](n => 0);
      forwarded := new bool[K](i => false);
      rows := [];
      new;
      assert forwarded[..] == Repeat(false, K);
    }

    method ClearFlags()
      requires forwarded.Length == K
      modifies forwarded
      ensures forwarded[..] == Repeat(false, K)
    {
      for i := 0 to K
        invariant forall j :: 0 <= j < i ==> !forwarded[j]
      {
        forwarded[i] := false;
      }
    }

    method ClearHeader()
      modifies this`inUse, this`id, this`live, this`k, this`len, this`nesi, this`rows
      ensures !inUse && !live && id == k == len == nesi == 0 && rows == []
    {
      inUse, id, live, k, len, nesi, rows := false, 0, false, 0, 0, 0, [];
    }

    method ClearProgress()
      modifies this`forwardedCount, this`decoded, this`attempted, this`usedFec, this`sources, this`repairs
      ensures forwardedCount == sources == repairs == 0 && !decoded && !attempted && !usedFec
    {
      forwardedCount, decoded, attempted, usedFec, sources, repairs := 0, false, false, false, 0, 0;
    }

    method ClearTotals()
      modifies this`parityCounted, this`firstRx, this`lastFwd, this`usefulBytes
      ensures !parityCounted && firstRx == lastFwd == usefulBytes == 0
    {
      parityCounted, firstRx, lastFwd, usefulBytes := false, 0, 0, 0;
    }

    /** memset of the whole record; its buffers have been given back. */
    method Clear()
      requires Ok()
      modifies this, forwarded
      ensures Ok() && Value() == BlankBlock() && enc == old(enc)
    {
      ClearHeader();
      ClearProgress();
      ClearTotals();
      ClearFlags();
    }

    method HasEsi(x: nat) returns (found: bool)
      requires Ok()
      ensures found <==> x in esi[..nesi]
    {
      found := false;
      var n := 0;
      while n < nesi && !found
        invariant 0 <= n <= nesi && (found <==> x in esi[..n])
      {
        found := esi[n] == x;
        n := n + 1;
      }
    }

    method StartCounts(asked: nat, blockSize: nat)
      modifies this`k, this`forwardedCount, this`sources, this`repairs, this`parityCounted
      ensures forwardedCount == sources == repairs == 0 && !parityCounted
      ensures k == if asked == 0 || asked > blockSize then blockSize else asked
    {
      k := if asked != 0 then asked else blockSize;
      if k > blockSize {
        k := blockSize;
      }
      forwardedCount, sources, repairs, parityCounted := 0, 0, 0, false;
    }

    method MakeBuffer(n: nat)
      requires Ok() && !live && 1 <= k <= K && n > 0
      modifies this`live, this`len, this`enc
      ensures Ok() && fresh(enc)
      ensures Value() == old(Value()).(live := true, len := n, room := Repeat(0, Offset(MAX_SYMBOLS, n)))
    {
      live, len := true, n;
      enc := new Byte[Offset(MAX_SYMBOLS, n)](i => 0);
      LaidNothing(enc, n);
      assert rows == [] && enc[0..] == Repeat(0, Offset(MAX_SYMBOLS, n));
    }

    /** The context and the buffers of a new block. */
    method Allocate(sym: Symbol, blockSize: nat)
      requires Ok() && !live && 1 <= blockSize <= K && sym.symbolLen > 0
      modifies this`k, this`len, this`enc, this`live, this`forwardedCount, this`sources, this`repairs,
        this`parityCounted
      ensures Ok() && fresh(enc) && Value() == Allocated(old(Value()), sym, blockSize)
    {
      StartCounts(sym.k, blockSize);
      MakeBuffer(sym.symbolLen);
    }

    method Stamp(now: nat)
      requires Ok()
      modifies this`firstRx
      ensures Ok() && Value() == Stamped(old(Value()), now)
    {
      if firstRx == 0 {
        firstRx := now;
      }
    }

    /** First-arrival time, and the first symbol of a block allocates it. */
    method BeginBlock(sym: Symbol, e: Env)
      requires Ok() && EnvOk(e) && sym.symbolLen > 0
      modifies this
      ensures Ok() && Value() == Begin(old(Value()), sym, e) && (enc == old(enc) || fresh(enc))
    {
      Stamp(e.now);
      if !live {
        Allocate(sym, e.blockSize);
      }
    }

    method CountSymbol(isSource: bool)
      requires Ok()
      modifies this`sources, this`repairs
      ensures Ok() && Value() == CountedAs(old(Value()), isSource)
    {
      if isSource {
        sources := sources + 1;
      } else {
        repairs := repairs + 1;
      }
    }

    /** A symbol with a new id is counted, and stored while there is room. */
    method NoteSymbol(sym: Symbol)
      requires Ok() && live && Usable(sym) && sym.esi !in Value().esis && Writable(Value(), sym)
      modifies this`sources, this`repairs, this`nesi, this`rows, enc, esi
      ensures Ok() && Value() == Note(old(Value()), sym)
    {
      CountSymbol(sym.isSource);
      if nesi < MAX_SYMBOLS {
        StoreSymbol(sym);
      }
    }

    /** memcpy behind the stored symbols, of the symbol's own length. */
    method PushRow(payload: seq<Byte>, n: nat)
      requires Ok() && live && nesi < MAX_SYMBOLS && n <= |payload| && n <= |Room()|
      modifies this`nesi, this`rows, enc
      ensures Ok() && nesi == old(nesi) + 1 && len <= |old(Room())|
      ensures var written := Overwrite(old(Room()), payload, n);
        rows == old(rows) + [written[..len]] && Room() == written[len..]
    {
      ghost var written := Overwrite(Room(), payload, n);
      StoreBytes(enc, rows, nesi, len, payload, n);
      rows := rows + [written[..len]];
      nesi := nesi + 1;
    }

    method StoreSymbol(sym: Symbol)
      requires Ok() && live && nesi < MAX_SYMBOLS && Usable(sym) && sym.symbolLen <= |Value().room|
      modifies this`nesi, this`rows, enc, esi
      ensures Ok() && Value() == Stored(old(Value()), sym)
    {
      esi[nesi] := sym.esi;
      PushRow(sym.payload, sym.symbolLen);
      assert esi[..nesi] == old(esi[..nesi]) + [sym.esi];
    }

    method CountRow(pkt: Packet, original: bool, now: nat)
      modifies this`forwardedCount, this`usedFec, this`usefulBytes, this`lastFwd
      ensures forwardedCount == old(forwardedCount) + 1 && usedFec == (old(usedFec) || !original)
      ensures usefulBytes == old(usefulBytes) + PayloadBytes(pkt) && lastFwd == now
    {
      if !original {
        usedFec := true;
      }
      forwardedCount := forwardedCount + 1;
      usefulBytes := usefulBytes + PayloadBytes(pkt);
      lastFwd := now;
    }

    /** What the decoder reads: the packed rows one after the other. */
    method ReadRows() returns (read: seq<Packet>)
      requires Ok() && live
      ensures read == rows
    {
      read := [];
      for n := 0 to nesi
        invariant read == rows[..n]
      {
        LaidRow(enc, len, rows, n);
        read := read + [enc[Offset(n, len)..Offset(n, len) + len]];
      }
    }

    method AllRowsForwarded() returns (all: bool)
      requires Ok() && k <= K
      ensures all == AllForwarded(Value())
    {
      all := true;
      for i := 0 to k
        invariant all <==> forall j :: 0 <= j < i ==> forwarded[j]
      {
        if !forwarded[i] {
          all := false;
        }
      }
    }
  }

  method MakeBlocks() returns (made: seq<BlockState>)
    ensures |made| == MAX_BLOCKS
    ensures forall k :: 0 <= k < MAX_BLOCKS ==>
              made[k].Ok() && fresh(made[k].Footprint()) && made[k].Value() == BlankBlock()
    ensures forall k, l :: 0 <= k < l < MAX_BLOCKS ==> made[k].Footprint() !! made[l].Footprint()
  {
    made := [];
    while |made| < MAX_BLOCKS
      invariant |made| <= MAX_BLOCKS
      invariant forall k :: 0 <= k < |made| ==>
                  made[k].Ok() && fresh(made[k].Footprint()) && made[k].Value() == BlankBlock()
      invariant forall k, l :: 0 <= k < l < |made| ==> made[k].Footprint() !! made[l].Footprint()
    {
      var b := new BlockState();
      made := made + [b];
    }
  }

  lemma TableIsEmpty(table: seq<Block>)
    requires |table| == MAX_BLOCKS && forall k :: 0 <= k < MAX_BLOCKS ==> table[k] == BlankBlock()
    ensures table == EmptyReceiver().table
  {
  }

  // ----- the receiver

  class EdgeReceiver {
    const blocks: seq<BlockState>
    const done: array<nat>
    var doneCount: nat
    var stats: Stats
    var log: seq<Delivery>

    ghost predicate Shape() {
      && |blocks| == MAX_BLOCKS && done.Length == MAX_BLOCKS
      && forall k, l :: 0 <= k < l < MAX_BLOCKS ==> blocks[k] != blocks[l]
    }

    ghost predicate DoneOk()
      reads this
    {
      done.Length == MAX_BLOCKS && doneCount <= MAX_BLOCKS
    }

    /** What a handler works on. */
    ghost function WorldOf(b: BlockState, finished: bool): World
      requires b.Ok()
      reads this, b.Footprint()
    {
      World(b.Value(), stats, log, finished)
    }

    method IsBlockCompleted(id: nat) returns (found: bool)
      requires DoneOk()
      ensures found <==> id in done[..doneCount]
    {
      found := false;
      var n := 0;
      while n < doneCount && !found
        invariant 0 <= n <= doneCount && (found <==> id in done[..n])
      {
        found := done[n] == id;
        n := n + 1;
      }
    }

    method MarkBlockCompleted(id: nat)
      requires DoneOk()
      modifies this`doneCount, done
      ensures DoneOk() && done[..doneCount] == MarkDone(old(done[..doneCount]), id)
    {
      if doneCount < MAX_BLOCKS {
        done[doneCount] := id;
        doneCount := doneCount + 1;
      }
    }

    method CountForwarded(n: nat, original: bool)
      modifies this`stats
      ensures stats == old(stats).(sent := CountSend(old(stats).sent, n, original))
    {
      var sent := stats.sent.(forwarded := stats.sent.forwarded + 1, bytesForwarded := stats.sent.bytesForwarded + n);
      if original {
        sent := sent.(original := sent.original + 1, bytesOriginal := sent.bytesOriginal + n);
      }
      stats := stats.(sent := sent);
    }

    /** forward_ip_packet_counted. */
    method ForwardIpPacket(b: BlockState, i: nat, pkt: Packet, original: bool, e: Env) returns (ok: bool)
      modifies this`stats, this`log
      ensures ok == (|pkt| >= MIN_IP && e.accepts(i, original))
      ensures log == if |pkt| < MIN_IP then old(log) else old(log) + [Delivery(b.id, i, pkt, original, ok)]
      ensures stats == if ok then old(stats).(sent := CountSend(old(stats).sent, |pkt|, original)) else old(stats)
    {
      ok := false;
      if |pkt| >= MIN_IP {
        ok := e.accepts(i, original);
        log := log + [Delivery(b.id, i, pkt, original, ok)];
        if ok {
          CountForwarded(|pkt|, original);
        }
      }
    }

    method FlagRow(b: BlockState, i: nat, pkt: Packet, original: bool, e: Env)
      requires b.Ok() && i < K
      modifies b`forwardedCount, b`usedFec, b`usefulBytes, b`lastFwd, b.forwarded
      ensures b.Ok() && b.Value() == Flagged(old(b.Value()), i, pkt, original, e.now)
    {
      ghost var before := b.forwarded[..];
      b.CountRow(pkt, original, e.now);
      b.forwarded[i] := true;
      assert b.forwarded[..] == before[i := true];
    }

    /** A row is sent and, if the socket took it, flagged and counted. */
    method SendRow(b: BlockState, i: nat, pkt: Packet, original: bool, e: Env)
      requires b.Ok() && i < K
      modifies this`stats, this`log, b`forwardedCount, b`usedFec, b`usefulBytes, b`lastFwd, b.forwarded
      ensures b.Ok() && WorldOf(b, false) == ForwardRow(old(WorldOf(b, false)), i, pkt, original, e)
    {
      var ok := ForwardIpPacket(b, i, pkt, original, e);
      if ok {
        FlagRow(b, i, pkt, original, e);
      }
    }

    method ForwardSymbol(b: BlockState, sym: Symbol, e: Env)
      requires b.Ok() && b.live && sym.symbolLen <= |sym.payload|
      modifies this`stats, this`log, b`forwardedCount, b`usedFec, b`usefulBytes, b`lastFwd, b.forwarded
      ensures b.Ok() && WorldOf(b, false) == ForwardSource(old(WorldOf(b, false)), sym, e)
    {
      if sym.isSource {
        if sym.esi < b.k {
          if !b.forwarded[sym.esi] {
            SendRow(b, sym.esi, sym.payload[..sym.symbolLen], true, e);
          }
        }
      }
    }

    /** Everything decoded that has not been forwarded goes out. */
    method ForwardRows(b: BlockState, rows: seq<Packet>, e: Env)
      requires b.Ok() && b.live && |rows| == b.k
      modifies this`stats, this`log, b`forwardedCount, b`usedFec, b`usefulBytes, b`lastFwd, b.forwarded
      ensures b.Ok() && WorldOf(b, false) == ForwardDecoded(old(WorldOf(b, false)), rows, old(b.k), e)
    {
      ghost var w := WorldOf(b, false);
      for i := 0 to b.k
        invariant b.Ok() && WorldOf(b, false) == ForwardDecoded(w, rows, i, e)
      {
        OfferRow(b, i, rows[i], e);
      }
    }

    /** A decoded row goes out unless it has been forwarded. */
    method OfferRow(b: BlockState, i: nat, row: Packet, e: Env)
      requires b.Ok() && i < K
      modifies this`stats, this`log, b`forwardedCount, b`usedFec, b`usefulBytes, b`lastFwd, b.forwarded
      ensures b.Ok() && WorldOf(b, false) == Offer(old(WorldOf(b, false)), i, row, e)
    {
      if !b.forwarded[i] {
        SendRow(b, i, row, false, e);
      }
    }

    method CountDecoded(b: BlockState)
      requires b.Ok()
      modifies this`stats, b`parityCounted
      ensures stats == CountDecode(old(stats), old(b.Value()))
      ensures b.Ok() && b.Value() == old(b.Value()).(parityCounted := true)
    {
      stats := stats.(decodes := stats.decodes + 1);
      if !b.parityCounted {
        if b.sources < b.k {
          stats := stats.(parityConsumed := stats.parityConsumed + (b.k - b.sources));
        }
        b.parityCounted := true;
      }
    }

    /** One call of the decoder. */
    method Attempt(b: BlockState, e: Env) returns (decoded: Option<seq<Packet>>)
      requires b.Ok() && b.live && EnvOk(e)
      modifies this`stats, b`attempted
      ensures stats == old(stats).(attempts := old(stats).attempts + 1)
      ensures b.Ok() && b.Value() == old(b.Value()).(attempted := true)
      ensures decoded == e.codec.decode(b.k, b.Value().rows, b.Value().esis)
      ensures decoded.Some? ==> |decoded.value| == b.k
    {
      b.attempted := true;
      stats := stats.(attempts := stats.attempts + 1);
      var rows := b.ReadRows();
      assert AllOfLength(rows, b.len);
      decoded := e.codec.decode(b.k, rows, b.esi[..b.nesi]);
    }

    /** What follows a successful decoding. */
    method UseDecoded(b: BlockState, rows: seq<Packet>, e: Env)
      requires b.Ok() && b.live && |rows| == b.k
      modifies this`stats, this`log, b`decoded, b`parityCounted, b`forwardedCount, b`usedFec, b`usefulBytes, b`lastFwd,
        b.forwarded
      ensures b.Ok()
      ensures WorldOf(b, false) == AfterDecode(old(WorldOf(b, false)), rows, e)
    {
      ghost var w := WorldOf(b, false);
      CountDecoded(b);
      ghost var w1 := WorldOf(b, false);
      assert w1 == w.(block := w.block.(parityCounted := true), stats := CountDecode(w.stats, w.block));
      ForwardRows(b, rows, e);
      MarkDecoded(b);
    }

    method MarkDecoded(b: BlockState)
      requires b.Ok()
      modifies b`decoded
      ensures b.Ok() && b.Value() == old(b.Value()).(decoded := true)
    {
      b.decoded := true;
    }

    method TryDecodeAndForward(b: BlockState, e: Env)
      requires b.Ok() && EnvOk(e)
      modifies this`stats, this`log, b`attempted, b`decoded, b`parityCounted, b`forwardedCount, b`usedFec,
        b`usefulBytes, b`lastFwd, b.forwarded
      ensures b.Ok() && WorldOf(b, false) == TryDecode(old(WorldOf(b, false)), e)
    {
      ghost var w := WorldOf(b, false);
      DecodeCases(w, e);
      if b.live && !b.decoded && b.forwardedCount < b.k && b.k <= b.nesi {
        var decoded := Attempt(b, e);
        assert WorldOf(b, false) == w.(block := w.block.(attempted := true),
                                       stats := w.stats.(attempts := w.stats.attempts + 1));
        if decoded.Some? {
          UseDecoded(b, decoded.value, e);
        }
      }
    }

    /** The counters of a finished block. It is only called when every row has been forwarded. */
    method BookBlock(b: BlockState)
      requires b.Ok() && b.live && AllForwarded(b.Value())
      modifies this`stats
      ensures stats == Finalize(World(b.Value(), old(stats), [], false)).stats
    {
      stats := stats.(generations := stats.generations + 1);
      var all := b.AllRowsForwarded();
      if all && !b.usedFec {
        stats := stats.(noLoss := stats.noLoss + 1);
      } else if all && b.usedFec {
        stats := stats.(repaired := stats.repaired + 1);
      } else {
        assert false;
      }
      if b.firstRx != 0 && b.lastFwd != 0 {
        stats := stats.(completed := stats.completed + 1);
      }
      stats := stats.(usefulBytes := stats.usefulBytes + b.usefulBytes);
    }

    method FinalizeBlock(b: BlockState)
      requires b.Ok() && b.live && AllForwarded(b.Value()) && DoneOk() && done as object !in b.Footprint()
      modifies this`stats, this`doneCount, done, b, b.forwarded
      ensures b.Ok() && b.enc == old(b.enc) && WorldOf(b, true) == Finalize(old(WorldOf(b, false)))
      ensures DoneOk() && done[..doneCount] == MarkDone(old(done[..doneCount]), old(b.id))
    {
      BookBlock(b);
      MarkBlockCompleted(b.id);
      b.Clear();
    }

    method FinishBlock(b: BlockState) returns (finished: bool)
      requires b.Ok() && b.live && DoneOk() && done as object !in b.Footprint()
      modifies this`stats, this`doneCount, done, b, b.forwarded
      ensures b.Ok() && b.enc == old(b.enc) && WorldOf(b, finished) == Finish(old(WorldOf(b, false)))
      ensures DoneOk() && done[..doneCount] ==
              if finished then MarkDone(old(done[..doneCount]), old(b.id)) else old(done[..doneCount])
    {
      finished := b.AllRowsForwarded();
      if finished {
        FinalizeBlock(b);
      }
    }

    method DecodeAndFinish(b: BlockState, e: Env) returns (finished: bool)
      requires b.Ok() && b.live && EnvOk(e) && DoneOk() && done as object !in b.Footprint()
      modifies this`stats, this`log, this`doneCount, done, b, b.forwarded
      ensures b.Ok() && b.enc == old(b.enc) && WorldOf(b, finished) == Finish(TryDecode(old(WorldOf(b, false)), e))
      ensures DoneOk() && done[..doneCount] ==
              if finished then MarkDone(old(done[..doneCount]), old(b.id)) else old(done[..doneCount])
    {
      TryDecodeAndForward(b, e);
      finished := FinishBlock(b);
    }

    /** Forwarding, decoding, and the end of the block. */
    method SettleBlock(b: BlockState, sym: Symbol, e: Env) returns (finished: bool)
      requires b.Ok() && b.live && EnvOk(e) && sym.symbolLen <= |sym.payload| && DoneOk() &&
        done as object !in b.Footprint()
      modifies this`stats, this`log, this`doneCount, done, b, b.forwarded
      ensures b.Ok() && b.enc == old(b.enc) && WorldOf(b, finished) == Settle(old(WorldOf(b, false)), sym, e)
      ensures DoneOk() && done[..doneCount] ==
              if finished then MarkDone(old(done[..doneCount]), old(b.id)) else old(done[..doneCount])
    {
      ForwardSymbol(b, sym, e);
      finished := DecodeAndFinish(b, e);
    }

    /** The record of a block id; another block in the slot is thrown away. */
    method GetBlock(id: nat) returns (b: BlockState)
      requires Shape() && blocks[id % MAX_BLOCKS].Ok()
      modifies blocks[id % MAX_BLOCKS], blocks[id % MAX_BLOCKS].forwarded
      ensures b == blocks[id % MAX_BLOCKS] && b.Ok() && b.enc == old(b.enc)
      ensures b.Value() == Lookup(old(b.Value()), id)
    {
      b := blocks[id % MAX_BLOCKS];
      if !b.inUse || b.id != id {
        b.Clear();
        b.inUse := true;
        b.id := id;
      }
    }

    method OpenRecord(sym: Symbol, e: Env) returns (b: BlockState)
      requires Shape() && EnvOk(e) && Usable(sym) && blocks[sym.blockId % MAX_BLOCKS].Ok()
      requires done as object !in blocks[sym.blockId % MAX_BLOCKS].Footprint()
      modifies blocks[sym.blockId % MAX_BLOCKS], blocks[sym.blockId % MAX_BLOCKS].forwarded
      ensures b == blocks[sym.blockId % MAX_BLOCKS] && b.Ok() && b.live
      ensures b.Value() == Begin(Lookup(old(b.Value()), sym.blockId), sym, e)
      ensures (b.enc == old(b.enc) || fresh(b.enc)) && done as object !in b.Footprint()
    {
      b := GetBlock(sym.blockId);
      b.BeginBlock(sym, e);
    }

    /** The symbol of a finished block goes no further. */
    method SettleUnlessDone(b: BlockState, sym: Symbol, e: Env) returns (finished: bool)
      requires DoneOk() && EnvOk(e) && Usable(sym) && b.Ok() && b.live
      requires done as object !in b.Footprint() && b.id == sym.blockId
      modifies this`stats, this`log, this`doneCount, done, b, b.forwarded
      ensures b.Ok() && b.enc == old(b.enc)
      ensures WorldOf(b, finished) == (if sym.blockId in old(done[..doneCount]) then old(WorldOf(b, false))
                                       else Settle(old(WorldOf(b, false)), sym, e))
      ensures DoneOk()
      ensures done[..doneCount] ==
              if finished then MarkDone(old(done[..doneCount]), sym.blockId) else old(done[..doneCount])
    {
      finished := false;
      var known := IsBlockCompleted(sym.blockId);
      if !known {
        finished := SettleBlock(b, sym, e);
      }
    }

    /** A new id is noted. */
    method HandleNew(b: BlockState, sym: Symbol, e: Env) returns (finished: bool)
      requires DoneOk() && EnvOk(e) && Usable(sym) && b.Ok() && b.live && Writable(b.Value(), sym)
      requires sym.esi !in b.Value().esis && done as object !in b.Footprint() && b.id == sym.blockId
      modifies this`stats, this`log, this`doneCount, done, b, b.enc, b.esi, b.forwarded
      ensures b.Ok() && b.enc == old(b.enc)
      ensures WorldOf(b, finished) == OnNew(old(WorldOf(b, false)), sym, old(sym.blockId in done[..doneCount]), e)
      ensures DoneOk()
      ensures done[..doneCount] ==
              if finished then MarkDone(old(done[..doneCount]), sym.blockId) else old(done[..doneCount])
    {
      ghost var w, before := WorldOf(b, false), done[..doneCount];
      b.NoteSymbol(sym);
      assert WorldOf(b, false) == w.(block := Note(w.block, sym)) && done[..doneCount] == before;
      finished := SettleUnlessDone(b, sym, e);
    }

    /** The rest of the handler, on the open record. */
    method HandleOpened(b: BlockState, sym: Symbol, e: Env) returns (finished: bool)
      requires DoneOk() && EnvOk(e) && Usable(sym) && b.Ok() && b.live && Writable(b.Value(), sym)
      requires done as object !in b.Footprint() && b.id == sym.blockId
      modifies this`stats, this`log, this`doneCount, done, b, b.enc, b.esi, b.forwarded
      ensures b.Ok() && b.enc == old(b.enc)
      ensures WorldOf(b, finished) == OnOpened(old(WorldOf(b, false)), sym, old(sym.blockId in done[..doneCount]), e)
      ensures DoneOk()
      ensures done[..doneCount] ==
              if finished then MarkDone(old(done[..doneCount]), sym.blockId) else old(done[..doneCount])
    {
      finished := false;
      var repeated := b.HasEsi(sym.esi);
      if repeated {
        finished := SettleBlock(b, sym, e);
      } else {
        finished := HandleNew(b, sym, e);
      }
    }

    /** A usable symbol, on the record of its block. */
    method HandleUsable(sym: Symbol, e: Env) returns (finished: bool)
      requires Shape() && DoneOk() && EnvOk(e) && Usable(sym)
      requires var b := blocks[sym.blockId % MAX_BLOCKS];
        b.Ok() && StaysInBuffer(b.Value(), sym) && done as object !in b.Footprint()
      modifies this`stats, this`log, this`doneCount, done
      modifies blocks[sym.blockId % MAX_BLOCKS].Footprint()
      ensures var b := blocks[sym.blockId % MAX_BLOCKS];
        && b.Ok() && (b.enc == old(b.enc) || fresh(b.enc))
        && WorldOf(b, finished) == OnSymbol(old(WorldOf(b, false)), sym, old(sym.blockId in done[..doneCount]), e)
      ensures DoneOk()
      ensures done[..doneCount] ==
              if finished then MarkDone(old(done[..doneCount]), sym.blockId) else old(done[..doneCount])
    {
      OpenedIsWritable(blocks[sym.blockId % MAX_BLOCKS].Value(), sym, e);
      var b := OpenRecord(sym, e);
      finished := HandleOpened(b, sym, e);
    }

    // ----- the whole table

    /** Every record is in order and owns its buffers alone. */
    ghost predicate Valid()
      reads this, (set k | 0 <= k < |blocks| :: blocks[k]), AllState()
    {
      && Shape() && DoneOk()
      && (forall k :: 0 <= k < MAX_BLOCKS ==> blocks[k].Ok() && done as object !in blocks[k].Footprint())
      && (forall k, l :: 0 <= k < l < MAX_BLOCKS ==> blocks[k].Footprint() !! blocks[l].Footprint())
    }

    ghost function AllState(): set<object>
      reads set k | 0 <= k < |blocks| :: blocks[k]
    {
      set k, o | 0 <= k < |blocks| && o in blocks[k].Footprint() :: o
    }

    ghost function Value(): (rx: Receiver)
      requires Valid()
      reads this, done, (set k | 0 <= k < |blocks| :: blocks[k]), AllState()
      ensures ValidReceiver(rx)
    {
      Receiver(seq(MAX_BLOCKS, k requires 0 <= k < MAX_BLOCKS && Valid()
                   reads this, (set k | 0 <= k < |blocks| :: blocks[k]), AllState() =>
                 (assert blocks[k].Footprint() <= AllState(); blocks[k].Value())),
               done[..doneCount], stats, log)
    }

    lemma NewIsEmpty()
      requires Shape() && DoneOk() && done[..doneCount] == [] && stats == NoStats() && log == []
      requires forall k :: 0 <= k < MAX_BLOCKS ==> blocks[k].Ok() && done as object !in blocks[k].Footprint()
      requires forall k :: 0 <= k < MAX_BLOCKS ==> blocks[k].Ok() && blocks[k].Value() == BlankBlock()
      requires forall k, l :: 0 <= k < l < MAX_BLOCKS ==> blocks[k].Footprint() !! blocks[l].Footprint()
      ensures Valid() && Value() == EmptyReceiver()
    {
      TableIsEmpty(Value().table);
    }

    constructor ()
      ensures Valid() && Value() == EmptyReceiver() && fresh(AllState()) && fresh(done)
    {
      var made := MakeBlocks();
      blocks := made;
      done := new nat[MAX_BLOCKS](n => 0);
      doneCount := 0;
      stats := NoStats();
      log := [];
      new;
      assert done[..0] == [];
      NewIsEmpty();
    }

    /** What a datagram can touch. */
    ghost function Touched(buf: seq<Byte>): set<object>
      requires |blocks| == MAX_BLOCKS
      reads set k | 0 <= k < |blocks| :: blocks[k]
    {
      match ParseSymbol(buf)
      case None => {}
      case Some(sym) => blocks[sym.blockId % MAX_BLOCKS].Footprint()
    }

    /** A record other than k is as it was. */
    twostate predicate Untouched(l: nat)
      requires Shape() && l < MAX_BLOCKS && old(blocks[l].Ok())
      reads blocks[l], blocks[l].Footprint()
    {
      blocks[l].Footprint() == old(blocks[l].Footprint()) && blocks[l].Ok() &&
        blocks[l].Value() == old(blocks[l].Value())
    }

    /** A usable symbol leaves every other record as it was. */
    method StepRecords(sym: Symbol, e: Env) returns (finished: bool)
      requires Valid() && EnvOk(e) && Usable(sym) && StaysInBuffer(blocks[sym.blockId % MAX_BLOCKS].Value(), sym)
      modifies this`stats, this`log, this`doneCount, done, blocks[sym.blockId % MAX_BLOCKS].Footprint()
      ensures var b := blocks[sym.blockId % MAX_BLOCKS];
        && b.Ok() && (b.enc == old(b.enc) || fresh(b.enc)) && DoneOk()
        && WorldOf(b, finished) == OnSymbol(old(WorldOf(b, false)), sym, old(sym.blockId in done[..doneCount]), e)
      ensures done[..doneCount] ==
              if finished then MarkDone(old(done[..doneCount]), sym.blockId) else old(done[..doneCount])
      ensures forall l :: 0 <= l < MAX_BLOCKS && l != sym.blockId % MAX_BLOCKS ==> Untouched(l)
    {
      ghost var k := sym.blockId % MAX_BLOCKS;
      finished := HandleUsable(sym, e);
      forall l | 0 <= l < MAX_BLOCKS && l != k
        ensures Untouched(l)
      {
        assert old(blocks[l].Footprint()) !! old(blocks[k].Footprint()) &&
          done as object !in old(blocks[l].Footprint());
        blocks[l].Frame();
      }
    }

    /** The record that was worked on still shares nothing with the others. */
    twostate lemma StillApart(k: nat)
      requires old(Valid()) && k < MAX_BLOCKS && (blocks[k].enc == old(blocks[k].enc) || fresh(blocks[k].enc))
      requires forall l :: 0 <= l < MAX_BLOCKS && l != k ==> blocks[l].Footprint() == old(blocks[l].Footprint())
      ensures forall l :: 0 <= l < MAX_BLOCKS && l != k ==> blocks[l].Footprint() !! blocks[k].Footprint()
      ensures done as object !in blocks[k].Footprint()
    {
      forall l | 0 <= l < MAX_BLOCKS && l != k
        ensures blocks[l].Footprint() !! blocks[k].Footprint()
      {
        assert old(blocks[l].Footprint()) !! old(blocks[k].Footprint());
      }
      assert old(done as object !in blocks[k].Footprint());
    }

    /** The table is in order after a step that leaves the records other than k untouched. */
    twostate lemma StillValid(k: nat)
      requires old(Valid()) && k < MAX_BLOCKS && DoneOk() && blocks[k].Ok()
      requires forall l :: 0 <= l < MAX_BLOCKS && l != k ==> Untouched(l)
      requires blocks[k].enc == old(blocks[k].enc) || fresh(blocks[k].enc)
      ensures Valid()
    {
      forall l | 0 <= l < MAX_BLOCKS && l != k
        ensures blocks[l].Ok() && blocks[l].Footprint() == old(blocks[l].Footprint())
        ensures done as object !in blocks[l].Footprint()
      {
        assert Untouched(l);
      }
      StillApart(k);
      forall i, j | 0 <= i < j < MAX_BLOCKS && i != k && j != k
        ensures blocks[i].Footprint() !! blocks[j].Footprint()
      {
        assert old(blocks[i].Footprint()) !! old(blocks[j].Footprint());
      }
    }

    /** The table stays in order. */
    method StepValid(sym: Symbol, e: Env) returns (finished: bool)
      requires Valid() && EnvOk(e) && Usable(sym) && StaysInBuffer(blocks[sym.blockId % MAX_BLOCKS].Value(), sym)
      modifies this`stats, this`log, this`doneCount, done, blocks[sym.blockId % MAX_BLOCKS].Footprint()
      ensures Valid()
      ensures var b := blocks[sym.blockId % MAX_BLOCKS];
        WorldOf(b, finished) == OnSymbol(old(WorldOf(b, false)), sym, old(sym.blockId in done[..doneCount]), e)
      ensures done[..doneCount] ==
              if finished then MarkDone(old(done[..doneCount]), sym.blockId) else old(done[..doneCount])
      ensures forall l :: 0 <= l < MAX_BLOCKS && l != sym.blockId % MAX_BLOCKS ==> Untouched(l)
    {
      ghost var k := sym.blockId % MAX_BLOCKS;
      finished := StepRecords(sym, e);
      StillValid(k);
    }

    twostate lemma OthersKeepValue(k: nat)
      requires old(Valid()) && Valid() && k < MAX_BLOCKS
      requires forall l :: 0 <= l < MAX_BLOCKS && l != k ==> Untouched(l)
      ensures forall l :: 0 <= l < MAX_BLOCKS && l != k ==> blocks[l].Value() == old(blocks[l].Value())
    {
      forall l | 0 <= l < MAX_BLOCKS && l != k
        ensures blocks[l].Value() == old(blocks[l].Value())
      {
        assert Untouched(l);
      }
    }

    /** A usable symbol, seen on the whole table. */
    method StepTable(sym: Symbol, e: Env)
      requires Valid() && EnvOk(e) && Usable(sym) && StaysInBuffer(blocks[sym.blockId % MAX_BLOCKS].Value(), sym)
      modifies this`stats, this`log, this`doneCount, done, blocks[sym.blockId % MAX_BLOCKS].Footprint()
      ensures Valid()
      ensures var rx, k := old(Value()), sym.blockId % MAX_BLOCKS;
        var w := OnSymbol(World(rx.table[k], rx.stats, rx.log, false), sym, sym.blockId in rx.done, e);
        Value() == Receiver(rx.table[k := w.block],
                            if w.finished then MarkDone(rx.done, sym.blockId) else rx.done, w.stats, w.log)
    {
      ghost var rx, k := Value(), sym.blockId % MAX_BLOCKS;
      var finished := StepValid(sym, e);
      OthersKeepValue(k);
      assert Value().table == rx.table[k := blocks[k].Value()];
    }

    method CountReceived(sym: Symbol)
      modifies this`stats
      ensures stats == CountFragment(old(stats), sym)
    {
      if sym.isSource {
        stats := stats.(dataFragments := stats.dataFragments + 1);
      } else {
        stats := stats.(parityFragments := stats.parityFragments + 1);
      }
    }

    /** A datagram with a header. */
    method HandleParsed(sym: Symbol, e: Env)
      requires Valid() && EnvOk(e) && (Usable(sym) ==> StaysInBuffer(blocks[sym.blockId % MAX_BLOCKS].Value(), sym))
      modifies this`stats, this`log, this`doneCount, done, blocks[sym.blockId % MAX_BLOCKS].Footprint()
      ensures Valid() && Value() == OnParsed(old(Value()), sym, e)
    {
      CountReceived(sym);
      ghost var rx := Value();
      assert rx == old(Value()).(stats := CountFragment(old(stats), sym));
      if Usable(sym) {
        StepTable(sym, e);
        RecordStep(rx, sym, e);
      }
    }

    method HandleRqSymbol(buf: seq<Byte>, e: Env)
      requires Valid() && EnvOk(e) && Accepts(Value(), buf)
      modifies this`stats, this`log, this`doneCount, done, Touched(buf)
      ensures Valid() && Value() == OnDatagram(old(Value()), buf, e)
    {
      var parsed := ParseSymbol(buf);
      if parsed.Some? {
        HandleParsed(parsed.value, e);
      }
    }
  }

  // ----- earlier sends do not matter

  function Onto(base: seq<Delivery>, w: World): World {
    w.(log := base + w.log)
  }

  lemma RowAppends(w: World, base: seq<Delivery>, i: nat, pkt: Packet, original: bool, e: Env)
    requires WellSized(w.block) && i < K
    ensures ForwardRow(Onto(base, w), i, pkt, original, e) == Onto(base, ForwardRow(w, i, pkt, original, e))
  {
    assert forall d :: base + (w.log + [d]) == base + w.log + [d];
  }

  lemma {:induction false} DecodedAppends(w: World, base: seq<Delivery>, rows: seq<Packet>, n: nat, e: Env)
    requires WellSized(w.block) && n <= |rows| && n <= K
    ensures ForwardDecoded(Onto(base, w), rows, n, e) == Onto(base, ForwardDecoded(w, rows, n, e))
  {
    if n == 0 {
    } else {
      DecodedAppends(w, base, rows, n - 1, e);
      RowAppends(ForwardDecoded(w, rows, n - 1, e), base, n - 1, rows[n - 1], false, e);
    }
  }

  lemma AfterDecodeAppends(w: World, base: seq<Delivery>, rows: seq<Packet>, e: Env)
    requires WellSized(w.block) && |rows| == w.block.k <= K
    ensures AfterDecode(Onto(base, w), rows, e) == Onto(base, AfterDecode(w, rows, e))
  {
    var w1 := w.(block := w.block.(parityCounted := true), stats := CountDecode(w.stats, w.block));
    DecodedAppends(w1, base, rows, w.block.k, e);
  }

  lemma DecodeAppends(w: World, base: seq<Delivery>, e: Env)
    requires WellSized(w.block) && EnvOk(e)
    ensures TryDecode(Onto(base, w), e) == Onto(base, TryDecode(w, e))
  {
    if WillAttempt(w.block) {
      var b := w.block.(attempted := true);
      assert AllOfLength(b.rows, b.len);
      var w1 := w.(block := b, stats := w.stats.(attempts := w.stats.attempts + 1));
      var decoded := e.codec.decode(b.k, b.rows, b.esis);
      if decoded.Some? {
        AfterDecodeAppends(w1, base, decoded.value, e);
      }
    }
  }

  lemma SettleAppends(w: World, base: seq<Delivery>, sym: Symbol, e: Env)
    requires WellSized(w.block) && w.block.live && EnvOk(e) && sym.symbolLen <= |sym.payload|
    ensures Settle(Onto(base, w), sym, e) == Onto(base, Settle(w, sym, e))
  {
    if sym.isSource && sym.esi < w.block.k && !w.block.forwarded[sym.esi] {
      RowAppends(w, base, sym.esi, sym.payload[..sym.symbolLen], true, e);
    }
    var w1 := ForwardSource(w, sym, e);
    assert ForwardSource(Onto(base, w), sym, e) == Onto(base, w1);
    DecodeAppends(w1, base, e);
    FinishAppends(TryDecode(w1, e), base);
  }

  lemma FinishAppends(w: World, base: seq<Delivery>)
    requires WellSized(w.block)
    ensures Finish(Onto(base, w)) == Onto(base, Finish(w))
  {
  }

  lemma SymbolAppends(w: World, base: seq<Delivery>, sym: Symbol, known: bool, e: Env)
    requires WellSized(w.block) && Orderly(w.block) && EnvOk(e) && Usable(sym) && StaysInBuffer(w.block, sym)
    ensures OnSymbol(Onto(base, w), sym, known, e) == Onto(base, OnSymbol(w, sym, known, e))
  {
    var b1 := Begin(Lookup(w.block, sym.blockId), sym, e);
    var b2 := if sym.esi in b1.esis then b1 else Note(b1, sym);
    SettleAppends(w.(block := b2), base, sym, e);
  }

  /** The log before a symbol only goes in front of what the symbol adds. */
  lemma RecordStep(rx: Receiver, sym: Symbol, e: Env)
    requires ValidReceiver(rx) && EnvOk(e) && Usable(sym) && StaysInBuffer(rx.table[sym.blockId % MAX_BLOCKS], sym)
    ensures var b, known := rx.table[sym.blockId % MAX_BLOCKS], sym.blockId in rx.done;
      var w := OnSymbol(World(b, rx.stats, [], false), sym, known, e);
      OnSymbol(World(b, rx.stats, rx.log, false), sym, known, e) == Onto(rx.log, w)
  {
    assert rx.log + [] == rx.log;
    SymbolAppends(World(rx.table[sym.blockId % MAX_BLOCKS], rx.stats, [], false), rx.log, sym, sym.blockId in rx.done,
                  e);
  }
}
