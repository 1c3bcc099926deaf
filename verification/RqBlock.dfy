/** One block of the RaptorQ receiver, and what one symbol does to it, as functions. */
module RqBlock {
  import opened Base
  import opened Deliveries
  import opened FlatBuffer
  import opened Wire
  import RqCodec

  const MAX_SYMBOLS: nat := 40

  /** Per-block state. `rows[n]` is the stored symbol with id `esis[n]`, `room` is what the buffer holds behind these
      rows; `live` says that the library context exists. */
  datatype Block = Block(inUse: bool, id: nat, live: bool, k: nat, len: nat, rows: seq<Packet>, room: seq<Byte>,
                         esis: seq<nat>, forwarded: seq<bool>, forwardedCount: nat, decoded: bool, attempted: bool,
                         usedFec: bool, sources: nat, repairs: nat, parityCounted: bool,
                         firstRx: nat, lastFwd: nat, usefulBytes: nat)

  datatype Stats = Stats(generations: nat, noLoss: nat, repaired: nat, decodeFailed: nat,
                         dataFragments: nat, parityFragments: nat, parityConsumed: nat,
                         sent: SendTotals, attempts: nat, decodes: nat, usefulBytes: nat, completed: nat)

  /** What a handler works on: a block, the counters, the sends so far, and whether the block was finalised. */
  datatype World = World(block: Block, stats: Stats, log: seq<Delivery>, finished: bool)

  /** The codec, the configured block size, the raw socket's verdict on each row sent as original or as repaired,
      and the clock. */
  datatype Env = Env(codec: RqCodec.Codec, blockSize: nat, accepts: (nat, bool) -> bool, now: nat)

  ghost predicate EnvOk(e: Env) {
    1 <= e.blockSize <= K && RqCodec.Shaped(e.codec)
  }

  function BlankBlock(): Block {
    Block(false, 0, false, 0, 0, [], [], [], Repeat(false, K), 0, false, false, false, 0, 0, false, 0, 0, 0)
  }

  function FreshBlock(id: nat): Block {
    BlankBlock().(inUse := true, id := id)
  }

  /** Sizes, and row buffers of the block's symbol length. */
  ghost predicate WellSized(b: Block) {
    && |b.forwarded| == K && |b.rows| == |b.esis| <= MAX_SYMBOLS
    && (b.live ==> 1 <= b.k <= K && b.len > 0)
    && (b.live ==> |b.room| == Offset(MAX_SYMBOLS - |b.rows|, b.len))
    && (forall n :: 0 <= n < |b.rows| ==> |b.rows[n]| == b.len)
  }

  // ----- finding and opening the block

  /** The block of an id: another block in the slot is thrown away. */
  function Lookup(b: Block, id: nat): (b': Block)
    requires WellSized(b)
    ensures WellSized(b') && b'.inUse && b'.id == id
  {
    if b.inUse && b.id == id then b else FreshBlock(id)
  }

  function Stamped(b: Block, now: nat): Block {
    if b.firstRx == 0 then b.(firstRx := now) else b
  }

  /** The context and the buffers of a new block; the buffer comes zeroed. */
  function Allocated(b: Block, sym: Symbol, blockSize: nat): Block {
    var asked := if sym.k != 0 then sym.k else blockSize;
    b.(live := true, k := if asked > blockSize then blockSize else asked, len := sym.symbolLen,
       room := Repeat(0, Offset(MAX_SYMBOLS, sym.symbolLen)),
       forwardedCount := 0, sources := 0, repairs := 0, parityCounted := false)
  }

  function Begin(b: Block, sym: Symbol, e: Env): (b': Block)
    requires WellSized(b) && EnvOk(e) && sym.symbolLen > 0 && (!b.live ==> |b.rows| == 0)
    ensures WellSized(b') && b'.live && b'.inUse == b.inUse && b'.id == b.id
    ensures b'.rows == b.rows && b'.esis == b.esis && b'.forwarded == b.forwarded
  {
    var b1 := Stamped(b, e.now);
    if b1.live then b1 else Allocated(b1, sym, e.blockSize)
  }

  /** A symbol with a new id is copied behind the stored rows while there is room for another one. */
  predicate Writable(b: Block, sym: Symbol) {
    |b.esis| < MAX_SYMBOLS && sym.esi !in b.esis ==> sym.symbolLen <= |b.room|
  }

  function CountedAs(b: Block, isSource: bool): Block {
    if isSource then b.(sources := b.sources + 1) else b.(repairs := b.repairs + 1)
  }

  /** One row more. memcpy takes as many bytes as the symbol's header says, not as many as a row has. */
  function Stored(b: Block, sym: Symbol): (b': Block)
    requires WellSized(b) && b.live && |b.esis| < MAX_SYMBOLS
    requires sym.symbolLen <= |sym.payload| && sym.symbolLen <= |b.room|
    ensures WellSized(b')
  {
    var written := Overwrite(b.room, sym.payload, sym.symbolLen);
    b.(rows := b.rows + [written[..b.len]], room := written[b.len..], esis := b.esis + [sym.esi])
  }

  /** A symbol with a new id is counted, and stored while there is room. */
  function Note(b: Block, sym: Symbol): (b': Block)
    requires WellSized(b) && b.live && sym.symbolLen <= |sym.payload| && sym.esi !in b.esis && Writable(b, sym)
    ensures WellSized(b') && b'.live == b.live && b'.k == b.k && b'.len == b.len && b'.forwarded == b.forwarded
  {
    var b1 := CountedAs(b, sym.isSource);
    if |b.esis| < MAX_SYMBOLS then Stored(b1, sym) else b1
  }

  /** A symbol of the block's own length is stored as it is. */
  lemma NoteStoresSymbol(b: Block, sym: Symbol)
    requires WellSized(b) && b.live && sym.symbolLen <= |sym.payload| && sym.esi !in b.esis && sym.symbolLen == b.len
    ensures Writable(b, sym)
    ensures Note(b, sym).rows ==
            if |b.esis| < MAX_SYMBOLS then b.rows + [sym.payload[..b.len]] else b.rows
  {
    if |b.esis| < MAX_SYMBOLS {
      assert Overwrite(b.room, sym.payload, sym.symbolLen)[..b.len] == sym.payload[..b.len];
    }
  }

  // ----- forwarding

  /** Row i is marked and counted. */
  function Flagged(b: Block, i: nat, pkt: Packet, original: bool, now: nat): (b': Block)
    requires |b.forwarded| == K && i < K
    ensures |b'.forwarded| == K
  {
    b.(forwarded := b.forwarded[i := true], forwardedCount := b.forwardedCount + 1,
       usedFec := b.usedFec || !original, lastFwd := now, usefulBytes := b.usefulBytes + PayloadBytes(pkt))
  }

  /** Row i goes out; only if the socket takes it, it counts as forwarded. */
  function ForwardRow(w: World, i: nat, pkt: Packet, original: bool, e: Env): (w': World)
    requires WellSized(w.block) && i < K
    ensures WellSized(w'.block) && w'.finished == w.finished
  {
    if |pkt| < MIN_IP then w
    else
      var b, ok := w.block, e.accepts(i, original);
      var w1 := w.(log := w.log + [Delivery(b.id, i, pkt, original, ok)]);
      if !ok then w1
      else w1.(stats := w.stats.(sent := CountSend(w.stats.sent, |pkt|, original)),
               block := Flagged(b, i, pkt, original, e.now))
  }

  /** A source symbol that has not been forwarded goes out as it is. */
  function ForwardSource(w: World, sym: Symbol, e: Env): (w': World)
    requires WellSized(w.block) && w.block.live && sym.symbolLen <= |sym.payload|
    ensures WellSized(w'.block) && w'.block.live && w'.finished == w.finished
  {
    if sym.isSource && sym.esi < w.block.k && !w.block.forwarded[sym.esi]
    then ForwardRow(w, sym.esi, sym.payload[..sym.symbolLen], true, e)
    else w
  }

  function Offer(w: World, i: nat, row: Packet, e: Env): (w': World)
    requires WellSized(w.block) && i < K
    ensures WellSized(w'.block) && w'.finished == w.finished
  {
    if w.block.forwarded[i] then w else ForwardRow(w, i, row, false, e)
  }

  /** The first n decoded rows that have not been forwarded go out as repaired. */
  function ForwardDecoded(w: World, rows: seq<Packet>, n: nat, e: Env): (w': World)
    requires WellSized(w.block) && n <= |rows| && n <= K
    ensures WellSized(w'.block) && w'.finished == w.finished
  {
    if n == 0 then w
    else Offer(ForwardDecoded(w, rows, n - 1, e), n - 1, rows[n - 1], e)
  }

  // ----- decoding

  /** The early returns in front of the decoder. */
  predicate WillAttempt(b: Block) {
    b.live && !b.decoded && b.forwardedCount < b.k <= |b.esis|
  }

  /** Redundancy is counted as the number of source symbols that had not been received. */
  function CountDecode(st: Stats, b: Block): Stats {
    st.(decodes := st.decodes + 1,
        parityConsumed :=
          if !b.parityCounted && b.sources < b.k then st.parityConsumed + (b.k - b.sources)
          else st.parityConsumed)
  }

  /** After a successful decoding, everything not yet forwarded goes out. */
  function AfterDecode(w: World, rows: seq<Packet>, e: Env): (w': World)
    requires WellSized(w.block) && |rows| == w.block.k <= K
    ensures WellSized(w'.block) && w'.finished == w.finished
  {
    var w1 := w.(block := w.block.(parityCounted := true), stats := CountDecode(w.stats, w.block));
    var w2 := ForwardDecoded(w1, rows, w.block.k, e);
    w2.(block := w2.block.(decoded := true))
  }

  function TryDecode(w: World, e: Env): (w': World)
    requires WellSized(w.block) && EnvOk(e)
    ensures WellSized(w'.block) && w'.finished == w.finished
  {
    if !WillAttempt(w.block) then w
    else
      var b := w.block.(attempted := true);
      assert AllOfLength(b.rows, b.len);
      var w1 := w.(block := b, stats := w.stats.(attempts := w.stats.attempts + 1));
      match e.codec.decode(b.k, b.rows, b.esis)
      case None => w1
      case Some(rows) => AfterDecode(w1, rows, e)
  }

  // ----- the end of a block

  predicate AllForwarded(b: Block)
    requires |b.forwarded| == K
  {
    forall i :: 0 <= i < b.k && i < K ==> b.forwarded[i]
  }

  function Finalize(w: World): World {
    var b, st := w.block, w.stats;
    var st1 := st.(generations := st.generations + 1);
    var st2 := if b.usedFec then st1.(repaired := st1.repaired + 1) else st1.(noLoss := st1.noLoss + 1);
    var st3 := if b.firstRx != 0 && b.lastFwd != 0 then st2.(completed := st2.completed + 1) else st2;
    w.(block := BlankBlock(), stats := st3.(usefulBytes := st3.usefulBytes + b.usefulBytes), finished := true)
  }

  function Finish(w: World): (w': World)
    requires WellSized(w.block)
    ensures WellSized(w'.block)
  {
    if AllForwarded(w.block) then Finalize(w) else w
  }

  // ----- one symbol

  /** If the symbol is copied into the buffer of an open block, the copy ends inside that buffer; what the program does
      when it writes behind it is not defined. */
  predicate StaysInBuffer(b: Block, sym: Symbol) {
    b.inUse && b.id == sym.blockId && b.live ==> Writable(b, sym)
  }

  /** A block without a context holds nothing. */
  predicate Orderly(b: Block) {
    !b.live ==> |b.rows| == 0
  }

  predicate Usable(sym: Symbol) {
    0 < sym.symbolLen <= |sym.payload|
  }

  function Settle(w: World, sym: Symbol, e: Env): (w': World)
    requires WellSized(w.block) && w.block.live && EnvOk(e) && sym.symbolLen <= |sym.payload|
    ensures WellSized(w'.block)
  {
    Finish(TryDecode(ForwardSource(w, sym, e), e))
  }

  lemma OpenedIsWritable(b: Block, sym: Symbol, e: Env)
    requires WellSized(b) && Orderly(b) && EnvOk(e) && Usable(sym) && StaysInBuffer(b, sym)
    ensures Writable(Begin(Lookup(b, sym.blockId), sym, e), sym)
  {
  }

  /** A new id is noted; of a finished block it is only stored. */
  function OnNew(w: World, sym: Symbol, known: bool, e: Env): (w': World)
    requires WellSized(w.block) && w.block.live && EnvOk(e) && Usable(sym) && Writable(w.block, sym)
    requires sym.esi !in w.block.esis
    ensures WellSized(w'.block)
  {
    var w1 := w.(block := Note(w.block, sym));
    if known then w1 else Settle(w1, sym, e)
  }

  /** The handler from the open block on. A repeated id goes straight to forwarding. */
  function OnOpened(w: World, sym: Symbol, known: bool, e: Env): (w': World)
    requires WellSized(w.block) && w.block.live && EnvOk(e) && Usable(sym) && Writable(w.block, sym)
    ensures WellSized(w'.block)
  {
    if sym.esi in w.block.esis then Settle(w, sym, e) else OnNew(w, sym, known, e)
  }

  /** The whole handler for a usable symbol. */
  function OnSymbol(w: World, sym: Symbol, known: bool, e: Env): (w': World)
    requires WellSized(w.block) && Orderly(w.block) && EnvOk(e) && Usable(sym) && StaysInBuffer(w.block, sym)
    ensures WellSized(w'.block)
  {
    OnOpened(w.(block := Begin(Lookup(w.block, sym.blockId), sym, e)), sym, known, e)
  }
}
