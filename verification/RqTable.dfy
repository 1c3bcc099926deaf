/** The RaptorQ receiver's 1024-slot table and its list of finished blocks, against an unbounded table. */
module RqTable {
  import opened Base
  import opened Deliveries
  import opened Wire
  import opened RqBlock
  import opened RqBlockLaws
  import opened RqEntry
  import RqCodec

  const MAX_BLOCKS: nat := 1024

  /** `done` is the list of finished block ids; it takes at most MAX_BLOCKS entries. */
  datatype Receiver = Receiver(table: seq<Block>, done: seq<nat>, stats: Stats, log: seq<Delivery>)

  ghost predicate ValidReceiver(rx: Receiver) {
    |rx.table| == MAX_BLOCKS && forall k :: 0 <= k < MAX_BLOCKS ==> WellSized(rx.table[k]) && Orderly(rx.table[k])
  }

  function NoStats(): Stats {
    Stats(0, 0, 0, 0, 0, 0, 0, SendTotals(0, 0, 0, 0), 0, 0, 0, 0)
  }

  function EmptyReceiver(): (rx: Receiver)
    ensures |rx.table| == MAX_BLOCKS && forall k :: 0 <= k < MAX_BLOCKS ==> rx.table[k] == BlankBlock()
  {
    Receiver(Repeat(BlankBlock(), MAX_BLOCKS), [], NoStats(), [])
  }

  /** Every symbol with a header is counted, even if it is then discarded. */
  function CountFragment(st: Stats, sym: Symbol): Stats {
    if sym.isSource then st.(dataFragments := st.dataFragments + 1) else st.(parityFragments := st.parityFragments + 1)
  }

  function MarkDone(done: seq<nat>, id: nat): seq<nat> {
    if |done| < MAX_BLOCKS then done + [id] else done
  }

  /** A usable symbol covers a row of the open block it meets. */
  ghost predicate Accepts(rx: Receiver, buf: seq<Byte>) {
    && ValidReceiver(rx)
    && match ParseSymbol(buf)
       case None => true
       case Some(sym) => Usable(sym) ==> StaysInBuffer(rx.table[sym.blockId % MAX_BLOCKS], sym)
  }

  function OnParsed(rx: Receiver, sym: Symbol, e: Env): (rx': Receiver)
    requires ValidReceiver(rx) && EnvOk(e) && (Usable(sym) ==> StaysInBuffer(rx.table[sym.blockId % MAX_BLOCKS], sym))
  {
    var st := CountFragment(rx.stats, sym);
    if !Usable(sym) then rx.(stats := st)
    else
      var k := sym.blockId % MAX_BLOCKS;
      var w := Handled(rx.table[k], st, sym, sym.blockId in rx.done, e);
      Receiver(rx.table[k := w.block], if w.finished then MarkDone(rx.done, sym.blockId) else rx.done,
               w.stats, rx.log + w.log)
  }

  /** One datagram from either input socket. */
  function OnDatagram(rx: Receiver, buf: seq<Byte>, e: Env): (rx': Receiver)
    requires Accepts(rx, buf) && EnvOk(e)
  {
    match ParseSymbol(buf)
    case None => rx
    case Some(sym) => OnParsed(rx, sym, e)
  }

  // ----- streams of datagrams, genuine or not

  /** A datagram as it comes from the socket, and the surroundings of its handling. */
  datatype Input = Input(buf: seq<Byte>, now: nat, accepts: (nat, bool) -> bool)

  function With(e: Env, x: Input): Env {
    e.(now := x.now, accepts := x.accepts)
  }

  /** The receiver between two datagrams. */
  ghost predicate AtRest(rx: Receiver) {
    |rx.table| == MAX_BLOCKS && forall k :: 0 <= k < MAX_BLOCKS ==> BlockInv(rx.table[k])
  }

  lemma EmptyIsAtRest()
    ensures AtRest(EmptyReceiver())
  {
    BlankInv();
  }

  lemma DatagramKeepsRest(rx: Receiver, buf: seq<Byte>, e: Env)
    requires AtRest(rx) && Accepts(rx, buf) && EnvOk(e)
    ensures AtRest(OnDatagram(rx, buf, e))
  {
    var parsed := ParseSymbol(buf);
    if parsed.Some? && Usable(parsed.value) {
      var sym, st := parsed.value, CountFragment(rx.stats, parsed.value);
      SymbolKeepsInv(World(rx.table[sym.blockId % MAX_BLOCKS], st, [], false), sym, sym.blockId in rx.done, e);
    }
  }

  function Receive(inputs: seq<Input>, e: Env): (rx: Receiver)
    requires EnvOk(e) && Accepted(inputs, e)
    ensures AtRest(rx)
    decreases |inputs|, 1
  {
    if |inputs| == 0 then
      EmptyIsAtRest();
      EmptyReceiver()
    else
      var before, x := inputs[..|inputs| - 1], inputs[|inputs| - 1];
      var rx := Receive(before, e);
      DatagramKeepsRest(rx, x.buf, With(e, x));
      OnDatagram(rx, x.buf, With(e, x))
  }

  /** Every symbol covers a row of the open block it meets. */
  ghost predicate Accepted(inputs: seq<Input>, e: Env)
    requires EnvOk(e)
    decreases |inputs|, 0
  {
    |inputs| > 0 ==>
      && Accepted(inputs[..|inputs| - 1], e)
      && Accepts(Receive(inputs[..|inputs| - 1], e), inputs[|inputs| - 1].buf)
  }

  lemma UnfoldReceive(before: seq<Input>, x: Input, e: Env)
    requires EnvOk(e) && Accepted(before, e) && Accepts(Receive(before, e), x.buf)
    ensures Accepted(before + [x], e)
    ensures Receive(before + [x], e) == OnDatagram(Receive(before, e), x.buf, With(e, x))
  {
    var inputs := before + [x];
    assert inputs[..|inputs| - 1] == before && inputs[|inputs| - 1] == x;
  }

  // ----- genuine traffic: symbols of numbered blocks

  /** A symbol with the unwrapped number of its block and the surroundings of its handling. */
  datatype Datagram = Datagram(serial: nat, sym: Symbol, now: nat, accepts: (nat, bool) -> bool)

  function At(e: Env, d: Datagram): Env {
    e.(now := d.now, accepts := d.accepts)
  }

  /** The source packets of each block, of a size that the receiver is configured for. */
  ghost predicate Setting(src: nat -> seq<Packet>, e: Env) {
    && EnvOk(e) && RqCodec.Correct(e.codec)
    && forall s :: RqCodec.ValidSource(src(s)) ==> |src(s)| <= e.blockSize
  }

  ghost predicate GenuineDatagram(d: Datagram, src: nat -> seq<Packet>, c: RqCodec.Codec) {
    && RqCodec.ValidSource(src(d.serial))
    && SymbolOf(d.sym, WireId(d.serial), src(d.serial), c) && SendableSymbol(d.sym)
  }

  ghost predicate Genuine(trace: seq<Datagram>, src: nat -> seq<Packet>, c: RqCodec.Codec) {
    forall k :: 0 <= k < |trace| ==> GenuineDatagram(trace[k], src, c)
  }

  lemma GenuineIsFit(d: Datagram, src: nat -> seq<Packet>, e: Env)
    requires Setting(src, e) && GenuineDatagram(d, src, e.codec)
    ensures Fit(src(d.serial), e) && Fit(src(d.serial), At(e, d))
  {
  }

  // ----- the unbounded reference

  /** An entry for every block number, and a list of finished blocks without limit; the log remembers which block a
      delivery belongs to. */
  datatype Ideal = Ideal(slots: map<nat, Block>, done: seq<nat>, stats: Stats, log: seq<(nat, Delivery)>)

  ghost predicate IdealOk(id: Ideal, src: nat -> seq<Packet>, c: RqCodec.Codec) {
    forall s :: s in id.slots ==> EntryOk(id.slots[s], WireId(s), src(s), c)
  }

  function Entry(slots: map<nat, Block>, s: nat): Block {
    if s in slots then slots[s] else BlankBlock()
  }

  lemma EntryIsOk(id: Ideal, s: nat, src: nat -> seq<Packet>, c: RqCodec.Codec)
    requires IdealOk(id, src, c)
    ensures EntryOk(Entry(id.slots, s), WireId(s), src(s), c)
  {
    BlankIsOk(WireId(s), src(s), c);
  }

  ghost predicate Takes(id: Ideal, d: Datagram) {
    var b := Entry(id.slots, d.serial);
    WellSized(b) && Orderly(b) && Usable(d.sym) && StaysInBuffer(b, d.sym)
  }

  /** What the handler makes of a symbol. */
  function Result(id: Ideal, d: Datagram, e: Env): World
    requires Takes(id, d) && EnvOk(e)
  {
    Handled(Entry(id.slots, d.serial), CountFragment(id.stats, d.sym), d.sym, d.serial in id.done, At(e, d))
  }

  function IdealWith(id: Ideal, s: nat, w: World): Ideal {
    Ideal(id.slots[s := w.block], if w.finished then id.done + [s] else id.done, w.stats, id.log + TagAll(s, w.log))
  }

  function OnIdeal(id: Ideal, d: Datagram, e: Env): Ideal
    requires Takes(id, d) && EnvOk(e)
  {
    IdealWith(id, d.serial, Result(id, d, e))
  }

  lemma DatagramIsTaken(id: Ideal, d: Datagram, src: nat -> seq<Packet>, e: Env)
    requires Setting(src, e) && GenuineDatagram(d, src, e.codec) && IdealOk(id, src, e.codec)
    ensures Takes(id, d)
  {
    EntryIsOk(id, d.serial, src, e.codec);
    SymbolIsUsable(Entry(id.slots, d.serial), d.sym, WireId(d.serial), src(d.serial), e);
  }

  lemma IdealStaysOk(id: Ideal, d: Datagram, src: nat -> seq<Packet>, e: Env)
    requires Setting(src, e) && GenuineDatagram(d, src, e.codec) && IdealOk(id, src, e.codec)
    ensures Takes(id, d) && IdealOk(OnIdeal(id, d, e), src, e.codec)
  {
    EntryIsOk(id, d.serial, src, e.codec);
    DatagramIsTaken(id, d, src, e);
    SymbolProgresses(Entry(id.slots, d.serial), CountFragment(id.stats, d.sym), d.sym, d.serial in id.done,
                     WireId(d.serial), src(d.serial), At(e, d));
  }

  function ReceiveIdeal(trace: seq<Datagram>, src: nat -> seq<Packet>, e: Env): (id: Ideal)
    requires Setting(src, e) && Genuine(trace, src, e.codec)
    ensures IdealOk(id, src, e.codec)
    decreases |trace|
  {
    if |trace| == 0 then Ideal(map[], [], NoStats(), [])
    else
      var before, d := trace[..|trace| - 1], trace[|trace| - 1];
      var id := ReceiveIdeal(before, src, e);
      assert GenuineDatagram(d, src, e.codec);
      IdealStaysOk(id, d, src, e);
      OnIdeal(id, d, e)
  }

  lemma GenuinePrefix(trace: seq<Datagram>, n: nat, src: nat -> seq<Packet>, c: RqCodec.Codec)
    requires Genuine(trace, src, c) && n <= |trace|
    ensures Genuine(trace[..n], src, c) && (n < |trace| ==> GenuineDatagram(trace[n], src, c))
  {
  }

  lemma GenuineLast(trace: seq<Datagram>, src: nat -> seq<Packet>, c: RqCodec.Codec)
    requires Genuine(trace, src, c) && |trace| > 0
    ensures var before, d := trace[..|trace| - 1], trace[|trace| - 1];
      Genuine(before, src, c) && GenuineDatagram(d, src, c) && before + [d] == trace
  {
  }

  lemma GenuineGrows(before: seq<Datagram>, d: Datagram, src: nat -> seq<Packet>, c: RqCodec.Codec)
    requires Genuine(before, src, c) && GenuineDatagram(d, src, c)
    ensures Genuine(before + [d], src, c)
  {
  }

  lemma UnfoldIdeal(before: seq<Datagram>, d: Datagram, src: nat -> seq<Packet>, e: Env)
    requires Setting(src, e) && Genuine(before, src, e.codec) && GenuineDatagram(d, src, e.codec)
    ensures Genuine(before + [d], src, e.codec) && Takes(ReceiveIdeal(before, src, e), d)
    ensures ReceiveIdeal(before + [d], src, e) == OnIdeal(ReceiveIdeal(before, src, e), d, e)
  {
    GenuineGrows(before, d, src, e.codec);
    var trace := before + [d];
    assert trace[..|before|] == before && trace[|before|] == d;
    IdealStaysOk(ReceiveIdeal(before, src, e), d, src, e);
  }

  // ----- when the two agree

  function SlotIndex(serial: nat): nat {
    WireId(serial) % MAX_BLOCKS
  }

  lemma SlotsDivideWords(serial: nat)
    ensures SlotIndex(serial) == serial % MAX_BLOCKS
  {
    assert serial == 1024 * (64 * (serial / UINT16)) + serial % UINT16;
  }

  /** The block that used slot k last. */
  function LastUser(trace: seq<Datagram>, k: nat): Option<nat> {
    if |trace| == 0 then None
    else
      var s := trace[|trace| - 1].serial;
      if SlotIndex(s) == k then Some(s) else LastUser(trace[..|trace| - 1], k)
  }

  function Serials(trace: seq<Datagram>): set<nat> {
    set k | 0 <= k < |trace| :: trace[k].serial
  }

  ghost predicate Unlike(s: nat, done: seq<nat>) {
    forall t :: t in done ==> WireId(t) != WireId(s)
  }

  /** A block may use its slot if it was the last to do so, or if it is new and neither the block it evicts nor any
      finished block has its 16-bit id. */
  ghost predicate Fits(before: seq<Datagram>, s: nat, done: seq<nat>) {
    match LastUser(before, SlotIndex(s))
    case None => true
    case Some(u) => u == s || (s !in Serials(before) && WireId(u) != WireId(s) && Unlike(s, done))
  }

  /** Blocks that share a slot do not interleave, and a newcomer is not taken for an older block. */
  ghost predicate Separate(trace: seq<Datagram>, src: nat -> seq<Packet>, e: Env)
    requires Setting(src, e) && Genuine(trace, src, e.codec)
  {
    forall n :: 0 <= n < |trace| ==> FitsAt(trace, n, src, e)
  }

  ghost predicate FitsAt(trace: seq<Datagram>, n: nat, src: nat -> seq<Packet>, e: Env)
    requires Setting(src, e) && Genuine(trace, src, e.codec) && n < |trace|
  {
    GenuinePrefix(trace, n, src, e.codec);
    Fits(trace[..n], trace[n].serial, ReceiveIdeal(trace[..n], src, e).done)
  }

  function WireIds(done: seq<nat>): (ids: seq<nat>)
    ensures |ids| == |done|
  {
    seq(|done|, k requires 0 <= k < |done| => WireId(done[k]))
  }

  /** The slot holds the block's entry, and the block cannot be taken for another finished one. */
  ghost predicate SlotAgrees(rx: Receiver, id: Ideal, k: nat, user: Option<nat>)
    requires |rx.table| == MAX_BLOCKS && k < MAX_BLOCKS
  {
    match user
    case None => rx.table[k] == BlankBlock()
    case Some(u) =>
      && u in id.slots && rx.table[k] == id.slots[u]
      && forall t :: t in id.done && WireId(t) == WireId(u) ==> t == u
  }

  ghost predicate Agree(rx: Receiver, id: Ideal, trace: seq<Datagram>) {
    && |rx.table| == MAX_BLOCKS
    && rx.stats == id.stats && rx.log == Untag(id.log) && rx.done == WireIds(id.done)
    && id.slots.Keys == Serials(trace) && (forall t :: t in id.done ==> t in Serials(trace))
    && forall k :: 0 <= k < MAX_BLOCKS ==> SlotAgrees(rx, id, k, LastUser(trace, k))
  }

  lemma SerialsGrow(before: seq<Datagram>, d: Datagram)
    ensures Serials(before + [d]) == Serials(before) + {d.serial}
  {
    var after := before + [d];
    forall s | s in Serials(before)
      ensures s in Serials(after)
    {
      var k :| 0 <= k < |before| && before[k].serial == s;
      assert after[k].serial == s;
    }
    assert after[|before|].serial == d.serial;
  }

  lemma {:induction false} UsersAreSerials(trace: seq<Datagram>, k: nat)
    ensures LastUser(trace, k).Some? ==>
              LastUser(trace, k).value in Serials(trace) && SlotIndex(LastUser(trace, k).value) == k
    ensures forall s :: s in Serials(trace) && SlotIndex(s) == k ==> LastUser(trace, k).Some?
    decreases |trace|
  {
    if |trace| == 0 {
    } else {
      var before, d := trace[..|trace| - 1], trace[|trace| - 1];
      UsersAreSerials(before, k);
      assert trace == before + [d];
      SerialsGrow(before, d);
    }
  }

  lemma WireIdsMember(done: seq<nat>, s: nat)
    ensures WireId(s) in WireIds(done) <==> !Unlike(s, done)
  {
    if WireId(s) in WireIds(done) {
      var k :| 0 <= k < |done| && WireIds(done)[k] == WireId(s);
      assert done[k] in done;
    }
    if !Unlike(s, done) {
      var t :| t in done && WireId(t) == WireId(s);
      var k :| 0 <= k < |done| && done[k] == t;
      assert WireIds(done)[k] == WireId(s);
    }
  }

  /** Table and map hand the handler the same block, up to what it throws away, and the same answer to whether the block
      is finished. */
  lemma SameSituation(rx: Receiver, id: Ideal, before: seq<Datagram>, d: Datagram, src: nat -> seq<Packet>,
                      c: RqCodec.Codec)
    requires IdealOk(id, src, c) && Agree(rx, id, before) && Fits(before, d.serial, id.done)
    ensures var b, b' := rx.table[SlotIndex(d.serial)], Entry(id.slots, d.serial);
      b == b' || Lookup(b, WireId(d.serial)) == Lookup(b', WireId(d.serial))
    ensures WireId(d.serial) in rx.done <==> d.serial in id.done
  {
    var k := SlotIndex(d.serial);
    UsersAreSerials(before, k);
    WireIdsMember(id.done, d.serial);
    var user := LastUser(before, k);
    assert SlotAgrees(rx, id, k, user);
    match user {
      case None =>
        assert forall t :: t in id.done && WireId(t) == WireId(d.serial) ==> SlotIndex(t) == k;
      case Some(u) =>
        EntryIsOk(id, u, src, c);
    }
  }

  lemma SameHandled(b: Block, b': Block, st: Stats, d: Datagram, known: bool, src: nat -> seq<Packet>, e: Env)
    requires Setting(src, e) && GenuineDatagram(d, src, e.codec)
    requires EntryOk(b', WireId(d.serial), src(d.serial), e.codec) && WellSized(b) && Orderly(b)
    requires b == b' || Lookup(b, WireId(d.serial)) == Lookup(b', WireId(d.serial))
    ensures Usable(d.sym) && StaysInBuffer(b, d.sym) && StaysInBuffer(b', d.sym)
    ensures Handled(b, st, d.sym, known, e) == Handled(b', st, d.sym, known, e)
  {
    SymbolIsUsable(b', d.sym, WireId(d.serial), src(d.serial), e);
    if b != b' {
      assert Lookup(b, d.sym.blockId) == Lookup(b', d.sym.blockId);
    }
  }

  lemma OtherSlotsAgree(rx: Receiver, id: Ideal, before: seq<Datagram>, d: Datagram, rx': Receiver, id': Ideal,
                        w: World, j: nat)
    requires Agree(rx, id, before) && j < MAX_BLOCKS && j != SlotIndex(d.serial)
    requires rx'.table == rx.table[SlotIndex(d.serial) := w.block] && id'.slots == id.slots[d.serial := w.block]
    requires id'.done == id.done || id'.done == id.done + [d.serial]
    ensures SlotAgrees(rx', id', j, LastUser(before + [d], j))
  {
    assert (before + [d])[..|before|] == before;
    UsersAreSerials(before, j);
    assert SlotAgrees(rx, id, j, LastUser(before, j));
  }

  lemma OwnSlotAgrees(rx: Receiver, id: Ideal, before: seq<Datagram>, d: Datagram, rx': Receiver, id': Ideal, w: World)
    requires Agree(rx, id, before) && Fits(before, d.serial, id.done)
    requires rx'.table == rx.table[SlotIndex(d.serial) := w.block] && id'.slots == id.slots[d.serial := w.block]
    requires id'.done == id.done || id'.done == id.done + [d.serial]
    ensures SlotAgrees(rx', id', SlotIndex(d.serial), LastUser(before + [d], SlotIndex(d.serial)))
  {
    var k := SlotIndex(d.serial);
    UsersAreSerials(before, k);
    assert SlotAgrees(rx, id, k, LastUser(before, k));
    forall t | t in id'.done && WireId(t) == WireId(d.serial)
      ensures t == d.serial
    {
      assert SlotIndex(t) == k;
    }
  }

  lemma DoneAgrees(done: seq<nat>, s: nat, finished: bool)
    requires |done| + (if finished then 1 else 0) <= MAX_BLOCKS
    ensures (if finished then MarkDone(WireIds(done), WireId(s)) else WireIds(done)) ==
            WireIds(if finished then done + [s] else done)
  {
  }

  lemma KeysAgree(id: Ideal, before: seq<Datagram>, d: Datagram, id': Ideal, b: Block)
    requires id.slots.Keys == Serials(before) && (forall t :: t in id.done ==> t in Serials(before))
    requires id'.slots == id.slots[d.serial := b] && (id'.done == id.done || id'.done == id.done + [d.serial])
    ensures id'.slots.Keys == Serials(before + [d]) && (forall t :: t in id'.done ==> t in Serials(before + [d]))
  {
    SerialsGrow(before, d);
  }

  /** The table after the handling of a datagram of block s. */
  function TableWith(rx: Receiver, s: nat, w: World): Receiver
    requires |rx.table| == MAX_BLOCKS
  {
    Receiver(rx.table[SlotIndex(s) := w.block], if w.finished then MarkDone(rx.done, WireId(s)) else rx.done, w.stats,
             rx.log + w.log)
  }

  /** A symbol comes off the wire as it was sent. */
  lemma OnWireIsParsed(rx: Receiver, sym: Symbol, e: Env)
    requires SendableSymbol(sym) && ValidReceiver(rx) && EnvOk(e)
    requires Usable(sym) ==> StaysInBuffer(rx.table[sym.blockId % MAX_BLOCKS], sym)
    ensures Accepts(rx, SerializeSymbol(sym)) && OnDatagram(rx, SerializeSymbol(sym), e) == OnParsed(rx, sym, e)
  {
    SymbolRoundTrip(sym);
  }

  lemma ParsedResult(rx: Receiver, s: nat, sym: Symbol, w: World, e: Env)
    requires ValidReceiver(rx) && EnvOk(e) && Usable(sym) && sym.blockId == WireId(s)
    requires StaysInBuffer(rx.table[SlotIndex(s)], sym)
    requires w == Handled(rx.table[SlotIndex(s)], CountFragment(rx.stats, sym), sym, WireId(s) in rx.done, e)
    ensures sym.blockId % MAX_BLOCKS == SlotIndex(s) && OnParsed(rx, sym, e) == TableWith(rx, s, w)
  {
  }

  /** What the table makes of the same datagram. */
  lemma SameResult(rx: Receiver, id: Ideal, before: seq<Datagram>, d: Datagram, src: nat -> seq<Packet>, e: Env)
    requires Setting(src, e) && GenuineDatagram(d, src, e.codec) && AtRest(rx) && IdealOk(id, src, e.codec)
    requires Takes(id, d) && Agree(rx, id, before) && Fits(before, d.serial, id.done)
    ensures d.sym.blockId % MAX_BLOCKS == SlotIndex(d.serial) && StaysInBuffer(rx.table[SlotIndex(d.serial)], d.sym)
    ensures OnParsed(rx, d.sym, At(e, d)) == TableWith(rx, d.serial, Result(id, d, e))
  {
    EntryIsOk(id, d.serial, src, e.codec);
    SameSituation(rx, id, before, d, src, e.codec);
    SameHandled(rx.table[SlotIndex(d.serial)], Entry(id.slots, d.serial), CountFragment(id.stats, d.sym), d,
                d.serial in id.done, src, At(e, d));
    ParsedResult(rx, d.serial, d.sym, Result(id, d, e), At(e, d));
  }

  lemma ResultAgrees(rx: Receiver, id: Ideal, before: seq<Datagram>, d: Datagram, w: World)
    requires Agree(rx, id, before) && Fits(before, d.serial, id.done)
    requires |IdealWith(id, d.serial, w).done| <= MAX_BLOCKS
    ensures Agree(TableWith(rx, d.serial, w), IdealWith(id, d.serial, w), before + [d])
  {
    var rx', id' := TableWith(rx, d.serial, w), IdealWith(id, d.serial, w);
    UntagAppends(id.log, d.serial, w.log);
    DoneAgrees(id.done, d.serial, w.finished);
    KeysAgree(id, before, d, id', w.block);
    OwnSlotAgrees(rx, id, before, d, rx', id', w);
    forall j | 0 <= j < MAX_BLOCKS && j != SlotIndex(d.serial)
      ensures SlotAgrees(rx', id', j, LastUser(before + [d], j))
    {
      OtherSlotsAgree(rx, id, before, d, rx', id', w, j);
    }
  }

  lemma StepAgrees(rx: Receiver, id: Ideal, before: seq<Datagram>, d: Datagram, src: nat -> seq<Packet>, e: Env)
      returns (rx': Receiver)
    requires Setting(src, e) && GenuineDatagram(d, src, e.codec) && AtRest(rx) && IdealOk(id, src, e.codec)
    requires Agree(rx, id, before) && Fits(before, d.serial, id.done)
    requires Takes(id, d) && |OnIdeal(id, d, e).done| <= MAX_BLOCKS
    ensures Accepts(rx, SerializeSymbol(d.sym))
    ensures rx' == OnDatagram(rx, SerializeSymbol(d.sym), At(e, d)) && Agree(rx', OnIdeal(id, d, e), before + [d])
  {
    SameResult(rx, id, before, d, src, e);
    OnWireIsParsed(rx, d.sym, At(e, d));
    rx' := OnDatagram(rx, SerializeSymbol(d.sym), At(e, d));
    ResultAgrees(rx, id, before, d, Result(id, d, e));
  }

  lemma FitsAtPrefix(before: seq<Datagram>, trace: seq<Datagram>, n: nat, src: nat -> seq<Packet>, e: Env)
    requires Setting(src, e) && Genuine(before, src, e.codec) && Genuine(trace, src, e.codec)
    requires n < |before| && n < |trace| && before[..n] == trace[..n] && before[n] == trace[n]
    requires FitsAt(trace, n, src, e)
    ensures FitsAt(before, n, src, e)
  {
  }

  lemma SamePrefix(before: seq<Datagram>, d: Datagram, n: nat)
    requires n < |before|
    ensures (before + [d])[..n] == before[..n] && (before + [d])[n] == before[n]
  {
  }

  lemma SeparateLast(before: seq<Datagram>, d: Datagram, src: nat -> seq<Packet>, e: Env)
    requires Setting(src, e) && Genuine(before, src, e.codec) && Genuine(before + [d], src, e.codec)
    requires Separate(before + [d], src, e)
    ensures Separate(before, src, e) && Fits(before, d.serial, ReceiveIdeal(before, src, e).done)
  {
    var trace := before + [d];
    assert FitsAt(trace, |before|, src, e) && trace[..|before|] == before;
    forall n | 0 <= n < |before|
      ensures FitsAt(before, n, src, e)
    {
      SamePrefix(before, d, n);
      assert FitsAt(trace, n, src, e);
      FitsAtPrefix(before, trace, n, src, e);
    }
  }

  /** The datagrams as they come from the socket. */
  function OnWire(d: Datagram): Input
    requires SendableSymbol(d.sym)
  {
    Input(SerializeSymbol(d.sym), d.now, d.accepts)
  }

  ghost predicate AllSendable(trace: seq<Datagram>) {
    forall k :: 0 <= k < |trace| ==> SendableSymbol(trace[k].sym)
  }

  function Inputs(trace: seq<Datagram>): (inputs: seq<Input>)
    requires AllSendable(trace)
    ensures |inputs| == |trace|
  {
    seq(|trace|, k requires 0 <= k < |trace| => OnWire(trace[k]))
  }

  lemma InputsGrow(before: seq<Datagram>, d: Datagram)
    requires AllSendable(before) && SendableSymbol(d.sym)
    ensures Inputs(before + [d]) == Inputs(before) + [OnWire(d)]
  {
  }

  ghost predicate Refines(trace: seq<Datagram>, src: nat -> seq<Packet>, e: Env)
    requires Setting(src, e) && Genuine(trace, src, e.codec)
  {
    Accepted(Inputs(trace), e) && Agree(Receive(Inputs(trace), e), ReceiveIdeal(trace, src, e), trace)
  }

  lemma RefinesAtStart(src: nat -> seq<Packet>, e: Env)
    requires Setting(src, e)
    ensures Refines([], src, e)
  {
    assert Serials([]) == {} && Inputs([]) == [] && WireIds([]) == [];
    assert Receive([], e) == EmptyReceiver();
  }

  lemma ReceiveOneMore(before: seq<Datagram>, after: seq<Datagram>, d: Datagram, rx: Receiver, e: Env)
    requires AllSendable(before) && AllSendable(after) && after == before + [d] && SendableSymbol(d.sym) && EnvOk(e)
    requires Accepted(Inputs(before), e) && rx == Receive(Inputs(before), e) && Accepts(rx, SerializeSymbol(d.sym))
    ensures Accepted(Inputs(after), e)
    ensures Receive(Inputs(after), e) == OnDatagram(rx, SerializeSymbol(d.sym), At(e, d))
  {
    InputsGrow(before, d);
    UnfoldReceive(Inputs(before), OnWire(d), e);
  }

  lemma RefinesStep(before: seq<Datagram>, d: Datagram, src: nat -> seq<Packet>, e: Env)
    requires Setting(src, e) && Genuine(before, src, e.codec) && GenuineDatagram(d, src, e.codec)
    requires Genuine(before + [d], src, e.codec)
    requires Refines(before, src, e) && Fits(before, d.serial, ReceiveIdeal(before, src, e).done)
    requires |ReceiveIdeal(before + [d], src, e).done| <= MAX_BLOCKS
    ensures Refines(before + [d], src, e)
  {
    UnfoldIdeal(before, d, src, e);
    var rx' := StepAgrees(Receive(Inputs(before), e), ReceiveIdeal(before, src, e), before, d, src, e);
    ReceiveOneMore(before, before + [d], d, Receive(Inputs(before), e), e);
  }

  lemma DoneGrows(before: seq<Datagram>, d: Datagram, src: nat -> seq<Packet>, e: Env)
    requires Setting(src, e) && Genuine(before, src, e.codec) && GenuineDatagram(d, src, e.codec)
    requires Genuine(before + [d], src, e.codec)
    ensures |ReceiveIdeal(before, src, e).done| <= |ReceiveIdeal(before + [d], src, e).done|
  {
    UnfoldIdeal(before, d, src, e);
  }

  /** On every trace in which blocks sharing one of the 1024 slots do not interleave, no newcomer has the 16-bit id
      of the block it evicts or of a finished block, and at most 1024 blocks are finished, the table behaves as if
      every block had a slot of its own: same sends, same counters, same finished blocks. */
  lemma {:induction false} TableRefinesMap(trace: seq<Datagram>, src: nat -> seq<Packet>, e: Env)
    requires Setting(src, e) && Genuine(trace, src, e.codec) && Separate(trace, src, e)
    requires |ReceiveIdeal(trace, src, e).done| <= MAX_BLOCKS
    ensures Refines(trace, src, e)
    decreases |trace|
  {
    if |trace| == 0 {
      assert trace == [];
      RefinesAtStart(src, e);
    } else {
      var before, d := trace[..|trace| - 1], trace[|trace| - 1];
      GenuineLast(trace, src, e.codec);
      assert trace == before + [d];
      SeparateLast(before, d, src, e);
      DoneGrows(before, d, src, e);
      TableRefinesMap(before, src, e);
      RefinesStep(before, d, src, e);
    }
  }
}
