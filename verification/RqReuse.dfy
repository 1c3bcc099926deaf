/** Block ids that come round again. */
module RqReuse {
  import opened Base
  import opened Deliveries
  import opened Wire
  import opened RqBlock
  import opened RqBlockLaws
  import opened RqEntry
  import opened RqTable
  import opened RqSafety
  import RqCodec

  // Nothing is assumed here about slots or ids: this is what the receiver does with a genuine symbol whose 16-bit id
  // may be on the list of finished blocks on behalf of an older block.

  /** What a slot holds under an id: its record, or nothing. */
  function Own(b: Block, id: nat): Block {
    if b.inUse && b.id == id then b else BlankBlock()
  }

  /** A genuine datagram whose id, if the slot has a record of it, has a record that was built by symbols of the same
      block. */
  ghost predicate Meets(rx: Receiver, d: Datagram, src: nat -> seq<Packet>, e: Env) {
    && Setting(src, e) && GenuineDatagram(d, src, e.codec) && AtRest(rx)
    && EntryOk(Own(rx.table[SlotIndex(d.serial)], WireId(d.serial)), WireId(d.serial), src(d.serial), e.codec)
  }

  /** It is a sound symbol and fits into its record. */
  lemma MeetsIsSound(rx: Receiver, d: Datagram, src: nat -> seq<Packet>, e: Env)
    requires Meets(rx, d, src, e)
    ensures ValidReceiver(rx) && EnvOk(At(e, d)) && Fit(src(d.serial), At(e, d)) && SendableSymbol(d.sym)
    ensures SymbolOf(d.sym, WireId(d.serial), src(d.serial), e.codec) && d.sym.blockId == WireId(d.serial)
    ensures d.sym.blockId % MAX_BLOCKS == SlotIndex(d.serial) && Usable(d.sym)
    ensures var b := rx.table[SlotIndex(d.serial)];
      StaysInBuffer(b, d.sym) && StaysInBuffer(Own(b, WireId(d.serial)), d.sym)
  {
    GenuineIsFit(d, src, e);
    SymbolIsUsable(Own(rx.table[SlotIndex(d.serial)], WireId(d.serial)), d.sym, WireId(d.serial), src(d.serial), e);
  }

  /** What the handler makes of the datagram. */
  ghost function Next(rx: Receiver, d: Datagram, src: nat -> seq<Packet>, e: Env): Receiver
    requires Meets(rx, d, src, e)
  {
    MeetsIsSound(rx, d, src, e);
    OnParsed(rx, d.sym, At(e, d))
  }

  lemma NextOnWire(rx: Receiver, d: Datagram, src: nat -> seq<Packet>, e: Env)
    requires Meets(rx, d, src, e)
    ensures SendableSymbol(d.sym) && Accepts(rx, SerializeSymbol(d.sym))
    ensures OnDatagram(rx, SerializeSymbol(d.sym), At(e, d)) == Next(rx, d, src, e)
  {
    MeetsIsSound(rx, d, src, e);
    OnWireIsParsed(rx, d.sym, At(e, d));
  }

  lemma NextIsAtRest(rx: Receiver, d: Datagram, src: nat -> seq<Packet>, e: Env)
    requires Meets(rx, d, src, e)
    ensures AtRest(Next(rx, d, src, e))
  {
    NextOnWire(rx, d, src, e);
    DatagramKeepsRest(rx, SerializeSymbol(d.sym), At(e, d));
  }

  /** It depends on the datagram's own record only. */
  lemma OwnRecordDecides(rx: Receiver, d: Datagram, src: nat -> seq<Packet>, e: Env) returns (own: Block, w: World)
    requires Meets(rx, d, src, e)
    ensures own == Own(rx.table[SlotIndex(d.serial)], WireId(d.serial))
    ensures EnvOk(At(e, d)) && Usable(d.sym) && StaysInBuffer(own, d.sym)
    ensures w == Handled(own, CountFragment(rx.stats, d.sym), d.sym, WireId(d.serial) in rx.done, At(e, d))
    ensures Next(rx, d, src, e) == TableWith(rx, d.serial, w)
  {
    MeetsIsSound(rx, d, src, e);
    own := Own(rx.table[SlotIndex(d.serial)], WireId(d.serial));
    assert Lookup(rx.table[SlotIndex(d.serial)], d.sym.blockId) == Lookup(own, d.sym.blockId);
    w := Handled(own, CountFragment(rx.stats, d.sym), d.sym, WireId(d.serial) in rx.done, At(e, d));
  }

  /** The guard of the socket call. */
  lemma NextSpeaksIff(rx: Receiver, d: Datagram, src: nat -> seq<Packet>, e: Env) returns (own: Block, noted: Block)
    requires Meets(rx, d, src, e)
    ensures own == Own(rx.table[SlotIndex(d.serial)], WireId(d.serial))
    ensures EnvOk(At(e, d)) && Usable(d.sym) && StaysInBuffer(own, d.sym) && noted == Noted(own, d.sym, At(e, d))
    ensures 0 < noted.k <= K
    ensures Next(rx, d, src, e).log != rx.log <==>
            (WireId(d.serial) in rx.done ==> d.sym.esi in own.esis) && RepeatSpeaks(noted, d.sym, e.codec)
  {
    MeetsIsSound(rx, d, src, e);
    var w;
    own, w := OwnRecordDecides(rx, d, src, e);
    SymbolSpeaksIff(own, CountFragment(rx.stats, d.sym), d.sym, WireId(d.serial) in rx.done, WireId(d.serial),
                    src(d.serial), At(e, d));
    LogMoves(rx.log, w.log);
    noted := Noted(own, d.sym, At(e, d));
  }

  /** The exact condition under which a genuine symbol is handed to the socket, whatever is on the list of finished
      blocks: if its 16-bit id is listed, the symbol's own id must be stored already; and in the record of the block,
      once the symbol is noted, its row is missing or the stored rows decode. */
  lemma HandedOnIff(rx: Receiver, d: Datagram, src: nat -> seq<Packet>, e: Env)
    requires Meets(rx, d, src, e)
    ensures SendableSymbol(d.sym) && Accepts(rx, SerializeSymbol(d.sym))
    ensures var own := Own(rx.table[SlotIndex(d.serial)], WireId(d.serial));
      && EnvOk(At(e, d)) && Usable(d.sym) && StaysInBuffer(own, d.sym) && 0 < Noted(own, d.sym, At(e, d)).k <= K
      && (OnDatagram(rx, SerializeSymbol(d.sym), At(e, d)).log != rx.log <==>
          && (WireId(d.serial) in rx.done ==> d.sym.esi in own.esis)
          && RepeatSpeaks(Noted(own, d.sym, At(e, d)), d.sym, e.codec))
  {
    NextOnWire(rx, d, src, e);
    var own, noted := NextSpeaksIff(rx, d, src, e);
  }

  lemma LogMoves(log: seq<Delivery>, more: seq<Delivery>)
    ensures log + more != log <==> more != []
  {
    assert |log + more| == |log| + |more|;
    assert more == [] ==> log + more == log;
  }

  /** A slot without a record of the id. */
  lemma NewcomerMeets(rx: Receiver, d: Datagram, src: nat -> seq<Packet>, e: Env)
    requires Setting(src, e) && GenuineDatagram(d, src, e.codec) && AtRest(rx)
    requires Own(rx.table[SlotIndex(d.serial)], WireId(d.serial)) == BlankBlock()
    ensures Meets(rx, d, src, e)
  {
    BlankIsOk(WireId(d.serial), src(d.serial), e.codec);
  }

  lemma NewcomerSpeaksIff(rx: Receiver, d: Datagram, src: nat -> seq<Packet>, e: Env)
    requires Meets(rx, d, src, e) && d.sym.esi < |src(d.serial)|
    requires Own(rx.table[SlotIndex(d.serial)], WireId(d.serial)) == BlankBlock()
    ensures Next(rx, d, src, e).log != rx.log <==> WireId(d.serial) !in rx.done
  {
    MeetsIsSound(rx, d, src, e);
    var own, noted := NextSpeaksIff(rx, d, src, e);
    NotedIsOk(BlankBlock(), d.sym, WireId(d.serial), src(d.serial), At(e, d));
  }

  /** A source symbol that is the first of its block to reach its slot is handed on if and only if the block's 16-bit id
      is not on the list. */
  lemma NewcomerIsHandedOnIff(rx: Receiver, d: Datagram, src: nat -> seq<Packet>, e: Env)
    requires Setting(src, e) && GenuineDatagram(d, src, e.codec) && AtRest(rx) && d.sym.esi < |src(d.serial)|
    requires var b := rx.table[SlotIndex(d.serial)]; !(b.inUse && b.id == WireId(d.serial))
    ensures SendableSymbol(d.sym) && EnvOk(At(e, d)) && Accepts(rx, SerializeSymbol(d.sym))
    ensures OnDatagram(rx, SerializeSymbol(d.sym), At(e, d)).log != rx.log <==> WireId(d.serial) !in rx.done
  {
    NewcomerMeets(rx, d, src, e);
    MeetsIsSound(rx, d, src, e);
    NextOnWire(rx, d, src, e);
    NewcomerSpeaksIff(rx, d, src, e);
  }

  // ----- a run in which an id comes round

  /** One more datagram from the socket. */
  lemma ReceiveMore(before: seq<Input>, after: seq<Input>, rx: Receiver, d: Datagram, src: nat -> seq<Packet>, e: Env)
      returns (rx': Receiver)
    requires EnvOk(e) && Accepted(before, e) && rx == Receive(before, e) && Meets(rx, d, src, e)
    requires SendableSymbol(d.sym) && after == before + [OnWire(d)]
    ensures Accepted(after, e) && rx' == Receive(after, e) == Next(rx, d, src, e)
  {
    NextOnWire(rx, d, src, e);
    UnfoldReceive(before, OnWire(d), e);
    rx' := Next(rx, d, src, e);
  }

  /** The only packet of the older block finishes it. */
  lemma OlderBlockIsListed(d: Datagram, src: nat -> seq<Packet>, e: Env)
    requires OnePacketBlock(d, src, e)
    ensures Meets(EmptyReceiver(), d, src, e)
    ensures var rx := Next(EmptyReceiver(), d, src, e);
      AtRest(rx) && rx.done == [WireId(d.serial)] && rx.table[SlotIndex(d.serial)] == BlankBlock()
  {
    EmptyIsAtRest();
    NewcomerMeets(EmptyReceiver(), d, src, e);
    MeetsIsSound(EmptyReceiver(), d, src, e);
    var own, w := OwnRecordDecides(EmptyReceiver(), d, src, e);
    OnlyPacketFinishes(CountFragment(NoStats(), d.sym), d.sym, WireId(d.serial), src(d.serial), At(e, d));
    NextIsAtRest(EmptyReceiver(), d, src, e);
  }

  /** The record of a packet that was stored and not handed on. */
  ghost predicate Withheld(rx: Receiver, d: Datagram) {
    |rx.table| == MAX_BLOCKS && var b := rx.table[SlotIndex(d.serial)];
      b.inUse && b.id == WireId(d.serial) && b.esis == [0] && b.forwarded == NoFlags()
  }

  /** The newcomer's packet finds the id listed: it is stored and not handed on. */
  lemma NewcomerIsStored(rx: Receiver, d: Datagram, src: nat -> seq<Packet>, e: Env)
    requires OnePacketBlock(d, src, e) && AtRest(rx) && rx.done == [WireId(d.serial)]
    requires rx.table[SlotIndex(d.serial)] == BlankBlock()
    ensures Meets(rx, d, src, e)
    ensures var rx' := Next(rx, d, src, e);
      rx'.log == rx.log && rx'.done == rx.done && Withheld(rx', d) && Meets(rx', d, src, e)
  {
    NewcomerMeets(rx, d, src, e);
    MeetsIsSound(rx, d, src, e);
    var own, w := OwnRecordDecides(rx, d, src, e);
    var id, st := WireId(d.serial), CountFragment(rx.stats, d.sym);
    LateCopyIsStored(st, d.sym, id, src(d.serial), At(e, d));
    SymbolProgresses(BlankBlock(), st, d.sym, true, id, src(d.serial), At(e, d));
    NewcomerSpeaksIff(rx, d, src, e);
    NextIsAtRest(rx, d, src, e);
    assert Own(w.block, id) == w.block;
  }

  lemma RepeatIsHandedOn(rx: Receiver, d: Datagram, src: nat -> seq<Packet>, e: Env)
    requires OnePacketBlock(d, src, e) && Meets(rx, d, src, e) && Withheld(rx, d)
    ensures Next(rx, d, src, e).log != rx.log
  {
    MeetsIsSound(rx, d, src, e);
    var own, noted := NextSpeaksIff(rx, d, src, e);
    NotedIsOk(own, d.sym, WireId(d.serial), src(d.serial), At(e, d));
  }

  /** The id is listed; the first symbol under it is silent, the second one is not. */
  ghost predicate OnlySecondCopySpeaks(rx1: Receiver, rx2: Receiver, rx3: Receiver, id: nat) {
    rx1.done == [id] && rx2.log == rx1.log && rx3.log != rx2.log
  }

  lemma ReusedIdRun(d1: Datagram, d2: Datagram, src: nat -> seq<Packet>, e: Env, t1: seq<Input>, t2: seq<Input>,
                    t3: seq<Input>)
    requires OnePacketBlock(d1, src, e) && OnePacketBlock(d2, src, e)
    requires d1.serial != d2.serial && WireId(d1.serial) == WireId(d2.serial)
    requires SendableSymbol(d1.sym) && SendableSymbol(d2.sym) && EnvOk(e)
    requires t1 == [] + [OnWire(d1)] && t2 == t1 + [OnWire(d2)] && t3 == t2 + [OnWire(d2)]
    ensures Accepted(t1, e) && Accepted(t2, e) && Accepted(t3, e)
    ensures OnlySecondCopySpeaks(Receive(t1, e), Receive(t2, e), Receive(t3, e), WireId(d2.serial))
  {
    OlderBlockIsListed(d1, src, e);
    var rx1 := ReceiveMore([], t1, EmptyReceiver(), d1, src, e);
    NewcomerIsStored(rx1, d2, src, e);
    var rx2 := ReceiveMore(t1, t2, rx1, d2, src, e);
    RepeatIsHandedOn(rx2, d2, src, e);
    var rx3 := ReceiveMore(t2, t3, rx2, d2, src, e);
  }

  lemma OneTwoThree(x: Input, y: Input) returns (t1: seq<Input>, t2: seq<Input>, t3: seq<Input>)
    ensures t1 == [x] && t2 == [x, y] && t3 == [x, y, y]
    ensures t1 == [] + [x] && t2 == t1 + [y] && t3 == t2 + [y]
  {
    t1, t2, t3 := [x], [x, y], [x, y, y];
  }

  /** Two one-packet blocks with the same 16-bit id. The older one is handed on. The newcomer's symbol is not, although
      the destination never had it; its second copy is. */
  lemma ReusedIdNeedsARepeat(d1: Datagram, d2: Datagram, src: nat -> seq<Packet>, e: Env)
      returns (t1: seq<Input>, t2: seq<Input>, t3: seq<Input>)
    requires OnePacketBlock(d1, src, e) && OnePacketBlock(d2, src, e)
    requires d1.serial != d2.serial && WireId(d1.serial) == WireId(d2.serial)
    ensures SendableSymbol(d1.sym) && SendableSymbol(d2.sym) && EnvOk(e)
    ensures t1 == [OnWire(d1)] && t2 == [OnWire(d1), OnWire(d2)] && t3 == [OnWire(d1), OnWire(d2), OnWire(d2)]
    ensures Accepted(t1, e) && Accepted(t2, e) && Accepted(t3, e)
    ensures OnlySecondCopySpeaks(Receive(t1, e), Receive(t2, e), Receive(t3, e), WireId(d2.serial))
  {
    t1, t2, t3 := OneTwoThree(OnWire(d1), OnWire(d2));
    ReusedIdRun(d1, d2, src, e, t1, t2, t3);
  }
}
