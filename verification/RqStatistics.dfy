/** The RaptorQ receiver's counters: on every stream of datagrams that the receiver accepts, genuine or not, they agree
    with what was sent, with the blocks that were finished and with the decodings that succeeded. */
module RqStatistics {
  import opened Base
  import opened Deliveries
  import opened Wire
  import opened RqBlock
  import opened RqBlockLaws
  import opened RqEntry
  import opened RqTable
  import RqCodec

  // ----- counters of sends

  /** Between w and w' a counter moved by exactly what was sent. */
  ghost predicate Balances(w: World, w': World, c: Counter) {
    Balanced(w.stats.sent, w.log, w'.stats.sent, w'.log, c)
  }

  lemma BalanceChain(w: World, w1: World, w2: World, c: Counter)
    requires Balances(w, w1, c) && Balances(w1, w2, c)
    ensures Balances(w, w2, c)
  {
  }

  lemma RowBalances(w: World, i: nat, pkt: Packet, original: bool, e: Env, c: Counter)
    requires WellSized(w.block) && i < K
    ensures Balances(w, ForwardRow(w, i, pkt, original, e), c)
  {
    if |pkt| >= MIN_IP {
      SendBalances(w.stats.sent, w.log, Delivery(w.block.id, i, pkt, original, e.accepts(i, original)), c);
    }
  }

  lemma OfferBalances(w: World, w1: World, i: nat, pkt: Packet, e: Env, c: Counter)
    requires Balances(w, w1, c) && WellSized(w1.block) && i < K
    ensures Balances(w, Offer(w1, i, pkt, e), c)
  {
    if !w1.block.forwarded[i] {
      RowBalances(w1, i, pkt, false, e, c);
      BalanceChain(w, w1, ForwardRow(w1, i, pkt, false, e), c);
    }
  }

  lemma {:induction false} DecodedBalances(w: World, rows: seq<Packet>, n: nat, e: Env, c: Counter)
    requires WellSized(w.block) && n <= |rows| && n <= K
    ensures Balances(w, ForwardDecoded(w, rows, n, e), c)
  {
    if n == 0 {
    } else {
      DecodedBalances(w, rows, n - 1, e, c);
      OfferBalances(w, ForwardDecoded(w, rows, n - 1, e), n - 1, rows[n - 1], e, c);
    }
  }

  lemma DecodeBalances(w: World, e: Env, c: Counter)
    requires WellSized(w.block) && EnvOk(e)
    ensures Balances(w, TryDecode(w, e), c)
  {
    DecodeCases(w, e);
    if Decodes(w.block, e.codec) {
      var b := w.block.(attempted := true);
      var w2 := World(b.(parityCounted := true), CountDecode(w.stats.(attempts := w.stats.attempts + 1), b), w.log,
                      w.finished);
      DecodedBalances(w2, e.codec.decode(b.k, b.rows, b.esis).value, b.k, e, c);
    }
  }

  lemma WorkBalances(w: World, sym: Symbol, e: Env, c: Counter)
    requires WellSized(w.block) && w.block.live && EnvOk(e) && sym.symbolLen <= |sym.payload|
    ensures Balances(w, Work(w, sym, e), c)
  {
    var w1 := ForwardSource(w, sym, e);
    if w1 != w {
      RowBalances(w, sym.esi, sym.payload[..sym.symbolLen], true, e, c);
    }
    DecodeBalances(w1, e, c);
    BalanceChain(w, w1, Work(w, sym, e), c);
  }

  lemma SymbolBalances(b: Block, st: Stats, sym: Symbol, known: bool, e: Env, c: Counter)
    requires WellSized(b) && Orderly(b) && EnvOk(e) && Usable(sym) && StaysInBuffer(b, sym)
    ensures var w' := Handled(b, st, sym, known, e); Booked(w'.stats.sent, c) == Booked(st.sent, c) + Tally(w'.log, c)
  {
    Outcome(b, st, sym, known, e);
    WorkBalances(World(Noted(b, sym, e), st, [], false), sym, e, c);
  }

  // ----- a record and what was sent from it

  /** Payload bytes of the successful sends. */
  function Payload(outs: seq<Delivery>): nat {
    if |outs| == 0 then 0
    else Payload(outs[..|outs| - 1]) + if outs[|outs| - 1].ok then PayloadBytes(outs[|outs| - 1].pkt) else 0
  }

  /** Whether anything repaired was sent successfully. */
  predicate AnyRepaired(outs: seq<Delivery>) {
    exists k :: 0 <= k < |outs| && outs[k].ok && !outs[k].original
  }

  lemma SendsGrow(outs: seq<Delivery>, d: Delivery)
    ensures Payload(outs + [d]) == Payload(outs) + if d.ok then PayloadBytes(d.pkt) else 0
    ensures AnyRepaired(outs + [d]) <==> AnyRepaired(outs) || (d.ok && !d.original)
  {
    assert (outs + [d])[..|outs|] == outs;
    if AnyRepaired(outs) {
      var k :| 0 <= k < |outs| && outs[k].ok && !outs[k].original;
      assert (outs + [d])[k] == outs[k];
    }
    assert (outs + [d])[|outs|] == d;
  }

  /** The record's totals are those of the sends made from it; the clock has left its mark on what was forwarded. */
  ghost predicate Carries(b: Block, outs: seq<Delivery>, timed: bool) {
    && b.usefulBytes == Payload(outs) && (b.usedFec <==> AnyRepaired(outs))
    && (b.parityCounted ==> b.decoded)
    && (timed ==> forall i :: 0 <= i < |b.forwarded| && b.forwarded[i] ==> b.lastFwd > 0)
  }

  /** The same in the middle of a handler call, apart from what the decoder marks. */
  ghost predicate Earned(w: World, p: seq<Delivery>, timed: bool) {
    && w.block.usefulBytes == Payload(p + w.log) && (w.block.usedFec <==> AnyRepaired(p + w.log))
    && (timed ==> forall i :: 0 <= i < |w.block.forwarded| && w.block.forwarded[i] ==> w.block.lastFwd > 0)
  }

  /** Sending touches neither the marks of a record nor the counters of blocks and decodings. */
  ghost predicate OnlySends(w: World, w': World) {
    && w'.stats == w.stats.(sent := w'.stats.sent) && w'.finished == w.finished
    && w'.block.live == w.block.live && w'.block.k == w.block.k && w'.block.firstRx == w.block.firstRx
    && w'.block.decoded == w.block.decoded && w'.block.parityCounted == w.block.parityCounted
  }

  lemma RowOnlySends(w: World, i: nat, pkt: Packet, original: bool, e: Env)
    requires WellSized(w.block) && i < K
    ensures OnlySends(w, ForwardRow(w, i, pkt, original, e))
  {
  }

  /** One more send, flagged and paid for exactly if it succeeded. */
  ghost predicate Paid(b: Block, b': Block, d: Delivery, now: nat) {
    if d.ok then
      && b'.usefulBytes == b.usefulBytes + PayloadBytes(d.pkt) && b'.usedFec == (b.usedFec || !d.original)
      && b'.lastFwd == now
    else
      && b'.usefulBytes == b.usefulBytes && b'.usedFec == b.usedFec
      && b'.lastFwd == b.lastFwd && b'.forwarded == b.forwarded
  }

  lemma SendIsEarned(w: World, w': World, d: Delivery, p: seq<Delivery>, now: nat, timed: bool)
    requires Earned(w, p, timed) && w'.log == w.log + [d] && Paid(w.block, w'.block, d, now) && (timed ==> now > 0)
    ensures Earned(w', p, timed)
  {
    SendsGrow(p + w.log, d);
    assert p + (w.log + [d]) == (p + w.log) + [d];
  }

  lemma RowIsEarned(w: World, p: seq<Delivery>, i: nat, pkt: Packet, original: bool, e: Env, timed: bool)
    requires WellSized(w.block) && i < K && Earned(w, p, timed) && (timed ==> e.now > 0)
    ensures Earned(ForwardRow(w, i, pkt, original, e), p, timed)
  {
    if |pkt| >= MIN_IP {
      var d := Delivery(w.block.id, i, pkt, original, e.accepts(i, original));
      SendIsEarned(w, ForwardRow(w, i, pkt, original, e), d, p, e.now, timed);
    }
  }

  lemma {:induction false} DecodedOnlySends(w: World, rows: seq<Packet>, n: nat, e: Env)
    requires WellSized(w.block) && n <= |rows| && n <= K
    ensures OnlySends(w, ForwardDecoded(w, rows, n, e))
  {
    if n == 0 {
    } else {
      DecodedOnlySends(w, rows, n - 1, e);
      RowOnlySends(ForwardDecoded(w, rows, n - 1, e), n - 1, rows[n - 1], false, e);
    }
  }

  lemma {:induction false} DecodedIsEarned(w: World, p: seq<Delivery>, rows: seq<Packet>, n: nat, e: Env, timed: bool)
    requires WellSized(w.block) && n <= |rows| && n <= K && Earned(w, p, timed) && (timed ==> e.now > 0)
    ensures Earned(ForwardDecoded(w, rows, n, e), p, timed)
  {
    if n == 0 {
    } else {
      DecodedIsEarned(w, p, rows, n - 1, e, timed);
      RowIsEarned(ForwardDecoded(w, rows, n - 1, e), p, n - 1, rows[n - 1], false, e, timed);
    }
  }

  /** How many source symbols a record is short of. */
  function Deficit(b: Block): nat {
    if b.sources < b.k then b.k - b.sources else 0
  }

  /** The counters of blocks and decodings after some decodings, given by their deficits. */
  ghost predicate Decoded(st: Stats, st': Stats, deficits: seq<nat>) {
    && st'.generations == st.generations && st'.noLoss == st.noLoss && st'.repaired == st.repaired
    && st'.decodeFailed == st.decodeFailed && st'.usefulBytes == st.usefulBytes && st'.completed == st.completed
    && st'.decodes == st.decodes + |deficits| && st'.parityConsumed == st.parityConsumed + Sum(deficits)
  }

  function Sum(ns: seq<nat>): nat {
    if |ns| == 0 then 0 else Sum(ns[..|ns| - 1]) + ns[|ns| - 1]
  }

  lemma SumOfOne(n: nat)
    ensures Sum([n]) == n
  {
    assert [n][..0] == [];
  }

  function DeficitsOf(b: Block, c: RqCodec.Codec): (deficits: seq<nat>)
    ensures |deficits| <= 1
  {
    if Decodes(b, c) then [Deficit(b)] else []
  }

  /** After a call of the decoder the record carries what was sent; every success is counted with its deficit. */
  ghost predicate Settled(w: World, w': World, p: seq<Delivery>, deficits: seq<nat>, timed: bool) {
    && Carries(w'.block, p + w'.log, timed) && Decoded(w.stats, w'.stats, deficits)
    && w'.finished == w.finished && w'.block.firstRx == w.block.firstRx
    && w'.block.k == w.block.k && w'.block.live == w.block.live
  }

  lemma AfterDecodeSettles(w: World, rows: seq<Packet>, p: seq<Delivery>, e: Env, timed: bool)
    requires WellSized(w.block) && |rows| == w.block.k <= K && !w.block.parityCounted
    requires Earned(w, p, timed) && (timed ==> e.now > 0)
    ensures Settled(w, AfterDecode(w, rows, e), p, [Deficit(w.block)], timed)
  {
    SumOfOne(Deficit(w.block));
    var w1 := w.(block := w.block.(parityCounted := true), stats := CountDecode(w.stats, w.block));
    DecodedIsEarned(w1, p, rows, w.block.k, e, timed);
    DecodedOnlySends(w1, rows, w.block.k, e);
  }

  lemma DecodeSettles(w: World, p: seq<Delivery>, e: Env, timed: bool)
    requires WellSized(w.block) && EnvOk(e) && (timed ==> e.now > 0) && Carries(w.block, p + w.log, timed)
    ensures Settled(w, TryDecode(w, e), p, DeficitsOf(w.block, e.codec), timed)
  {
    DecodeCases(w, e);
    if Decodes(w.block, e.codec) {
      var w1 := w.(block := w.block.(attempted := true), stats := w.stats.(attempts := w.stats.attempts + 1));
      AfterDecodeSettles(w1, e.codec.decode(w.block.k, w.block.rows, w.block.esis).value, p, e, timed);
    }
  }

  /** The decodings that a symbol causes in a record where it has been noted. */
  function WorkDeficits(w: World, sym: Symbol, e: Env): seq<nat>
    requires WellSized(w.block) && w.block.live && sym.symbolLen <= |sym.payload|
  {
    DeficitsOf(ForwardSource(w, sym, e).block, e.codec)
  }

  lemma WorkSettles(w: World, sym: Symbol, p: seq<Delivery>, e: Env, timed: bool)
    requires WellSized(w.block) && w.block.live && EnvOk(e) && sym.symbolLen <= |sym.payload|
    requires w.log == [] && Carries(w.block, p, timed) && (timed ==> e.now > 0)
    ensures Settled(w, Work(w, sym, e), p, WorkDeficits(w, sym, e), timed)
  {
    assert p + [] == p;
    var w1 := ForwardSource(w, sym, e);
    if w1 != w {
      RowIsEarned(w, p, sym.esi, sym.payload[..sym.symbolLen], true, e, timed);
      RowOnlySends(w, sym.esi, sym.payload[..sym.symbolLen], true, e);
    }
    DecodeSettles(w1, p, e, timed);
  }

  // ----- one symbol

  /** The counters moved by what finished blocks sent and by what decodings used. */
  ghost predicate Follows(st: Stats, st': Stats, reports: seq<seq<Delivery>>, deficits: seq<nat>, timed: bool) {
    && st'.generations == st.generations + |reports|
    && st'.repaired == st.repaired + RepairedOnes(reports)
    && st'.noLoss == st.noLoss + |reports| - RepairedOnes(reports)
    && st'.decodeFailed == st.decodeFailed
    && st'.usefulBytes == st.usefulBytes + PayloadOfAll(reports)
    && (timed ==> st'.completed == st.completed + |reports|)
    && st'.decodes == st.decodes + |deficits| && st'.parityConsumed == st.parityConsumed + Sum(deficits)
  }

  /** Finished blocks of which something was sent as repaired. */
  function RepairedOnes(reports: seq<seq<Delivery>>): (n: nat)
    ensures n <= |reports|
  {
    if |reports| == 0 then 0
    else RepairedOnes(reports[..|reports| - 1]) + if AnyRepaired(reports[|reports| - 1]) then 1 else 0
  }

  function PayloadOfAll(reports: seq<seq<Delivery>>): nat {
    if |reports| == 0 then 0 else PayloadOfAll(reports[..|reports| - 1]) + Payload(reports[|reports| - 1])
  }

  lemma OneReport(outs: seq<Delivery>)
    ensures RepairedOnes([outs]) == (if AnyRepaired(outs) then 1 else 0) && PayloadOfAll([outs]) == Payload(outs)
  {
    assert [outs][..0] == [];
  }

  lemma FinalizeFollows(w0: World, w: World, p: seq<Delivery>, deficits: seq<nat>, timed: bool)
    requires Settled(w0, w, p, deficits, timed) && WellSized(w.block) && w.block.live && AllForwarded(w.block)
    requires timed ==> w.block.firstRx > 0
    ensures Follows(w0.stats, Finalize(w).stats, [p + w.log], deficits, timed)
  {
    OneReport(p + w.log);
    assert w.block.forwarded[0];
  }

  lemma NothingFollows(w0: World, w: World, p: seq<Delivery>, deficits: seq<nat>, timed: bool)
    requires Settled(w0, w, p, deficits, timed)
    ensures Follows(w0.stats, w.stats, [], deficits, timed)
  {
  }

  lemma BlankCarriesNothing(timed: bool)
    ensures Carries(BlankBlock(), [], timed) && forall id :: Carries(FreshBlock(id), [], timed)
  {
  }

  /** The sends made so far from the record that a symbol finds. */
  function Earlier(b: Block, id: nat, p: seq<Delivery>): seq<Delivery> {
    if b.inUse && b.id == id then p else []
  }

  lemma BeginCarries(b: Block, sym: Symbol, p: seq<Delivery>, e: Env, timed: bool)
    requires BlockInv(b) && EnvOk(e) && Usable(sym) && Carries(b, p, timed) && (timed ==> e.now > 0)
    ensures var b1 := Begin(b, sym, e); Carries(b1, p, timed) && (timed ==> b1.firstRx > 0)
  {
  }

  lemma OpenedCarries(b: Block, sym: Symbol, p: seq<Delivery>, e: Env, timed: bool)
    requires BlockInv(b) && EnvOk(e) && Usable(sym) && StaysInBuffer(b, sym) && Carries(b, p, timed) &&
      (timed ==> e.now > 0)
    ensures var b1 := Opened(b, sym, e); Carries(b1, Earlier(b, sym.blockId, p), timed) && (timed ==> b1.firstRx > 0)
  {
    BlankCarriesNothing(timed);
    BlankInv();
    BeginCarries(Lookup(b, sym.blockId), sym, Earlier(b, sym.blockId, p), e, timed);
  }

  lemma NoteCarries(b: Block, sym: Symbol, p: seq<Delivery>, timed: bool)
    requires WellSized(b) && Carries(b, p, timed) && (timed ==> b.firstRx > 0)
    requires b.live && Usable(sym) && sym.esi !in b.esis ==> Writable(b, sym)
    ensures b.live && Usable(sym) && sym.esi !in b.esis ==>
              Carries(Note(b, sym), p, timed) && (timed ==> Note(b, sym).firstRx > 0)
  {
  }

  lemma NotedCarries(b: Block, sym: Symbol, p: seq<Delivery>, e: Env, timed: bool)
    requires BlockInv(b) && EnvOk(e) && Usable(sym) && StaysInBuffer(b, sym) && Carries(b, p, timed) &&
      (timed ==> e.now > 0)
    ensures var b2 := Noted(b, sym, e); Carries(b2, Earlier(b, sym.blockId, p), timed) && (timed ==> b2.firstRx > 0)
  {
    OpenedCarries(b, sym, p, e, timed);
    NoteCarries(Opened(b, sym, e), sym, Earlier(b, sym.blockId, p), timed);
  }

  /** Decodings that a symbol causes: none if it is new and its block finished. */
  function SymbolDeficits(b: Block, st: Stats, sym: Symbol, known: bool, e: Env): seq<nat>
    requires WellSized(b) && Orderly(b) && EnvOk(e) && Usable(sym) && StaysInBuffer(b, sym)
  {
    if known && sym.esi !in Opened(b, sym, e).esis then []
    else WorkDeficits(World(Noted(b, sym, e), st, [], false), sym, e)
  }

  /** What has been sent from the record when the handler is done with it; a finished block's sends become its
      report. */
  function Rest(w: World, p: seq<Delivery>): seq<Delivery> {
    if w.finished then [] else p + w.log
  }

  function ReportsOf(w: World, p: seq<Delivery>): seq<seq<Delivery>> {
    if w.finished then [p + w.log] else []
  }

  lemma SettledFollows(w0: World, w: World, p: seq<Delivery>, deficits: seq<nat>, timed: bool)
    requires Settled(w0, w, p, deficits, timed) && WellSized(w.block) && w.block.live && !w.finished
    requires timed ==> w.block.firstRx > 0
    ensures var w' := if AllForwarded(w.block) then Finalize(w) else w;
      Carries(w'.block, Rest(w', p), timed) && Follows(w0.stats, w'.stats, ReportsOf(w', p), deficits, timed)
  {
    BlankCarriesNothing(timed);
    NothingFollows(w0, w, p, deficits, timed);
    if AllForwarded(w.block) {
      FinalizeFollows(w0, w, p, deficits, timed);
    }
  }

  lemma SymbolFollows(b: Block, st: Stats, sym: Symbol, known: bool, p: seq<Delivery>, e: Env, timed: bool)
    requires BlockInv(b) && EnvOk(e) && Usable(sym) && StaysInBuffer(b, sym) && Carries(b, p, timed) &&
      (timed ==> e.now > 0)
    ensures var w', p1 := Handled(b, st, sym, known, e), Earlier(b, sym.blockId, p);
      && Carries(w'.block, Rest(w', p1), timed)
      && Follows(st, w'.stats, ReportsOf(w', p1), SymbolDeficits(b, st, sym, known, e), timed)
  {
    var p1, w0 := Earlier(b, sym.blockId, p), World(Noted(b, sym, e), st, [], false);
    NotedCarries(b, sym, p, e, timed);
    Outcome(b, st, sym, known, e);
    if known && sym.esi !in Opened(b, sym, e).esis {
      assert p1 + [] == p1;
    } else {
      WorkSettles(w0, sym, p1, e, timed);
      SettledFollows(w0, Worked(b, st, sym, e), p1, WorkDeficits(w0, sym, e), timed);
    }
  }

  // ----- every stream

  /** The slot that a datagram works on, if it carries a usable symbol. */
  function SlotOf(buf: seq<Byte>): Option<nat> {
    var parsed := ParseSymbol(buf);
    if parsed.None? || !Usable(parsed.value) then None else Some(parsed.value.blockId % MAX_BLOCKS)
  }

  function HandledBy(rx: Receiver, buf: seq<Byte>, e: Env): World
    requires Accepts(rx, buf) && EnvOk(e) && SlotOf(buf).Some?
  {
    var sym := ParseSymbol(buf).value;
    Handled(rx.table[sym.blockId % MAX_BLOCKS], CountFragment(rx.stats, sym), sym, sym.blockId in rx.done, e)
  }

  /** The sends made from the record in slot k since it was opened. */
  function Outstanding(inputs: seq<Input>, e: Env, k: nat): seq<Delivery>
    requires EnvOk(e) && Accepted(inputs, e) && k < MAX_BLOCKS
    decreases |inputs|
  {
    if |inputs| == 0 then []
    else
      var before, x := inputs[..|inputs| - 1], inputs[|inputs| - 1];
      var p := Outstanding(before, e, k);
      if SlotOf(x.buf) != Some(k) then p
      else
        var rx := Receive(before, e);
        Rest(HandledBy(rx, x.buf, With(e, x)), Earlier(rx.table[k], ParseSymbol(x.buf).value.blockId, p))
  }

  function NewReports(before: seq<Input>, x: Input, e: Env): (reports: seq<seq<Delivery>>)
    requires EnvOk(e) && Accepted(before, e) && Accepts(Receive(before, e), x.buf)
    ensures |reports| <= 1
  {
    match SlotOf(x.buf)
    case None => []
    case Some(k) =>
      var rx := Receive(before, e);
      ReportsOf(HandledBy(rx, x.buf, With(e, x)),
                Earlier(rx.table[k], ParseSymbol(x.buf).value.blockId, Outstanding(before, e, k)))
  }

  function NewDeficits(rx: Receiver, buf: seq<Byte>, e: Env): (deficits: seq<nat>)
    requires Accepts(rx, buf) && EnvOk(e)
    ensures |deficits| <= 1
  {
    match SlotOf(buf)
    case None => []
    case Some(k) =>
      var sym := ParseSymbol(buf).value;
      SymbolDeficits(rx.table[k], CountFragment(rx.stats, sym), sym, sym.blockId in rx.done, e)
  }

  /** The finished blocks of a stream in order, each with what was sent of it. */
  function Reports(inputs: seq<Input>, e: Env): seq<seq<Delivery>>
    requires EnvOk(e) && Accepted(inputs, e)
    decreases |inputs|
  {
    if |inputs| == 0 then []
    else
      var before, x := inputs[..|inputs| - 1], inputs[|inputs| - 1];
      Reports(before, e) + NewReports(before, x, e)
  }

  /** The successful decodings of a stream in order, each with the number of source symbols that were missing. */
  function Deficits(inputs: seq<Input>, e: Env): seq<nat>
    requires EnvOk(e) && Accepted(inputs, e)
    decreases |inputs|
  {
    if |inputs| == 0 then []
    else
      var before, x := inputs[..|inputs| - 1], inputs[|inputs| - 1];
      Deficits(before, e) + NewDeficits(Receive(before, e), x.buf, With(e, x))
  }

  lemma LedgerAdds(a: seq<seq<Delivery>>, b: seq<seq<Delivery>>, m: seq<nat>, n: seq<nat>)
    requires |b| <= 1 && |n| <= 1
    ensures RepairedOnes(a + b) == RepairedOnes(a) + RepairedOnes(b)
    ensures PayloadOfAll(a + b) == PayloadOfAll(a) + PayloadOfAll(b) && Sum(m + n) == Sum(m) + Sum(n)
  {
    if |b| == 0 {
      assert a + b == a;
    } else {
      OneReport(b[0]);
      assert b == [b[0]] && (a + b)[..|a|] == a;
    }
    if |n| == 0 {
      assert m + n == m;
    } else {
      SumOfOne(n[0]);
      assert n == [n[0]] && (m + n)[..|m|] == m;
    }
  }

  lemma FollowsAdds(st: Stats, st1: Stats, st2: Stats, a: seq<seq<Delivery>>, b: seq<seq<Delivery>>, m: seq<nat>,
                    n: seq<nat>, timed: bool)
    requires Follows(NoStats(), st, a, m, timed) && Decoded(st, st1, []) && Follows(st1, st2, b, n, timed)
    requires |b| <= 1 && |n| <= 1
    ensures Follows(NoStats(), st2, a + b, m + n, timed)
  {
    LedgerAdds(a, b, m, n);
  }

  ghost predicate SlotsCarry(rx: Receiver, inputs: seq<Input>, e: Env, timed: bool)
    requires EnvOk(e) && Accepted(inputs, e)
  {
    |rx.table| == MAX_BLOCKS && forall k :: 0 <= k < MAX_BLOCKS ==>
      Carries(rx.table[k], Outstanding(inputs, e, k), timed)
  }

  lemma UnfoldLedger(before: seq<Input>, x: Input, e: Env)
    requires EnvOk(e) && Accepted(before, e) && Accepts(Receive(before, e), x.buf) && Accepted(before + [x], e)
    ensures Reports(before + [x], e) == Reports(before, e) + NewReports(before, x, e)
    ensures Deficits(before + [x], e) == Deficits(before, e) + NewDeficits(Receive(before, e), x.buf, With(e, x))
  {
    var inputs := before + [x];
    assert inputs[..|inputs| - 1] == before && inputs[|inputs| - 1] == x;
  }

  lemma UnfoldOutstanding(before: seq<Input>, x: Input, e: Env, k: nat)
    requires EnvOk(e) && Accepted(before, e) && Accepts(Receive(before, e), x.buf) && Accepted(before + [x], e)
    requires k < MAX_BLOCKS
    ensures var rx, p := Receive(before, e), Outstanding(before, e, k);
      Outstanding(before + [x], e, k) ==
      if SlotOf(x.buf) != Some(k) then p
      else Rest(HandledBy(rx, x.buf, With(e, x)), Earlier(rx.table[k], ParseSymbol(x.buf).value.blockId, p))
  {
    var inputs := before + [x];
    assert inputs[..|inputs| - 1] == before && inputs[|inputs| - 1] == x;
  }

  /** A datagram that is no usable symbol changes at most the counters of fragments. */
  lemma UselessChangesNothing(rx: Receiver, buf: seq<Byte>, e: Env)
    requires Accepts(rx, buf) && EnvOk(e) && SlotOf(buf).None?
    ensures var rx' := OnDatagram(rx, buf, e);
      rx'.table == rx.table && rx'.log == rx.log && rx'.stats.sent == rx.stats.sent && Decoded(rx.stats, rx'.stats, [])
  {
  }

  lemma UsefulIsHandled(rx: Receiver, buf: seq<Byte>, e: Env)
    requires Accepts(rx, buf) && EnvOk(e) && SlotOf(buf).Some?
    ensures var rx', w := OnDatagram(rx, buf, e), HandledBy(rx, buf, e);
      rx'.table == rx.table[SlotOf(buf).value := w.block] && rx'.log == rx.log + w.log && rx'.stats == w.stats
  {
  }

  lemma DatagramIsCounted(rx: Receiver, buf: seq<Byte>, e: Env)
    requires Accepts(rx, buf) && EnvOk(e) && SendsAreCounted(rx.stats.sent, rx.log)
    ensures var rx' := OnDatagram(rx, buf, e); SendsAreCounted(rx'.stats.sent, rx'.log)
  {
    if SlotOf(buf).None? {
      UselessChangesNothing(rx, buf, e);
    } else {
      UsefulIsHandled(rx, buf, e);
      var sym, w := ParseSymbol(buf).value, HandledBy(rx, buf, e);
      forall c
        ensures Booked(w.stats.sent, c) == Tally(rx.log + w.log, c)
      {
        SymbolBalances(rx.table[SlotOf(buf).value], CountFragment(rx.stats, sym), sym, sym.blockId in rx.done, e, c);
        TallyJoin(rx.log, w.log, c);
      }
    }
  }

  /** The slot of the datagram, and the counters of blocks and decodings. */
  lemma OwnSlotFollows(rx: Receiver, buf: seq<Byte>, e: Env, p: seq<Delivery>, timed: bool)
    requires AtRest(rx) && Accepts(rx, buf) && EnvOk(e) && SlotOf(buf).Some? && (timed ==> e.now > 0)
    requires Carries(rx.table[SlotOf(buf).value], p, timed)
    ensures var w, p1 := HandledBy(rx, buf, e), Earlier(rx.table[SlotOf(buf).value], ParseSymbol(buf).value.blockId, p);
      && Carries(w.block, Rest(w, p1), timed)
      && Follows(CountFragment(rx.stats, ParseSymbol(buf).value), w.stats, ReportsOf(w, p1), NewDeficits(rx, buf, e),
                 timed)
  {
    var sym := ParseSymbol(buf).value;
    SymbolFollows(rx.table[SlotOf(buf).value], CountFragment(rx.stats, sym), sym, sym.blockId in rx.done, p, e, timed);
  }

  lemma SlotsStillCarry(before: seq<Input>, x: Input, e: Env, timed: bool)
    requires EnvOk(e) && Accepted(before, e) && Accepts(Receive(before, e), x.buf) && Accepted(before + [x], e)
    requires SlotsCarry(Receive(before, e), before, e, timed) && (timed ==> x.now > 0)
    ensures SlotsCarry(OnDatagram(Receive(before, e), x.buf, With(e, x)), before + [x], e, timed)
  {
    var rx, e' := Receive(before, e), With(e, x);
    var rx' := OnDatagram(rx, x.buf, e');
    forall k | 0 <= k < MAX_BLOCKS
      ensures Carries(rx'.table[k], Outstanding(before + [x], e, k), timed)
    {
      UnfoldOutstanding(before, x, e, k);
      if SlotOf(x.buf).None? {
        UselessChangesNothing(rx, x.buf, e');
      } else {
        UsefulIsHandled(rx, x.buf, e');
        if SlotOf(x.buf) == Some(k) {
          OwnSlotFollows(rx, x.buf, e', Outstanding(before, e, k), timed);
        }
      }
    }
  }

  lemma CountersStillFollow(before: seq<Input>, x: Input, e: Env, a: seq<seq<Delivery>>, m: seq<nat>, timed: bool)
    requires EnvOk(e) && Accepted(before, e) && Accepts(Receive(before, e), x.buf) && (timed ==> x.now > 0)
    requires SlotsCarry(Receive(before, e), before, e, timed) &&
      Follows(NoStats(), Receive(before, e).stats, a, m, timed)
    ensures Follows(NoStats(), OnDatagram(Receive(before, e), x.buf, With(e, x)).stats, a + NewReports(before, x, e),
                    m + NewDeficits(Receive(before, e), x.buf, With(e, x)), timed)
  {
    var rx, e' := Receive(before, e), With(e, x);
    if SlotOf(x.buf).None? {
      UselessChangesNothing(rx, x.buf, e');
      assert a + [] == a && m + [] == m;
    } else {
      UsefulIsHandled(rx, x.buf, e');
      OwnSlotFollows(rx, x.buf, e', Outstanding(before, e, SlotOf(x.buf).value), timed);
      FollowsAdds(rx.stats, CountFragment(rx.stats, ParseSymbol(x.buf).value), HandledBy(rx, x.buf, e').stats,
                  a, NewReports(before, x, e), m, NewDeficits(rx, x.buf, e'), timed);
    }
  }

  ghost predicate ClockIsPositive(inputs: seq<Input>) {
    forall k :: 0 <= k < |inputs| ==> inputs[k].now > 0
  }

  /** Everything about the receiver after a stream. */
  ghost predicate InOrder(inputs: seq<Input>, e: Env, timed: bool)
    requires EnvOk(e) && Accepted(inputs, e)
  {
    var rx := Receive(inputs, e);
    && SlotsCarry(rx, inputs, e, timed) && SendsAreCounted(rx.stats.sent, rx.log)
    && Follows(NoStats(), rx.stats, Reports(inputs, e), Deficits(inputs, e), timed)
  }

  lemma StartIsInOrder(e: Env, timed: bool)
    requires EnvOk(e)
    ensures Accepted([], e) && InOrder([], e, timed)
  {
    BlankCarriesNothing(timed);
    assert Receive([], e) == EmptyReceiver();
  }

  lemma {:induction false} StreamFollows(inputs: seq<Input>, e: Env, timed: bool)
    requires EnvOk(e) && Accepted(inputs, e) && (timed ==> ClockIsPositive(inputs))
    ensures InOrder(inputs, e, timed)
    decreases |inputs|
  {
    if |inputs| == 0 {
      assert inputs == [];
      StartIsInOrder(e, timed);
    } else {
      var before, x := inputs[..|inputs| - 1], inputs[|inputs| - 1];
      assert inputs == before + [x];
      StreamFollows(before, e, timed);
      UnfoldReceive(before, x, e);
      UnfoldLedger(before, x, e);
      SlotsStillCarry(before, x, e, timed);
      DatagramIsCounted(Receive(before, e), x.buf, With(e, x));
      CountersStillFollow(before, x, e, Reports(before, e), Deficits(before, e), timed);
    }
  }

  /** Statistics are conserved on every stream that the receiver accepts, whether its symbols are genuine or not:
      every finished block is counted once, as lossless exactly if nothing of it was sent as repaired; the failure
      counter never moves; useful bytes are the payload of the finished blocks' successful sends; the redundancy
      counted as used is what each successful decoding was short of; and originals and repaired sends make up
      everything forwarded. */
  lemma StatisticsAreConserved(inputs: seq<Input>, e: Env)
    requires EnvOk(e) && Accepted(inputs, e)
    ensures var rx, reports, deficits := Receive(inputs, e), Reports(inputs, e), Deficits(inputs, e);
      && rx.stats.generations == |reports| == rx.stats.noLoss + rx.stats.repaired + rx.stats.decodeFailed
      && rx.stats.repaired == RepairedOnes(reports) && rx.stats.decodeFailed == 0
      && rx.stats.usefulBytes == PayloadOfAll(reports)
      && rx.stats.decodes == |deficits| && rx.stats.parityConsumed == Sum(deficits)
      && (ClockIsPositive(inputs) ==> rx.stats.completed == |reports|)
      && SendsAreCounted(rx.stats.sent, rx.log)
      && rx.stats.sent.forwarded == rx.stats.sent.original + RepairedSends(rx.log)
  {
    StreamFollows(inputs, e, ClockIsPositive(inputs));
    var rx := Receive(inputs, e);
    SendsSplit(rx.log);
    assert Booked(rx.stats.sent, Sends) == Tally(rx.log, Sends);
    assert Booked(rx.stats.sent, Originals) == Tally(rx.log, Originals);
  }
}
