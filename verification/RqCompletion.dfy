/** When a RaptorQ block is complete. */
module RqCompletion {
  import opened Bags
  import opened Base
  import opened Deliveries
  import opened Wire
  import opened RqBlock
  import opened RqBlockLaws
  import opened RqEntry
  import opened RqTable
  import opened RqSafety
  import opened RqAttempts
  import RqCodec

  // With a socket that takes everything, whether a block is finished depends only on which symbols of it have arrived.

  // ----- what is enough

  /** The rows that the codec makes for a list of ids. */
  function RowsFor(c: RqCodec.Codec, src: seq<Packet>, esis: seq<nat>): (rows: seq<Packet>)
    ensures RqCodec.RowsOf(c, src, rows, esis)
  {
    seq(|esis|, n requires 0 <= n < |esis| => c.symbol(src, esis[n]))
  }

  ghost predicate Decoding(c: RqCodec.Codec, src: seq<Packet>, esis: seq<nat>) {
    c.decode(|src|, RowsFor(c, src, esis), esis).Some?
  }

  ghost predicate AllIn(esis: seq<nat>, seen: set<nat>) {
    forall x :: x in esis ==> x in seen
  }

  /** Some of these symbols, in some order, are enough for the decoder. */
  ghost predicate Decodable(c: RqCodec.Codec, src: seq<Packet>, seen: set<nat>) {
    exists esis :: AllIn(esis, seen) && Decoding(c, src, esis)
  }

  ghost predicate AllSources(src: seq<Packet>, seen: set<nat>) {
    forall i: nat :: i < |src| ==> i in seen
  }

  /** All source symbols, or at least k different symbols that the decoder can do with. */
  ghost predicate Suffices(c: RqCodec.Codec, src: seq<Packet>, seen: set<nat>) {
    AllSources(src, seen) || (|src| <= |seen| && Decodable(c, src, seen))
  }

  lemma {:induction false} SubsetIsSmaller(a: set<nat>, b: set<nat>)
    requires a <= b
    ensures |a| <= |b|
  {
    if a == {} {
    } else {
      var x :| x in a;
      SubsetIsSmaller(a - {x}, b - {x});
    }
  }

  lemma MoreSuffices(c: RqCodec.Codec, src: seq<Packet>, seen: set<nat>, more: set<nat>)
    requires seen <= more && Suffices(c, src, seen)
    ensures Suffices(c, src, more)
  {
    SubsetIsSmaller(seen, more);
    if !AllSources(src, seen) {
      var esis :| AllIn(esis, seen) && Decoding(c, src, esis);
      assert AllIn(esis, more);
    }
  }

  lemma ListedOnce(esis: seq<nat>, seen: set<nat>)
    requires NoRepeats(esis) && forall x :: x in esis <==> x in seen
    ensures |esis| == |seen|
    decreases |esis|
  {
    if |esis| == 0 {
      assert seen == {};
    } else {
      var n := |esis| - 1;
      assert esis == esis[..n] + [esis[n]];
      assert esis[n] !in esis[..n];
      ListedOnce(esis[..n], seen - {esis[n]});
    }
  }

  /** The decoder's success on what is stored depends only on which symbols these are. */
  lemma StoredDecodesIff(c: RqCodec.Codec, src: seq<Packet>, rows: seq<Packet>, esis: seq<nat>, seen: set<nat>)
    requires RqCodec.ValidSource(src) && RqCodec.Monotone(c) && RqCodec.RowsOf(c, src, rows, esis)
    requires forall x :: x in esis <==> x in seen
    ensures c.decode(|src|, rows, esis).Some? <==> Decodable(c, src, seen)
  {
    assert rows == RowsFor(c, src, esis);
    if c.decode(|src|, rows, esis).Some? {
      assert AllIn(esis, seen) && Decoding(c, src, esis);
    }
    if Decodable(c, src, seen) {
      var some :| AllIn(some, seen) && Decoding(c, src, some);
      assert forall x :: x in some ==> x in esis;
    }
  }

  // ----- one symbol on the record of an unfinished block

  ghost predicate TakesAll(e: Env) {
    forall i, original :: e.accepts(i, original)
  }

  /** The record holds exactly these symbols, their source rows have been forwarded, and no decoding has succeeded. */
  ghost predicate Holds(b: Block, src: seq<Packet>, seen: set<nat>) {
    && !b.decoded && (forall x :: x in b.esis <==> x in seen)
    && |b.forwarded| == K && forall i :: 0 <= i < K ==> (b.forwarded[i] <==> i < |src| && i in seen)
  }

  /** The record of a block of which not enough has arrived. */
  ghost predicate Waiting(b: Block, src: seq<Packet>, seen: set<nat>, c: RqCodec.Codec) {
    Holds(b, src, seen) && !Suffices(c, src, seen)
  }

  lemma BlankWaits(src: seq<Packet>, c: RqCodec.Codec)
    requires |src| > 0
    ensures Waiting(BlankBlock(), src, {}, c)
  {
    var none: set<nat> := {};
    assert 0 < |src| && 0 !in none;
    assert !AllSources(src, none);
  }

  /** Noting a symbol changes which ids are stored. */
  lemma NotedStores(b: Block, sym: Symbol, id: nat, src: seq<Packet>, seen: set<nat>, e: Env)
    requires Fit(src, e) && EntryOk(b, id, src, e.codec) && SymbolOf(sym, id, src, e.codec)
    requires Holds(b, src, seen) && |seen + {sym.esi}| <= MAX_SYMBOLS
    ensures Usable(sym) && StaysInBuffer(b, sym)
    ensures var b2 := Noted(b, sym, e);
      !b2.decoded && b2.forwarded == b.forwarded && forall x :: x in b2.esis <==> x in seen + {sym.esi}
  {
    OpenedIsOk(b, sym, id, src, e);
    NotedIsOk(b, sym, id, src, e);
    ListedOnce(b.esis, seen);
    if sym.esi in b.esis {
      assert seen + {sym.esi} == seen;
    } else {
      assert Noted(b, sym, e).esis == b.esis + [sym.esi];
    }
  }

  /** Then its row goes out if it is a source symbol. */
  lemma SourceHolds(w: World, sym: Symbol, id: nat, src: seq<Packet>, seen: set<nat>, e: Env)
    requires Fit(src, e) && OpenOk(w.block, id, src, e.codec) && SymbolOf(sym, id, src, e.codec) && TakesAll(e)
    requires !w.block.decoded && sym.esi in seen && forall x :: x in w.block.esis <==> x in seen
    requires forall i :: 0 <= i < K && i != sym.esi ==> (w.block.forwarded[i] <==> i < |src| && i in seen)
    ensures sym.symbolLen <= |sym.payload|
    ensures var b := ForwardSource(w, sym, e).block; OpenOk(b, id, src, e.codec) && Holds(b, src, seen)
  {
    SourceFlags(w, sym, e);
    SourceOnlyForwards(w, sym, e);
    if sym.isSource && sym.esi < w.block.k && !w.block.forwarded[sym.esi] {
      RowKeepsInv(w, sym.esi, sym.payload[..sym.symbolLen], true, e);
    }
  }

  /** The decoder succeeds exactly if a row is missing and enough has arrived. */
  lemma DecodesIff(b: Block, id: nat, src: seq<Packet>, seen: set<nat>, e: Env)
    requires Fit(src, e) && OpenOk(b, id, src, e.codec) && Holds(b, src, seen)
    ensures Decodes(b, e.codec) <==> !AllSources(src, seen) && Suffices(e.codec, src, seen)
  {
    CountBelow(b.forwarded, b.k);
    ListedOnce(b.esis, seen);
    StoredDecodesIff(e.codec, src, b.rows, b.esis, seen);
    if AllSources(src, seen) {
      assert forall i :: 0 <= i < b.k ==> b.forwarded[i];
    } else {
      var i: nat :| i < |src| && i !in seen;
      assert !b.forwarded[i];
    }
  }

  /** After the decoder every row has been forwarded if enough has arrived; otherwise nothing has changed. */
  lemma DecodeHolds(w: World, id: nat, src: seq<Packet>, seen: set<nat>, e: Env)
    requires Fit(src, e) && |src[0]| >= MIN_IP && OpenOk(w.block, id, src, e.codec) && TakesAll(e)
    requires Holds(w.block, src, seen)
    ensures var b := TryDecode(w, e).block;
      && (AllForwarded(b) <==> Suffices(e.codec, src, seen))
      && (!Suffices(e.codec, src, seen) ==> Holds(b, src, seen))
  {
    DecodesIff(w.block, id, src, seen, e);
    DecodeCases(w, e);
    DecodeFlags(w, id, src, e);
    DecodeKeepsSize(w, e);
    var b := TryDecode(w, e).block;
    if !Suffices(e.codec, src, seen) {
      var i: nat :| i < |src| && i !in seen;
      assert !b.forwarded[i];
    }
  }

  lemma DecodeKeepsSize(w: World, e: Env)
    requires BlockInv(w.block) && w.block.live && EnvOk(e)
    ensures TryDecode(w, e).block.k == w.block.k
  {
    DecodeKeepsInv(w, e);
  }

  /** One symbol of an unfinished block: it finishes the block if and only if enough has then arrived. */
  lemma SymbolCompletesIff(b: Block, st: Stats, sym: Symbol, id: nat, src: seq<Packet>, seen: set<nat>, e: Env)
    requires Fit(src, e) && EntryOk(b, id, src, e.codec) && SymbolOf(sym, id, src, e.codec) && TakesAll(e)
    requires Waiting(b, src, seen, e.codec) && |seen + {sym.esi}| <= MAX_SYMBOLS
    ensures Usable(sym) && StaysInBuffer(b, sym)
    ensures var w, now := Handled(b, st, sym, false, e), seen + {sym.esi};
      && (w.finished <==> Suffices(e.codec, src, now))
      && (!w.finished ==> Waiting(w.block, src, now, e.codec))
  {
    NotedIsOk(b, sym, id, src, e);
    NotedStores(b, sym, id, src, seen, e);
    Outcome(b, st, sym, false, e);
    var w, now := World(Noted(b, sym, e), st, [], false), seen + {sym.esi};
    SourceHolds(w, sym, id, src, now, e);
    DecodeHolds(ForwardSource(w, sym, e), id, src, now, e);
  }

  // ----- whole runs

  /** The socket takes whatever is sent for any datagram. */
  ghost predicate SocketTakesAll(trace: seq<Datagram>) {
    forall k :: 0 <= k < |trace| ==> forall i, original :: trace[k].accepts(i, original)
  }

  /** A block is finished exactly if enough of it has arrived; until then its record holds what has. */
  ghost predicate FinishedRightly(id: Ideal, s: nat, src: seq<Packet>, seen: set<nat>, c: RqCodec.Codec) {
    && (s in id.done <==> Suffices(c, src, seen))
    && (s !in id.done ==> Waiting(Entry(id.slots, s), src, seen, c))
  }

  lemma StepFinishes(id: Ideal, d: Datagram, src: nat -> seq<Packet>, seen: set<nat>, e: Env)
    requires Setting(src, e) && GenuineDatagram(d, src, e.codec) && IdealOk(id, src, e.codec) && Takes(id, d)
    requires TakesAll(At(e, d)) && |seen + {d.sym.esi}| <= MAX_SYMBOLS
    requires FinishedRightly(id, d.serial, src(d.serial), seen, e.codec)
    ensures FinishedRightly(OnIdeal(id, d, e), d.serial, src(d.serial), seen + {d.sym.esi}, e.codec)
  {
    var s := d.serial;
    IdealByResult(id, d, e, s);
    if s in id.done {
      MoreSuffices(e.codec, src(s), seen, seen + {d.sym.esi});
    } else {
      GenuineIsFit(d, src, e);
      EntryIsOk(id, s, src, e.codec);
      SymbolCompletesIff(Entry(id.slots, s), CountFragment(id.stats, d.sym), d.sym, WireId(s), src(s), seen, At(e, d));
    }
  }

  /** Liveness of the RaptorQ receiver: with a socket that takes everything, and at most 40 different symbols of the
      block, the block is finished if and only if all its source symbols have arrived, or at least k different symbols
      that the decoder can do with, in whatever order and however often. */
  lemma {:induction false} BlockIsFinishedIff(trace: seq<Datagram>, s: nat, src: nat -> seq<Packet>, e: Env)
    requires Setting(src, e) && Genuine(trace, src, e.codec) && RqCodec.ValidSource(src(s))
    requires SocketTakesAll(trace) && |EsisOf(trace, s)| <= MAX_SYMBOLS
    ensures FinishedRightly(ReceiveIdeal(trace, src, e), s, src(s), EsisOf(trace, s), e.codec)
    decreases |trace|
  {
    if |trace| == 0 {
      assert EsisOf(trace, s) == {};
      BlankWaits(src(s), e.codec);
    } else {
      var before, d := trace[..|trace| - 1], trace[|trace| - 1];
      GenuineLast(trace, src, e.codec);
      assert trace == before + [d];
      EsisGrow(before, d, s);
      SubsetIsSmaller(EsisOf(before, s), EsisOf(trace, s));
      BlockIsFinishedIff(before, s, src, e);
      UnfoldIdeal(before, d, src, e);
      if d.serial == s {
        StepFinishes(ReceiveIdeal(before, src, e), d, src, EsisOf(before, s), e);
      } else {
        IdealByResult(ReceiveIdeal(before, src, e), d, e, s);
        assert EsisOf(trace, s) == EsisOf(before, s);
      }
    }
  }

  /** Neither order nor repetition matters. */
  lemma FinishingIsOrderFree(trace: seq<Datagram>, trace': seq<Datagram>, s: nat, src: nat -> seq<Packet>, e: Env)
    requires Setting(src, e) && Genuine(trace, src, e.codec) && Genuine(trace', src, e.codec)
    requires RqCodec.ValidSource(src(s)) && SocketTakesAll(trace) && SocketTakesAll(trace')
    requires EsisOf(trace, s) == EsisOf(trace', s) && |EsisOf(trace, s)| <= MAX_SYMBOLS
    ensures s in ReceiveIdeal(trace, src, e).done <==> s in ReceiveIdeal(trace', src, e).done
  {
    BlockIsFinishedIff(trace, s, src, e);
    BlockIsFinishedIff(trace', s, src, e);
  }

  // ----- what the socket takes

  lemma RowIsTaken(w: World, i: nat, pkt: Packet, original: bool, e: Env)
    requires WellSized(w.block) && i < K && TakesAll(e) && NothingRefused(w.log)
    ensures NothingRefused(ForwardRow(w, i, pkt, original, e).log)
  {
  }

  lemma {:induction false} DecodedAreTaken(w: World, rows: seq<Packet>, n: nat, e: Env)
    requires WellSized(w.block) && n <= |rows| && n <= K && TakesAll(e) && NothingRefused(w.log)
    ensures NothingRefused(ForwardDecoded(w, rows, n, e).log)
  {
    if n == 0 {
    } else {
      DecodedAreTaken(w, rows, n - 1, e);
      RowIsTaken(ForwardDecoded(w, rows, n - 1, e), n - 1, rows[n - 1], false, e);
    }
  }

  lemma DecodeIsTaken(w: World, e: Env)
    requires WellSized(w.block) && EnvOk(e) && TakesAll(e) && NothingRefused(w.log)
    ensures NothingRefused(TryDecode(w, e).log)
  {
    DecodeCases(w, e);
    var decoded := e.codec.decode(w.block.k, w.block.rows, w.block.esis);
    if WillAttempt(w.block) && decoded.Some? {
      var w1 := w.(block := w.block.(attempted := true), stats := w.stats.(attempts := w.stats.attempts + 1));
      DecodedAreTaken(w1.(block := w1.block.(parityCounted := true), stats := CountDecode(w1.stats, w1.block)),
                      decoded.value, w.block.k, e);
    }
  }

  lemma HandledIsTaken(b: Block, st: Stats, sym: Symbol, known: bool, e: Env)
    requires WellSized(b) && Orderly(b) && EnvOk(e) && Usable(sym) && StaysInBuffer(b, sym) && TakesAll(e)
    ensures NothingRefused(Handled(b, st, sym, known, e).log)
  {
    Outcome(b, st, sym, known, e);
    var w := World(Noted(b, sym, e), st, [], false);
    if sym.isSource && sym.esi < w.block.k && !w.block.forwarded[sym.esi] {
      RowIsTaken(w, sym.esi, sym.payload[..sym.symbolLen], true, e);
    }
    DecodeIsTaken(ForwardSource(w, sym, e), e);
  }

  lemma StepIsTaken(id: Ideal, d: Datagram, src: nat -> seq<Packet>, e: Env)
    requires Setting(src, e) && GenuineDatagram(d, src, e.codec) && IdealOk(id, src, e.codec) && Takes(id, d)
    requires NothingRefused(Untag(id.log)) && forall i, original :: d.accepts(i, original)
    ensures NothingRefused(Untag(OnIdeal(id, d, e).log))
  {
    EntryIsOk(id, d.serial, src, e.codec);
    HandledIsTaken(Entry(id.slots, d.serial), CountFragment(id.stats, d.sym), d.sym, d.serial in id.done, At(e, d));
    UntagAppends(id.log, d.serial, Result(id, d, e).log);
  }

  lemma {:induction false} RunIsTaken(trace: seq<Datagram>, src: nat -> seq<Packet>, e: Env)
    requires Setting(src, e) && Genuine(trace, src, e.codec) && SocketTakesAll(trace)
    ensures NothingRefused(Untag(ReceiveIdeal(trace, src, e).log))
    decreases |trace|
  {
    if |trace| == 0 {
    } else {
      var before, d := trace[..|trace| - 1], trace[|trace| - 1];
      GenuineLast(trace, src, e.codec);
      assert trace == before + [d];
      RunIsTaken(before, src, e);
      UnfoldIdeal(before, d, src, e);
      StepIsTaken(ReceiveIdeal(before, src, e), d, src, e);
    }
  }
}
