/** Records of the RaptorQ receiver: how they start, what they count, and the list of finished blocks. */
module RqRecords {
  import opened Base
  import opened Deliveries
  import opened Wire
  import opened RqBlock
  import opened RqBlockLaws
  import opened RqEntry
  import opened RqTable
  import opened RqSafety
  import opened RqCounts
  import RqCodec

  // ----- a new record

  /** A record of another block is forgotten: whatever it holds, the handler does what it does with a blank one. */
  lemma OtherBlockIsForgotten(b: Block, st: Stats, sym: Symbol, known: bool, e: Env)
    requires WellSized(b) && Orderly(b) && EnvOk(e) && Usable(sym) && !(b.inUse && b.id == sym.blockId)
    ensures StaysInBuffer(b, sym) && StaysInBuffer(BlankBlock(), sym)
    ensures Handled(b, st, sym, known, e) == Handled(BlankBlock(), st, sym, known, e)
  {
    assert Lookup(b, sym.blockId) == Lookup(BlankBlock(), sym.blockId);
  }

  /** The first symbol of a block decides its size and symbol length, the size within the configured bounds; the record
      is stamped, and holds that symbol only. */
  lemma NewRecordHolds(b: Block, sym: Symbol, e: Env)
    requires WellSized(b) && Orderly(b) && EnvOk(e) && Usable(sym) && !(b.inUse && b.id == sym.blockId)
    ensures StaysInBuffer(b, sym)
    ensures var b' := Noted(b, sym, e);
      && b'.id == sym.blockId && b'.len == sym.symbolLen
      && (if 1 <= sym.k <= e.blockSize then b'.k == sym.k else b'.k == e.blockSize)
      && b'.esis == [sym.esi] && b'.rows == [sym.payload[..sym.symbolLen]] && b'.forwarded == Repeat(false, K)
      && b'.firstRx == e.now && (b'.sources, b'.repairs) == if sym.isSource then (1, 0) else (0, 1)
  {
    var b1 := Opened(b, sym, e);
    NoteStoresSymbol(b1, sym);
    assert b1.rows + [sym.payload[..sym.symbolLen]] == [sym.payload[..sym.symbolLen]];
  }

  // ----- what the two counters of a record count

  function IdsBelow(esis: seq<nat>, k: nat): nat {
    if |esis| == 0 then 0 else IdsBelow(esis[..|esis| - 1], k) + if esis[|esis| - 1] < k then 1 else 0
  }

  /** As long as all counted symbols are stored, the counters tell source symbols from repair symbols by their ids. */
  ghost predicate CountsIds(b: Block, k: nat) {
    b.sources + b.repairs == |b.esis| ==> b.sources == IdsBelow(b.esis, k)
  }

  lemma NotedCountsIds(b: Block, sym: Symbol, id: nat, src: seq<Packet>, e: Env)
    requires Fit(src, e) && EntryOk(b, id, src, e.codec) && SymbolOf(sym, id, src, e.codec) && CountsIds(b, |src|)
    ensures Usable(sym) && StaysInBuffer(b, sym) && CountsIds(Noted(b, sym, e), |src|)
  {
    OpenedIsOk(b, sym, id, src, e);
    OpenedCountsIds(b, sym, id, src, e);
    var b1 := Opened(b, sym, e);
    if sym.esi !in b1.esis {
      NoteIsOk(b1, sym, id, src, e);
      NoteCountsIds(b1, sym, |src|);
    }
  }

  lemma OpenedCountsIds(b: Block, sym: Symbol, id: nat, src: seq<Packet>, e: Env)
    requires Fit(src, e) && EntryOk(b, id, src, e.codec) && SymbolOf(sym, id, src, e.codec) && CountsIds(b, |src|)
    ensures Usable(sym) && CountsIds(Opened(b, sym, e), |src|)
  {
    SymbolIsUsable(b, sym, id, src, e);
  }

  lemma NoteCountsIds(b: Block, sym: Symbol, k: nat)
    requires BlockInv(b) && b.live && Usable(sym) && Writable(b, sym) && sym.esi !in b.esis
    requires CountsIds(b, k) && (sym.isSource <==> sym.esi < k)
    ensures CountsIds(Note(b, sym), k)
  {
    NoteAddsId(b, sym, Note(b, sym));
    IdsGrow(b.esis, sym.esi, k);
  }

  lemma StoredAddsRow(b: Block, sym: Symbol, b': Block)
    requires WellSized(b) && b.live && |b.esis| < MAX_SYMBOLS
    requires sym.symbolLen <= |sym.payload| && sym.symbolLen <= |b.room| && b' == Stored(b, sym)
    ensures b' == b.(rows := b'.rows, room := b'.room, esis := b.esis + [sym.esi])
  {
  }

  /** Noting touches the rows, the ids and the two counters. */
  lemma NoteAddsId(b: Block, sym: Symbol, b': Block)
    requires WellSized(b) && b.live && sym.symbolLen <= |sym.payload| && Writable(b, sym) && sym.esi !in b.esis
    requires b' == Note(b, sym)
    ensures b' == b.(rows := b'.rows, room := b'.room,
                     esis := if |b.esis| < MAX_SYMBOLS then b.esis + [sym.esi] else b.esis,
                     sources := b.sources + if sym.isSource then 1 else 0,
                     repairs := b.repairs + if sym.isSource then 0 else 1)
  {
    if |b.esis| < MAX_SYMBOLS {
      StoredAddsRow(CountedAs(b, sym.isSource), sym, b');
    }
  }

  lemma IdsGrow(esis: seq<nat>, esi: nat, k: nat)
    ensures IdsBelow(esis + [esi], k) == IdsBelow(esis, k) + if esi < k then 1 else 0
  {
    assert (esis + [esi])[..|esis|] == esis;
  }

  lemma {:induction false} DecodedKeepsRecord(w: World, rows: seq<Packet>, n: nat, e: Env)
    requires WellSized(w.block) && n <= |rows| && n <= K
    ensures OnlyForwarded(w.block, ForwardDecoded(w, rows, n, e).block)
  {
    if n == 0 {
    } else {
      DecodedKeepsRecord(w, rows, n - 1, e);
      OfferOnlyForwards(w.block, ForwardDecoded(w, rows, n - 1, e), n - 1, rows[n - 1], e);
    }
  }

  lemma OfferOnlyForwards(b: Block, w: World, i: nat, row: Packet, e: Env)
    requires WellSized(w.block) && i < K && OnlyForwarded(b, w.block)
    ensures OnlyForwarded(b, Offer(w, i, row, e).block)
  {
    if !w.block.forwarded[i] {
      RowOnlyForwards(w, i, row, false, e);
    }
  }

  ghost predicate SameIds(b: Block, b': Block) {
    b'.esis == b.esis && b'.sources == b.sources && b'.repairs == b.repairs
  }

  lemma DecodeKeepsIds(w: World, e: Env)
    requires WellSized(w.block) && EnvOk(e)
    ensures SameIds(w.block, TryDecode(w, e).block)
  {
    if WillAttempt(w.block) {
      var b := w.block.(attempted := true);
      assert AllOfLength(b.rows, b.len);
      var rows := e.codec.decode(b.k, b.rows, b.esis);
      if rows.Some? {
        var st := w.stats.(attempts := w.stats.attempts + 1);
        DecodedKeepsRecord(w.(block := b.(parityCounted := true), stats := CountDecode(st, b)), rows.value, b.k, e);
      }
    }
  }

  lemma HandledCountsIds(b: Block, st: Stats, sym: Symbol, known: bool, id: nat, src: seq<Packet>, e: Env)
    requires Fit(src, e) && EntryOk(b, id, src, e.codec) && SymbolOf(sym, id, src, e.codec) && CountsIds(b, |src|)
    ensures Usable(sym) && StaysInBuffer(b, sym) && CountsIds(Handled(b, st, sym, known, e).block, |src|)
  {
    NotedCountsIds(b, sym, id, src, e);
    Outcome(b, st, sym, known, e);
    var w := World(Noted(b, sym, e), st, [], false);
    SourceOnlyForwards(w, sym, e);
    DecodeKeepsIds(ForwardSource(w, sym, e), e);
  }

  /** On every genuine trace the record of a block counts as sources exactly the stored ids below its size, and as
      repairs the others: what a successful decoding was short of is what the counters say. */
  lemma {:induction false} RecordsCountIds(trace: seq<Datagram>, s: nat, src: nat -> seq<Packet>, e: Env)
    requires Setting(src, e) && Genuine(trace, src, e.codec)
    ensures CountsIds(Entry(ReceiveIdeal(trace, src, e).slots, s), |src(s)|)
    decreases |trace|
  {
    if |trace| == 0 {
    } else {
      var before, d := trace[..|trace| - 1], trace[|trace| - 1];
      GenuineLast(trace, src, e.codec);
      RecordsCountIds(before, s, src, e);
      UnfoldIdeal(before, d, src, e);
      StepCountsIds(ReceiveIdeal(before, src, e), d, s, src, e);
    }
  }

  lemma StepCountsIds(id: Ideal, d: Datagram, s: nat, src: nat -> seq<Packet>, e: Env)
    requires Setting(src, e) && GenuineDatagram(d, src, e.codec) && IdealOk(id, src, e.codec) && Takes(id, d)
    requires CountsIds(Entry(id.slots, s), |src(s)|)
    ensures CountsIds(Entry(OnIdeal(id, d, e).slots, s), |src(s)|)
  {
    IdealByResult(id, d, e, s);
    if s == d.serial {
      EntryIsOk(id, s, src, e.codec);
      GenuineIsFit(d, src, e);
      HandledCountsIds(Entry(id.slots, s), CountFragment(id.stats, d.sym), d.sym, s in id.done, WireId(s), src(s),
                       At(e, d));
    }
  }

  // ----- a decoding that succeeds is the last one

  lemma {:induction false} DecodedKeepsSuccess(w: World, rows: seq<Packet>, n: nat, e: Env)
    requires WellSized(w.block) && n <= |rows| && n <= K
    ensures var w' := ForwardDecoded(w, rows, n, e);
      w'.stats.decodes == w.stats.decodes && w'.stats.attempts == w.stats.attempts
  {
    if n == 0 {
    } else {
      DecodedKeepsSuccess(w, rows, n - 1, e);
    }
  }

  /** A decoder call that succeeds is counted and remembered; after it there is none for this record. */
  lemma DecodesOnce(w: World, e: Env)
    requires WellSized(w.block) && EnvOk(e)
    ensures var w' := TryDecode(w, e);
      && w.stats.decodes <= w'.stats.decodes <= w.stats.decodes + 1
      && (w'.stats.decodes > w.stats.decodes ==> !w.block.decoded && w'.block.decoded)
      && (w.block.decoded ==> w' == w)
  {
    if WillAttempt(w.block) {
      var b := w.block.(attempted := true);
      assert AllOfLength(b.rows, b.len);
      var rows := e.codec.decode(b.k, b.rows, b.esis);
      if rows.Some? {
        var st := w.stats.(attempts := w.stats.attempts + 1);
        DecodedKeepsSuccess(w.(block := b.(parityCounted := true), stats := CountDecode(st, b)), rows.value, b.k, e);
      }
    }
  }

  /** A symbol that meets a record of its block whose decoding has succeeded causes no decoder call; and a symbol that
      causes a successful one leaves such a record, or finishes the block. */
  lemma SuccessIsFinal(b: Block, st: Stats, sym: Symbol, known: bool, e: Env)
    requires WellSized(b) && Orderly(b) && EnvOk(e) && Usable(sym) && StaysInBuffer(b, sym)
    ensures var w := Handled(b, st, sym, known, e);
      && (b.inUse && b.id == sym.blockId && b.live && b.decoded ==> w.stats.attempts == st.attempts)
      && (w.stats.decodes > st.decodes ==> w.finished || w.block.decoded)
  {
    Outcome(b, st, sym, known, e);
    if b.inUse && b.id == sym.blockId && b.live {
      NotingKeeps(b, sym, e);
    }
    var w := World(Noted(b, sym, e), st, [], false);
    WorkDecodesOnce(w, sym, e);
  }

  lemma WorkDecodesOnce(w: World, sym: Symbol, e: Env)
    requires WellSized(w.block) && w.block.live && EnvOk(e) && sym.symbolLen <= |sym.payload|
    ensures var w' := Work(w, sym, e);
      (w.block.decoded ==> w'.stats.attempts == w.stats.attempts)
      && (w'.stats.decodes > w.stats.decodes ==> w'.block.decoded)
  {
    SourceOnlyForwards(w, sym, e);
    DecodesOnce(ForwardSource(w, sym, e), e);
  }

  // ----- times

  ghost predicate Timed(b: Block, b': Block, now: nat) {
    && b'.firstRx == b.firstRx && |b'.forwarded| == |b.forwarded| == K
    && (forall i :: 0 <= i < K && b.forwarded[i] ==> b'.forwarded[i])
    && b'.lastFwd == if b'.forwarded == b.forwarded then b.lastFwd else now
  }

  lemma RowIsTimed(b: Block, w: World, i: nat, pkt: Packet, original: bool, e: Env)
    requires WellSized(w.block) && i < K && Timed(b, w.block, e.now) && !w.block.forwarded[i]
    ensures Timed(b, ForwardRow(w, i, pkt, original, e).block, e.now)
  {
    var w' := ForwardRow(w, i, pkt, original, e);
    assert w' == w || w'.block == w.block || (w'.block.forwarded[i] && !b.forwarded[i]);
  }

  lemma {:induction false} DecodedIsTimed(b: Block, w: World, rows: seq<Packet>, n: nat, e: Env)
    requires WellSized(w.block) && n <= |rows| && n <= K && Timed(b, w.block, e.now)
    ensures Timed(b, ForwardDecoded(w, rows, n, e).block, e.now)
  {
    if n == 0 {
    } else {
      DecodedIsTimed(b, w, rows, n - 1, e);
      var w1 := ForwardDecoded(w, rows, n - 1, e);
      if !w1.block.forwarded[n - 1] {
        RowIsTimed(b, w1, n - 1, rows[n - 1], false, e);
      }
    }
  }

  lemma WorkIsTimed(w: World, sym: Symbol, e: Env)
    requires WellSized(w.block) && w.block.live && EnvOk(e) && sym.symbolLen <= |sym.payload|
    ensures Timed(w.block, Work(w, sym, e).block, e.now)
  {
    var w1 := ForwardSource(w, sym, e);
    if sym.isSource && sym.esi < w.block.k && !w.block.forwarded[sym.esi] {
      RowIsTimed(w.block, w, sym.esi, sym.payload[..sym.symbolLen], true, e);
    }
    DecodeIsTimed(w.block, w1, e);
  }

  lemma DecodeIsTimed(b0: Block, w: World, e: Env)
    requires WellSized(w.block) && EnvOk(e) && Timed(b0, w.block, e.now)
    ensures Timed(b0, TryDecode(w, e).block, e.now)
  {
    if WillAttempt(w.block) {
      var b := w.block.(attempted := true);
      assert AllOfLength(b.rows, b.len);
      var rows := e.codec.decode(b.k, b.rows, b.esis);
      if rows.Some? {
        var st := w.stats.(attempts := w.stats.attempts + 1);
        DecodedIsTimed(b0, w.(block := b.(parityCounted := true), stats := CountDecode(st, b)), rows.value, b.k, e);
      }
    }
  }

  /** Noting a symbol on an open record of its block changes the first time at most. */
  lemma NotingKeeps(b: Block, sym: Symbol, e: Env)
    requires WellSized(b) && Orderly(b) && EnvOk(e) && Usable(sym) && StaysInBuffer(b, sym)
    requires b.inUse && b.id == sym.blockId && b.live
    ensures var b' := Noted(b, sym, e);
      && b'.firstRx == (if b.firstRx == 0 then e.now else b.firstRx)
      && b'.lastFwd == b.lastFwd && b'.forwarded == b.forwarded && b'.decoded == b.decoded
  {
    var b1 := Opened(b, sym, e);
    assert b1 == Stamped(b, e.now);
    if sym.esi !in b1.esis {
      NoteAddsId(b1, sym, Note(b1, sym));
    }
  }

  /** The two times of a block, on its own record and until it is finished: when its first symbol came, kept from then
      on, and when the socket last took a row; a clock reading of 0 counts as none. */
  lemma TimesAreKept(b: Block, st: Stats, sym: Symbol, known: bool, e: Env)
    requires WellSized(b) && Orderly(b) && EnvOk(e) && Usable(sym) && StaysInBuffer(b, sym)
    requires b.inUse && b.id == sym.blockId && b.live
    ensures var w := Handled(b, st, sym, known, e);
      !w.finished ==>
        && w.block.firstRx == (if b.firstRx == 0 then e.now else b.firstRx)
        && w.block.lastFwd == (if w.block.forwarded == b.forwarded then b.lastFwd else e.now)
  {
    Outcome(b, st, sym, known, e);
    NotingKeeps(b, sym, e);
    WorkIsTimed(World(Noted(b, sym, e), st, [], false), sym, e);
  }

  // ----- datagrams that change nothing but a counter

  /** A datagram without a whole header is ignored; one whose header announces nothing, or more than follows, is counted
      as a fragment and otherwise ignored. */
  lemma BadDatagramIsIgnored(rx: Receiver, x: Input, e: Env)
    requires ValidReceiver(rx) && EnvOk(e)
    requires |x.buf| >= 12 ==>
               var len := 256 * Value(x.buf[8]) + Value(x.buf[9]); len == 0 || len > |x.buf| - 12
    ensures Accepts(rx, x.buf)
    ensures OnDatagram(rx, x.buf, With(e, x)) ==
            if |x.buf| < 12 then rx
            else if x.buf[10] != 0 then rx.(stats := rx.stats.(dataFragments := rx.stats.dataFragments + 1))
            else rx.(stats := rx.stats.(parityFragments := rx.stats.parityFragments + 1))
  {
  }

  lemma SameSymbol(b: Block, st: Stats, sym: Symbol, sym': Symbol, known: bool, e: Env)
    requires WellSized(b) && Orderly(b) && EnvOk(e) && Usable(sym) && StaysInBuffer(b, sym)
    requires sym' == sym.(payload := sym'.payload) && sym.payload <= sym'.payload
    ensures Usable(sym') && StaysInBuffer(b, sym') && Handled(b, st, sym, known, e) == Handled(b, st, sym', known, e)
  {
    SameNoted(b, sym, sym', e);
    Outcome(b, st, sym, known, e);
    Outcome(b, st, sym', known, e);
    SameWork(World(Noted(b, sym, e), st, [], false), sym, sym', e);
  }

  lemma SameNote(b: Block, sym: Symbol, sym': Symbol)
    requires WellSized(b) && b.live && Usable(sym) && Usable(sym') && sym.esi !in b.esis && Writable(b, sym)
    requires sym' == sym.(payload := sym'.payload) && sym.payload <= sym'.payload
    ensures Note(b, sym) == Note(b, sym')
  {
    if |b.esis| < MAX_SYMBOLS {
      assert Overwrite(b.room, sym.payload, sym.symbolLen) == Overwrite(b.room, sym'.payload, sym.symbolLen);
    }
  }

  lemma SameNoted(b: Block, sym: Symbol, sym': Symbol, e: Env)
    requires WellSized(b) && Orderly(b) && EnvOk(e) && Usable(sym) && StaysInBuffer(b, sym)
    requires sym' == sym.(payload := sym'.payload) && sym.payload <= sym'.payload
    ensures Usable(sym') && StaysInBuffer(b, sym') && Noted(b, sym, e) == Noted(b, sym', e)
    ensures Opened(b, sym, e) == Opened(b, sym', e)
  {
    OpenedIsWritable(b, sym, e);
    var b1 := Opened(b, sym, e);
    if sym.esi !in b1.esis {
      SameNote(b1, sym, sym');
    }
  }

  lemma SameWork(w: World, sym: Symbol, sym': Symbol, e: Env)
    requires WellSized(w.block) && w.block.live && EnvOk(e) && Usable(sym) && Usable(sym')
    requires sym' == sym.(payload := sym'.payload) && sym.payload <= sym'.payload
    ensures Work(w, sym, e) == Work(w, sym', e)
  {
    assert sym.payload[..sym.symbolLen] == sym'.payload[..sym.symbolLen];
    assert ForwardSource(w, sym, e) == ForwardSource(w, sym', e);
  }

  /** Bytes behind the announced length are ignored. */
  lemma TrailingBytesAreIgnored(rx: Receiver, buf: seq<Byte>, more: seq<Byte>, e: Env)
    requires EnvOk(e) && Accepts(rx, buf) && |buf| >= 12
    requires 0 < 256 * Value(buf[8]) + Value(buf[9]) <= |buf| - 12
    ensures Accepts(rx, buf + more) && OnDatagram(rx, buf + more, e) == OnDatagram(rx, buf, e)
  {
    var sym, sym' := ParseSymbol(buf).value, ParseSymbol(buf + more).value;
    assert (buf + more)[0..2] == buf[0..2] && (buf + more)[2..4] == buf[2..4] && (buf + more)[4..6] == buf[4..6];
    assert (buf + more)[6..8] == buf[6..8] && (buf + more)[8..10] == buf[8..10];
    assert (buf + more)[12..] == buf[12..] + more;
    SameSymbol(rx.table[sym.blockId % MAX_BLOCKS], CountFragment(rx.stats, sym), sym, sym', sym.blockId in rx.done, e);
  }

  /** Only a symbol with the source flag goes out by itself: without it nothing does unless the decoder is called. */
  lemma RepairsNeedTheDecoder(b: Block, st: Stats, sym: Symbol, known: bool, e: Env)
    requires WellSized(b) && Orderly(b) && EnvOk(e) && Usable(sym) && StaysInBuffer(b, sym) && !sym.isSource
    ensures var w := Handled(b, st, sym, known, e); w.log != [] ==> w.stats.attempts > st.attempts
  {
    Outcome(b, st, sym, known, e);
    CallIsCounted(World(Noted(b, sym, e), st, [], false), e);
  }

  lemma CallIsCounted(w: World, e: Env)
    requires WellSized(w.block) && EnvOk(e) && w.log == []
    ensures var w' := TryDecode(w, e);
      w.stats.attempts <= w'.stats.attempts && (w'.log != [] ==> w'.stats.attempts > w.stats.attempts)
  {
    if WillAttempt(w.block) {
      var b := w.block.(attempted := true);
      assert AllOfLength(b.rows, b.len);
      var rows := e.codec.decode(b.k, b.rows, b.esis);
      if rows.Some? {
        var st := w.stats.(attempts := w.stats.attempts + 1);
        DecodedKeepsSuccess(w.(block := b.(parityCounted := true), stats := CountDecode(st, b)), rows.value, b.k, e);
      }
    }
  }

  // ----- the list of finished blocks

  /** The list only grows, by the block that a datagram finishes, as long as there are fewer than 1024 on it. */
  lemma ListGrows(rx: Receiver, buf: seq<Byte>, e: Env)
    requires Accepts(rx, buf) && EnvOk(e) && |rx.done| <= 1024
    ensures var rx' := OnDatagram(rx, buf, e);
      && rx.done <= rx'.done && |rx'.done| <= 1024
      && (rx'.done != rx.done ==> ParseSymbol(buf).Some? && rx'.done == rx.done + [ParseSymbol(buf).value.blockId])
      && (rx'.done != rx.done ==> rx'.stats.generations == rx.stats.generations + 1)
      && (rx'.done == rx.done && |rx.done| < 1024 ==> rx'.stats.generations == rx.stats.generations)
  {
    var parsed := ParseSymbol(buf);
    if parsed.Some? && Usable(parsed.value) {
      var sym := parsed.value;
      HandledKeepsCounts(rx.table[sym.blockId % MAX_BLOCKS], CountFragment(rx.stats, sym), sym,
                         sym.blockId in rx.done, e);
    }
  }

  /** The list is as long as blocks have been finished, up to 1024. */
  ghost predicate ListIsFull(rx: Receiver) {
    |rx.done| == if rx.stats.generations <= 1024 then rx.stats.generations else 1024
  }

  /** Over every stream. */
  lemma {:induction false} ListIsBounded(inputs: seq<Input>, e: Env)
    requires EnvOk(e) && Accepted(inputs, e)
    ensures ListIsFull(Receive(inputs, e))
    decreases |inputs|
  {
    if |inputs| == 0 {
      assert Receive(inputs, e) == EmptyReceiver();
    } else {
      var before, x := inputs[..|inputs| - 1], inputs[|inputs| - 1];
      assert inputs == before + [x];
      ListIsBounded(before, e);
      UnfoldReceive(before, x, e);
      StillFull(Receive(before, e), x, e);
    }
  }

  lemma StillFull(rx: Receiver, x: Input, e: Env)
    requires Accepts(rx, x.buf) && EnvOk(e) && ListIsFull(rx)
    ensures var rx' := OnDatagram(rx, x.buf, With(e, x)); ListIsFull(rx') && rx.done <= rx'.done
  {
    ListGrows(rx, x.buf, With(e, x));
    var parsed := ParseSymbol(x.buf);
    if parsed.Some? && Usable(parsed.value) {
      var sym := parsed.value;
      HandledKeepsCounts(rx.table[sym.blockId % MAX_BLOCKS], CountFragment(rx.stats, sym), sym, sym.blockId in rx.done,
                        With(e, x));
    }
  }

  /** What is on the list stays there, in its place. */
  lemma {:induction false} ListOnlyGrows(before: seq<Input>, more: seq<Input>, e: Env)
    requires EnvOk(e) && Accepted(before, e) && Accepted(before + more, e)
    ensures Receive(before, e).done <= Receive(before + more, e).done
    decreases |more|
  {
    if |more| == 0 {
      assert before + more == before;
    } else {
      var n := |more| - 1;
      var all, rest, x := before + more, before + more[..n], more[n];
      assert all == rest + [x];
      PrefixIsAccepted(rest, x, e);
      ListOnlyGrows(before, more[..n], e);
      ListIsBounded(rest, e);
      UnfoldReceive(rest, x, e);
      StillFull(Receive(rest, e), x, e);
    }
  }

  lemma PrefixIsAccepted(before: seq<Input>, x: Input, e: Env)
    requires EnvOk(e) && Accepted(before + [x], e)
    ensures Accepted(before, e) && Accepts(Receive(before, e), x.buf)
  {
    assert (before + [x])[..|before|] == before;
  }
}
