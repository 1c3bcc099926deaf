/** The record of one block while genuine symbols of that block arrive. */
module RqEntry {
  import opened Base
  import opened Deliveries
  import opened Wire
  import opened RqBlock
  import opened RqBlockLaws
  import RqCodec

  /** Source packets of a block that receiver and codec are set up for. */
  ghost predicate Fit(src: seq<Packet>, e: Env) {
    EnvOk(e) && RqCodec.Correct(e.codec) && RqCodec.ValidSource(src) && |src| <= e.blockSize
  }

  /** A record that is being worked on: it holds genuine symbols of the block. */
  ghost predicate OpenOk(b: Block, id: nat, src: seq<Packet>, c: RqCodec.Codec) {
    && BlockInv(b) && b.live && b.inUse && b.id == id
    && RqCodec.ValidSource(src) && BlockOf(b, src, c)
  }

  /** A record at rest: blank, or open and short of some row. */
  ghost predicate EntryOk(b: Block, id: nat, src: seq<Packet>, c: RqCodec.Codec) {
    && BlockInv(b)
    && (b.inUse ==> OpenOk(b, id, src, c) && !AllForwarded(b))
    && (!b.inUse ==> b == BlankBlock())
  }

  lemma BlankIsOk(id: nat, src: seq<Packet>, c: RqCodec.Codec)
    ensures EntryOk(BlankBlock(), id, src, c)
  {
    BlankInv();
  }

  // ----- the stages of one symbol

  /** The record that a symbol finds. */
  function Opened(b: Block, sym: Symbol, e: Env): (b': Block)
    requires WellSized(b) && Orderly(b) && EnvOk(e) && Usable(sym)
    ensures WellSized(b') && b'.live
  {
    Begin(Lookup(b, sym.blockId), sym, e)
  }

  /** The record with the symbol noted, unless its id was there already. */
  function Noted(b: Block, sym: Symbol, e: Env): (b': Block)
    requires WellSized(b) && Orderly(b) && EnvOk(e) && Usable(sym) && StaysInBuffer(b, sym)
    ensures WellSized(b') && b'.live
  {
    var b1 := Opened(b, sym, e);
    if sym.esi in b1.esis then b1 else Note(b1, sym)
  }

  function Worked(b: Block, st: Stats, sym: Symbol, e: Env): (w: World)
    requires WellSized(b) && Orderly(b) && EnvOk(e) && Usable(sym) && StaysInBuffer(b, sym)
    ensures WellSized(w.block)
  {
    Work(World(Noted(b, sym, e), st, [], false), sym, e)
  }

  /** What the handler makes of a symbol. */
  function Handled(b: Block, st: Stats, sym: Symbol, known: bool, e: Env): (w: World)
    requires WellSized(b) && Orderly(b) && EnvOk(e) && Usable(sym) && StaysInBuffer(b, sym)
    ensures WellSized(w.block)
  {
    OnSymbol(World(b, st, [], false), sym, known, e)
  }

  /** A new symbol of a finished block is stored and nothing else; any other symbol is worked on, and the block is
      finished exactly if then every row has been forwarded. */
  lemma Outcome(b: Block, st: Stats, sym: Symbol, known: bool, e: Env)
    requires WellSized(b) && Orderly(b) && EnvOk(e) && Usable(sym) && StaysInBuffer(b, sym)
    ensures var w' := Handled(b, st, sym, known, e);
      if known && sym.esi !in Opened(b, sym, e).esis then
        w'.log == [] && !w'.finished && w'.stats == st && w'.block == Noted(b, sym, e)
      else
        var w := Worked(b, st, sym, e);
        w' == (if AllForwarded(w.block) then Finalize(w) else w)
  {
  }

  lemma SymbolIsUsable(b: Block, sym: Symbol, id: nat, src: seq<Packet>, e: Env)
    requires Fit(src, e) && EntryOk(b, id, src, e.codec) && SymbolOf(sym, id, src, e.codec)
    ensures Usable(sym) && sym.symbolLen == |sym.payload| && StaysInBuffer(b, sym)
  {
    if b.inUse && sym.esi !in b.esis {
      NoteStoresSymbol(b, sym);
    }
  }

  /** Opening changes neither what is stored nor what was forwarded. */
  lemma OpenedIsOk(b: Block, sym: Symbol, id: nat, src: seq<Packet>, e: Env)
    requires Fit(src, e) && EntryOk(b, id, src, e.codec) && SymbolOf(sym, id, src, e.codec)
    ensures Usable(sym) && StaysInBuffer(b, sym)
    ensures var b1 := Opened(b, sym, e);
      OpenOk(b1, id, src, e.codec) && !AllForwarded(b1) && b1.esis == b.esis && b1.forwarded == b.forwarded
  {
    SymbolIsUsable(b, sym, id, src, e);
    BeginKeepsInv(b, sym, e);
    var b1 := Opened(b, sym, e);
    assert b1.esis == b.esis && b1.forwarded == b.forwarded;
    if !b.inUse {
      assert !b1.forwarded[0];
    }
  }

  lemma NoteIsOk(b: Block, sym: Symbol, id: nat, src: seq<Packet>, e: Env)
    requires Fit(src, e) && OpenOk(b, id, src, e.codec) && SymbolOf(sym, id, src, e.codec) && sym.esi !in b.esis
    ensures Usable(sym) && Writable(b, sym) && OpenOk(Note(b, sym), id, src, e.codec)
  {
    NoteStoresSymbol(b, sym);
    NoteKeepsInv(b, sym);
    assert sym.payload[..b.len] == e.codec.symbol(src, sym.esi);
  }

  lemma NotedIsOk(b: Block, sym: Symbol, id: nat, src: seq<Packet>, e: Env)
    requires Fit(src, e) && EntryOk(b, id, src, e.codec) && SymbolOf(sym, id, src, e.codec)
    ensures Usable(sym) && StaysInBuffer(b, sym)
    ensures var b2 := Noted(b, sym, e);
      && OpenOk(b2, id, src, e.codec) && !AllForwarded(b2) && b2.forwarded == b.forwarded
      && (forall x :: x in b2.esis ==> x in b.esis || x == sym.esi)
  {
    OpenedIsOk(b, sym, id, src, e);
    var b1 := Opened(b, sym, e);
    if sym.esi !in b1.esis {
      NoteIsOk(b1, sym, id, src, e);
    }
  }

  // ----- work

  lemma {:induction false} ForwardKeepsHeader(w: World, rows: seq<Packet>, n: nat, e: Env)
    requires WellSized(w.block) && n <= |rows| && n <= K
    ensures var b, b' := w.block, ForwardDecoded(w, rows, n, e).block;
      b'.inUse == b.inUse && b'.id == b.id && b'.len == b.len && b'.sources == b.sources && b'.repairs == b.repairs
  {
    if n == 0 {
    } else {
      ForwardKeepsHeader(w, rows, n - 1, e);
    }
  }

  lemma DecodeKeepsHeader(w: World, e: Env)
    requires WellSized(w.block) && EnvOk(e)
    ensures var b, b' := w.block, TryDecode(w, e).block;
      b'.inUse == b.inUse && b'.id == b.id && b'.len == b.len && b'.sources == b.sources && b'.repairs == b.repairs
  {
    if WillAttempt(w.block) {
      var b := w.block.(attempted := true);
      var decoded := e.codec.decode(b.k, b.rows, b.esis);
      assert AllOfLength(b.rows, b.len);
      if decoded.Some? {
        ForwardKeepsHeader(World(b.(parityCounted := true), CountDecode(w.stats.(attempts := w.stats.attempts + 1), b),
                                 w.log, w.finished),
                           decoded.value, b.k, e);
      }
    }
  }

  lemma WorkIsOk(w: World, sym: Symbol, id: nat, src: seq<Packet>, e: Env)
    requires Fit(src, e) && OpenOk(w.block, id, src, e.codec) && SymbolOf(sym, id, src, e.codec)
    ensures sym.symbolLen <= |sym.payload|
    ensures var w' := Work(w, sym, e);
      OpenOk(w'.block, id, src, e.codec) && w'.block.esis == w.block.esis && w'.finished == w.finished
  {
    SourceAdvances(w, sym, e, src);
    if sym.isSource && sym.esi < w.block.k && !w.block.forwarded[sym.esi] {
      RowKeepsInv(w, sym.esi, sym.payload[..sym.symbolLen], true, e);
    }
    var w1 := ForwardSource(w, sym, e);
    DecodeKeepsInv(w1, e);
    DecodeKeepsHeader(w1, e);
  }

  lemma WorkedIsOk(b: Block, st: Stats, sym: Symbol, id: nat, src: seq<Packet>, e: Env)
    requires Fit(src, e) && EntryOk(b, id, src, e.codec) && SymbolOf(sym, id, src, e.codec)
    ensures Usable(sym) && StaysInBuffer(b, sym)
    ensures var w := Worked(b, st, sym, e);
      && OpenOk(w.block, id, src, e.codec) && w.block.esis == Noted(b, sym, e).esis && !w.finished
      && Progress(b.forwarded, w.log, w.block.forwarded, src, id)
  {
    NotedIsOk(b, sym, id, src, e);
    var w0 := World(Noted(b, sym, e), st, [], false);
    WorkIsOk(w0, sym, id, src, e);
    WorkAdvances(w0, sym, e, src);
    var w := Worked(b, st, sym, e);
    assert w.log[|w0.log|..] == w.log;
  }

  // ----- one symbol

  function NoFlags(): (f: seq<bool>)
    ensures |f| == K
  {
    Repeat(false, K)
  }

  /** Flags of a block of n packets that is complete. */
  function FullFlags(n: nat): (f: seq<bool>)
    ensures |f| == K && forall i :: 0 <= i < K ==> f[i] == (i < n)
  {
    seq(K, i requires 0 <= i < K => i < n)
  }

  lemma CompleteFlags(b: Block, n: nat)
    requires BlockInv(b) && b.live && b.k == n && AllForwarded(b)
    ensures b.forwarded == FullFlags(n)
  {
  }

  /** The flags that a handler call leaves behind; those of a finished block are all set. */
  function EndFlags(w: World, n: nat): seq<bool> {
    if w.finished then FullFlags(n) else w.block.forwarded
  }

  /** The record is at rest again, and what went out is what its flags say. */
  lemma SymbolProgresses(b: Block, st: Stats, sym: Symbol, known: bool, id: nat, src: seq<Packet>, e: Env)
    requires Fit(src, e) && EntryOk(b, id, src, e.codec) && SymbolOf(sym, id, src, e.codec)
    ensures Usable(sym) && StaysInBuffer(b, sym)
    ensures var w' := Handled(b, st, sym, known, e);
      && Progress(b.forwarded, w'.log, EndFlags(w', |src|), src, id)
      && EntryOk(w'.block, id, src, e.codec) && (w'.finished ==> w'.block == BlankBlock())
      && (forall x :: x in w'.block.esis ==> x in b.esis || x == sym.esi)
  {
    NotedIsOk(b, sym, id, src, e);
    OpenedIsOk(b, sym, id, src, e);
    WorkedIsOk(b, st, sym, id, src, e);
    Outcome(b, st, sym, known, e);
    BlankIsOk(id, src, e.codec);
    NoProgress(b.forwarded, src, id);
    var w := Worked(b, st, sym, e);
    if AllForwarded(w.block) {
      CompleteFlags(w.block, |src|);
    }
  }

  // ----- repeated symbols

  /** The decoder will be called, and succeed. */
  predicate Decodes(b: Block, c: RqCodec.Codec) {
    WillAttempt(b) && c.decode(b.k, b.rows, b.esis).Some?
  }

  /** What makes a repeated symbol speak: its own row was not forwarded, or the decoder succeeds. */
  predicate RepeatSpeaks(b: Block, sym: Symbol, c: RqCodec.Codec)
    requires |b.forwarded| == K && 0 < b.k <= K
  {
    || (sym.isSource && sym.esi < b.k && !b.forwarded[sym.esi])
    || Decodes(b, c)
  }

  /** Of what it then says, the socket takes something. */
  predicate RepeatLands(b: Block, sym: Symbol, e: Env)
    requires |b.forwarded| == K && 0 < b.k <= K
  {
    || (sym.isSource && sym.esi < b.k && !b.forwarded[sym.esi] && e.accepts(sym.esi, true))
    || (Decodes(b, e.codec) &&
        exists i :: 0 <= i < b.k && !b.forwarded[i] && e.accepts(i, false))
  }

  lemma {:induction false} DecodedSpeaks(w: World, rows: seq<Packet>, n: nat, e: Env)
    requires WellSized(w.block) && n <= |rows| && n <= K && forall i :: 0 <= i < n ==> |rows[i]| >= MIN_IP
    ensures w.log <= ForwardDecoded(w, rows, n, e).log
    ensures (forall i :: 0 <= i < n ==> w.block.forwarded[i]) <==> ForwardDecoded(w, rows, n, e) == w
    ensures ForwardDecoded(w, rows, n, e) != w ==> |ForwardDecoded(w, rows, n, e).log| > |w.log|
  {
    if n == 0 {
    } else {
      DecodedSpeaks(w, rows, n - 1, e);
    }
  }

  lemma DecodeSpeaks(w: World, id: nat, src: seq<Packet>, e: Env)
    requires Fit(src, e) && |src[0]| >= MIN_IP && OpenOk(w.block, id, src, e.codec)
    ensures w.log <= TryDecode(w, e).log
    ensures |TryDecode(w, e).log| > |w.log| <==>
            Decodes(w.block, e.codec)
  {
    var b := w.block.(attempted := true);
    assert AllOfLength(b.rows, b.len);
    var decoded := e.codec.decode(b.k, b.rows, b.esis);
    if WillAttempt(w.block) && decoded.Some? {
      var w2 := World(b.(parityCounted := true), CountDecode(w.stats.(attempts := w.stats.attempts + 1), b),
                      w.log, w.finished);
      CountBelow(b.forwarded, b.k);
      DecodedSpeaks(w2, decoded.value, b.k, e);
    }
  }

  lemma SourceSpeaks(w: World, sym: Symbol, e: Env)
    requires WellSized(w.block) && w.block.live && MIN_IP <= sym.symbolLen <= |sym.payload|
    ensures var w' := ForwardSource(w, sym, e);
      if sym.isSource && sym.esi < w.block.k && !w.block.forwarded[sym.esi] then
        |w'.log| == |w.log| + 1 && w.log <= w'.log
      else w' == w
  {
  }

  lemma WorkSpeaks(w: World, sym: Symbol, id: nat, src: seq<Packet>, e: Env)
    requires Fit(src, e) && OpenOk(w.block, id, src, e.codec) && SymbolOf(sym, id, src, e.codec) && w.log == []
    ensures sym.symbolLen <= |sym.payload|
    ensures Work(w, sym, e).log != [] <==> RepeatSpeaks(w.block, sym, e.codec)
  {
    SourceSpeaks(w, sym, e);
    SourceAdvances(w, sym, e, src);
    var w1 := ForwardSource(w, sym, e);
    if w1 != w {
      RowKeepsInv(w, sym.esi, sym.payload[..sym.symbolLen], true, e);
    }
    DecodeSpeaks(w1, id, src, e);
  }

  /** The exact condition under which a symbol is handed to the socket. If its block counts as finished, its id must be
      stored already; and in the record that it finds, once it is noted, its row is missing or the stored rows
      decode. */
  lemma SymbolSpeaksIff(b: Block, st: Stats, sym: Symbol, known: bool, id: nat, src: seq<Packet>, e: Env)
    requires Fit(src, e) && EntryOk(b, id, src, e.codec) && SymbolOf(sym, id, src, e.codec)
    ensures Usable(sym) && StaysInBuffer(b, sym) && 0 < Noted(b, sym, e).k <= K
    ensures Handled(b, st, sym, known, e).log != [] <==>
            (known ==> sym.esi in b.esis) && RepeatSpeaks(Noted(b, sym, e), sym, e.codec)
  {
    OpenedIsOk(b, sym, id, src, e);
    NotedIsOk(b, sym, id, src, e);
    Outcome(b, st, sym, known, e);
    if known ==> sym.esi in b.esis {
      WorkSpeaks(World(Noted(b, sym, e), st, [], false), sym, id, src, e);
    }
  }

  /** For a symbol of a finished block that is: its id is already stored in the record that late symbols have built up,
      and that record lacks the row or can be decoded. */
  lemma LateSymbolSpeaksIff(b: Block, st: Stats, sym: Symbol, id: nat, src: seq<Packet>, e: Env)
    requires Fit(src, e) && EntryOk(b, id, src, e.codec) && SymbolOf(sym, id, src, e.codec)
    ensures Usable(sym) && StaysInBuffer(b, sym)
    ensures var b1 := Opened(b, sym, e);
      Handled(b, st, sym, true, e).log != [] <==> sym.esi in b.esis && RepeatSpeaks(b1, sym, e.codec)
  {
    OpenedIsOk(b, sym, id, src, e);
    SymbolSpeaksIff(b, st, sym, true, id, src, e);
  }

  /** The first n flags after every row that was missing has been offered to the socket. */
  ghost predicate Offered(f: seq<bool>, f': seq<bool>, n: nat, e: Env) {
    |f| == |f'| == K && forall i :: 0 <= i < K ==> (f'[i] <==> f[i] || (i < n && e.accepts(i, false)))
  }

  lemma OfferedMore(f: seq<bool>, f1: seq<bool>, f2: seq<bool>, n: nat, e: Env)
    requires Offered(f, f1, n, e) && n < K
    requires f2 == if !f1[n] && e.accepts(n, false) then f1[n := true] else f1
    ensures Offered(f, f2, n + 1, e)
  {
  }

  lemma DecodedStep(w: World, rows: seq<Packet>, n: nat, e: Env)
    requires WellSized(w.block) && n < |rows| && n < K && |rows[n]| >= MIN_IP
    ensures var f1, f2 := ForwardDecoded(w, rows, n, e).block.forwarded,
      ForwardDecoded(w, rows, n + 1, e).block.forwarded;
      f2 == if !f1[n] && e.accepts(n, false) then f1[n := true] else f1
  {
  }

  lemma {:induction false} DecodedFlags(w: World, rows: seq<Packet>, len: nat, n: nat, e: Env)
    requires WellSized(w.block) && n <= |rows| && n <= K && AllOfLength(rows, len) && len >= MIN_IP
    ensures Offered(w.block.forwarded, ForwardDecoded(w, rows, n, e).block.forwarded, n, e)
  {
    if n == 0 {
    } else {
      DecodedFlags(w, rows, len, n - 1, e);
      DecodedStep(w, rows, n - 1, e);
      OfferedMore(w.block.forwarded, ForwardDecoded(w, rows, n - 1, e).block.forwarded,
                  ForwardDecoded(w, rows, n, e).block.forwarded, n - 1, e);
    }
  }

  lemma AfterDecodeFlags(w: World, src: seq<Packet>, len: nat, e: Env)
    requires WellSized(w.block) && |src| == w.block.k <= K && AllOfLength(src, len) && len >= MIN_IP
    ensures Offered(w.block.forwarded, AfterDecode(w, src, e).block.forwarded, w.block.k, e)
  {
    var w1 := w.(block := w.block.(parityCounted := true), stats := CountDecode(w.stats, w.block));
    DecodedFlags(w1, src, len, w.block.k, e);
  }

  lemma DecodeFlags(w: World, id: nat, src: seq<Packet>, e: Env)
    requires Fit(src, e) && |src[0]| >= MIN_IP && OpenOk(w.block, id, src, e.codec)
    ensures var f, f' := w.block.forwarded, TryDecode(w, e).block.forwarded;
      if Decodes(w.block, e.codec) then Offered(f, f', w.block.k, e) else f' == f
  {
    DecodeCases(w, e);
    if Decodes(w.block, e.codec) {
      assert e.codec.decode(w.block.k, w.block.rows, w.block.esis).value == src;
      var w1 := w.(block := w.block.(attempted := true), stats := w.stats.(attempts := w.stats.attempts + 1));
      AfterDecodeFlags(w1, src, |src[0]|, e);
    }
  }

  lemma SourceFlags(w: World, sym: Symbol, e: Env)
    requires WellSized(w.block) && w.block.live && MIN_IP <= sym.symbolLen <= |sym.payload|
    ensures var f, f' := w.block.forwarded, ForwardSource(w, sym, e).block.forwarded;
      if sym.isSource && sym.esi < w.block.k && !f[sym.esi] && e.accepts(sym.esi, true) then f' == f[sym.esi := true]
      else f' == f
  {
  }

  lemma WorkLands(w: World, sym: Symbol, id: nat, src: seq<Packet>, e: Env)
    requires Fit(src, e) && OpenOk(w.block, id, src, e.codec) && SymbolOf(sym, id, src, e.codec) && w.log == []
    ensures sym.symbolLen <= |sym.payload|
    ensures Work(w, sym, e).block.forwarded != w.block.forwarded <==> RepeatLands(w.block, sym, e)
  {
    SourceFlags(w, sym, e);
    SourceAdvances(w, sym, e, src);
    var w1, w2 := ForwardSource(w, sym, e), Work(w, sym, e);
    if sym.isSource && sym.esi < w.block.k && !w.block.forwarded[sym.esi] {
      RowKeepsInv(w, sym.esi, sym.payload[..sym.symbolLen], true, e);
    }
    if w1.block.forwarded == w.block.forwarded {
      DecodeFlags(w1, id, src, e);
    } else {
      DecodeAdvances(w1, e, src);
      assert w1.block.forwarded[sym.esi] && !w.block.forwarded[sym.esi];
      assert w2.block.forwarded[sym.esi];
    }
  }

  /** The exact condition under which a symbol of a finished block reaches the destination again. */
  lemma LateSymbolLandsIff(b: Block, st: Stats, sym: Symbol, id: nat, src: seq<Packet>, e: Env)
    requires Fit(src, e) && EntryOk(b, id, src, e.codec) && SymbolOf(sym, id, src, e.codec)
    ensures Usable(sym) && StaysInBuffer(b, sym)
    ensures var b1, w' := Opened(b, sym, e), Handled(b, st, sym, true, e);
      && ((exists i :: 0 <= i < |src| && Sent(w'.log, i)) <==> sym.esi in b.esis && RepeatLands(b1, sym, e))
      && (!(sym.esi in b.esis && RepeatLands(b1, sym, e)) ==> !w'.finished && w'.block.forwarded == b.forwarded)
  {
    OpenedIsOk(b, sym, id, src, e);
    Outcome(b, st, sym, true, e);
    var b1, w' := Opened(b, sym, e), Handled(b, st, sym, true, e);
    if sym.esi in b.esis {
      WorkLands(World(b1, st, [], false), sym, id, src, e);
      WorkedIsOk(b, st, sym, id, src, e);
      FlagsMoveByOk(b.forwarded, Worked(b, st, sym, e).log, Worked(b, st, sym, e).block.forwarded, src, id);
    } else {
      NotedIsOk(b, sym, id, src, e);
    }
  }

  lemma FlagsMoveByOk(f0: seq<bool>, outs: seq<Delivery>, f1: seq<bool>, src: seq<Packet>, id: nat)
    requires Progress(f0, outs, f1, src, id) && |src| <= K
    ensures f1 != f0 <==> exists i :: 0 <= i < |src| && Sent(outs, i)
  {
    if f1 != f0 {
      var i :| 0 <= i < K && f1[i] != f0[i];
      assert Sent(outs, i);
      var k :| 0 <= k < |outs| && outs[k].ok && outs[k].index == i;
      assert i < |src|;
    }
    if i :| 0 <= i < |src| && Sent(outs, i) {
      var k :| 0 <= k < |outs| && outs[k].ok && outs[k].index == i;
      assert f1[i] && !f0[i];
    }
  }
}
