/** What one symbol can do to a block of genuine symbols: the invariant of a block, the sends it adds, and how its flags
    and counters move with them. */
module RqBlockLaws {
  import opened Base
  import opened Deliveries
  import opened Wire
  import opened RqBlock
  import RqCodec

  // ----- progress: which rows went out

  ghost predicate Sent(outs: seq<Delivery>, i: nat) {
    exists k :: 0 <= k < |outs| && outs[k].ok && outs[k].index == i
  }

  /** Everything handed to the socket is a source packet of the block; every success is for a row that had none; and the
      flags moved by exactly the successes. */
  ghost predicate Progress(f0: seq<bool>, outs: seq<Delivery>, f1: seq<bool>, src: seq<Packet>, id: nat) {
    && |f0| == |f1| == K
    && (forall k :: 0 <= k < |outs| ==>
        outs[k].genId == id && outs[k].index < |src| && outs[k].pkt == src[outs[k].index])
    && (forall k :: 0 <= k < |outs| && outs[k].ok ==> outs[k].index < K && !f0[outs[k].index])
    && (forall k, l :: 0 <= k < l < |outs| && outs[k].ok && outs[l].ok ==> outs[k].index != outs[l].index)
    && (forall i :: 0 <= i < K ==> (f1[i] <==> f0[i] || Sent(outs, i)))
  }

  lemma NoProgress(f: seq<bool>, src: seq<Packet>, id: nat)
    requires |f| == K
    ensures Progress(f, [], f, src, id)
  {
  }

  lemma SentJoins(a: seq<Delivery>, b: seq<Delivery>, i: nat)
    ensures Sent(a + b, i) <==> Sent(a, i) || Sent(b, i)
  {
    var outs := a + b;
    if Sent(a, i) {
      var k :| 0 <= k < |a| && a[k].ok && a[k].index == i;
      assert outs[k] == a[k];
    }
    if Sent(b, i) {
      var k :| 0 <= k < |b| && b[k].ok && b[k].index == i;
      assert outs[|a| + k] == b[k];
    }
    if Sent(outs, i) {
      var k :| 0 <= k < |outs| && outs[k].ok && outs[k].index == i;
      assert if k < |a| then outs[k] == a[k] else outs[k] == b[k - |a|];
    }
  }

  lemma ProgressJoins(f0: seq<bool>, a: seq<Delivery>, f1: seq<bool>, b: seq<Delivery>, f2: seq<bool>,
                      src: seq<Packet>, id: nat)
    requires Progress(f0, a, f1, src, id) && Progress(f1, b, f2, src, id)
    ensures Progress(f0, a + b, f2, src, id)
  {
    var outs := a + b;
    forall i | 0 <= i < K
      ensures f2[i] <==> f0[i] || Sent(outs, i)
    {
      SentJoins(a, b, i);
    }
    forall k, l | 0 <= k < l < |outs| && outs[k].ok && outs[l].ok
      ensures outs[k].index != outs[l].index
    {
      if k < |a| <= l {
        assert outs[k] == a[k] && outs[l] == b[l - |a|];
        assert Sent(a, outs[k].index);
      }
    }
  }

  // ----- the decoder's cases

  lemma DecodeCases(w: World, e: Env)
    requires WellSized(w.block) && EnvOk(e)
    ensures var w1 := w.(block := w.block.(attempted := true), stats := w.stats.(attempts := w.stats.attempts + 1));
      var decoded := e.codec.decode(w.block.k, w.block.rows, w.block.esis);
      && (!WillAttempt(w.block) ==> TryDecode(w, e) == w)
      && (WillAttempt(w.block) && decoded.None? ==> TryDecode(w, e) == w1)
      && (WillAttempt(w.block) && decoded.Some? ==>
            |decoded.value| == w.block.k && TryDecode(w, e) == AfterDecode(w1, decoded.value, e))
  {
    assert AllOfLength(w.block.rows, w.block.len);
  }

  // ----- what every block keeps

  lemma {:induction false} CountFlip(flags: seq<bool>, i: nat)
    requires i < |flags| && !flags[i]
    ensures Count(flags[i := true]) == Count(flags) + 1
    decreases |flags|
  {
    var n := |flags| - 1;
    if i < n {
      CountFlip(flags[..n], i);
      assert flags[i := true][..n] == flags[..n][i := true];
    } else {
      assert flags[i := true][..n] == flags[..n];
    }
  }

  lemma {:induction false} CountBelow(flags: seq<bool>, k: nat)
    requires k <= |flags| && forall i :: k <= i < |flags| ==> !flags[i]
    ensures Count(flags) <= k
    ensures Count(flags) == k <==> forall i :: 0 <= i < k ==> flags[i]
    decreases |flags|
  {
    if k < |flags| {
      CountBelow(flags[..|flags| - 1], k);
    } else {
      CountExtremes(flags);
    }
  }

  ghost predicate NoRepeats(esis: seq<nat>) {
    forall i, j :: 0 <= i < j < |esis| ==> esis[i] != esis[j]
  }

  /** The counters of stored and forwarded symbols are right, ids do not repeat, nothing beyond row k is flagged. */
  ghost predicate BlockInv(b: Block) {
    && WellSized(b) && Orderly(b) && NoRepeats(b.esis)
    && b.forwardedCount == Count(b.forwarded)
    && (forall i :: 0 <= i < K && b.forwarded[i] ==> b.live && i < b.k)
    && |b.esis| == (if b.sources + b.repairs < MAX_SYMBOLS then b.sources + b.repairs else MAX_SYMBOLS)
  }

  lemma BlankInv()
    ensures BlockInv(BlankBlock()) && forall id :: BlockInv(FreshBlock(id))
  {
    CountExtremes(Repeat(false, K));
  }

  lemma BeginKeepsInv(b: Block, sym: Symbol, e: Env)
    requires BlockInv(b) && EnvOk(e) && sym.symbolLen > 0
    ensures var b' := Begin(Lookup(b, sym.blockId), sym, e); BlockInv(b')
  {
    BlankInv();
    CountExtremes(b.forwarded);
  }

  lemma NoteKeepsInv(b: Block, sym: Symbol)
    requires BlockInv(b) && b.live && Usable(sym) && Writable(b, sym) && sym.esi !in b.esis
    ensures BlockInv(Note(b, sym))
  {
    StillNoRepeats(b.esis, sym.esi);
    assert Note(b, sym).forwarded == b.forwarded && Note(b, sym).forwardedCount == b.forwardedCount;
  }

  lemma StillNoRepeats(esis: seq<nat>, esi: nat)
    requires NoRepeats(esis) && esi !in esis
    ensures NoRepeats(esis + [esi])
  {
  }

  lemma FlagKeepsInv(b: Block, b': Block, i: nat)
    requires BlockInv(b) && b.live && i < b.k && !b.forwarded[i]
    requires b'.forwarded == b.forwarded[i := true] && b'.forwardedCount == b.forwardedCount + 1
    requires b'.live && b'.k == b.k && b'.len == b.len && b'.rows == b.rows && b'.room == b.room && b'.esis == b.esis
    requires b'.sources == b.sources && b'.repairs == b.repairs
    ensures BlockInv(b')
  {
    CountFlip(b.forwarded, i);
  }

  lemma RowKeepsInv(w: World, i: nat, pkt: Packet, original: bool, e: Env)
    requires BlockInv(w.block) && w.block.live && i < w.block.k && !w.block.forwarded[i]
    ensures var w' := ForwardRow(w, i, pkt, original, e);
      && BlockInv(w'.block) && w'.block.live && w'.block.k == w.block.k
      && w'.block.rows == w.block.rows && w'.block.esis == w.block.esis
  {
    if |pkt| >= MIN_IP && e.accepts(i, original) {
      FlagKeepsInv(w.block, ForwardRow(w, i, pkt, original, e).block, i);
    }
  }

  lemma {:induction false} DecodedKeepsInv(w: World, rows: seq<Packet>, n: nat, e: Env)
    requires BlockInv(w.block) && w.block.live && n <= w.block.k == |rows|
    ensures var w' := ForwardDecoded(w, rows, n, e);
      && BlockInv(w'.block) && w'.block.live && w'.block.k == w.block.k
      && w'.block.rows == w.block.rows && w'.block.esis == w.block.esis
  {
    if n == 0 {
    } else {
      DecodedKeepsInv(w, rows, n - 1, e);
      var w1 := ForwardDecoded(w, rows, n - 1, e);
      if !w1.block.forwarded[n - 1] {
        RowKeepsInv(w1, n - 1, rows[n - 1], false, e);
      }
    }
  }

  lemma CountedKeepsInv(b: Block, rows: seq<Packet>, e: Env)
    requires BlockInv(b) && b.live && EnvOk(e) && e.codec.decode(b.k, b.rows, b.esis) == Some(rows)
    requires WillAttempt(b)
    ensures BlockInv(b.(attempted := true, parityCounted := true)) && |rows| == b.k && AllOfLength(rows, b.len)
  {
    assert AllOfLength(b.rows, b.len);
  }

  lemma DecodeKeepsInv(w: World, e: Env)
    requires BlockInv(w.block) && w.block.live && EnvOk(e)
    ensures var w' := TryDecode(w, e);
      && BlockInv(w'.block) && w'.block.live && w'.block.k == w.block.k
      && w'.block.rows == w.block.rows && w'.block.esis == w.block.esis
  {
    if WillAttempt(w.block) {
      var b := w.block.(attempted := true);
      var decoded := e.codec.decode(b.k, b.rows, b.esis);
      if decoded.Some? {
        CountedKeepsInv(w.block, decoded.value, e);
        var w2 := World(b.(parityCounted := true), CountDecode(w.stats.(attempts := w.stats.attempts + 1), b), w.log,
                        w.finished);
        DecodedKeepsInv(w2, decoded.value, b.k, e);
      }
    }
  }

  /** Every handler call keeps it, for genuine symbols or not. */
  lemma SymbolKeepsInv(w: World, sym: Symbol, known: bool, e: Env)
    requires BlockInv(w.block) && EnvOk(e) && Usable(sym) && StaysInBuffer(w.block, sym)
    ensures BlockInv(OnSymbol(w, sym, known, e).block)
  {
    BlankInv();
    BeginKeepsInv(w.block, sym, e);
    var b1 := Begin(Lookup(w.block, sym.blockId), sym, e);
    var b2 := if sym.esi in b1.esis then b1 else Note(b1, sym);
    if sym.esi !in b1.esis {
      NoteKeepsInv(b1, sym);
    }
    SettleKeepsInv(w.(block := b2), sym, e);
  }

  lemma SettleKeepsInv(w: World, sym: Symbol, e: Env)
    requires BlockInv(w.block) && w.block.live && EnvOk(e) && sym.symbolLen <= |sym.payload|
    ensures BlockInv(Settle(w, sym, e).block)
  {
    BlankInv();
    if sym.isSource && sym.esi < w.block.k && !w.block.forwarded[sym.esi] {
      RowKeepsInv(w, sym.esi, sym.payload[..sym.symbolLen], true, e);
    }
    DecodeKeepsInv(ForwardSource(w, sym, e), e);
  }

  // ----- genuine symbols

  /** What is stored belongs to the block with these source packets. */
  ghost predicate BlockOf(b: Block, src: seq<Packet>, c: RqCodec.Codec)
    requires RqCodec.ValidSource(src)
  {
    b.live ==> b.k == |src| && b.len == |src[0]| && RqCodec.RowsOf(c, src, b.rows, b.esis)
  }

  /** A symbol of that block: source symbols carry the source packets, the others what the codec makes of them. */
  ghost predicate SymbolOf(sym: Symbol, id: nat, src: seq<Packet>, c: RqCodec.Codec)
    requires RqCodec.ValidSource(src)
  {
    && sym.blockId == id && sym.k == |src| && sym.symbolLen == |src[0]| && sym.payload == c.symbol(src, sym.esi)
    && (sym.isSource <==> sym.esi < |src|) && |src[0]| >= MIN_IP
  }

  /** From w to w': more rows went out, all of them source packets of the block, none a second time. */
  ghost predicate Advanced(w: World, w': World, src: seq<Packet>) {
    && w.log <= w'.log && w'.block.id == w.block.id && |w.block.forwarded| == K
    && Progress(w.block.forwarded, w'.log[|w.log|..], w'.block.forwarded, src, w.block.id)
  }

  lemma AdvancedChain(w: World, w1: World, w2: World, src: seq<Packet>)
    requires Advanced(w, w1, src) && Advanced(w1, w2, src)
    ensures Advanced(w, w2, src)
  {
    ProgressJoins(w.block.forwarded, w1.log[|w.log|..], w1.block.forwarded, w2.log[|w1.log|..], w2.block.forwarded,
                  src, w.block.id);
    assert w2.log[|w.log|..] == w1.log[|w.log|..] + w2.log[|w1.log|..];
  }

  lemma NotAdvanced(w: World, w': World, src: seq<Packet>)
    requires |w.block.forwarded| == K && w'.log == w.log && w'.block.id == w.block.id &&
      w'.block.forwarded == w.block.forwarded
    ensures Advanced(w, w', src)
  {
    NoProgress(w.block.forwarded, src, w.block.id);
    assert w'.log[|w.log|..] == [];
  }

  lemma OneSend(f: seq<bool>, d: Delivery, src: seq<Packet>, id: nat)
    requires |f| == K && d.genId == id && d.index < |src| <= K && d.pkt == src[d.index] && !f[d.index]
    ensures Progress(f, [d], if d.ok then f[d.index := true] else f, src, id)
  {
    var outs := [d];
    assert d.ok ==> outs[0].ok && outs[0].index == d.index;
  }

  lemma RowAdvances(w: World, i: nat, original: bool, e: Env, src: seq<Packet>)
    requires WellSized(w.block) && i < |src| <= K && !w.block.forwarded[i]
    ensures Advanced(w, ForwardRow(w, i, src[i], original, e), src)
  {
    if |src[i]| < MIN_IP {
      NotAdvanced(w, w, src);
    } else {
      var w' := ForwardRow(w, i, src[i], original, e);
      var d := Delivery(w.block.id, i, src[i], original, e.accepts(i, original));
      assert w'.log == w.log + [d];
      assert w'.log[|w.log|..] == [d];
      OneSend(w.block.forwarded, d, src, w.block.id);
    }
  }

  lemma OfferAdvances(w: World, w1: World, w2: World, i: nat, e: Env, src: seq<Packet>)
    requires Advanced(w, w1, src) && WellSized(w1.block) && i < |src| <= K
    requires w2 == if !w1.block.forwarded[i] then ForwardRow(w1, i, src[i], false, e) else w1
    ensures Advanced(w, w2, src)
  {
    if !w1.block.forwarded[i] {
      RowAdvances(w1, i, false, e, src);
      AdvancedChain(w, w1, w2, src);
    }
  }

  lemma {:induction false} DecodedAdvances(w: World, n: nat, e: Env, src: seq<Packet>)
    requires WellSized(w.block) && n <= |src| <= K
    ensures Advanced(w, ForwardDecoded(w, src, n, e), src)
    decreases n
  {
    if n == 0 {
      NotAdvanced(w, w, src);
    } else {
      DecodedAdvances(w, n - 1, e, src);
      OfferAdvances(w, ForwardDecoded(w, src, n - 1, e), ForwardDecoded(w, src, n, e), n - 1, e, src);
    }
  }

  lemma AfterDecodeAdvances(w: World, e: Env, src: seq<Packet>)
    requires RqCodec.ValidSource(src) && WellSized(w.block) && w.block.live && BlockOf(w.block, src, e.codec)
    ensures Advanced(w, AfterDecode(w, src, e), src)
  {
    var w2 := w.(block := w.block.(parityCounted := true), stats := CountDecode(w.stats, w.block));
    NotAdvanced(w, w2, src);
    DecodedAdvances(w2, w.block.k, e, src);
    var w3 := ForwardDecoded(w2, src, w.block.k, e);
    AdvancedChain(w, w2, w3, src);
    var w4 := w3.(block := w3.block.(decoded := true));
    NotAdvanced(w3, w4, src);
    AdvancedChain(w, w3, w4, src);
  }

  lemma DecodeAdvances(w: World, e: Env, src: seq<Packet>)
    requires EnvOk(e) && RqCodec.ValidSource(src) && RqCodec.Sound(e.codec)
    requires WellSized(w.block) && w.block.live && BlockOf(w.block, src, e.codec)
    ensures Advanced(w, TryDecode(w, e), src)
  {
    NotAdvanced(w, w, src);
    if WillAttempt(w.block) {
      var b := w.block.(attempted := true);
      var w1 := w.(block := b, stats := w.stats.(attempts := w.stats.attempts + 1));
      NotAdvanced(w, w1, src);
      var decoded := e.codec.decode(b.k, b.rows, b.esis);
      if decoded.Some? {
        assert decoded.value == src;
        AfterDecodeAdvances(w1, e, src);
        AdvancedChain(w, w1, AfterDecode(w1, src, e), src);
      }
    }
  }

  /** Forwarding and decoding, before the block is looked at for completion. */
  function Work(w: World, sym: Symbol, e: Env): (w': World)
    requires WellSized(w.block) && w.block.live && EnvOk(e) && sym.symbolLen <= |sym.payload|
    ensures WellSized(w'.block)
  {
    TryDecode(ForwardSource(w, sym, e), e)
  }

  /** Forwarding a source symbol touches the flags and totals of the record only. */
  ghost predicate OnlyForwarded(b: Block, b': Block) {
    && b'.inUse == b.inUse && b'.id == b.id && b'.live == b.live && b'.k == b.k && b'.len == b.len
    && b'.rows == b.rows && b'.room == b.room && b'.esis == b.esis
    && b'.decoded == b.decoded && b'.attempted == b.attempted && b'.parityCounted == b.parityCounted
    && b'.sources == b.sources && b'.repairs == b.repairs && b'.firstRx == b.firstRx
  }

  lemma FlagOnlyForwards(b: Block, i: nat, pkt: Packet, original: bool, now: nat)
    requires |b.forwarded| == K && i < K
    ensures OnlyForwarded(b, Flagged(b, i, pkt, original, now))
  {
  }

  lemma RowOnlyForwards(w: World, i: nat, pkt: Packet, original: bool, e: Env)
    requires WellSized(w.block) && i < K
    ensures OnlyForwarded(w.block, ForwardRow(w, i, pkt, original, e).block)
  {
    FlagOnlyForwards(w.block, i, pkt, original, e.now);
  }

  lemma SourceOnlyForwards(w: World, sym: Symbol, e: Env)
    requires WellSized(w.block) && w.block.live && sym.symbolLen <= |sym.payload|
    ensures OnlyForwarded(w.block, ForwardSource(w, sym, e).block)
  {
    if sym.isSource && sym.esi < w.block.k && !w.block.forwarded[sym.esi] {
      RowOnlyForwards(w, sym.esi, sym.payload[..sym.symbolLen], true, e);
    }
  }

  lemma SourceAdvances(w: World, sym: Symbol, e: Env, src: seq<Packet>)
    requires RqCodec.ValidSource(src) && RqCodec.Systematic(e.codec)
    requires WellSized(w.block) && w.block.live && BlockOf(w.block, src, e.codec)
    requires SymbolOf(sym, w.block.id, src, e.codec)
    ensures sym.symbolLen <= |sym.payload|
    ensures var w' := ForwardSource(w, sym, e);
      Advanced(w, w', src) && BlockOf(w'.block, src, e.codec) && OnlyForwarded(w.block, w'.block)
  {
    SourceOnlyForwards(w, sym, e);
    if sym.esi < |src| && !w.block.forwarded[sym.esi] {
      assert sym.payload[..sym.symbolLen] == src[sym.esi];
      RowAdvances(w, sym.esi, true, e, src);
    } else {
      NotAdvanced(w, w, src);
    }
  }

  lemma WorkAdvances(w: World, sym: Symbol, e: Env, src: seq<Packet>)
    requires EnvOk(e) && RqCodec.ValidSource(src) && RqCodec.Correct(e.codec)
    requires WellSized(w.block) && w.block.live && BlockOf(w.block, src, e.codec) &&
      SymbolOf(sym, w.block.id, src, e.codec)
    ensures sym.symbolLen <= |sym.payload| && Advanced(w, Work(w, sym, e), src)
  {
    SourceAdvances(w, sym, e, src);
    var w1 := ForwardSource(w, sym, e);
    DecodeAdvances(w1, e, src);
    AdvancedChain(w, w1, Work(w, sym, e), src);
  }
}
