/** The receiver's symbol buffers. */
module RqRoom {
  import opened Base
  import opened Deliveries
  import opened FlatBuffer
  import opened Wire
  import opened RqBlock
  import opened RqBlockLaws
  import opened RqEntry
  import opened RqTable

  // The receiver copies as many bytes as a symbol's header says. These are the streams on which every copy ends inside
  // its block's buffer; on the others the program writes behind it, and nothing can be said about what follows.

  /** The symbol will be copied into the buffer of its open block. */
  predicate IsCopied(b: Block, sym: Symbol) {
    b.inUse && b.id == sym.blockId && b.live && |b.esis| < MAX_SYMBOLS && sym.esi !in b.esis
  }

  /** The exact condition on one symbol, in the bytes that are left behind the stored rows. */
  lemma StaysInBufferIff(b: Block, sym: Symbol)
    requires WellSized(b)
    ensures StaysInBuffer(b, sym) <==> (IsCopied(b, sym) ==> sym.symbolLen <= (MAX_SYMBOLS - |b.esis|) * b.len)
  {
    OffsetIsProduct(MAX_SYMBOLS - |b.esis|, b.len);
  }

  /** The exact condition on one datagram. */
  lemma AcceptsIff(rx: Receiver, buf: seq<Byte>)
    requires AtRest(rx)
    ensures Accepts(rx, buf) <==>
            var parsed := ParseSymbol(buf);
            parsed.Some? && Usable(parsed.value) ==>
              var b := rx.table[parsed.value.blockId % MAX_BLOCKS];
              IsCopied(b, parsed.value) ==> parsed.value.symbolLen <= (MAX_SYMBOLS - |b.esis|) * b.len
  {
    var parsed := ParseSymbol(buf);
    if parsed.Some? {
      StaysInBufferIff(rx.table[parsed.value.blockId % MAX_BLOCKS], parsed.value);
    }
  }

  // ----- a condition on streams

  predicate Carries(x: Input, id: nat) {
    var parsed := ParseSymbol(x.buf);
    parsed.Some? && Usable(parsed.value) && parsed.value.blockId == id
  }

  function LengthOf(x: Input): nat {
    match ParseSymbol(x.buf)
    case None => 0
    case Some(sym) => sym.symbolLen
  }

  ghost predicate InOrder(x: Input, y: Input) {
    forall id :: Carries(x, id) && Carries(y, id) ==> LengthOf(y) <= LengthOf(x)
  }

  /** No symbol is longer than an earlier one with its block id. */
  ghost predicate NeverLonger(inputs: seq<Input>) {
    forall i, j :: 0 <= i < j < |inputs| ==> InOrder(inputs[i], inputs[j])
  }

  /** All symbols with one block id have one length. */
  ghost predicate OneLength(inputs: seq<Input>) {
    forall i, j, id :: 0 <= i < |inputs| && 0 <= j < |inputs| && Carries(inputs[i], id) && Carries(inputs[j], id) ==>
      LengthOf(inputs[i]) == LengthOf(inputs[j])
  }

  /** An open record has the length of some symbol with its id. */
  ghost predicate LengthIsSeen(b: Block, inputs: seq<Input>) {
    b.inUse && b.live ==> exists n :: 0 <= n < |inputs| && Carries(inputs[n], b.id) && LengthOf(inputs[n]) == b.len
  }

  lemma SeenRemains(b: Block, before: seq<Input>, x: Input)
    requires LengthIsSeen(b, before)
    ensures LengthIsSeen(b, before + [x])
  {
    if b.inUse && b.live {
      var n :| 0 <= n < |before| && Carries(before[n], b.id) && LengthOf(before[n]) == b.len;
      assert (before + [x])[n] == before[n];
    }
  }

  ghost predicate SameHeader(b: Block, b': Block) {
    b'.inUse == b.inUse && b'.id == b.id && b'.len == b.len
  }

  lemma WorkKeepsHeader(w: World, sym: Symbol, e: Env)
    requires WellSized(w.block) && w.block.live && EnvOk(e) && sym.symbolLen <= |sym.payload|
    ensures SameHeader(w.block, Work(w, sym, e).block)
  {
    SourceOnlyForwards(w, sym, e);
    DecodeKeepsHeader(ForwardSource(w, sym, e), e);
  }

  /** A symbol finds a record of its own block's length, or gives its length to a new one. */
  lemma NotedHeader(b: Block, sym: Symbol, e: Env)
    requires WellSized(b) && Orderly(b) && EnvOk(e) && Usable(sym) && StaysInBuffer(b, sym)
    ensures var b' := Noted(b, sym, e);
      && b'.inUse && b'.id == sym.blockId
      && b'.len == if b.inUse && b.id == sym.blockId && b.live then b.len else sym.symbolLen
  {
  }

  lemma HandledLength(b: Block, st: Stats, sym: Symbol, known: bool, e: Env)
    requires WellSized(b) && Orderly(b) && EnvOk(e) && Usable(sym) && StaysInBuffer(b, sym)
    ensures var b' := Handled(b, st, sym, known, e).block; b'.inUse ==> SameHeader(Noted(b, sym, e), b')
  {
    Outcome(b, st, sym, known, e);
    WorkKeepsHeader(World(Noted(b, sym, e), st, [], false), sym, e);
  }

  lemma {:induction false} RecordsHaveSeenLengths(inputs: seq<Input>, e: Env, k: nat)
    requires EnvOk(e) && Accepted(inputs, e) && k < MAX_BLOCKS
    ensures LengthIsSeen(Receive(inputs, e).table[k], inputs)
    decreases |inputs|
  {
    if |inputs| == 0 {
      assert Receive(inputs, e).table[k] == BlankBlock();
    } else {
      var before, x := inputs[..|inputs| - 1], inputs[|inputs| - 1];
      assert inputs == before + [x];
      RecordsHaveSeenLengths(before, e, k);
      UnfoldReceive(before, x, e);
      StepHasSeenLengths(Receive(before, e), before, x, e, k);
    }
  }

  lemma StepHasSeenLengths(rx: Receiver, before: seq<Input>, x: Input, e: Env, k: nat)
    requires EnvOk(e) && Accepts(rx, x.buf) && k < MAX_BLOCKS && LengthIsSeen(rx.table[k], before)
    ensures LengthIsSeen(OnDatagram(rx, x.buf, With(e, x)).table[k], before + [x])
  {
    SeenRemains(rx.table[k], before, x);
    var parsed := ParseSymbol(x.buf);
    if parsed.Some? && Usable(parsed.value) && parsed.value.blockId % MAX_BLOCKS == k {
      var sym := parsed.value;
      NotedHeader(rx.table[k], sym, With(e, x));
      HandledLength(rx.table[k], CountFragment(rx.stats, sym), sym, sym.blockId in rx.done, With(e, x));
      assert Carries((before + [x])[|before|], sym.blockId);
    }
  }

  /** Every stream in which no symbol is longer than an earlier one with its block id stays inside the buffers, whether
      its symbols are genuine or not. */
  lemma {:induction false} NeverLongerIsAccepted(inputs: seq<Input>, e: Env)
    requires EnvOk(e) && NeverLonger(inputs)
    ensures Accepted(inputs, e)
    decreases |inputs|
  {
    if |inputs| == 0 {
    } else {
      var before, x := inputs[..|inputs| - 1], inputs[|inputs| - 1];
      NeverLongerIsAccepted(before, e);
      var parsed := ParseSymbol(x.buf);
      if parsed.Some? && Usable(parsed.value) {
        var k := parsed.value.blockId % MAX_BLOCKS;
        RecordsHaveSeenLengths(before, e, k);
        ShorterStaysInBuffer(Receive(before, e).table[k], before, x);
      }
    }
  }

  lemma ShorterStaysInBuffer(b: Block, before: seq<Input>, x: Input)
    requires WellSized(b) && LengthIsSeen(b, before) && forall n :: 0 <= n < |before| ==> InOrder(before[n], x)
    requires ParseSymbol(x.buf).Some? && Usable(ParseSymbol(x.buf).value)
    ensures StaysInBuffer(b, ParseSymbol(x.buf).value)
  {
    var sym := ParseSymbol(x.buf).value;
    if IsCopied(b, sym) {
      var n :| 0 <= n < |before| && Carries(before[n], b.id) && LengthOf(before[n]) == b.len;
      assert InOrder(before[n], x) && Carries(x, b.id);
    }
  }

  lemma OneLengthIsAccepted(inputs: seq<Input>, e: Env)
    requires EnvOk(e) && OneLength(inputs)
    ensures Accepted(inputs, e)
  {
    forall i, j | 0 <= i < j < |inputs|
      ensures InOrder(inputs[i], inputs[j])
    {
    }
    NeverLongerIsAccepted(inputs, e);
  }

  // ----- a stream on which it is not so

  /** A repair symbol of one byte, and one of a thousand with the same block id. */
  function TooLong(len: nat, esi: nat): Symbol {
    Symbol.Symbol(1, K, esi, len, false, Repeat<Byte>(0, len))
  }

  lemma {:induction false} ShortRowsStay(w: World, rows: seq<Packet>, n: nat, e: Env)
    requires WellSized(w.block) && n <= |rows| && n <= K && AllOfLength(rows, 1)
    ensures ForwardDecoded(w, rows, n, e) == w
  {
    if n == 0 {
    } else {
      ShortRowsStay(w, rows, n - 1, e);
    }
  }

  lemma ShortDecodeStays(w: World, e: Env)
    requires WellSized(w.block) && EnvOk(e) && w.block.len == 1
    ensures var b, b' := w.block, TryDecode(w, e).block;
      SameHeader(b, b') && b'.live == b.live && b'.esis == b.esis && b'.forwarded == b.forwarded
  {
    if WillAttempt(w.block) {
      var b := w.block.(attempted := true);
      assert AllOfLength(b.rows, 1);
      var rows := e.codec.decode(b.k, b.rows, b.esis);
      if rows.Some? {
        var w1 := w.(block := b, stats := w.stats.(attempts := w.stats.attempts + 1));
        ShortRowsStay(w1.(block := b.(parityCounted := true), stats := CountDecode(w1.stats, b)), rows.value, b.k, e);
      }
    }
  }

  /** After the first of them the block's buffer has room for 39 bytes. */
  lemma FirstOpens(st: Stats, e: Env)
    requires EnvOk(e)
    ensures var b := Handled(BlankBlock(), st, TooLong(1, 100), false, e).block;
      b.inUse && b.id == 1 && b.live && b.len == 1 && b.esis == [100]
  {
    var sym := TooLong(1, 100);
    Outcome(BlankBlock(), st, sym, false, e);
    var b := Noted(BlankBlock(), sym, e);
    var w := World(b, st, [], false);
    assert b.esis == [100] && b.len == 1 && b.forwarded == NoFlags();
    assert ForwardSource(w, sym, e) == w;
    ShortDecodeStays(w, e);
    assert !Work(w, sym, e).block.forwarded[0];
  }

  /** A receiver that has an open block 1 with one stored row of one byte. */
  ghost predicate HoldsShortRow(rx: Receiver) {
    AtRest(rx) && var b := rx.table[1]; b.inUse && b.id == 1 && b.live && b.len == 1 && b.esis == [100]
  }

  lemma FirstIsHeld(x: Input, e: Env) returns (rx: Receiver)
    requires EnvOk(e) && ParseSymbol(x.buf) == Some(TooLong(1, 100))
    ensures Accepts(EmptyReceiver(), x.buf) && rx == OnDatagram(EmptyReceiver(), x.buf, With(e, x)) && HoldsShortRow(rx)
  {
    EmptyIsAtRest();
    FirstOpens(CountFragment(NoStats(), TooLong(1, 100)), With(e, x));
    DatagramKeepsRest(EmptyReceiver(), x.buf, With(e, x));
    rx := OnDatagram(EmptyReceiver(), x.buf, With(e, x));
  }

  lemma FirstIsAccepted(t: seq<Input>, x: Input, e: Env) returns (rx: Receiver)
    requires EnvOk(e) && ParseSymbol(x.buf) == Some(TooLong(1, 100)) && t == [] + [x]
    ensures Accepted(t, e) && rx == Receive(t, e) && HoldsShortRow(rx)
  {
    rx := FirstIsHeld(x, e);
    UnfoldReceive([], x, e);
  }

  lemma LongDoesNotFit(rx: Receiver, y: Input)
    requires HoldsShortRow(rx) && ParseSymbol(y.buf) == Some(TooLong(1000, 101))
    ensures !Accepts(rx, y.buf)
  {
    StaysInBufferIff(rx.table[1], TooLong(1000, 101));
  }

  lemma RefusedAfter(before: seq<Input>, after: seq<Input>, y: Input, e: Env)
    requires EnvOk(e) && after == before + [y] && Accepted(before, e) && !Accepts(Receive(before, e), y.buf)
    ensures !Accepted(after, e)
  {
    assert after[..|after| - 1] == before;
  }

  lemma OneTwo(x: Input, y: Input) returns (t: seq<Input>, t': seq<Input>)
    ensures t == [x] && t' == [x, y]
    ensures t == [] + [x] && t' == t + [y]
  {
    t, t' := [x], [x, y];
  }

  /** A stream of two datagrams with sound headers, the second of which does not fit behind the first. */
  lemma SecondDoesNotFit(x: Input, y: Input, e: Env) returns (t: seq<Input>, t': seq<Input>)
    requires EnvOk(e)
    requires ParseSymbol(x.buf) == Some(TooLong(1, 100)) && ParseSymbol(y.buf) == Some(TooLong(1000, 101))
    ensures t == [x] && t' == [x, y] && Accepted(t, e) && !Accepted(t', e)
  {
    t, t' := OneTwo(x, y);
    var rx := FirstIsAccepted(t, x, e);
    LongDoesNotFit(rx, y);
    RefusedAfter(t, t', y, e);
  }

  lemma DatagramOf(sym: Symbol) returns (x: Input)
    requires SendableSymbol(sym)
    ensures ParseSymbol(x.buf) == Some(sym)
  {
    SymbolRoundTrip(sym);
    x := Input(SerializeSymbol(sym), 1, (i, original) => true);
  }

  lemma SuchDatagramsExist() returns (x: Input, y: Input)
    ensures ParseSymbol(x.buf) == Some(TooLong(1, 100)) && ParseSymbol(y.buf) == Some(TooLong(1000, 101))
  {
    x := DatagramOf(TooLong(1, 100));
    y := DatagramOf(TooLong(1000, 101));
  }
}
