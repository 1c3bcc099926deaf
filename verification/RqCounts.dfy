/** What the RaptorQ receiver's fragment counters count, on every stream that its buffers can take. */
module RqCounts {
  import opened Base
  import opened Deliveries
  import opened Wire
  import opened RqBlock
  import opened RqBlockLaws
  import opened RqEntry
  import opened RqTable

  /** A datagram with a whole header, of a source symbol or of a repair symbol by the flag at offset 10. */
  predicate HasHeader(x: Input, source: bool) {
    |x.buf| >= 12 && ((x.buf[10] != 0) == source)
  }

  function HeadersIn(inputs: seq<Input>, source: bool): nat {
    if |inputs| == 0 then 0
    else HeadersIn(inputs[..|inputs| - 1], source) + if HasHeader(inputs[|inputs| - 1], source) then 1 else 0
  }

  ghost predicate SameCounts(st: Stats, st': Stats) {
    && st'.dataFragments == st.dataFragments && st'.parityFragments == st.parityFragments
    && st'.generations == st.generations
  }

  lemma {:induction false} DecodedKeepsCounts(w: World, rows: seq<Packet>, n: nat, e: Env)
    requires WellSized(w.block) && n <= |rows| && n <= K
    ensures SameCounts(w.stats, ForwardDecoded(w, rows, n, e).stats)
  {
    if n == 0 {
    } else {
      DecodedKeepsCounts(w, rows, n - 1, e);
    }
  }

  lemma DecodeKeepsCounts(w: World, e: Env)
    requires WellSized(w.block) && EnvOk(e)
    ensures SameCounts(w.stats, TryDecode(w, e).stats)
  {
    if WillAttempt(w.block) {
      var b := w.block.(attempted := true);
      assert AllOfLength(b.rows, b.len);
      var rows := e.codec.decode(b.k, b.rows, b.esis);
      if rows.Some? {
        var st := w.stats.(attempts := w.stats.attempts + 1);
        DecodedKeepsCounts(w.(block := b.(parityCounted := true), stats := CountDecode(st, b)), rows.value, b.k, e);
      }
    }
  }

  lemma HandledKeepsCounts(b: Block, st: Stats, sym: Symbol, known: bool, e: Env)
    requires WellSized(b) && Orderly(b) && EnvOk(e) && Usable(sym) && StaysInBuffer(b, sym)
    ensures var w := Handled(b, st, sym, known, e);
      SameCounts(st.(generations := st.generations + if w.finished then 1 else 0), w.stats)
  {
    Outcome(b, st, sym, known, e);
    WorkKeepsCounts(World(Noted(b, sym, e), st, [], false), sym, e);
  }

  lemma WorkKeepsCounts(w: World, sym: Symbol, e: Env)
    requires WellSized(w.block) && w.block.live && EnvOk(e) && sym.symbolLen <= |sym.payload|
    ensures SameCounts(w.stats, Work(w, sym, e).stats)
  {
    DecodeKeepsCounts(ForwardSource(w, sym, e), e);
  }

  lemma DatagramCounts(rx: Receiver, x: Input, e: Env)
    requires Accepts(rx, x.buf) && EnvOk(e)
    ensures var st, st' := rx.stats, OnDatagram(rx, x.buf, With(e, x)).stats;
      && st'.dataFragments == st.dataFragments + (if HasHeader(x, true) then 1 else 0)
      && st'.parityFragments == st.parityFragments + (if HasHeader(x, false) then 1 else 0)
  {
    var parsed := ParseSymbol(x.buf);
    if parsed.Some? && Usable(parsed.value) {
      var sym := parsed.value;
      HandledKeepsCounts(rx.table[sym.blockId % MAX_BLOCKS], CountFragment(rx.stats, sym), sym, sym.blockId in rx.done,
                         With(e, x));
    }
  }

  /** Every datagram with a whole header is counted once, by its source flag, whatever else is wrong with it. */
  lemma {:induction false} FragmentsAreCounted(inputs: seq<Input>, e: Env)
    requires EnvOk(e) && Accepted(inputs, e)
    ensures Receive(inputs, e).stats.dataFragments == HeadersIn(inputs, true)
    ensures Receive(inputs, e).stats.parityFragments == HeadersIn(inputs, false)
    decreases |inputs|
  {
    if |inputs| == 0 {
      assert Receive(inputs, e) == EmptyReceiver();
    } else {
      var before, x := inputs[..|inputs| - 1], inputs[|inputs| - 1];
      assert inputs == before + [x];
      FragmentsAreCounted(before, e);
      UnfoldReceive(before, x, e);
      DatagramCounts(Receive(before, e), x, e);
    }
  }
}
